/** Maximum drawdown in one pass, against its definition over all pairs of moments. */
module Drawdown {
  import opened Sums

  function Fall(from: real, to: real): real
    requires from > 0.0
  {
    (from - to) / from
  }

  /** `d` is the largest relative fall from a positive equity to a later one, zero if there
      is none. */
  ghost predicate IsMaxDrawdown(path: seq<real>, d: real) {
    d >= 0.0
    && (forall i, j :: 0 <= i <= j < |path| && path[i] > 0.0 ==> Fall(path[i], path[j]) <= d)
    && (d == 0.0 || exists i, j :: 0 <= i <= j < |path| && path[i] > 0.0 && Fall(path[i], path[j]) == d)
  }

  /** `i` is where the equity peaked, up to moment `j`. */
  ghost predicate IsHighest(path: seq<real>, i: nat, j: nat)
    requires i <= j < |path|
  {
    path[i] > 0.0 && forall k :: 0 <= k <= j ==> path[k] <= path[i]
  }

  /** `d` is the largest relative fall from a running peak, zero if there is none. */
  ghost predicate IsPeakDrawdown(path: seq<real>, d: real) {
    d >= 0.0
    && (forall i, j :: 0 <= i <= j < |path| && IsHighest(path, i, j) ==> Fall(path[i], path[j]) <= d)
    && (d == 0.0 || exists i, j :: 0 <= i <= j < |path| && IsHighest(path, i, j) && Fall(path[i], path[j]) == d)
  }

  /** From a higher start the relative fall is at least as large. */
  lemma HigherStartFallsFurther(low: real, high: real, to: real)
    requires 0.0 < low <= high && to >= 0.0
    ensures Fall(low, to) <= Fall(high, to)
  {
    var a, b := to / low, to / high;
    assert Fall(low, to) == 1.0 - a by { OneMinus(low, to); }
    assert Fall(high, to) == 1.0 - b by { OneMinus(high, to); }
    assert a * low == to && b * high == to;
    assert b * (high - low) == (a - b) * low;
    ProductNotNegative(b, high - low);
    if a < b { StrictProduct(b - a, low); }
  }

  lemma OneMinus(from: real, to: real)
    requires from > 0.0
    ensures Fall(from, to) == 1.0 - to / from
  {
    var q := to / from;
    assert (1.0 - q) * from == from - to;
    Quotient(1.0 - q, from - to, from);
  }

  lemma Quotient(x: real, a: real, b: real)
    requires b > 0.0 && x * b == a
    ensures x == a / b
  {
    var y := a / b;
    assert (x - y) * b == 0.0;
  }

  lemma StrictProduct(a: real, b: real)
    requires a > 0.0 && b > 0.0
    ensures a * b > 0.0
  {
  }

  function Max(a: real, b: real): real { if a >= b then a else b }

  // ---------------------------------------------------------------------------
  // One pass over the path.

  /** `peak` is the highest of the first `n` equities, or zero. */
  ghost predicate IsPeak(path: seq<real>, n: nat, peak: real) {
    n <= |path| && peak >= 0.0
    && (forall i :: 0 <= i < n ==> path[i] <= peak)
    && (peak == 0.0 || exists i :: 0 <= i < n && path[i] == peak)
  }

  lemma PeakGrows(path: seq<real>, n: nat, peak: real)
    requires n < |path| && IsPeak(path, n, peak)
    ensures IsPeak(path, n + 1, Max(peak, path[n]))
  {
    if peak >= path[n] && peak != 0.0 {
      var i :| 0 <= i < n && path[i] == peak;
      assert path[i] == Max(peak, path[n]);
    } else {
      assert path[n] == Max(peak, path[n]) || peak == 0.0;
    }
  }

  /** One step of the running-peak loop extends the maximum to the next moment. */
  lemma DrawdownGrows(path: seq<real>, n: nat, peak: real, d: real)
    requires n < |path| && IsPeak(path, n + 1, peak)
    requires IsPeakDrawdown(path[..n], d)
    ensures IsPeakDrawdown(path[..n + 1], if peak > 0.0 then Max(d, Fall(peak, path[n])) else d)
  {
    hide Fall;
    var before, longer := path[..n], path[..n + 1];
    var d' := if peak > 0.0 then Max(d, Fall(peak, path[n])) else d;
    forall i, j | 0 <= i <= j < |longer| && IsHighest(longer, i, j) ensures Fall(longer[i], longer[j]) <= d' {
      if j < n {
        StillHighest(path, n, i, j);
      } else {
        HighestIsPeak(path, n, i, peak);
      }
    }
    if d' != 0.0 {
      NewFallIsTaken(path, n, peak, d, d');
    }
  }

  lemma StillHighest(path: seq<real>, n: nat, i: nat, j: nat)
    requires i <= j < n < |path|
    ensures IsHighest(path[..n + 1], i, j) <==> IsHighest(path[..n], i, j)
    ensures path[..n + 1][i] == path[..n][i] && path[..n + 1][j] == path[..n][j]
  {
  }

  lemma HighestIsPeak(path: seq<real>, n: nat, i: nat, peak: real)
    requires i <= n < |path| && IsPeak(path, n + 1, peak)
    ensures IsHighest(path[..n + 1], i, n) <==> path[i] == peak && peak > 0.0
  {
  }

  lemma NewFallIsTaken(path: seq<real>, n: nat, peak: real, d: real, d': real)
    requires n < |path| && IsPeak(path, n + 1, peak) && IsPeakDrawdown(path[..n], d) && d' != 0.0
    requires d' == if peak > 0.0 then Max(d, Fall(peak, path[n])) else d
    ensures var longer := path[..n + 1];
            exists i, j :: 0 <= i <= j < |longer| && IsHighest(longer, i, j) && Fall(longer[i], longer[j]) == d'
  {
    hide Fall;
    var before, longer := path[..n], path[..n + 1];
    if d' == d {
      var i, j :| 0 <= i <= j < |before| && IsHighest(before, i, j) && Fall(before[i], before[j]) == d;
      StillHighest(path, n, i, j);
      assert Fall(longer[i], longer[j]) == d';
    } else {
      var i :| 0 <= i < n + 1 && path[i] == peak;
      HighestIsPeak(path, n, i, peak);
      assert Fall(longer[i], longer[n]) == d';
    }
  }

  /** The loop of the daily report and of the all-time figure. */
  method RunningPeak(path: seq<real>) returns (maximum: real)
    ensures IsPeakDrawdown(path, maximum)
  {
    hide IsPeakDrawdown, IsPeak;
    var peak := 0.0;
    maximum := 0.0;
    NoMoments(path);
    for n := 0 to |path|
      invariant IsPeak(path, n, peak) && IsPeakDrawdown(path[..n], maximum)
    {
      PeakGrows(path, n, peak);
      peak := Max(peak, path[n]);
      DrawdownGrows(path, n, peak, maximum);
      if peak > 0.0 {
        maximum := Max(maximum, (peak - path[n]) / peak);
      }
    }
    assert path[..|path|] == path;
  }

  lemma NoMoments(path: seq<real>)
    ensures IsPeak(path, 0, 0.0) && IsPeakDrawdown(path[..0], 0.0)
  {
  }

  /** Whether the baseline and the first mark after it are both without equity. */
  predicate StartsEmpty(path: seq<real>) {
    |path| > 1 && path[0] <= 0.0 && path[1] <= 0.0
  }

  /** The loop of the statistical evaluator, starting from the baseline mark: the same figure
      in percent, except that a path starting without equity counts as a total loss. */
  method EvaluatorDrawdown(path: seq<real>) returns (percent: real)
    requires path != []
    ensures exists d :: IsPeakDrawdown(path, d)
                        && percent == if |path| > 1 && path[0] <= 0.0 && path[1] <= 0.0
                                      then Max(100.0, 100.0 * d) else 100.0 * d
  {
    hide IsPeakDrawdown, IsPeak;
    var peak := path[0];
    percent := 0.0;
    ghost var d := 0.0;
    OneMoment(path);
    for n := 1 to |path|
      invariant IsPeak(path, n, Max(0.0, peak)) && IsPeakDrawdown(path[..n], d)
      invariant d >= 0.0 && (peak <= 0.0 ==> path[0] <= 0.0 && (n > 1 ==> path[1] <= 0.0))
      invariant n == 1 ==> peak == path[0]
      invariant percent == if StartsEmpty(path) && n > 1 then Max(100.0, 100.0 * d) else 100.0 * d
    {
      PeakGrows(path, n, Max(0.0, peak));
      peak := Max(peak, path[n]);
      DrawdownGrows(path, n, Max(0.0, peak), d);
      if peak > 0.0 {
        PeakCovers(path, n, peak);
        FallNotNegative(peak, path[n]);
        d := Max(d, Fall(peak, path[n]));
      }
      var fall := if peak <= 0.0 then 100.0 else Max(0.0, (peak - path[n]) / peak * 100.0);
      percent := Max(percent, fall);
    }
    assert path[..|path|] == path;
  }

  lemma PeakCovers(path: seq<real>, n: nat, peak: real)
    requires n < |path| && IsPeak(path, n + 1, peak)
    ensures path[n] <= peak
  {
  }

  lemma FallNotNegative(from: real, to: real)
    requires from > 0.0 && to <= from
    ensures Fall(from, to) >= 0.0
  {
    OneMinus(from, to);
    OneMinus(from, from);
    assert (from - to) / from >= 0.0;
  }

  lemma OneMoment(path: seq<real>)
    requires path != []
    ensures IsPeak(path, 1, Max(0.0, path[0])) && IsPeakDrawdown(path[..1], 0.0)
  {
    var first := path[..1];
    assert |first| == 1 && first[0] == path[0];
    forall i, j | 0 <= i <= j < |first| && IsHighest(first, i, j) ensures Fall(first[i], first[j]) <= 0.0 {
      assert Fall(path[0], path[0]) == 0.0;
    }
  }

  // ---------------------------------------------------------------------------
  // Against the definition over all pairs.

  /** The latest of the highest moments up to `j`. */
  lemma {:induction false} PeakExists(path: seq<real>, j: nat) returns (i: nat)
    requires j < |path|
    ensures i <= j && forall k :: 0 <= k <= j ==> path[k] <= path[i]
  {
    if j == 0 {
      i := 0;
    } else {
      i := PeakExists(path, j - 1);
      if path[i] <= path[j] { i := j; }
    }
  }

  /** Every fall from a positive to a negative equity is at most some fall from a peak. */
  ghost predicate PeaksFallFurthest(path: seq<real>) {
    forall i, j :: 0 <= i <= j < |path| && path[i] > 0.0 && path[j] < 0.0 ==>
      exists a, b :: 0 <= a <= b < |path| && IsHighest(path, a, b) && Fall(path[i], path[j]) <= Fall(path[a], path[b])
  }

  /** The one-pass figure never exceeds the maximum over all pairs, and equals it exactly when
      no fall into negative equity is deeper than every fall from a peak. */
  lemma OnePassIsPairwiseIff(path: seq<real>, d: real)
    requires IsPeakDrawdown(path, d)
    ensures IsMaxDrawdown(path, d) <==> PeaksFallFurthest(path)
    ensures forall e :: IsMaxDrawdown(path, e) ==> d <= e
  {
    hide Fall;
    if PeaksFallFurthest(path) {
      PairwiseFromPeaks(path, d);
    }
    if IsMaxDrawdown(path, d) {
      PeaksFromPairwise(path, d);
    }
  }

  lemma PairwiseFromPeaks(path: seq<real>, d: real)
    requires IsPeakDrawdown(path, d) && PeaksFallFurthest(path)
    ensures IsMaxDrawdown(path, d)
  {
    hide Fall;
    forall i, j | 0 <= i <= j < |path| && path[i] > 0.0 ensures Fall(path[i], path[j]) <= d {
      if path[j] >= 0.0 {
        var top := PeakExists(path, j);
        assert IsHighest(path, top, j);
        HigherStartFallsFurther(path[i], path[top], path[j]);
      }
    }
  }

  lemma PeaksFromPairwise(path: seq<real>, d: real)
    requires IsPeakDrawdown(path, d) && IsMaxDrawdown(path, d)
    ensures PeaksFallFurthest(path)
  {
    hide Fall;
    forall i, j | 0 <= i <= j < |path| && path[i] > 0.0 && path[j] < 0.0
      ensures exists a, b :: 0 <= a <= b < |path| && IsHighest(path, a, b) && Fall(path[i], path[j]) <= Fall(path[a], path[b])
    {
      FallIntoDebt(path[i], path[j]);
      var a, b :| 0 <= a <= b < |path| && IsHighest(path, a, b) && Fall(path[a], path[b]) == d;
    }
  }

  lemma FallIntoDebt(from: real, to: real)
    requires from > 0.0 && to < 0.0
    ensures Fall(from, to) > 0.0
  {
  }

  ghost predicate NotNegative(path: seq<real>) {
    forall i :: 0 <= i < |path| ==> path[i] >= 0.0
  }

  /** On every path of non-negative equity the one-pass figure is the maximum over all pairs. */
  lemma OnePassIsPairwise(path: seq<real>, d: real)
    requires NotNegative(path) && IsPeakDrawdown(path, d)
    ensures forall e :: IsMaxDrawdown(path, e) <==> e == d
  {
    OnePassIsPairwiseIff(path, d);
  }

  /** With negative equity it can miss the maximum: on 1, 2, -2 it gives 2, while the fall
      from 1 to -2 is 3. */
  lemma NegativeEquityBreaksIt()
    ensures var path := [1.0, 2.0, -2.0]; IsPeakDrawdown(path, 2.0) && !IsMaxDrawdown(path, 2.0)
  {
    var path := [1.0, 2.0, -2.0];
    assert Fall(path[0], path[2]) == 3.0;
    assert IsHighest(path, 1, 2) && Fall(path[1], path[2]) == 2.0;
    assert IsHighest(path, 0, 0) && Fall(path[0], path[0]) == 0.0 && Fall(path[1], path[1]) == 0.0;
  }
}
