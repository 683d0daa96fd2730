/** Volume aggregation over a window of trades: per-wallet totals, ranked shares, their
    concentration index, and the volume-weighted price. */
module Concentration {
  import opened StringOrder
  import opened Sums

  datatype Trade = Trade(wallet: string, volume: real, price: real)

  ghost predicate Sound(trades: seq<Trade>) {
    forall i :: 0 <= i < |trades| ==> trades[i].volume >= 0.0 && trades[i].price > 0.0
  }

  function Volume(trades: seq<Trade>): real {
    if trades == [] then 0.0 else Volume(trades[..|trades| - 1]) + trades[|trades| - 1].volume
  }

  // ---------------------------------------------------------------------------
  // Per-wallet totals.

  function Credited(m: map<string, real>, t: Trade): map<string, real> {
    m[t.wallet := (if t.wallet in m then m[t.wallet] else 0.0) + t.volume]
  }

  function PerWallet(trades: seq<Trade>): map<string, real> {
    if trades == [] then map[] else Credited(PerWallet(trades[..|trades| - 1]), trades[|trades| - 1])
  }

  /** The accumulation loop of the snapshot. */
  method Aggregate(trades: seq<Trade>) returns (volumes: map<string, real>)
    ensures volumes == PerWallet(trades)
  {
    volumes := map[];
    for i := 0 to |trades|
      invariant volumes == PerWallet(trades[..i])
    {
      assert trades[..i + 1][..i] == trades[..i];
      var t := trades[i];
      volumes := volumes[t.wallet := (if t.wallet in volumes then volumes[t.wallet] else 0.0) + t.volume];
    }
    assert trades[..|trades|] == trades;
  }

  /** Aggregation conserves volume, names exactly the wallets that traded, and never goes
      negative. */
  lemma {:induction false} AggregationConserves(trades: seq<Trade>)
    requires Sound(trades)
    ensures Total(PerWallet(trades)) == Volume(trades)
    ensures forall w :: w in PerWallet(trades) <==> exists i :: 0 <= i < |trades| && trades[i].wallet == w
    ensures forall w :: w in PerWallet(trades) ==> PerWallet(trades)[w] >= 0.0
  {
    if trades != [] {
      var front, last := trades[..|trades| - 1], trades[|trades| - 1];
      AggregationConserves(front);
      var m := PerWallet(front);
      TotalUpdate(m, last.wallet, Credited(m, last)[last.wallet]);
      forall w | w in PerWallet(trades) ensures exists i :: 0 <= i < |trades| && trades[i].wallet == w {
        if w in m {
          var i :| 0 <= i < |front| && front[i].wallet == w;
          assert trades[i].wallet == w;
        } else {
          assert trades[|trades| - 1].wallet == w;
        }
      }
      forall i | 0 <= i < |trades| ensures trades[i].wallet in PerWallet(trades) {
        if i < |front| { assert front[i].wallet in m; }
      }
    }
  }

  // ---------------------------------------------------------------------------
  // Ranking: `sorted(values, reverse=True)`.

  predicate Descending(s: seq<real>) {
    forall i, j :: 0 <= i < j < |s| ==> s[i] >= s[j]
  }

  function Place(s: seq<real>, x: real): seq<real> {
    if s == [] || x >= s[0] then [x] + s else [s[0]] + Place(s[1..], x)
  }

  function Ranking(wallets: seq<string>, m: map<string, real>): seq<real>
    requires forall w :: w in wallets ==> w in m
  {
    if wallets == [] then [] else Place(Ranking(wallets[1..], m), m[wallets[0]])
  }

  function Ranked(m: map<string, real>): seq<real> {
    Ranking(Sorted(m.Keys), m)
  }

  function SumFront(s: seq<real>): real {
    if s == [] then 0.0 else s[0] + SumFront(s[1..])
  }

  lemma {:induction false} PlaceKeepsOrder(s: seq<real>, x: real)
    requires Descending(s)
    ensures Descending(Place(s, x)) && |Place(s, x)| == |s| + 1
    ensures SumFront(Place(s, x)) == SumFront(s) + x
    ensures forall y :: y in Place(s, x) <==> y == x || y in s
  {
    if s != [] && x < s[0] {
      PlaceKeepsOrder(s[1..], x);
      var rest := Place(s[1..], x);
      assert ([s[0]] + rest)[1..] == rest;
      assert s == [s[0]] + s[1..];
      forall i, j | 0 <= i < j < |Place(s, x)| ensures Place(s, x)[i] >= Place(s, x)[j] {
        if i == 0 { assert Place(s, x)[j] in rest; }
      }
    } else {
      assert ([x] + s)[1..] == s;
    }
  }

  lemma {:induction false} RankingOrders(wallets: seq<string>, m: map<string, real>)
    requires StrictlySorted(wallets) && forall w :: w in wallets ==> w in m
    ensures Descending(Ranking(wallets, m)) && |Ranking(wallets, m)| == |wallets|
    ensures (set w | w in wallets) <= m.Keys
    ensures SumFront(Ranking(wallets, m)) == SumOver((set w | w in wallets), m)
    ensures forall y :: y in Ranking(wallets, m) ==> exists w :: w in wallets && m[w] == y
  {
    if wallets == [] {
      assert (set w | w in wallets) == {};
    } else {
      var first, rest := wallets[0], wallets[1..];
      RankingOrders(rest, m);
      PlaceKeepsOrder(Ranking(rest, m), m[first]);
      var all := set w | w in wallets;
      assert first in wallets;
      assert first !in rest by {
        Irreflexive(first);
      }
      SumRemove(all, m, first);
      assert all - {first} == set w | w in rest;
      forall y | y in Ranking(wallets, m) ensures exists w :: w in wallets && m[w] == y {
        if y != m[first] {
          var w :| w in rest && m[w] == y;
          assert w in wallets;
        } else {
          assert first in wallets && m[first] == y;
        }
      }
    }
  }

  lemma {:induction false} SortedCount(s: set<string>)
    ensures |Sorted(s)| == |s|
    decreases |s|
  {
    if s != {} {
      var m := Least(s);
      SortedCount(s - {m});
    }
  }

  /** The ranked volumes are the wallet totals in descending order. */
  lemma RankedIsOrdered(m: map<string, real>)
    ensures Descending(Ranked(m)) && |Ranked(m)| == |m| && SumFront(Ranked(m)) == Total(m)
    ensures forall i :: 0 <= i < |Ranked(m)| ==> exists w :: w in m && m[w] == Ranked(m)[i]
  {
    hide Sorted;
    RankingOrders(Sorted(m.Keys), m);
    SortedCount(m.Keys);
    assert (set w | w in Sorted(m.Keys)) == m.Keys;
    forall i | 0 <= i < |Ranked(m)| ensures exists w :: w in m && m[w] == Ranked(m)[i] {
      assert Ranked(m)[i] in Ranking(Sorted(m.Keys), m);
      var w :| w in Sorted(m.Keys) && m[w] == Ranked(m)[i];
      assert w in m;
    }
  }

  lemma {:induction false} PlaceAt(s: seq<real>, x: real) returns (k: nat)
    ensures k <= |s| && Place(s, x) == s[..k] + [x] + s[k..]
  {
    k := 0;
    if s != [] && x < s[0] {
      var j := PlaceAt(s[1..], x);
      k := j + 1;
      assert s[..k] == [s[0]] + s[1..][..j] && s[k..] == s[1..][j..];
    }
  }

  /** `order` names every wallet once. */
  ghost predicate Lists(order: seq<string>, wallets: set<string>) {
    (forall w :: w in order <==> w in wallets) && forall i, j :: 0 <= i < j < |order| ==> order[i] != order[j]
  }

  ghost predicate RankedBy(ranked: seq<real>, order: seq<string>, m: map<string, real>) {
    |ranked| == |order| && forall i :: 0 <= i < |order| ==> order[i] in m && m[order[i]] == ranked[i]
  }

  lemma InsertLists(tail: seq<string>, first: string, k: nat, wallets: set<string>)
    requires Lists(tail, wallets) && first !in wallets && k <= |tail|
    ensures Lists(tail[..k] + [first] + tail[k..], wallets + {first})
  {
    var order := tail[..k] + [first] + tail[k..];
    assert tail == tail[..k] + tail[k..];
    forall i, j | 0 <= i < j < |order| ensures order[i] != order[j] {
      if i == k {
        assert order[j] == tail[j - 1] && tail[j - 1] in tail;
      } else if j == k {
        assert order[i] == tail[i] && tail[i] in tail;
      } else {
        assert order[i] == tail[if i < k then i else i - 1] && order[j] == tail[if j < k then j else j - 1];
      }
    }
  }

  lemma InsertRanked(ranked: seq<real>, tail: seq<string>, first: string, k: nat, m: map<string, real>)
    requires RankedBy(ranked, tail, m) && first in m && k <= |tail|
    ensures RankedBy(ranked[..k] + [m[first]] + ranked[k..], tail[..k] + [first] + tail[k..], m)
  {
  }

  lemma {:induction false} RankingNames(wallets: seq<string>, m: map<string, real>) returns (order: seq<string>)
    requires (forall w :: w in wallets ==> w in m) && forall i, j :: 0 <= i < j < |wallets| ==> wallets[i] != wallets[j]
    ensures RankedBy(Ranking(wallets, m), order, m) && Lists(order, set w | w in wallets)
  {
    hide Lists, RankedBy, Place;
    if wallets == [] {
      order := [];
      NoNames(m);
      assert (set w | w in wallets) == {};
    } else {
      var first, rest := wallets[0], wallets[1..];
      var tail := RankingNames(rest, m);
      var k := PlaceAt(Ranking(rest, m), m[first]);
      SameLength(Ranking(rest, m), tail, m);
      order := tail[..k] + [first] + tail[k..];
      assert (set w | w in wallets) == (set w | w in rest) + {first};
      InsertLists(tail, first, k, set w | w in rest);
      InsertRanked(Ranking(rest, m), tail, first, k, m);
    }
  }

  lemma NoNames(m: map<string, real>)
    ensures RankedBy([], [], m) && Lists([], {})
  {
  }

  lemma SameLength(ranked: seq<real>, order: seq<string>, m: map<string, real>)
    requires RankedBy(ranked, order, m)
    ensures |ranked| == |order|
  {
  }

  /** The ranking is the list of all wallet totals, one per wallet. */
  lemma RankedNames(m: map<string, real>) returns (order: seq<string>)
    ensures RankedBy(Ranked(m), order, m) && Lists(order, m.Keys)
  {
    hide Ranking, Sorted;
    var wallets := Sorted(m.Keys);
    forall i, j | 0 <= i < j < |wallets| ensures wallets[i] != wallets[j] { Irreflexive(wallets[i]); }
    order := RankingNames(wallets, m);
  }

  // ---------------------------------------------------------------------------
  // Shares and the concentration index.

  function Shares(volumes: seq<real>, total: real): seq<real>
    requires total > 0.0
  {
    seq(|volumes|, i requires 0 <= i < |volumes| => volumes[i] / total)
  }

  function Squares(s: seq<real>): real {
    if s == [] then 0.0 else s[0] * s[0] + Squares(s[1..])
  }

  function TopFive(s: seq<real>): real {
    SumFront(if |s| <= 5 then s else s[..5])
  }

  ghost predicate NotNegative(s: seq<real>) {
    forall i :: 0 <= i < |s| ==> s[i] >= 0.0
  }

  lemma {:induction false} SharesSum(volumes: seq<real>, total: real)
    requires total > 0.0
    ensures SumFront(Shares(volumes, total)) == SumFront(volumes) / total
  {
    if volumes != [] {
      SharesSum(volumes[1..], total);
      assert Shares(volumes, total)[1..] == Shares(volumes[1..], total);
      AddFractions(volumes[0], SumFront(volumes[1..]), total);
    }
  }

  lemma AddFractions(a: real, b: real, t: real)
    requires t > 0.0
    ensures a / t + b / t == (a + b) / t
  {
    var x, y := a / t, b / t;
    assert (x + y) * t == a + b;
  }

  lemma DivideOrder(a: real, b: real, t: real)
    requires t > 0.0 && a >= b
    ensures a / t >= b / t
  {
    var x, y := a / t, b / t;
    assert (x - y) * t == a - b;
    if x < y { ProductNegative(y - x, t); }
  }

  lemma ProductNegative(a: real, b: real)
    requires a > 0.0 && b > 0.0
    ensures a * b > 0.0 && -a * b < 0.0
  {
  }

  /** The index is at most the largest share times the sum of shares. */
  lemma {:induction false} SquaresAtMost(s: seq<real>, top: real)
    requires NotNegative(s) && forall i :: 0 <= i < |s| ==> s[i] <= top
    ensures Squares(s) <= top * SumFront(s)
  {
    if s != [] {
      SquaresAtMost(s[1..], top);
      ProductNotNegative(s[0], top - s[0]);
      assert s[0] * (top - s[0]) == s[0] * top - s[0] * s[0];
      assert top * SumFront(s) == top * s[0] + top * SumFront(s[1..]);
    }
  }

  /** The sum of squared deviations from `m`, which is not negative, expands to this. */
  lemma {:induction false} SquaresAtLeast(s: seq<real>, m: real)
    ensures Squares(s) - 2.0 * m * SumFront(s) + |s| as real * m * m >= 0.0
  {
    if s != [] {
      var rest := s[1..];
      SquaresAtLeast(rest, m);
      var d := s[0] - m;
      assert d * d >= 0.0;
      assert d * d == s[0] * s[0] - 2.0 * m * s[0] + m * m;
      assert 2.0 * m * SumFront(s) == 2.0 * m * s[0] + 2.0 * m * SumFront(rest);
      assert |s| as real * m * m == m * m + |rest| as real * m * m;
    }
  }

  lemma {:induction false} PrefixSum(s: seq<real>, k: nat)
    requires NotNegative(s) && k <= |s|
    ensures 0.0 <= SumFront(s[..k]) <= SumFront(s)
    ensures k >= 1 ==> s[0] <= SumFront(s[..k])
  {
    if k > 0 {
      PrefixSum(s[1..], k - 1);
      assert s[..k][1..] == s[1..][..k - 1];
    } else if s != [] {
      PrefixSum(s[1..], 0);
    }
  }

  /** For any window of buys with positive volume and n distinct buyers:
      1/n <= concentration index <= largest share <= five largest shares <= 1. */
  lemma ConcentrationBounds(trades: seq<Trade>)
    requires Sound(trades) && Volume(trades) > 0.0
    ensures var n := |PerWallet(trades)|;
            var shares := Shares(Ranked(PerWallet(trades)), Volume(trades));
            n > 0 && |shares| == n
            && 1.0 / n as real <= Squares(shares) <= shares[0] <= TopFive(shares) <= 1.0
  {
    hide PerWallet, Volume, Ranked, Squares, SumFront;
    var m, total := PerWallet(trades), Volume(trades);
    AggregationConserves(trades);
    RankedIsOrdered(m);
    var ranked := Ranked(m);
    var shares := Shares(ranked, total);
    SharesSum(ranked, total);
    assert total / total == 1.0;
    if |m| == 0 { EmptyRanking(ranked); }
    forall i | 0 <= i < |shares| ensures 0.0 <= shares[i] <= shares[0] {
      DivideOrder(ranked[i], 0.0, total);
      assert 0.0 / total == 0.0;
      DivideOrder(ranked[0], ranked[i], total);
    }
    ShareBounds(shares);
  }

  lemma EmptyRanking(s: seq<real>)
    requires |s| == 0
    ensures SumFront(s) == 0.0
  {
  }

  lemma ShareBounds(shares: seq<real>)
    requires shares != [] && SumFront(shares) == 1.0
    requires forall i :: 0 <= i < |shares| ==> 0.0 <= shares[i] <= shares[0]
    ensures 1.0 / |shares| as real <= Squares(shares) <= shares[0] <= TopFive(shares) <= 1.0
  {
    hide Squares, SumFront;
    var n := |shares| as real;
    SquaresAtMost(shares, shares[0]);
    SquaresAtLeast(shares, 1.0 / n);
    assert n * (1.0 / n) == 1.0;
    assert n * (1.0 / n) * (1.0 / n) == 1.0 / n;
    PrefixSum(shares, if |shares| <= 5 then |shares| else 5);
    assert shares[..|shares|] == shares;
  }

  // ---------------------------------------------------------------------------
  // The volume-weighted price.

  function Turnover(trades: seq<Trade>): real {
    if trades == [] then 0.0
    else Turnover(trades[..|trades| - 1]) + trades[|trades| - 1].price * trades[|trades| - 1].volume
  }

  function Vwap(trades: seq<Trade>): real {
    if Volume(trades) <= 0.0 then 0.0 else Turnover(trades) / Volume(trades)
  }

  lemma {:induction false} TurnoverBounds(trades: seq<Trade>, low: real, high: real)
    requires Sound(trades) && forall i :: 0 <= i < |trades| ==> low <= trades[i].price <= high
    ensures low * Volume(trades) <= Turnover(trades) <= high * Volume(trades)
    ensures Volume(trades) >= 0.0
  {
    hide Volume, Turnover;
    SumsUnfold(trades);
    if trades != [] {
      var front, last := trades[..|trades| - 1], trades[|trades| - 1];
      TurnoverBounds(front, low, high);
      OneMoreTrade(Volume(front), Turnover(front), last.volume, last.price, low, high);
    }
  }

  lemma SumsUnfold(trades: seq<Trade>)
    ensures trades == [] ==> Volume(trades) == 0.0 == Turnover(trades)
    ensures trades != [] ==>
              var front, last := trades[..|trades| - 1], trades[|trades| - 1];
              Volume(trades) == Volume(front) + last.volume
              && Turnover(trades) == Turnover(front) + last.price * last.volume
  {
  }

  lemma OneMoreTrade(volume: real, turnover: real, v: real, price: real, low: real, high: real)
    requires low * volume <= turnover <= high * volume && v >= 0.0 && low <= price <= high
    ensures low * (volume + v) <= turnover + price * v <= high * (volume + v)
  {
    ProductNotNegative(price - low, v);
    ProductNotNegative(high - price, v);
  }

  /** The weighted price of a window with volume lies between its lowest and highest price. */
  lemma VwapWithinPrices(trades: seq<Trade>, low: real, high: real)
    requires Sound(trades) && Volume(trades) > 0.0
    requires forall i :: 0 <= i < |trades| ==> low <= trades[i].price <= high
    ensures low <= Vwap(trades) <= high
  {
    hide Volume, Turnover;
    TurnoverBounds(trades, low, high);
    var v, t := Volume(trades), Turnover(trades);
    DivideOrder(t, low * v, v);
    DivideOrder(high * v, t, v);
    assert low * v / v == low && high * v / v == high;
  }
}
