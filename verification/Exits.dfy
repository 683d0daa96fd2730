/** The exit rules: after a partial close the same market gives the same verdict, and a
    second profit target sells the intended amount. */
module Exits {
  import opened Options
  import opened Sums
  import L = Ledger

  const SECOND := 1_000_000

  datatype Verdict = NoExit | TakeProfit1 | TakeProfit2 | StopLoss | TrailingStop | MomentumExit | TimeStop | Emergency

  datatype Decision = Decision(verdict: Verdict, pnl: real, gain: real, fraction: real)

  datatype Policy = Policy(
    tp1Return: real, tp1Size: real, tp2Return: real, tp2SizeOfInitial: real, stopLossReturn: real,
    trailingStop: real, maxHoldSeconds: Option<int>, noNewHighSeconds: Option<int>)

  datatype Market = Market(price: real, now: int, momentumExit: bool, emergencyExit: bool)

  function Clamp(x: real): real {
    if x < 0.0 then 0.0 else if x > 1.0 then 1.0 else x
  }

  /** Whole seconds, truncated toward zero. */
  function WholeSeconds(micros: int): int {
    if micros >= 0 then micros / SECOND else -((-micros) / SECOND)
  }

  function Tp2Fraction(p: L.Position, policy: Policy): real {
    var remaining := if p.entryTokens > 0.0 then p.tokens / p.entryTokens else 1.0;
    Clamp(policy.tp2SizeOfInitial / L.Max(remaining, 0.00000001))
  }

  function TrailingFloor(p: L.Position, policy: Policy): real {
    L.Max(p.cost, Below(ExecutableHigh(p), policy.trailingStop))
  }

  predicate Overdue(start: Option<int>, limit: Option<int>, now: int) {
    start.Some? && limit.Some? && WholeSeconds(now - start.value) >= limit.value
  }

  /** Whether the value has fallen to the trailing floor, once the first target is taken. */
  predicate TrailingHit(p: L.Position, price: real, policy: Policy) {
    (p.highValue > 0.0 || p.peakUnrealized > 0.0) && p.tokens * price <= TrailingFloor(p, policy)
  }

  /** The cascade of exit rules, first match wins. */
  function Judge(gain: real, tp1Taken: bool, tp2Taken: bool, trailing: bool, openedAt: int,
                 lastNewHighAt: Option<int>, m: Market, policy: Policy): Verdict {
    if m.emergencyExit then Emergency
    else if gain <= policy.stopLossReturn then StopLoss
    else if !tp1Taken && gain >= policy.tp1Return then TakeProfit1
    else if tp1Taken && !tp2Taken && gain >= policy.tp2Return then TakeProfit2
    else if tp1Taken && trailing then TrailingStop
    else if m.momentumExit then MomentumExit
    else if Overdue(Some(openedAt), policy.maxHoldSeconds, m.now) then TimeStop
    else if Overdue(lastNewHighAt, policy.noNewHighSeconds, m.now) then TimeStop
    else NoExit
  }

  function FractionFor(v: Verdict, p: L.Position, policy: Policy): real {
    match v
    case NoExit => 0.0
    case TakeProfit1 => Clamp(policy.tp1Size)
    case TakeProfit2 => Tp2Fraction(p, policy)
    case _ => 1.0
  }

  function Pnl(p: L.Position, price: real): real {
    p.tokens * price - p.cost
  }

  function Gain(p: L.Position, price: real): real
    requires p.cost > 0.0
  {
    Pnl(p, price) / p.cost
  }

  /** `evaluate_exit`. */
  function EvaluateExit(p: L.Position, m: Market, policy: Policy): Decision {
    if p.status != L.Open || p.cost <= 0.0 then Decision(NoExit, 0.0, 0.0, 0.0)
    else
      var gain := Gain(p, m.price);
      var v := Judge(gain, p.tp1Taken, p.tp2Taken, TrailingHit(p, m.price, policy), p.openedAt, p.lastNewHighAt, m, policy);
      Decision(v, Pnl(p, m.price), gain, FractionFor(v, p, policy))
  }

  // ---------------------------------------------------------------------------
  // Which market gives which verdict.

  /** The value at which a position has made a return on its cost. */
  function ValueAt(cost: real, target: real): real {
    cost * (1.0 + target)
  }

  /** So many whole seconds, counted by dropping fractions, have passed since a time. */
  predicate HasPassed(start: Option<int>, seconds: Option<int>, now: int) {
    start.Some? && seconds.Some?
    && if seconds.value > 0 then now - start.value >= seconds.value * 1_000_000
       else now - start.value > (seconds.value - 1) * 1_000_000
  }

  lemma OverdueIs(start: Option<int>, limit: Option<int>, now: int)
    ensures Overdue(start, limit, now) <==> HasPassed(start, limit, now)
  {
  }

  lemma GainIs(p: L.Position, price: real, target: real)
    requires p.cost > 0.0
    ensures Gain(p, price) * p.cost == p.tokens * price - p.cost
    ensures Gain(p, price) <= target <==> p.tokens * price <= ValueAt(p.cost, target)
    ensures Gain(p, price) >= target <==> p.tokens * price >= ValueAt(p.cost, target)
  {
    var g, value := Gain(p, price), p.tokens * price;
    assert g * p.cost == value - p.cost;
    OrderScales(g, target, p.cost);
    OrderScales(target, g, p.cost);
    assert ValueAt(p.cost, target) == p.cost + target * p.cost;
  }

  /** The value has come back to the cost, or from the highest one reached by the trailing share. */
  predicate FallenBack(p: L.Position, value: real, trailing: real) {
    var reached := if p.highValue < p.cost + p.peakUnrealized then p.cost + p.peakUnrealized else p.highValue;
    (p.highValue > 0.0 || p.peakUnrealized > 0.0) && (value <= p.cost || value <= reached * (1.0 - trailing))
  }

  lemma TrailingIs(p: L.Position, price: real, policy: Policy)
    ensures TrailingHit(p, price, policy) <==> FallenBack(p, p.tokens * price, policy.trailingStop)
  {
  }

  /** The verdict on an open position, by the value the price gives it: the first of these that
      applies. Everything is sold, but for a profit target; and nothing without a verdict. */
  lemma VerdictByValue(p: L.Position, m: Market, policy: Policy)
    requires p.status == L.Open && p.cost > 0.0
    ensures var d, value := EvaluateExit(p, m, policy), p.tokens * m.price;
            d.verdict == (if m.emergencyExit then Emergency
                          else if value <= ValueAt(p.cost, policy.stopLossReturn) then StopLoss
                          else if !p.tp1Taken && value >= ValueAt(p.cost, policy.tp1Return) then TakeProfit1
                          else if p.tp1Taken && !p.tp2Taken && value >= ValueAt(p.cost, policy.tp2Return) then TakeProfit2
                          else if p.tp1Taken && FallenBack(p, value, policy.trailingStop) then TrailingStop
                          else if m.momentumExit then MomentumExit
                          else if HasPassed(Some(p.openedAt), policy.maxHoldSeconds, m.now) then TimeStop
                          else if HasPassed(p.lastNewHighAt, policy.noNewHighSeconds, m.now) then TimeStop
                          else NoExit)
            && d.pnl == value - p.cost && d.gain * p.cost == value - p.cost
            && (d.verdict == NoExit ==> d.fraction == 0.0)
            && (d.verdict in {Emergency, StopLoss, TrailingStop, MomentumExit, TimeStop} ==> d.fraction == 1.0)
            && (d.verdict == TakeProfit1 ==>
                  d.fraction == if policy.tp1Size < 0.0 then 0.0 else if policy.tp1Size > 1.0 then 1.0 else policy.tp1Size)
            && 0.0 <= d.fraction <= 1.0
  {
    hide TrailingHit, FallenBack, Overdue, HasPassed, ValueAt, Gain, Tp2Fraction;
    TrailingIs(p, m.price, policy);
    GainIs(p, m.price, policy.stopLossReturn);
    GainIs(p, m.price, policy.tp1Return);
    GainIs(p, m.price, policy.tp2Return);
    OverdueIs(Some(p.openedAt), policy.maxHoldSeconds, m.now);
    OverdueIs(p.lastNewHighAt, policy.noNewHighSeconds, m.now);
    assert 0.0 <= Tp2Fraction(p, policy) <= 1.0 by { ProperFraction(p, policy); }
  }

  lemma ProperFraction(p: L.Position, policy: Policy)
    ensures 0.0 <= Tp2Fraction(p, policy) <= 1.0
  {
  }

  /** A closed position, and one without cost, is left alone. */
  lemma NothingToExit(p: L.Position, m: Market, policy: Policy)
    requires p.status != L.Open || p.cost <= 0.0
    ensures EvaluateExit(p, m, policy) == Decision(NoExit, 0.0, 0.0, 0.0)
  {
    hide Judge;
  }

  // ---------------------------------------------------------------------------
  // Scaling.

  /** `q` is `p` with every amount multiplied by `k`. */
  ghost predicate ScaledBy(p: L.Position, q: L.Position, k: real) {
    k > 0.0 && q.status == p.status && q.tokens == p.tokens * k && q.cost == p.cost * k
    && q.highValue == p.highValue * k && q.peakUnrealized == p.peakUnrealized * k
    && q.tp1Taken == p.tp1Taken && q.tp2Taken == p.tp2Taken
    && q.openedAt == p.openedAt && q.lastNewHighAt == p.lastNewHighAt
  }

  lemma PartialCloseScales(p: L.Position, x: L.Exit)
    requires p.status == L.Open && 0.0 < x.tokens < p.tokens && x.reason == L.OtherReason
    ensures ScaledBy(p, L.ClosedPosition(p, x), 1.0 - x.tokens / p.tokens)
  {
    var closed := x.tokens / p.tokens;
    assert closed * p.tokens == x.tokens;
    FractionIsProper(x.tokens, p.tokens);
    assert p.tokens * (1.0 - closed) == p.tokens - x.tokens;
    assert p.cost * (1.0 - closed) == p.cost - p.cost * closed;
  }

  lemma SignScales(a: real, k: real)
    requires k > 0.0
    ensures a * k > 0.0 <==> a > 0.0
    ensures a * k <= 0.0 <==> a <= 0.0
  {
  }

  lemma OrderScales(a: real, b: real, k: real)
    requires k > 0.0
    ensures a <= b <==> a * k <= b * k
    ensures L.Max(a * k, b * k) == L.Max(a, b) * k
  {
    SignScales(b - a, k);
    SignScales(a - b, k);
    assert (b - a) * k == b * k - a * k;
  }

  lemma RatioScales(a: real, b: real, k: real)
    requires k > 0.0 && b > 0.0
    ensures b * k > 0.0 && (a * k) / (b * k) == a / b
  {
    SignScales(b, k);
    var q := a / b;
    assert q * (b * k) == (q * b) * k == a * k;
  }

  /** The high a trailing stop is measured from. */
  function ExecutableHigh(p: L.Position): real {
    L.Max(p.highValue, p.cost + p.peakUnrealized)
  }

  lemma HighScales(p: L.Position, q: L.Position, k: real)
    requires ScaledBy(p, q, k)
    ensures ExecutableHigh(q) == ExecutableHigh(p) * k
  {
    DistributesOver(p.cost, p.peakUnrealized, k);
    MaxScales(p.highValue, p.cost + p.peakUnrealized, q.highValue, q.cost + q.peakUnrealized, k);
  }

  lemma DistributesOver(a: real, b: real, k: real)
    ensures a * k + b * k == (a + b) * k
  {
  }

  /** `high` less the share `stop` of it. */
  function Below(high: real, stop: real): real {
    high * (1.0 - stop)
  }

  lemma BelowScales(high: real, scaled: real, stop: real, k: real)
    requires scaled == high * k
    ensures Below(scaled, stop) == Below(high, stop) * k
  {
    assert high * k * (1.0 - stop) == high * (1.0 - stop) * k;
  }

  lemma MaxScales(a: real, b: real, c: real, d: real, k: real)
    requires k > 0.0 && c == a * k && d == b * k
    ensures L.Max(c, d) == L.Max(a, b) * k
  {
    OrderScales(a, b, k);
  }

  lemma FloorScales(p: L.Position, q: L.Position, k: real, policy: Policy)
    requires ScaledBy(p, q, k)
    ensures TrailingFloor(q, policy) == TrailingFloor(p, policy) * k
  {
    hide ExecutableHigh, L.Max, Below;
    var high, stop := ExecutableHigh(p), policy.trailingStop;
    HighScales(p, q, k);
    BelowScales(high, ExecutableHigh(q), stop, k);
    MaxScales(p.cost, Below(high, stop), q.cost, Below(ExecutableHigh(q), stop), k);
  }

  lemma TrailingScales(p: L.Position, q: L.Position, k: real, price: real, policy: Policy)
    requires ScaledBy(p, q, k)
    ensures TrailingHit(q, price, policy) == TrailingHit(p, price, policy)
  {
    hide TrailingFloor;
    FloorScales(p, q, k, policy);
    assert q.tokens * price == p.tokens * price * k;
    OrderScales(p.tokens * price, TrailingFloor(p, policy), k);
    SignScales(p.highValue, k);
    SignScales(p.peakUnrealized, k);
  }

  /** A scaled position gets the same verdict and the same return. */
  lemma ScaledVerdict(p: L.Position, q: L.Position, k: real, m: Market, policy: Policy)
    requires ScaledBy(p, q, k)
    ensures EvaluateExit(q, m, policy).verdict == EvaluateExit(p, m, policy).verdict
    ensures EvaluateExit(q, m, policy).gain == EvaluateExit(p, m, policy).gain
    ensures EvaluateExit(q, m, policy).pnl == EvaluateExit(p, m, policy).pnl * k
    ensures EvaluateExit(p, m, policy).verdict != TakeProfit2 ==>
              EvaluateExit(q, m, policy).fraction == EvaluateExit(p, m, policy).fraction
  {
    hide TrailingHit, Tp2Fraction, Judge, Pnl, Gain;
    SignScales(p.cost, k);
    if p.status == L.Open && p.cost > 0.0 {
      GainScales(p, q, k, m.price);
      TrailingScales(p, q, k, m.price, policy);
    }
  }

  lemma GainScales(p: L.Position, q: L.Position, k: real, price: real)
    requires ScaledBy(p, q, k) && p.cost > 0.0
    ensures q.cost > 0.0 && Pnl(q, price) == Pnl(p, price) * k && Gain(q, price) == Gain(p, price)
  {
    assert q.tokens * price == p.tokens * price * k;
    assert Pnl(q, price) == Pnl(p, price) * k;
    RatioScales(Pnl(p, price), p.cost, k);
  }

  /** After any partial close that is not itself a profit target, the same price, time and
      flags give the same reason and the same return. */
  lemma PartialCloseKeepsVerdict(p: L.Position, x: L.Exit, m: Market, policy: Policy)
    requires p.status == L.Open && 0.0 < x.tokens < p.tokens && x.reason == L.OtherReason
    ensures var q := L.ClosedPosition(p, x);
            EvaluateExit(q, m, policy).verdict == EvaluateExit(p, m, policy).verdict
            && EvaluateExit(q, m, policy).gain == EvaluateExit(p, m, policy).gain
  {
    hide EvaluateExit, L.ClosedPosition;
    PartialCloseScales(p, x);
    ScaledVerdict(p, L.ClosedPosition(p, x), 1.0 - x.tokens / p.tokens, m, policy);
  }

  /** A second profit target sells the smaller of what is left and the policy's share of the
      entry amount. */
  lemma Tp2SellsIntendedShare(p: L.Position, m: Market, policy: Policy)
    requires EvaluateExit(p, m, policy).verdict == TakeProfit2
    requires p.entryTokens > 0.0 && p.tokens >= 0.00000001 * p.entryTokens && policy.tp2SizeOfInitial >= 0.0
    ensures EvaluateExit(p, m, policy).fraction * p.tokens
            == L.Min(p.tokens, policy.tp2SizeOfInitial * p.entryTokens)
  {
    hide Judge, Tp2Fraction;
    Tp2Amount(p, policy);
  }

  lemma Tp2Amount(p: L.Position, policy: Policy)
    requires p.entryTokens > 0.0 && p.tokens >= 0.00000001 * p.entryTokens && policy.tp2SizeOfInitial >= 0.0
    ensures Tp2Fraction(p, policy) * p.tokens == L.Min(p.tokens, policy.tp2SizeOfInitial * p.entryTokens)
  {
    var s, e, t := policy.tp2SizeOfInitial, p.entryTokens, p.tokens;
    QuotientAtLeast(t, e, 0.00000001);
    var remaining := t / e;
    var raw := s / remaining;
    ShareOfEntry(s, e, t);
    QuotientNotNegative(s, remaining);
    if raw > 1.0 {
      StrictlyLess(1.0, raw, t);
    } else {
      ProductNotNegative(1.0 - raw, t);
      assert (1.0 - raw) * t == t - raw * t;
    }
  }

  lemma QuotientAtLeast(t: real, e: real, c: real)
    requires e > 0.0 && t >= c * e
    ensures t / e >= c
  {
    var r := t / e;
    assert r * e == t;
    if r < c { StrictlyLess(r, c, e); }
  }

  lemma QuotientNotNegative(a: real, b: real)
    requires a >= 0.0 && b > 0.0
    ensures a / b >= 0.0
  {
    QuotientAtLeast(a, b, 0.0);
  }

  lemma ShareOfEntry(s: real, e: real, t: real)
    requires e > 0.0 && t > 0.0 && t / e > 0.0
    ensures s / (t / e) * t == s * e
  {
    var r := t / e;
    var raw := s / r;
    assert r * e == t && raw * r == s;
    assert raw * t == raw * (r * e) == (raw * r) * e;
  }

  lemma StrictlyLess(a: real, b: real, k: real)
    requires a < b && k > 0.0
    ensures a * k < b * k
  {
    assert (b - a) * k > 0.0;
  }
}
