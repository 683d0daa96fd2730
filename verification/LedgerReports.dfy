/** What can be read back from the ledger: unrealized totals, reports as of a past moment and
    the reconciliation of realized gains. */
module LedgerReports {
  import opened Options
  import opened Sums
  import opened Ledger

  // ---------------------------------------------------------------------------
  // Unrealized gains.

  /** Every open position has a strictly positive price whenever the book is revalued. */
  ghost predicate Covers(s: State, a: Action) {
    a.Revalue? ==>
      forall id :: id in s.positions && s.positions[id].status == Open ==>
        s.positions[id].mint in a.marks.prices && a.marks.prices[s.positions[id].mint] > 0.0
  }

  ghost predicate UnrealizedIsSum(s: State) {
    s.unrealized == Total(OpenGains(s.positions))
  }

  lemma OpenKeepsUnrealized(s: State, e: Entry)
    requires UnrealizedIsSum(s) && FreshEntry(s, e) && e.tokens > 0.0
    ensures UnrealizedIsSum(OpenPosition(s, e))
  {
    hide Total;
    var s' := OpenPosition(s, e);
    TotalUpdate(OpenGains(s.positions), e.position, 0.0);
    assert OpenGains(s'.positions) == OpenGains(s.positions)[e.position := 0.0];
  }

  /** A partial close scales the marked gain of the position by what is kept. */
  lemma CloseScalesGain(p: Position, x: Exit)
    requires p.status == Open && 0.0 < x.tokens <= p.tokens
    ensures var q := ClosedPosition(p, x);
            (if q.status == Open then MarkedUnrealized(q) else 0.0)
            == MarkedUnrealized(p) - Gone(p, x)
  {
    var closed := x.tokens / p.tokens;
    var q := ClosedPosition(p, x);
    assert closed * p.tokens == x.tokens;
    if x.tokens == p.tokens {
      WholeShare(p.tokens);
    } else {
      assert 0.0 < closed < 1.0 by { FractionIsProper(x.tokens, p.tokens); }
      var kept := 1.0 - closed;
      if p.lastValue > 0.0 {
        assert p.lastValue * kept > 0.0;
        assert q.lastValue - q.cost == (p.lastValue - p.cost) * kept;
      } else {
        assert p.lastValue * kept <= 0.0;
      }
    }
  }

  lemma CloseKeepsUnrealized(s: State, x: Exit, id: PositionId)
    requires UnrealizedIsSum(s) && id in s.positions && s.positions[id].status == Open
    requires 0.0 < x.tokens <= s.positions[id].tokens
    ensures UnrealizedIsSum(ClosePosition(s, x, id))
  {
    hide Total, ClosedPosition, MarkedUnrealized;
    var p, s' := s.positions[id], ClosePosition(s, x, id);
    CloseScalesGain(p, x);
    var left := MarkedUnrealized(p) - Gone(p, x);
    TotalUpdate(OpenGains(s.positions), id, left);
    assert OpenGains(s'.positions) == OpenGains(s.positions)[id := left];
  }

  lemma MarkKeepsUnrealized(s: State, start: real, m: Marks)
    requires Inv(s, start) && Covers(s, Revalue(m))
    ensures UnrealizedIsSum(Mark(s, m))
  {
    hide Total, Recount, Balanced, Indexed, Listed;
    var gains, shares := OpenGains(MarkAll(s.positions, m)), Contributions(s.positions, m);
    forall id | id in s.positions ensures gains[id] == shares[id] {
      assert PositionInv(s.positions[id], id, s.fills);
      if s.positions[id].status == Open {
        assert s.positions[id].tokens * m.prices[s.positions[id].mint] > 0.0;
      }
    }
    assert gains == shares;
  }

  ghost predicate IsCoveredRun(ss: seq<State>, acts: seq<Action>, start: real) {
    IsRun(ss, acts, start) && forall i :: 0 <= i < |acts| ==> Covers(ss[i], acts[i])
  }

  /** Over every run whose revaluations price all open positions above zero, the unrealized
      total is the sum of the marked gains of the open positions, through partial closes too. */
  lemma {:induction false} UnrealizedIsSumOverRun(ss: seq<State>, acts: seq<Action>, start: real, k: nat)
    requires IsCoveredRun(ss, acts, start) && k < |ss|
    ensures UnrealizedIsSum(ss[k])
  {
    hide Inv, Covers, Mark, OpenPosition, ClosePosition;
    if k > 0 {
      UnrealizedIsSumOverRun(ss, acts, start, k - 1);
      RunKeepsInv(ss, acts, start, k - 1);
      var s, a := ss[k - 1], acts[k - 1];
      assert Admissible(s, a) && ss[k - 1 + 1] == Apply(s, a) && Covers(s, a);
      match a
      case Buy(e) =>
        if ss[k] != s { OpenKeepsUnrealized(s, e); }
      case Sell(x) =>
        if ss[k] != s { CloseKeepsUnrealized(s, x, s.byToken[x.mint]); }
      case Revalue(m) => MarkKeepsUnrealized(s, start, m);
    }
  }

  // ---------------------------------------------------------------------------
  // Reports as of a past moment.

  function Before(fills: seq<Fill>, end: int): seq<Fill> {
    if fills == [] then []
    else
      var last := fills[|fills| - 1];
      Before(fills[..|fills| - 1], end) + if last.at < end then [last] else []
  }

  function At(a: Action): int {
    match a
    case Buy(e) => e.at
    case Sell(x) => x.at
    case Revalue(m) => m.at
  }

  /** Operations before step `k` happened before `end`, later ones at or after it. */
  ghost predicate SplitsAt(acts: seq<Action>, k: nat, end: int) {
    k <= |acts|
    && (forall i :: 0 <= i < k ==> At(acts[i]) < end)
    && (forall i :: k <= i < |acts| ==> At(acts[i]) >= end)
  }

  /** A step adds at most one fill, stamped with the time of the step. */
  lemma StepAddsFill(s: State, a: Action)
    ensures Apply(s, a).fills == s.fills
            || exists f: Fill :: f.at == At(a) && Apply(s, a).fills == s.fills + [f]
    ensures forall id :: id in s.positions ==> id in Apply(s, a).positions
  {
    hide Total;
    var s' := Apply(s, a);
    if s'.fills != s.fills {
      assert s'.fills == s.fills + [s'.fills[|s.fills|]] && s'.fills[|s.fills|].at == At(a);
    }
  }

  lemma BeforeAppend(fills: seq<Fill>, f: Fill, end: int)
    ensures Before(fills + [f], end) == Before(fills, end) + if f.at < end then [f] else []
  {
    assert (fills + [f])[..|fills|] == fills;
  }

  lemma {:induction false} FillsBefore(ss: seq<State>, acts: seq<Action>, start: real, k: nat, j: nat, end: int)
    requires IsRun(ss, acts, start) && SplitsAt(acts, k, end) && j < |ss|
    ensures Before(ss[j].fills, end) == if j <= k then ss[j].fills else ss[k].fills
  {
    hide Apply, Admissible, Before;
    if j == 0 {
      assert Before([], end) == [] by { NoneBefore(end); }
    } else {
      FillsBefore(ss, acts, start, k, j - 1, end);
      StepAddsFill(ss[j - 1], acts[j - 1]);
      assert ss[j - 1 + 1] == Apply(ss[j - 1], acts[j - 1]);
      if ss[j].fills != ss[j - 1].fills {
        var f: Fill :| f.at == At(acts[j - 1]) && ss[j].fills == ss[j - 1].fills + [f];
        BeforeAppend(ss[j - 1].fills, f, end);
      }
    }
  }

  lemma NoneBefore(end: int)
    ensures Before([], end) == []
  {
  }

  /** The report as of `end`, computed from all fills recorded since, lists exactly the
      positions that were open at that moment, with the amounts and costs they then had. */
  lemma ReportMatchesPast(ss: seq<State>, acts: seq<Action>, start: real, k: nat, end: int, id: PositionId)
    requires IsRun(ss, acts, start) && SplitsAt(acts, k, end)
    ensures var past := Before(ss[|acts|].fills, end);
            (RemainingTokens(past, id) > 0.0 <==> id in ss[k].positions && ss[k].positions[id].status == Open)
            && (id in ss[k].positions ==>
                  RemainingTokens(past, id) == ss[k].positions[id].tokens
                  && RemainingCost(past, id) == ss[k].positions[id].cost)
  {
    hide Apply, Admissible, Before, Recount, Balanced, Indexed;
    FillsBefore(ss, acts, start, k, |acts|, end);
    RunKeepsInv(ss, acts, start, k);
    if id in ss[k].positions {
      assert PositionInv(ss[k].positions[id], id, ss[k].fills);
    } else {
      RecountNone(ss[k].fills, id);
    }
  }

  // ---------------------------------------------------------------------------
  // The mutable ledger object.

  class PaperLedger {
    var state: State

    constructor (start: real)
      ensures state == Initial(start)
    {
      state := Initial(start);
    }

    /** `open_position`. */
    method Open(e: Entry) returns (reply: Reply)
      modifies this
      ensures (state, reply) == Enter(old(state), e)
    {
      if e.usd <= 0.0 || e.tokens <= 0.0 { return Refused; }
      if e.order in state.entryOrders { return Done(state.entryOrders[e.order]); }
      if e.mint in state.byToken { return Done(state.byToken[e.mint]); }
      var cost := e.usd + e.fee;
      var fill := Fill(e.position, e.order, true, e.tokens, cost, cost / e.tokens, e.at, e.day);
      var p := Position(e.mint, Status.Open, e.tokens, cost, e.tokens, cost, 0.0, 0.0, 0.0, None, 0.0, 0.0, 0.0,
                        false, false, e.at, None);
      state := state.(fills := state.fills + [fill]);
      state := state.(positions := state.positions[e.position := p], order := state.order + [e.position]);
      state := state.(entryOrders := state.entryOrders[e.order := e.position]);
      state := state.(byToken := state.byToken[e.mint := e.position]);
      state := state.(locked := state.locked + cost);
      reply := Done(e.position);
    }

    /** `close_position`. */
    method Close(x: Exit) returns (reply: Reply)
      requires forall m :: m in state.byToken ==>
                 state.byToken[m] in state.positions && state.positions[state.byToken[m]].tokens > 0.0
      modifies this
      ensures (state, reply) == Leave(old(state), x)
    {
      if x.usd < 0.0 || x.tokens <= 0.0 { return Refused; }
      if x.order in state.exitOrders { return Done(state.exitOrders[x.order]); }
      if x.mint !in state.byToken { return Refused; }
      var id := state.byToken[x.mint];
      var p := state.positions[id];
      if p.status != Status.Open { return Done(id); }
      if x.tokens > p.tokens { return Refused; }
      CloseOpen(x, id);
      reply := Done(id);
    }

    /** The effect of `close_position` once its checks have passed. */
    method CloseOpen(x: Exit, id: PositionId)
      requires id in state.positions && state.positions[id].tokens > 0.0
      modifies this
      ensures state == ClosePosition(old(state), x, id)
    {
      hide ClosedPosition, Released, Gone, Max, NetReceived, ExitFill, Credited;
      var p := state.positions[id];
      var q, gain, released, gone := ReducePosition(p, x, NetReceived(x));
      state := state.(fills := state.fills + [ExitFill(p, x, id)]);
      state := state.(realized := state.realized + gain, unrealized := state.unrealized - gone,
                      locked := state.locked - released);
      if q.status == Status.Closed {
        state := state.(byToken := state.byToken - {x.mint});
      }
      state := state.(equity := state.equity + (gain - gone));
      state := state.(daily := Credited(state.daily, x.day, gain));
      state := state.(peak := Max(state.peak, state.equity));
      state := state.(positions := state.positions[id := q], exitOrders := state.exitOrders[x.order := id]);
    }

    /** `mark_to_market`: one pass over the positions, accumulating the total. */
    method MarkToMarket(m: Marks) returns (unrealized: real, equity: real)
      requires Listed(state)
      modifies this
      ensures state == Mark(old(state), m)
      ensures unrealized == state.unrealized && equity == state.equity
    {
      hide Total, Contributions, MarkAll, Max;
      var base := state.equity - state.unrealized;
      var positions;
      positions, unrealized := MarkEach(state.order, state.positions, m);
      state := state.(positions := positions);
      equity := base + unrealized;
      state := state.(unrealized := unrealized, equity := equity);
      if m.day !in state.baseline {
        state := state.(baseline := state.baseline[m.day := equity]);
      }
      state := state.(peak := Max(state.peak, equity));
    }

    /** `reconcile`: the realized gain recomputed from the exit fills, and whether it agrees. */
    method Reconcile() returns (expected: real, reconciled: bool)
      ensures expected == Recount(state.fills, GainedInAll)
      ensures reconciled <==> expected == state.realized
    {
      expected := 0.0;
      for i := 0 to |state.fills|
        invariant expected == Recount(state.fills[..i], GainedInAll)
      {
        assert state.fills[..i + 1][..i] == state.fills[..i];
        var f := state.fills[i];
        if !f.isEntry {
          expected := expected + (f.usd - f.costBasis * f.tokens);
        }
      }
      assert state.fills[..|state.fills|] == state.fills;
      reconciled := expected == state.realized;
    }
  }

  /** The loop of `mark_to_market`. */
  method MarkEach(order: seq<PositionId>, before: map<PositionId, Position>, m: Marks)
    returns (positions: map<PositionId, Position>, unrealized: real)
    requires forall id :: id in order <==> id in before
    requires forall i, j :: 0 <= i < j < |order| ==> order[i] != order[j]
    ensures positions == MarkAll(before, m) && unrealized == Total(Contributions(before, m))
  {
    hide MarkPosition, Marked, SumOver, Prefix;
    ghost var shares := Contributions(before, m);
    positions, unrealized := before, 0.0;
    EmptySum(order, shares);
    for i := 0 to |order|
      invariant positions.Keys == before.Keys
      invariant forall id :: id in before ==>
        positions[id] == if id in Prefix(order, i) then MarkPosition(before[id], m) else before[id]
      invariant Prefix(order, i) <= before.Keys && unrealized == SumOver(Prefix(order, i), shares)
    {
      var id := order[i];
      assert id in order;
      PrefixGrows(order, i, shares);
      var p, share := MarkOne(positions[id], m);
      unrealized := unrealized + share;
      positions := positions[id := p];
    }
    WholePrefix(order);
    assert Prefix(order, |order|) == before.Keys;
  }

  /** The updates `close_position` makes to the position itself. */
  method ReducePosition(before: Position, x: Exit, received: real)
    returns (p: Position, gain: real, released: real, gone: real)
    requires before.tokens > 0.0 && received == NetReceived(x)
    ensures p == ClosedPosition(before, x)
    ensures released == Released(before, x) && gone == Gone(before, x)
    ensures gain == received - released
  {
    hide Released, Gone, Scaled, ScaledIfAny, KeptShare;
    p := before;
    var closed := x.tokens / p.tokens;
    var kept := 1.0 - closed;
    released := p.cost * closed;
    gone := MarkedUnrealized(p) * closed;
    SharesOf(before, x, closed, kept, released, gone);
    p := p.(cost := p.cost - released, tokens := p.tokens - x.tokens);
    gain := received - released;
    p := p.(realized := p.realized + gain);
    p := p.(lastValue := Scaled(p.lastValue, kept), highValue := Scaled(p.highValue, kept));
    p := p.(lowValue := ScaledIfAny(p.lowValue, kept));
    p := p.(peakUnrealized := Scaled(p.peakUnrealized, kept));
    if x.reason == Tp1 { p := p.(tp1Taken := true); } else if x.reason == Tp2 { p := p.(tp2Taken := true); }
    if p.tokens <= 0.0 { p := p.(status := Status.Closed); }
  }

  lemma SharesOf(p: Position, x: Exit, closed: real, kept: real, released: real, gone: real)
    requires p.tokens > 0.0 && closed == x.tokens / p.tokens && kept == 1.0 - closed
    requires released == p.cost * closed && gone == MarkedUnrealized(p) * closed
    ensures kept == KeptShare(p, x) && released == Released(p, x) && gone == Gone(p, x)
  {
  }

  /** The loop body of `mark_to_market` for one position, with its share of the total. */
  method MarkOne(p: Position, m: Marks) returns (q: Position, share: real)
    ensures q == MarkPosition(p, m)
    ensures share == if Marked(p, m) then p.tokens * m.prices[p.mint] - p.cost else 0.0
  {
    hide Return, Max, Min;
    if p.status != Status.Open || p.mint !in m.prices { return p, 0.0; }
    var value := p.tokens * m.prices[p.mint];
    q := p.(lastValue := value);
    share := value - p.cost;
    q := q.(peakUnrealized := Max(q.peakUnrealized, value - q.cost));
    if value > q.highValue {
      q := q.(highValue := value, lastNewHighAt := Some(m.at));
    }
    q := q.(lowValue := Some(if q.lowValue.None? then value else Min(q.lowValue.value, value)));
    if q.cost > 0.0 {
      var current := Return(value, q.cost);
      q := q.(best := Max(q.best, current), worst := Min(q.worst, current));
    }
  }

  ghost function Prefix(order: seq<PositionId>, i: nat): set<PositionId>
    requires i <= |order|
  {
    set j | 0 <= j < i :: order[j]
  }

  lemma EmptySum(order: seq<PositionId>, shares: map<PositionId, real>)
    ensures Prefix(order, 0) == {} && SumOver({}, shares) == 0.0
  {
  }

  lemma WholePrefix(order: seq<PositionId>)
    ensures forall id :: id in Prefix(order, |order|) <==> id in order
  {
  }

  lemma PrefixGrows(order: seq<PositionId>, i: nat, shares: map<PositionId, real>)
    requires i < |order| && forall a, b :: 0 <= a < b < |order| ==> order[a] != order[b]
    requires Prefix(order, i) <= shares.Keys && order[i] in shares
    ensures Prefix(order, i + 1) <= shares.Keys && order[i] !in Prefix(order, i)
    ensures Prefix(order, i + 1) == Prefix(order, i) + {order[i]}
    ensures SumOver(Prefix(order, i + 1), shares) == SumOver(Prefix(order, i), shares) + shares[order[i]]
  {
    assert Prefix(order, i + 1) == Prefix(order, i) + {order[i]};
    SumRemove(Prefix(order, i + 1), shares, order[i]);
    assert Prefix(order, i + 1) - {order[i]} == Prefix(order, i);
  }

  /** After any run the books reconcile. */
  lemma RunsReconcile(ss: seq<State>, acts: seq<Action>, start: real, k: nat)
    requires IsRun(ss, acts, start) && k < |ss|
    ensures ss[k].realized == Recount(ss[k].fills, GainedInAll) == Total(ss[k].daily)
    ensures ss[k].locked == Total(OpenCosts(ss[k].positions))
    ensures ss[k].equity - ss[k].unrealized - ss[k].locked
            == start + ss[k].realized - (Recount(ss[k].fills, SpentInAll) - Recount(ss[k].fills, CostSoldInAll))
  {
    hide IsRun, PositionsInv, Indexed, Listed, Recount, Total;
    RunKeepsInv(ss, acts, start, k);
  }
}
