/** The life of one position over a run of the ledger: its recorded extremes and its profit
    targets. */
module PositionHistory {
  import opened Ledger
  import opened Sums
  import E = Exits

  /** What one ledger step may do to one position. */
  ghost predicate Moves(p: Position, a: Action, q: Position) {
    q == p
    || (a.Sell? && p.status == Open && 0.0 < a.exit.tokens <= p.tokens && q == ClosedPosition(p, a.exit))
    || (a.Revalue? && q == MarkPosition(p, a.marks))
  }

  lemma StepMoves(s: State, start: real, a: Action, id: PositionId)
    requires Inv(s, start) && Admissible(s, a) && id in s.positions
    ensures id in Apply(s, a).positions && Moves(s.positions[id], a, Apply(s, a).positions[id])
  {
    hide Balanced, Recount, ClosedPosition, MarkPosition;
    assert PositionInv(s.positions[id], id, s.fills);
  }

  lemma StepAdds(s: State, start: real, a: Action, id: PositionId)
    requires Inv(s, start) && Admissible(s, a) && id !in s.positions && id in Apply(s, a).positions
    ensures var p := Apply(s, a).positions[id];
            p.lastValue == 0.0 == p.highValue && p.peakUnrealized == 0.0 && p.lowValue.None?
            && !p.tp1Taken && !p.tp2Taken && p.best == 0.0 == p.worst
  {
    hide Balanced, Recount, ClosedPosition, MarkPosition, PositionsInv;
  }

  // ---------------------------------------------------------------------------
  // Extremes.

  /** The last value lies between the recorded extremes, and the peak gain is at least the
      gain last marked. */
  ghost predicate ValuesBounded(p: Position) {
    0.0 <= p.highValue && 0.0 <= p.peakUnrealized && p.lastValue <= p.highValue
    && (p.lowValue.Some? ==> p.lowValue.value <= p.lastValue && p.lastValue - p.cost <= p.peakUnrealized)
    && (p.lowValue.None? ==> p.lastValue == 0.0)
  }

  /** The last return lies between the recorded excursions. */
  ghost predicate ReturnsBounded(p: Position) {
    p.worst <= 0.0 <= p.best
    && (p.lowValue.Some? && p.cost > 0.0 ==> p.worst <= Return(p.lastValue, p.cost) <= p.best)
  }

  ghost predicate Bounded(p: Position) {
    ValuesBounded(p) && ReturnsBounded(p)
  }

  lemma KeptIsShare(p: Position, x: Exit)
    requires 0.0 < x.tokens <= p.tokens
    ensures 0.0 <= KeptShare(p, x) <= 1.0
  {
    if x.tokens == p.tokens { WholeShare(p.tokens); } else { FractionIsProper(x.tokens, p.tokens); }
  }

  lemma CloseKeepsBounds(p: Position, x: Exit)
    requires Bounded(p) && 0.0 < x.tokens <= p.tokens
    ensures Bounded(ClosedPosition(p, x))
  {
    hide ValuesBounded, ReturnsBounded, ClosedPosition;
    CloseKeepsValues(p, x);
    CloseKeepsReturns(p, x);
  }

  lemma CloseKeepsValues(p: Position, x: Exit)
    requires ValuesBounded(p) && 0.0 < x.tokens <= p.tokens
    ensures ValuesBounded(ClosedPosition(p, x))
  {
    KeptIsShare(p, x);
    var kept := KeptShare(p, x);
    assert ClosedPosition(p, x).cost == p.cost * kept;
    ProductNotNegative(p.highValue, kept);
    ProductNotNegative(p.peakUnrealized, kept);
    ProductNotNegative(p.highValue - p.lastValue, kept);
    if p.lowValue.Some? {
      ProductNotNegative(p.lastValue - p.lowValue.value, kept);
      ProductNotNegative(p.peakUnrealized - (p.lastValue - p.cost), kept);
    }
  }

  lemma CloseKeepsReturns(p: Position, x: Exit)
    requires ReturnsBounded(p) && 0.0 < x.tokens <= p.tokens
    ensures ReturnsBounded(ClosedPosition(p, x))
  {
    hide Return, KeptShare;
    KeptIsShare(p, x);
    var q, kept := ClosedPosition(p, x), KeptShare(p, x);
    CostIsKept(p, x);
    if q.cost > 0.0 {
      PositiveFactors(p.cost, kept);
      ReturnScales(p.lastValue, p.cost, q.lastValue, q.cost, kept);
    }
  }

  lemma CostIsKept(p: Position, x: Exit)
    requires p.tokens > 0.0
    ensures ClosedPosition(p, x).cost == p.cost * KeptShare(p, x)
  {
  }

  lemma PositiveFactors(a: real, k: real)
    requires k >= 0.0 && a * k > 0.0
    ensures a > 0.0 && k > 0.0
  {
    if a <= 0.0 { ProductNotNegative(-a, k); }
  }

  lemma ReturnScales(value: real, cost: real, value': real, cost': real, k: real)
    requires k > 0.0 && cost > 0.0 && cost' > 0.0 && value' == value * k && cost' == cost * k
    ensures Return(value', cost') == Return(value, cost)
  {
    E.RatioScales(value - cost, cost, k);
    assert value' - cost' == (value - cost) * k;
  }

  /** Over every run the last executable value of every position lies between its lowest and
      its highest, its last return between its adverse and favourable excursions, and its peak
      gain is at least its marked gain, through partial closes too. */
  lemma {:induction false} ExtremesBoundValue(ss: seq<State>, acts: seq<Action>, start: real, k: nat, id: PositionId)
    requires IsRun(ss, acts, start) && k < |ss| && id in ss[k].positions
    ensures Bounded(ss[k].positions[id])
  {
    hide Apply, Inv, Admissible, ClosedPosition;
    var s := ss[k - 1];
    RunKeepsInv(ss, acts, start, k - 1);
    if id in s.positions {
      ExtremesBoundValue(ss, acts, start, k - 1, id);
      StepMoves(s, start, acts[k - 1], id);
      if acts[k - 1].Sell? && 0.0 < acts[k - 1].exit.tokens <= s.positions[id].tokens {
        CloseKeepsBounds(s.positions[id], acts[k - 1].exit);
      }
    } else {
      StepAdds(s, start, acts[k - 1], id);
    }
  }

  // ---------------------------------------------------------------------------
  // Profit targets.

  /** Step `i` sells part of position `id` for the given reason. */
  ghost predicate SellsFor(ss: seq<State>, acts: seq<Action>, i: nat, id: PositionId, reason: Reason) {
    i < |acts| && i + 1 < |ss| && acts[i].Sell? && acts[i].exit.reason == reason
    && id in ss[i].positions && id in ss[i + 1].positions && ss[i + 1].positions[id] != ss[i].positions[id]
  }

  lemma {:induction false} TargetsStay(ss: seq<State>, acts: seq<Action>, start: real, i: nat, j: nat, id: PositionId)
    requires IsRun(ss, acts, start) && i <= j < |ss| && id in ss[i].positions
    ensures id in ss[j].positions
    ensures ss[i].positions[id].tp1Taken ==> ss[j].positions[id].tp1Taken
    ensures ss[i].positions[id].tp2Taken ==> ss[j].positions[id].tp2Taken
    decreases j
  {
    hide Apply, Inv, Admissible;
    if i < j {
      TargetsStay(ss, acts, start, i, j - 1, id);
      RunKeepsInv(ss, acts, start, j - 1);
      StepMoves(ss[j - 1], start, acts[j - 1], id);
    }
  }

  lemma SaleTakesTarget(ss: seq<State>, acts: seq<Action>, start: real, i: nat, id: PositionId, reason: Reason)
    requires IsRun(ss, acts, start) && SellsFor(ss, acts, i, id, reason)
    ensures reason == Tp1 ==> ss[i + 1].positions[id].tp1Taken
    ensures reason == Tp2 ==> ss[i + 1].positions[id].tp2Taken
  {
    hide Apply, Inv, Admissible;
    RunKeepsInv(ss, acts, start, i);
    StepMoves(ss[i], start, acts[i], id);
    assert Apply(ss[i], acts[i]) == ss[i + 1];
  }

  lemma {:induction false} TargetWasSold(ss: seq<State>, acts: seq<Action>, start: real, k: nat, id: PositionId)
    requires IsRun(ss, acts, start) && k < |ss| && id in ss[k].positions && ss[k].positions[id].tp1Taken
    ensures exists i :: 0 <= i < k && SellsFor(ss, acts, i, id, Tp1)
  {
    hide Apply, Inv, Admissible;
    var s := ss[k - 1];
    RunKeepsInv(ss, acts, start, k - 1);
    assert Apply(s, acts[k - 1]) == ss[k - 1 + 1];
    if id in s.positions {
      StepMoves(s, start, acts[k - 1], id);
      if s.positions[id].tp1Taken {
        TargetWasSold(ss, acts, start, k - 1, id);
      } else {
        assert SellsFor(ss, acts, k - 1, id, Tp1);
      }
    } else {
      StepAdds(s, start, acts[k - 1], id);
    }
  }

  /** Once a position has sold for a profit target, that target is never decided again, under
      any market and policy, and a trailing stop or a second target is only ever decided after
      a sale for the first. */
  lemma TargetsFireOnceInOrder(ss: seq<State>, acts: seq<Action>, start: real, k: nat, id: PositionId,
                               m: E.Market, policy: E.Policy)
    requires IsRun(ss, acts, start) && k < |ss| && id in ss[k].positions
    ensures var verdict := E.EvaluateExit(ss[k].positions[id], m, policy).verdict;
            (forall i | 0 <= i < k && SellsFor(ss, acts, i, id, Tp1) :: verdict != E.TakeProfit1)
            && (forall i | 0 <= i < k && SellsFor(ss, acts, i, id, Tp2) :: verdict != E.TakeProfit2)
            && (verdict == E.TakeProfit2 || verdict == E.TrailingStop ==>
                  exists i :: 0 <= i < k && SellsFor(ss, acts, i, id, Tp1))
  {
    hide IsRun, SellsFor;
    var p := ss[k].positions[id];
    forall i, reason | 0 <= i < k && SellsFor(ss, acts, i, id, reason)
      ensures (reason == Tp1 ==> p.tp1Taken) && (reason == Tp2 ==> p.tp2Taken)
    {
      SaleTakesTarget(ss, acts, start, i, id, reason);
      SoldIsListed(ss, acts, i, id, reason);
      TargetsStay(ss, acts, start, i + 1, k, id);
    }
    if p.tp1Taken {
      TargetWasSold(ss, acts, start, k, id);
    }
    VerdictNeedsTarget(p, m, policy);
  }

  lemma SoldIsListed(ss: seq<State>, acts: seq<Action>, i: nat, id: PositionId, reason: Reason)
    requires SellsFor(ss, acts, i, id, reason)
    ensures i + 1 < |ss| && id in ss[i + 1].positions
  {
  }

  lemma VerdictNeedsTarget(p: Position, m: E.Market, policy: E.Policy)
    ensures var verdict := E.EvaluateExit(p, m, policy).verdict;
            (verdict == E.TakeProfit1 ==> !p.tp1Taken)
            && (verdict == E.TakeProfit2 ==> p.tp1Taken && !p.tp2Taken)
            && (verdict == E.TrailingStop ==> p.tp1Taken)
  {
  }

  // ---------------------------------------------------------------------------
  // The day's opening equity.

  /** Over every run the stored opening equity of a day is the equity after the first
      revaluation of that day, and every revalued day has one. */
  lemma {:induction false} BaselineIsFirstMark(ss: seq<State>, acts: seq<Action>, start: real, k: nat, day: Day)
    requires IsRun(ss, acts, start) && k < |ss|
    ensures day in ss[k].baseline <==> exists i :: 0 <= i < k && MarksDay(acts, i, day)
    ensures forall i :: 0 <= i < k && MarksDay(acts, i, day) && (forall j :: 0 <= j < i ==> !MarksDay(acts, j, day)) ==>
              day in ss[k].baseline && ss[k].baseline[day] == ss[i + 1].equity
  {
    hide Inv, Admissible, Total, Contributions, MarkAll, OpenPosition, ClosePosition, MarksDay;
    if k > 0 {
      BaselineIsFirstMark(ss, acts, start, k - 1, day);
      assert Apply(ss[k - 1], acts[k - 1]) == ss[k - 1 + 1];
      StepBaseline(ss[k - 1], acts[k - 1], day);
      MarksDayIs(acts, k - 1, day);
    }
  }

  ghost predicate MarksDay(acts: seq<Action>, i: nat, day: Day) {
    i < |acts| && acts[i].Revalue? && acts[i].marks.day == day
  }

  lemma MarksDayIs(acts: seq<Action>, i: nat, day: Day)
    ensures MarksDay(acts, i, day) <==> i < |acts| && acts[i].Revalue? && acts[i].marks.day == day
  {
  }

  lemma StepBaseline(s: State, a: Action, day: Day)
    ensures var s' := Apply(s, a);
            if day in s.baseline then day in s'.baseline && s'.baseline[day] == s.baseline[day]
            else (day in s'.baseline <==> a.Revalue? && a.marks.day == day)
                 && (day in s'.baseline ==> s'.baseline[day] == s'.equity)
  {
    hide Total, Contributions, MarkAll, ClosedPosition;
  }
}
