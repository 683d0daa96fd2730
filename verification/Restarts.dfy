/** Runs of the broker in which the process is restarted, any number of times, with operational
    costs recorded while it is down. */
module Restarts {
  import opened Sums
  import L = Ledger
  import opened PaperAccount
  import opened BrokerMirror
  import opened BookSplits
  import opened WriteOffs
  import opened Recovery

  // ---------------------------------------------------------------------------
  // The ledger invariant across one restart.

  /** The stored peak covers the stored equity. */
  predicate PeakCovers(db: Db) {
    db.account.peak >= db.account.equity
  }

  lemma StrandedBreaks(b: Books, start: real, id: PositionId)
    requires Sound(b) && Restorable(b.db) && L.PositionsInv(b.ledger) && Stranded(b, id)
    ensures !L.PositionsInv(Restored(b.db))
  {
    hide Restored, RestoredPosition, L.Indexed, L.Listed, Filed, OrdersAgree, L.Recount;
    HeldPosition(b, id);
    RestoredPositions(b.db);
    RestoredRow(b.db.positions[id]);
    assert L.PositionInv(b.ledger.positions[id], id, b.ledger.fills);
    assert !L.PositionInv(Restored(b.db).positions[id], id, Restored(b.db).fills);
  }

  lemma RestoredPositionsHold(b: Books)
    requires Sound(b) && Restorable(b.db) && L.PositionsInv(b.ledger) && forall id :: !Stranded(b, id)
    ensures L.PositionsInv(Restored(b.db))
    ensures L.OpenCosts(Restored(b.db).positions) == L.OpenCosts(b.ledger.positions)
  {
    hide Restored, L.Indexed, L.Listed, Filed, L.Recount, SameAmounts, RestoredPosition, Stranded;
    var r, l := Restored(b.db), b.ledger;
    RestoredPositions(b.db);
    RestoredFigures(b.db);
    FillsAgree(b);
    forall id | id in l.positions
      ensures id in r.positions && L.PositionInv(r.positions[id], id, r.fills)
              && r.positions[id].status == l.positions[id].status && r.positions[id].cost == l.positions[id].cost
    {
      OneRestored(b, id);
      AmountsOf(r.positions[id], l.positions[id]);
      assert L.PositionInv(l.positions[id], id, l.fills);
    }
    assert r.positions.Keys == l.positions.Keys;
  }

  lemma FillsAgree(b: Books)
    requires Sound(b)
    ensures b.db.fills == b.ledger.fills && b.db.positions.Keys == b.ledger.positions.Keys
  {
  }

  lemma AmountsOf(p: L.Position, q: L.Position)
    requires SameAmounts(p, q)
    ensures p.tokens == q.tokens && p.cost == q.cost && p.realized == q.realized
  {
  }

  /** Everything the ledger keeps over its runs survives a restart exactly when no position is
      stranded at that moment. */
  lemma RestoredInvIff(b: Books, start: real)
    requires Sound(b) && Restorable(b.db) && L.Inv(b.ledger, start)
    requires b.ledger.daily == DailyOf(b.ledger.fills) && PeakCovers(b.db)
    ensures L.Inv(Restored(b.db), start) <==> forall id :: !Stranded(b, id)
  {
    hide Restored, L.PositionsInv, L.Indexed, L.Listed, Restorable, DailyOf, L.Recount, Total, L.OpenCosts, Stranded, RowsAgree,
      AccountsAgree, OrdersAgree, Filed;
    if forall id :: !Stranded(b, id) {
      RestoredPositionsHold(b);
      RestoredIsSound(b.db);
      RestoredBalance(b, start);
    } else {
      var id :| Stranded(b, id);
      StrandedBreaks(b, start, id);
    }
  }

  lemma RestoredBalance(b: Books, start: real)
    requires Sound(b) && Restorable(b.db) && L.Balanced(b.ledger, start) && PeakCovers(b.db)
    requires b.ledger.daily == DailyOf(b.ledger.fills)
    requires L.OpenCosts(Restored(b.db).positions) == L.OpenCosts(b.ledger.positions)
    ensures L.Balanced(Restored(b.db), start)
  {
    hide Restored, L.Indexed, L.Listed, DailyOf, L.Recount, Total, L.OpenCosts, RowsAgree, Filed;
    RestoredFigures(b.db);
  }

  // ---------------------------------------------------------------------------
  // Costs recorded while no run is active.

  function CostsWritten(db: Db, costs: seq<real>): Db {
    if costs == [] then db else CostWritten(CostsWritten(db, costs[..|costs| - 1]), costs[|costs| - 1])
  }

  function Sum(costs: seq<real>): real {
    if costs == [] then 0.0 else Sum(costs[..|costs| - 1]) + costs[|costs| - 1]
  }

  predicate Positive(costs: seq<real>) {
    forall i :: 0 <= i < |costs| ==> costs[i] > 0.0
  }

  lemma {:induction false} SumIsPositive(costs: seq<real>)
    requires Positive(costs)
    ensures Sum(costs) >= 0.0 && (Sum(costs) == 0.0 <==> costs == [])
  {
    if costs != [] { SumIsPositive(costs[..|costs| - 1]); }
  }

  /** Costs lower cash and equity alike, and touch nothing else. */
  lemma {:induction false} CostsLowerEquity(db: Db, costs: seq<real>)
    ensures var a := db.account;
            CostsWritten(db, costs) == db.(account := a.(operational := a.operational + Sum(costs), cash := a.cash - Sum(costs),
                                                         equity := a.equity - Sum(costs)))
  {
    if costs != [] { CostsLowerEquity(db, costs[..|costs| - 1]); }
  }

  lemma CostsStayHealthy(db: Db, costs: seq<real>)
    requires Restorable(db) && PeakCovers(db) && Positive(costs)
    ensures Restorable(CostsWritten(db, costs)) && PeakCovers(CostsWritten(db, costs))
  {
    hide CostsWritten, OnePerMint, SoundRows, Filed, Sum;
    CostsLowerEquity(db, costs);
    SumIsPositive(costs);
    MarksFiled(db, CostsWritten(db, costs));
  }

  /** The ledger restored afterwards differs in its equity alone. */
  lemma RestoredAfterCosts(db: Db, costs: seq<real>)
    requires OnePerMint(db.positions)
    ensures OnePerMint(CostsWritten(db, costs).positions)
    ensures Restored(CostsWritten(db, costs)) == Restored(db).(equity := db.account.equity - Sum(costs))
  {
    hide CostsWritten, Sum, DailyOf, RestoredPosition;
    CostsLowerEquity(db, costs);
  }

  lemma LowerEquityIff(s: L.State, start: real, cost: real)
    requires cost >= 0.0 && s.peak >= s.equity
    ensures L.Inv(s.(equity := s.equity - cost), start - cost) <==> L.Inv(s, start)
  {
    hide L.Recount, Total, L.OpenCosts, L.PositionInv;
    assert L.Indexed(s.(equity := s.equity - cost)) <==> L.Indexed(s);
  }

  // ---------------------------------------------------------------------------
  // Runs with restarts.

  /** `costs` are recorded between the end of one run and the start of the next. */
  datatype Event = Act(action: Action) | Restart(costs: seq<real>)

  ghost predicate Happens(b: Books, e: Event, b': Books) {
    match e
    case Act(a) => Fresh(b.db, a) && SoundQuote(a) && FeeNotNegative(a) && b' == Apply(b, a)
    case Restart(costs) =>
      Positive(costs) && OnePerMint(CostsWritten(b.db, costs).positions)
      && b' == Books(CostsWritten(b.db, costs), Restored(CostsWritten(b.db, costs)))
  }

  ghost predicate IsLife(bs: seq<Books>, es: seq<Event>, start: real) {
    |bs| == |es| + 1 && bs[0] == Books(Initial(start), L.Initial(start))
    && forall i :: 0 <= i < |es| ==> Happens(bs[i], es[i], bs[i + 1])
  }

  ghost predicate Healthy(b: Books) {
    Sound(b) && Restorable(b.db) && PeakCovers(b.db) && b.ledger.daily == DailyOf(b.ledger.fills)
  }

  lemma StepKeepsPeak(b: Books, a: Action)
    requires Sound(b) && Fresh(b.db, a) && PeakCovers(b.db)
    ensures PeakCovers(Apply(b, a).db)
  {
    hide ExitCommits, EntryCommits, L.Enter, L.Leave, Figures, RowAfterExit, Filed, RowsAgree, OrdersAgree, AccountsAgree,
      Usable, L.Contributions, L.MarkAll, Total;
    match a
    case Open(_, _, _, _) =>
      EntryEffect(b, a);
      if EntryCommits(b, a) { NotDust(b, a); }
    case Close(_, _) => ExitEffect(b, a);
    case Revalue(_, _, _) =>
  }

  lemma HappensKeepsHealthy(b: Books, e: Event, b': Books)
    requires Healthy(b) && Happens(b, e, b')
    ensures Healthy(b')
  {
    hide Sound, Restorable, PeakCovers, DailyOf, Apply, Fresh, SoundQuote, FeeNotNegative, Restored, CostsWritten, Positive;
    match e
    case Act(a) =>
      StepKeepsAgreement(b, a);
      StepStaysRestorable(b, a);
      StepKeepsPeak(b, a);
      StepKeepsBooksDaily(b, a);
    case Restart(costs) =>
      CostsStayHealthy(b.db, costs);
      RestoredIsSound(CostsWritten(b.db, costs));
      RestoredFigures(CostsWritten(b.db, costs));
  }

  lemma InitialIsHealthy(start: real)
    ensures Healthy(Books(Initial(start), L.Initial(start)))
  {
    hide Sound, Restorable;
    InitialAgrees(start);
    InitialIsRestorable(start);
  }

  /** Over every run with any number of restarts the two books agree, the database can be restored
      from, and each day's total is the one recomputed from the fills. */
  lemma {:induction false} LifeIsHealthy(bs: seq<Books>, es: seq<Event>, start: real, k: nat)
    requires IsLife(bs, es, start) && k < |bs|
    ensures Healthy(bs[k])
  {
    hide Happens, Healthy;
    if k == 0 {
      InitialIsHealthy(start);
    } else {
      LifeIsHealthy(bs, es, start, k - 1);
      assert Happens(bs[k - 1], es[k - 1], bs[k - 1 + 1]);
      HappensKeepsHealthy(bs[k - 1], es[k - 1], bs[k]);
    }
  }

  ghost predicate RestartsClean(b: Books, e: Event) {
    e.Restart? ==> forall id :: !Stranded(b, id)
  }

  ghost predicate CostFree(e: Event) {
    e.Restart? ==> e.costs == []
  }

  /** The starting equity less the costs recorded so far. */
  function Remaining(b: Books, start: real): real {
    start - b.db.account.operational
  }

  lemma ActRecordsNoCost(b: Books, a: Action)
    requires Sound(b) && Fresh(b.db, a)
    ensures Apply(b, a).db.account.operational == b.db.account.operational
  {
    hide ExitCommits, EntryCommits, L.Enter, L.Leave, Figures, RowAfterExit, Sound, L.Contributions, L.MarkAll, Total;
    match a
    case Open(_, _, _, _) =>
      EntryEffect(b, a);
      if EntryCommits(b, a) { NotDust(b, a); }
    case Close(_, _) => ExitEffect(b, a);
    case Revalue(_, _, _) =>
  }

  lemma InvSurvivesIff(b: Books, e: Event, b': Books, start: real)
    requires Healthy(b) && Happens(b, e, b') && L.Inv(b.ledger, Remaining(b, start))
    ensures L.Inv(b'.ledger, Remaining(b', start)) <==> RestartsClean(b, e)
  {
    hide Sound, Restorable, PeakCovers, DailyOf, Apply, Fresh, SoundQuote, FeeNotNegative, Restored, L.Inv, Stranded,
      CostsWritten, Positive, Sum;
    match e
    case Act(a) =>
      MirrorKeepsLedgerInv(b, a, Remaining(b, start));
      ActRecordsNoCost(b, a);
    case Restart(costs) =>
      HealthyIsUnique(b);
      RestoredInvIff(b, Remaining(b, start));
      SumIsPositive(costs);
      CostsLowerEquity(b.db, costs);
      RestoredAfterCosts(b.db, costs);
      RestoredPeakCovers(b.db);
      LowerEquityIff(Restored(b.db), Remaining(b, start), Sum(costs));
  }

  lemma RestoredPeakCovers(db: Db)
    requires OnePerMint(db.positions) && PeakCovers(db)
    ensures Restored(db).peak >= Restored(db).equity && Restored(db).equity == db.account.equity
  {
    hide RestoredPosition, DailyOf;
  }

  /** Over every run with restarts and costs the ledger keeps balance, recount from fills and
      indexes at every moment, from the starting equity less the costs recorded so far, exactly
      when no restart happens while a position is stranded. */
  lemma {:induction false} ConservationOverLifeIff(bs: seq<Books>, es: seq<Event>, start: real, k: nat)
    requires IsLife(bs, es, start) && k < |bs|
    ensures (forall j :: 0 <= j <= k ==> L.Inv(bs[j].ledger, Remaining(bs[j], start)))
            <==> forall j :: 0 <= j < k ==> RestartsClean(bs[j], es[j])
  {
    hide Happens, Healthy, L.Inv, RestartsClean;
    if k == 0 {
      L.InitialInv(start);
    } else {
      ConservationOverLifeIff(bs, es, start, k - 1);
      LifeIsHealthy(bs, es, start, k - 1);
      assert Happens(bs[k - 1], es[k - 1], bs[k - 1 + 1]);
      if L.Inv(bs[k - 1].ledger, Remaining(bs[k - 1], start)) {
        InvSurvivesIff(bs[k - 1], es[k - 1], bs[k], start);
      }
    }
  }

  /** A process that dies between the two halves of an operation, with the database's half landed
      and the ledger's missing: the restart recovers, whatever the ledger was, and the conservation
      laws hold again exactly when the whole operation would have left no position stranded. */
  lemma CrashMidwayRecovers(b: Books, a: Action, costs: seq<real>, start: real)
    requires Healthy(b) && L.Inv(b.ledger, Remaining(b, start)) && Positive(costs)
    requires Fresh(b.db, a) && SoundQuote(a) && FeeNotNegative(a)
    ensures OnePerMint(CostsWritten(Apply(b, a).db, costs).positions)
    ensures var db := CostsWritten(Apply(b, a).db, costs);
            Healthy(Books(db, Restored(db)))
            && (L.Inv(Restored(db), Remaining(Books(db, Restored(db)), start)) <==> forall id :: !Stranded(Apply(b, a), id))
  {
    hide Healthy, Apply, Fresh, SoundQuote, FeeNotNegative, Restored, L.Inv, Stranded, CostsWritten, Positive, Sum, Remaining;
    var whole := Apply(b, a);
    HappensKeepsHealthy(b, Act(a), whole);
    InvSurvivesIff(b, Act(a), whole, start);
    HealthyIsUnique(whole);
    RestoredAfterCosts(whole.db, costs);
    var after := Books(CostsWritten(whole.db, costs), Restored(CostsWritten(whole.db, costs)));
    HappensKeepsHealthy(whole, Restart(costs), after);
    InvSurvivesIff(whole, Restart(costs), after, start);
  }

  /** While no cost has been recorded, what survives against the starting equity itself. */
  lemma PlainSurvivesIff(b: Books, e: Event, b': Books, start: real)
    requires Healthy(b) && Happens(b, e, b') && L.Inv(b.ledger, start) && b.db.account.operational == 0.0
    ensures L.Inv(b'.ledger, start) <==> RestartsClean(b, e) && CostFree(e)
    ensures CostFree(e) ==> b'.db.account.operational == 0.0
  {
    hide Sound, Restorable, PeakCovers, DailyOf, Apply, Fresh, SoundQuote, FeeNotNegative, Restored, L.Inv, Stranded,
      CostsWritten, Positive, Sum, RestartsClean;
    InvSurvivesIff(b, e, b', start);
    match e
    case Act(a) => ActRecordsNoCost(b, a);
    case Restart(costs) =>
      CostsLowerEquity(b.db, costs);
      SumIsPositive(costs);
      if costs != [] { CostBreaksBalance(b, costs, start); }
  }

  /** A cost breaks the balance against the starting equity, stranded position or not. */
  lemma CostBreaksBalance(b: Books, costs: seq<real>, start: real)
    requires Healthy(b) && L.Inv(b.ledger, start) && Positive(costs) && costs != []
    ensures OnePerMint(CostsWritten(b.db, costs).positions)
    ensures !L.Inv(Restored(CostsWritten(b.db, costs)), start)
  {
    hide Restorable, PeakCovers, DailyOf, Restored, CostsWritten, Positive, Sum, RowsAgree, OrdersAgree, Usable, Filed,
      L.PositionsInv, L.Indexed, L.Listed, L.Recount, Total, L.OpenCosts;
    HealthyIsUnique(b);
    SumIsPositive(costs);
    CostsLowerEquity(b.db, costs);
    RestoredAfterCosts(b.db, costs);
    RestoredFigures(b.db);
  }

  /** Against the starting equity itself they hold at every moment exactly when, besides, no cost
      is ever recorded. */
  lemma {:induction false} PlainConservationOverLifeIff(bs: seq<Books>, es: seq<Event>, start: real, k: nat)
    requires IsLife(bs, es, start) && k < |bs|
    ensures (forall j :: 0 <= j <= k ==> L.Inv(bs[j].ledger, start))
            <==> forall j :: 0 <= j < k ==> RestartsClean(bs[j], es[j]) && CostFree(es[j])
    ensures (forall j :: 0 <= j < k ==> CostFree(es[j])) ==> bs[k].db.account.operational == 0.0
  {
    hide Happens, Healthy, L.Inv, RestartsClean, CostFree;
    if k == 0 {
      L.InitialInv(start);
    } else {
      PlainConservationOverLifeIff(bs, es, start, k - 1);
      LifeIsHealthy(bs, es, start, k - 1);
      assert Happens(bs[k - 1], es[k - 1], bs[k - 1 + 1]);
      if CostFree(es[k - 1]) { CostsAdd(bs[k - 1], es[k - 1], bs[k]); }
      if L.Inv(bs[k - 1].ledger, start) && bs[k - 1].db.account.operational == 0.0 {
        PlainSurvivesIff(bs[k - 1], es[k - 1], bs[k], start);
      }
    }
  }

  lemma CostsAdd(b: Books, e: Event, b': Books)
    requires Healthy(b) && Happens(b, e, b') && CostFree(e)
    ensures b'.db.account.operational == b.db.account.operational
  {
    hide Sound, Restorable, PeakCovers, DailyOf, Apply, Fresh, SoundQuote, FeeNotNegative, Restored;
    if e.Act? { ActRecordsNoCost(b, e.action); }
  }

  /** An entry, an exit of half of it without a quote, and a restart: the ledger invariant holds up
      to the restart and not after it. */
  lemma RestartAfterWriteOff() returns (bs: seq<Books>, es: seq<Event>)
    ensures IsLife(bs, es, 100.0) && |es| == 3 && es[2] == Restart([])
    ensures L.Inv(bs[2].ledger, 100.0) && !L.Inv(bs[3].ledger, 100.0)
  {
    hide Apply, Fresh, SoundQuote, L.Inv, Stranded, Restored, Healthy, WritesOff, EntryOf;
    var runBooks, acts := PartialWriteOffStrands();
    assert FeeNotNegative(acts[0]) by { NoFee(); }
    assert FeeNotNegative(acts[1]) by { OnlyEntriesHaveFees(runBooks, acts); }
    BooksAgree(runBooks, acts, 100.0, 2);
    LedgerInvHolds(runBooks, acts, 100.0, 2);
    var start := runBooks[..3];
    es := [Act(acts[0]), Act(acts[1])];
    assert IsLife(start, es, 100.0) by {
      assert forall i :: 0 <= i < 2 ==> runBooks[i + 1] == Apply(runBooks[i], acts[i]);
    }
    LifeIsHealthy(start, es, 100.0, 2);
    HealthyIsUnique(start[2]);
    var last := Books(start[2].db, Restored(start[2].db));
    assert Happens(start[2], Restart([]), last);
    PlainConservationOverLifeIff(start, es, 100.0, 2);
    PlainSurvivesIff(start[2], Restart([]), last, 100.0);
    bs, es := start + [last], es + [Restart([])];
  }

  /** One cost before a restart lowers what the ledger balances to by that cost. */
  lemma CostBetween(b: Books, cost: real, start: real)
    requires Healthy(b) && L.Inv(b.ledger, start) && b.db.account.operational == 0.0 && cost > 0.0
    requires forall id :: !Stranded(b, id)
    ensures OnePerMint(CostsWritten(b.db, [cost]).positions)
    ensures var after := Books(CostsWritten(b.db, [cost]), Restored(CostsWritten(b.db, [cost])));
            Happens(b, Restart([cost]), after) && !L.Inv(after.ledger, start) && L.Inv(after.ledger, start - cost)
  {
    hide L.Inv, Restored, Healthy, Sum, CostsWritten, Stranded;
    HealthyIsUnique(b);
    CostsLowerEquity(b.db, [cost]);
    SumOfOne(cost);
    var after := Books(CostsWritten(b.db, [cost]), Restored(CostsWritten(b.db, [cost])));
    InvSurvivesIff(b, Restart([cost]), after, start);
    PlainSurvivesIff(b, Restart([cost]), after, start);
  }

  /** A cost of one recorded before the first trade. */
  lemma CostAlone() returns (bs: seq<Books>, es: seq<Event>)
    ensures |bs| == 2 && |es| == 1 && es[0].Restart? && es[0].costs == [1.0]
    ensures L.Inv(bs[0].ledger, 100.0) && !L.Inv(bs[1].ledger, 100.0) && L.Inv(bs[1].ledger, 99.0)
    ensures IsLife(bs, es, 100.0) && forall id :: !Stranded(bs[0], id)
  {
    hide L.Inv, Restored, Healthy, CostsWritten, Happens;
    var b := Books(Initial(100.0), L.Initial(100.0));
    InitialIsHealthy(100.0);
    L.InitialInv(100.0);
    CostBetween(b, 1.0, 100.0);
    bs, es := [b, Books(CostsWritten(b.db, [1.0]), Restored(CostsWritten(b.db, [1.0])))], [Restart([1.0])];
  }

  lemma SumOfOne(cost: real)
    ensures Sum([cost]) == cost
  {
  }

  lemma NoFee()
    ensures EntryOf(2.0).entry.fee == 0.0
  {
  }

  lemma OnlyEntriesHaveFees(bs: seq<Books>, acts: seq<Action>)
    requires |bs| > 1 && |acts| > 1 && WritesOff(bs[1], acts[1], "p")
    ensures FeeNotNegative(acts[1])
  {
  }

  lemma HealthyIsUnique(b: Books)
    requires Healthy(b)
    ensures OnePerMint(b.db.positions)
  {
  }
}
