/** Runs from the start in which a commit lands but is reported as failed: an exit, after which
    locked capital passes the limit, and the start of a run, which then belongs to nobody. */
module LostCommits {
  import opened Options
  import L = Ledger
  import opened PaperAccount
  import opened Admission
  import opened Exposure
  import M = BrokerMirror
  import B = BookSplits
  import R = Recovery

  // ---------------------------------------------------------------------------
  // A lost exit, then an entry that both checks let through.

  function Alone(db: Db, ledger: L.State): World {
    World(db, map[7 := Run(true, 0)], map[0 := Some(7)], map[0 := ledger])
  }

  function SecondEntry(): EntryRequest {
    EntryRequest(L.Entry("other", 9.0, 1.0, "again", "q", 1.0, 2, 0), None)
  }

  const BothPrices := L.Marks(map["mint" := 0.5, "other" := 9.0], 3, 0)

  function Empty(): World {
    World(Initial(100.0), map[], map[0 := None], map[])
  }

  function SoldDb(): Db {
    var db := B.Holding().db;
    if "p" in db.positions && db.positions["p"].tokens > 0.0 then ExitWritten(db, B.ExitOf(2.0, 1.0, true), "p") else db
  }

  function TwiceDb(): Db {
    EntryWritten(SoldDb(), SecondEntry())
  }

  function TwiceLedger(): L.State {
    L.OpenPosition(B.Holding().ledger, SecondEntry().entry)
  }

  lemma Owns(db: Db, l: L.State)
    ensures OwnsAccount(Alone(db, l), 0) && OwnsActive(Alone(db, l), 0)
  {
  }

  lemma Starts()
    ensures Init(Empty(), B.Wide)
    ensures Step(Empty(), B.Wide, StartRun(0, 7, 0, 120, false, Known),
                 Alone(Initial(100.0), L.Initial(100.0)).(ledgers := map[]))
  {
    assert Active(Empty().runs) == {};
    assert StopAll(Empty().runs, 0) == map[];
  }

  lemma Loads()
    ensures var w := Alone(Initial(100.0), L.Initial(100.0));
            Step(w.(ledgers := map[]), B.Wide, Load(0), w)
  {
    assert R.Restored(Initial(100.0)) == L.Initial(100.0);
  }

  lemma FirstEntry()
    ensures Step(Alone(Initial(100.0), L.Initial(100.0)), B.Wide, Enter(0, B.EntryOf(2.0), true, Known),
                 Alone(B.Holding().db, B.Holding().ledger))
  {
    hide M.BrokerOpen, OwnsAccount, B.Holding;
    var w := Alone(Initial(100.0), L.Initial(100.0));
    Owns(w.db, L.Initial(100.0));
    B.HoldingIsReached();
    assert M.BrokerOpen(M.Books(w.db, w.ledgers[0]), B.EntryOf(2.0), B.Wide, true, true) == B.Holding();
  }

  lemma ClosesBroker()
    ensures M.BrokerClose(B.Holding(), B.ExitOf(2.0, 1.0, true), true).db == SoldDb()
  {
    hide M.BrokerClose, M.ExitCommits, ExitWritten, M.Sound, B.Holding;
    B.HoldingIsReached();
    B.HoldingAdmits(2.0, 1.0, true);
    M.ExitEffect(B.Holding(), M.Close(B.ExitOf(2.0, 1.0, true), true));
    HoldingRows();
  }

  lemma LostExit()
    ensures Step(Alone(B.Holding().db, B.Holding().ledger), B.Wide, Leave(0, B.ExitOf(2.0, 1.0, true), Unknown(true)),
                 Alone(SoldDb(), B.Holding().ledger))
  {
    hide M.BrokerClose, OwnsAccount, SoldDb, B.Holding;
    var w, x := Alone(B.Holding().db, B.Holding().ledger), B.ExitOf(2.0, 1.0, true);
    Owns(w.db, w.ledgers[0]);
    HoldingRows();
    ClosesBroker();
    assert M.Books(w.db, w.ledgers[0]) == B.Holding();
  }

  function FirstRow(): Row {
    Row("mint", OpenRow, 2.0, 1.0, 0, 2.0, 1.0, 0.0, 0.0, 1.0, 1.0, 0.0, 0.0, false, false, Some(0))
  }

  lemma HoldingRows()
    ensures B.Holding().db.account == Account(99.0, 1.0, 0.0, 0.0, 0.0, 100.0, 100.0, NotHalted, None, None)
    ensures B.Holding().db.positions == map["p" := FirstRow()]
    ensures B.Holding().db.orders == map["buy" := Order(true, 0, 0, "p")]
  {
  }

  lemma SoldFigures()
    ensures Figures(FirstRow(), B.ExitOf(2.0, 1.0, true)) == ExitFigures(1.0, 1.0, 0.0, 0.0)
  {
  }

  /** The database between the exit and the next entry. */
  lemma SoldRows()
    ensures SoldDb().account == Account(100.0, 0.0, 0.0, 0.0, 0.0, 100.0, 100.0, NotHalted, None, None)
    ensures SoldDb().positions.Keys == {"p"} && SoldDb().positions["p"].status == ClosedRow
    ensures SoldDb().orders == map["buy" := Order(true, 0, 0, "p"), "sell" := Order(false, 1, 0, "p")]
  {
    hide B.Holding, Figures, ExitWritten, RowAfterExit, AccountAfterExit, FirstRow, SoldDb;
    SoldIsExit();
    HoldingRows();
    SoldFigures();
    FirstIsLive();
    var f, x := ExitFigures(1.0, 1.0, 0.0, 0.0), B.ExitOf(2.0, 1.0, true);
    ExitParts(B.Holding().db, x, "p");
    RowIsClosed(FirstRow(), x, f);
    SoldAccount(f);
  }

  lemma FirstIsLive()
    ensures FirstRow().tokens == 2.0 && B.ExitOf(2.0, 1.0, true).exit.tokens == 2.0
    ensures var x := B.ExitOf(2.0, 1.0, true).exit; x.order == "sell" && x.at == 1 && x.day == 0
  {
  }

  lemma SoldIsExit()
    ensures "p" in B.Holding().db.positions && B.Holding().db.positions["p"].tokens > 0.0
    ensures SoldDb() == ExitWritten(B.Holding().db, B.ExitOf(2.0, 1.0, true), "p")
  {
    hide B.Holding, ExitWritten;
    HoldingRows();
  }

  lemma SoldAccount(f: ExitFigures)
    requires f == ExitFigures(1.0, 1.0, 0.0, 0.0)
    ensures AccountAfterExit(Account(99.0, 1.0, 0.0, 0.0, 0.0, 100.0, 100.0, NotHalted, None, None), f)
            == Account(100.0, 0.0, 0.0, 0.0, 0.0, 100.0, 100.0, NotHalted, None, None)
  {
  }

  lemma ExitParts(db: Db, x: ExitRequest, id: PositionId)
    requires id in db.positions && db.positions[id].tokens > 0.0
    ensures var f, after := Figures(db.positions[id], x), ExitWritten(db, x, id);
            after.account == AccountAfterExit(db.account, f)
            && after.positions == db.positions[id := RowAfterExit(db.positions[id], x, f)]
            && after.orders == db.orders[x.exit.order := Order(false, x.exit.at, x.exit.day, id)]
  {
    hide Figures, RowAfterExit, AccountAfterExit;
  }

  lemma RowIsClosed(r: Row, x: ExitRequest, f: ExitFigures)
    requires x.quoted && x.exit.tokens == r.tokens
    ensures RowAfterExit(r, x, f).status == ClosedRow
  {
  }

  lemma SoldAllows()
    ensures EntryAllowed(SoldDb(), SecondEntry(), B.Wide)
    ensures SoldDb().account.locked == 0.0 && "again" !in SoldDb().orders && "q" !in SoldDb().positions
  {
    hide SoldDb;
    SoldRows();
    var db := SoldDb();
    assert LiveIds(db.positions) == {};
    assert BuysOn(db.orders, 0) == {"buy"};
  }

  lemma LedgerStillHolds()
    ensures var l := B.Holding().ledger;
            l.locked == 1.0 && "other" !in l.byToken && "again" !in l.entryOrders && !M.KnownTo(l, "again", true)
  {
  }

  lemma EntersAgain()
    ensures Step(Alone(SoldDb(), B.Holding().ledger), B.Wide, Enter(0, SecondEntry(), true, Known),
                 Alone(TwiceDb(), TwiceLedger()))
    ensures TwiceLedger().locked == 11.0
  {
    hide OwnsAccount, SoldDb, B.Holding, EntryAllowed, M.KnownTo, EntryWritten, L.OpenPosition;
    var w := Alone(SoldDb(), B.Holding().ledger);
    Owns(w.db, w.ledgers[0]);
    SoldAllows();
    LedgerStillHolds();
    assert L.Enter(w.ledgers[0], SecondEntry().entry).0 == TwiceLedger();
    assert TwiceLedger().locked == 11.0 by { LockedAdds(B.Holding().ledger, SecondEntry().entry); }
  }

  lemma LockedAdds(l: L.State, e: L.Entry)
    requires e.tokens > 0.0
    ensures L.OpenPosition(l, e).locked == l.locked + (e.usd + e.fee)
  {
  }

  function MarkGains(): map<L.PositionId, real> {
    map["p" := 0.0, "q" := -1.0]
  }

  ghost function MarkedWorld(): World {
    var l := L.Mark(TwiceLedger(), BothPrices);
    Alone(MarksWritten(TwiceDb(), l, MarkGains()), l)
  }

  lemma MarksAlone(db: Db, l: L.State, m: L.Marks, gains: map<PositionId, real>)
    ensures var l' := L.Mark(l, m);
            Step(Alone(db, l), B.Wide, Marks(0, m, gains, Known), Alone(MarksWritten(db, l', gains), l'))
  {
    hide OwnsAccount, MarksWritten, L.Mark;
    Owns(db, l);
  }

  lemma MarksLast()
    ensures Step(Alone(TwiceDb(), TwiceLedger()), B.Wide, Marks(0, BothPrices, MarkGains(), Known), MarkedWorld())
    ensures MarkedWorld().db.account.locked == TwiceLedger().locked
  {
    hide Step, TwiceDb, TwiceLedger, MarksWritten, L.Mark;
    MarksAlone(TwiceDb(), TwiceLedger(), BothPrices, MarkGains());
    R.MarkKeepsCash(TwiceLedger(), BothPrices);
    TakesLocked(TwiceDb(), L.Mark(TwiceLedger(), BothPrices));
  }

  lemma TakesLocked(db: Db, l: L.State)
    ensures MarksWritten(db, l, MarkGains()).account.locked == l.locked
  {
  }

  /** A position is sold, but its exit is reported as failed, so the ledger still counts it. The
      next entry passes the check on the ledger, which leaves out the fee, and the one in the
      transaction, which does not see the sold position; then the ledger's figure is stored. It
      exceeds the limit by that one fee, the most that `ExposureWithinFee` allows. */
  lemma LostExitOverexposes() returns (ws: seq<World>, acts: seq<Action>)
    ensures IsRun(ws, B.Wide, acts) && |acts| == 6 && forall i :: 0 <= i < 6 ==> FeeAtMost(acts[i], 1.0)
    ensures acts[3].Leave? && acts[3].commit == Unknown(true)
    ensures forall i :: 0 <= i < 6 && i != 3 ==> !acts[i].Crash? && (acts[i].Load? || acts[i].commit == Known)
    ensures forall j :: 0 <= j <= 5 ==> ws[j].db.account.locked <= B.Wide.maxExposure
    ensures ws[6].db.account.locked == B.Wide.maxExposure + 1.0
  {
    hide Step, OwnsAccount, TwiceDb, TwiceLedger, MarkedWorld, B.Holding, SoldDb;
    Starts();
    Loads();
    FirstEntry();
    LostExit();
    EntersAgain();
    MarksLast();
    ws := [Empty(), Alone(Initial(100.0), L.Initial(100.0)).(ledgers := map[]), Alone(Initial(100.0), L.Initial(100.0)),
           Alone(B.Holding().db, B.Holding().ledger), Alone(SoldDb(), B.Holding().ledger), Alone(TwiceDb(), TwiceLedger()),
           MarkedWorld()];
    acts := [StartRun(0, 7, 0, 120, false, Known), Load(0), Enter(0, B.EntryOf(2.0), true, Known),
             Leave(0, B.ExitOf(2.0, 1.0, true), Unknown(true)), Enter(0, SecondEntry(), true, Known),
             Marks(0, BothPrices, MarkGains(), Known)];
    SmallSoFar();
  }

  lemma SmallSoFar()
    ensures B.Holding().db.account.locked == 1.0 && SoldDb().account.locked == 0.0 && TwiceDb().account.locked == 10.0
  {
    hide B.Holding, SoldDb;
    HoldingRows();
    SoldRows();
  }

  // ---------------------------------------------------------------------------
  // A lost start.

  function Orphaned(): World {
    Empty().(runs := map[7 := Run(true, 0)])
  }

  lemma LosesStart()
    ensures Init(Empty(), B.Wide) && Step(Empty(), B.Wide, StartRun(0, 7, 0, 120, false, Unknown(true)), Orphaned())
    ensures Unowned(Orphaned(), 7)
  {
    assert Active(Empty().runs) == {};
    assert StopAll(Empty().runs, 0) == map[];
  }

  lemma RefusesEntry()
    ensures Step(Orphaned(), B.Wide, Enter(0, B.EntryOf(2.0), true, Known), Orphaned())
  {
    hide EntryAllowed, EntryWritten;
    assert 7 in Active(Orphaned().runs);
  }

  /** A process is told that its start failed, although it has landed: an entry that every limit
      allows is then refused. */
  lemma LostStartBlocksAccount() returns (ws: seq<World>, acts: seq<Action>)
    ensures IsRun(ws, B.Wide, acts) && |acts| == 2 && acts[0].StartRun? && acts[0].commit == Unknown(true)
    ensures Unowned(ws[1], acts[0].run)
    ensures acts[1].Enter? && EntryAllowed(ws[1].db, acts[1].request, B.Wide) && ws[2] == ws[1]
  {
    hide Step, EntryAllowed;
    LosesStart();
    RefusesEntry();
    B.EmptyAllows(B.EntryOf(2.0), Initial(100.0));
    ws := [Empty(), Orphaned(), Orphaned()];
    acts := [StartRun(0, 7, 0, 120, false, Unknown(true)), Enter(0, B.EntryOf(2.0), true, Known)];
  }
}
