/** Operational costs and the cash of the account: exactly when cash goes negative, and a run in
    which a process whose run was stopped makes it so. */
module OperationalCosts {
  import opened Options
  import L = Ledger
  import opened PaperAccount
  import opened Admission
  import M = BrokerMirror
  import R = Recovery

  /** A cost above the cash that is there, recorded while no run is active. */
  ghost predicate Overdraws(w: World, a: Action) {
    a.RecordCost? && Lands(a.commit) && a.amount > w.db.account.cash && Active(w.runs) == {}
  }

  // ---------------------------------------------------------------------------
  // One step.

  lemma EntryLeavesCash(db: Db, q: EntryRequest, lim: Limits)
    requires EntryAllowed(db, q, lim)
    ensures q.entry.tokens != 0.0 && EntryWritten(db, q).account.cash >= 0.0
  {
    hide BuysOn, LiveIds, Abs, NewRow;
  }

  lemma ExitAddsCash(db: Db, x: ExitRequest, id: PositionId)
    requires SoundRows(db.positions) && ExitHits(db, x, id)
    ensures ExitWritten(db, x, id).account.cash >= db.account.cash
  {
    hide RowAfterExit;
    R.ExitFiguresAreSound(db, x, id);
  }

  lemma OthersLeaveCash(db: Db, l: L.State, gains: map<PositionId, real>, h: Halt, d: Option<Day>, p: Option<int>)
    ensures MarksWritten(db, l, gains).account.cash == db.account.cash
    ensures RiskWritten(db, h, d, p).account.cash == db.account.cash
  {
  }

  lemma RowsAreSound(db: Db)
    requires R.Stored(db)
    ensures SoundRows(db.positions)
  {
  }

  /** Cash that is not negative stays so through a step exactly when the step is not an overdrawing
      cost. */
  lemma CashStaysIff(w: World, lim: Limits, a: Action, w': World)
    requires Inv(w, lim) && Step(w, lim, a, w') && w.db.account.cash >= 0.0
    ensures w'.db.account.cash >= 0.0 <==> !Overdraws(w, a)
  {
    hide Guarded, R.Stored, LedgersOwned, Step, EntryAllowed, EntryWritten, ExitWritten, L.Mark, MarksWritten,
      AtMostOneRun, RiskWritten;
    CostIsRecorded(w, lim, a, w');
    if w'.db != w.db {
      StepOnDb(w, lim, a, w');
      match a
      case Enter(_, q, _, _) => EntryLeavesCash(w.db, q, lim);
      case Leave(_, x, _) =>
        var id :| ExitHits(w.db, M.Valued(x), id) && w'.db == ExitWritten(w.db, M.Valued(x), id);
        RowsAreSound(w.db);
        ExitAddsCash(w.db, M.Valued(x), id);
      case Marks(who, m, gains, _) => OthersLeaveCash(w.db, L.Mark(w.ledgers[who], m), gains, NotHalted, None, None);
      case PersistRisk(_, h, d, p, _) => OthersLeaveCash(w.db, L.Initial(0.0), map[], h, d, p);
      case RecordCost(_, _, _) =>
    }
  }

  lemma CostIsRecorded(w: World, lim: Limits, a: Action, w': World)
    requires Step(w, lim, a, w')
    ensures a.RecordCost? ==>
              w'.db == if a.amount > 0.0 && Active(w.runs) == {} && Lands(a.commit) then CostWritten(w.db, a.amount) else w.db
  {
  }

  // ---------------------------------------------------------------------------
  // Whole runs.

  /** Over every run cash stays non-negative throughout exactly when no step overdraws it. */
  lemma {:induction false} CashOverRunIff(ws: seq<World>, lim: Limits, acts: seq<Action>, k: nat)
    requires IsRun(ws, lim, acts) && k < |ws|
    ensures (forall j :: 0 <= j <= k ==> ws[j].db.account.cash >= 0.0)
            <==> forall j :: 0 <= j < k ==> !Overdraws(ws[j], acts[j])
  {
    hide Step, Inv, Overdraws;
    if k == 0 {
      StartsWithCash(ws[0], lim);
    } else {
      CashOverRunIff(ws, lim, acts, k - 1);
      LimitsHold(ws, lim, acts, k - 1);
      assert Step(ws[k - 1], lim, acts[k - 1], ws[k - 1 + 1]);
      if ws[k - 1].db.account.cash >= 0.0 {
        CashStaysIff(ws[k - 1], lim, acts[k - 1], ws[k]);
      }
    }
  }

  lemma StartsWithCash(w: World, lim: Limits)
    requires Init(w, lim)
    ensures w.db.account.cash >= 0.0
  {
  }

  // ---------------------------------------------------------------------------
  // A process whose run was stopped records a cost.

  const Lax := Limits(10.0, 10.0, 5, 50.0, 5)

  function Began(): World {
    World(Initial(1.0), map[], map[0 := None, 1 := None], map[])
  }

  function Started(): World {
    Began().(runs := map[7 := Run(true, 0)], owned := map[0 := Some(7), 1 := None])
  }

  function Stopped(): World {
    Started().(runs := map[7 := Run(false, 1)])
  }

  function Overdrawn(): World {
    Stopped().(db := CostWritten(Initial(1.0), 2.0))
  }

  lemma StartsRun()
    ensures Step(Began(), Lax, StartRun(0, 7, 0, 120, false, Known), Started())
  {
    assert Active(Began().runs) == {};
    assert StopAll(Began().runs, 0) == map[];
  }

  lemma StopsOthersRun()
    ensures Step(Started(), Lax, StopRun(1, 7, 1, Known), Stopped())
    ensures Active(Stopped().runs) == {} && !OwnsAccount(Stopped(), 0)
  {
  }

  lemma RecordsCost()
    ensures Step(Stopped(), Lax, RecordCost(0, 2.0, Known), Overdrawn())
  {
    StopsOthersRun();
  }

  lemma CashGoesNegative()
    ensures Init(Began(), Lax) && Stopped().db.account.cash == 1.0 && Overdrawn().db.account.cash == -1.0
    ensures 0 in Stopped().owned && Stopped().owned[0].Some?
  {
  }

  /** One process starts a run, another stops it, and the first, which no longer owns the account,
      records a cost above the cash. */
  lemma FencedCostOverdraws() returns (ws: seq<World>, acts: seq<Action>)
    ensures IsRun(ws, Lax, acts) && |acts| == 3 && acts[2].RecordCost? && acts[2].who in ws[2].owned
    ensures ws[2].owned[acts[2].who].Some? && !OwnsAccount(ws[2], acts[2].who)
    ensures ws[2].db.account.cash == 1.0 && ws[3].db.account.cash == -1.0
  {
    hide Step, OwnsAccount, Init, Began, Started, Stopped, Overdrawn;
    StartsRun();
    StopsOthersRun();
    RecordsCost();
    CashGoesNegative();
    ws := [Began(), Started(), Stopped(), Overdrawn()];
    acts := [StartRun(0, 7, 0, 120, false, Known), StopRun(1, 7, 1, Known), RecordCost(0, 2.0, Known)];
  }
}
