/** When an entry is written, rule by rule, and how long a halt or a pause keeps the account from
    buying. */
module EntryRules {
  import opened Options
  import L = Ledger
  import opened PaperAccount
  import opened Admission
  import M = BrokerMirror

  // ---------------------------------------------------------------------------
  // One transaction.

  /** The account may not buy at this time and day: it is halted, and not by the daily halt of an
      earlier day, or its pause reaches past the time. */
  predicate Barred(a: Account, day: Day, at: int) {
    (a.halt != NotHalted && !(a.halt == DailyHalt && a.haltDay.Some? && a.haltDay.value != day))
    || (a.pauseUntil.Some? && a.pauseUntil.value > at)
  }

  /** The equity has fallen by the daily limit, whatever its sign, since the day's baseline. */
  predicate LostTooMuch(equity: real, baseline: Option<real>, limit: real) {
    baseline.Some? && baseline.value - equity >= if limit < 0.0 then -limit else limit
  }

  /** A new order of the account's owner is written exactly when the account is not barred and the
      day's loss, the size, the exposure with the fee, the number of positions, the entries of the
      day, the token and the cash all allow it. A known order is answered by its record, whoever
      asks; everything else raises. */
  lemma EntryIsWrittenIff(db: Db, q: EntryRequest, lim: Limits, owner: bool)
    ensures var a, e, out := db.account, q.entry, CommitEntry(db, q, lim, owner);
            (out.Written? <==>
               e.order !in db.orders && owner && !Barred(a, e.day, e.at)
               && !LostTooMuch(a.equity, q.baseline, lim.dailyLoss)
               && e.usd <= lim.maxPosition
               && a.locked + e.usd + e.fee <= lim.maxExposure
               && |set id | id in db.positions && db.positions[id].status in {OpenRow, PartialRow}| < lim.maxOpen
               && |set o | o in db.orders && db.orders[o].isBuy && db.orders[o].day == e.day| < lim.maxTrades
               && (forall id :: id in db.positions && db.positions[id].mint == e.mint ==>
                     db.positions[id].status in {ClosedRow, UnrecoverableRow})
               && e.usd + e.fee <= a.cash && e.tokens != 0.0)
            && (out.Answered? <==> e.order in db.orders)
            && (e.order in db.orders ==> out == Answered(db.orders[e.order]))
  {
    hide EntryWritten;
    assert LiveIds(db.positions) == set id | id in db.positions && db.positions[id].status in {OpenRow, PartialRow};
    assert BuysOn(db.orders, q.entry.day) == set o | o in db.orders && db.orders[o].isBuy && db.orders[o].day == q.entry.day;
  }

  /** A written entry lifts what no longer bars it. */
  lemma WrittenLifts(db: Db, q: EntryRequest, lim: Limits, owner: bool)
    requires CommitEntry(db, q, lim, owner).Written?
    ensures var a := CommitEntry(db, q, lim, owner).db.account;
            a.halt == NotHalted && a.pauseUntil.None?
            && a.haltDay == if db.account.haltDay == Some(q.entry.day) then db.account.haltDay else None
  {
    hide LiveIds, BuysOn, NewRow;
  }

  // ---------------------------------------------------------------------------
  // Runs of the system.

  /** The controls of the account. */
  ghost predicate SameControls(a: Account, b: Account) {
    a.halt == b.halt && a.haltDay == b.haltDay && a.pauseUntil == b.pauseUntil
  }

  lemma OthersKeepControls(db: Db, l: L.State, gains: map<PositionId, real>, amount: real)
    ensures SameControls(MarksWritten(db, l, gains).account, db.account)
    ensures SameControls(CostWritten(db, amount).account, db.account)
  {
  }

  lemma ExitKeepsControls(db: Db, x: ExitRequest, id: PositionId)
    requires ExitHits(db, x, id)
    ensures SameControls(ExitWritten(db, x, id).account, db.account)
  {
    hide Figures;
  }

  lemma AllowedIsNotBarred(db: Db, q: EntryRequest, lim: Limits)
    requires EntryAllowed(db, q, lim)
    ensures !Barred(db.account, q.entry.day, q.entry.at)
  {
    hide LiveIds, BuysOn;
  }

  /** A step leaves the controls alone unless it is an entry or the risk manager's; an entry that
      they bar changes nothing. */
  lemma StepOnControls(w: World, lim: Limits, a: Action, w': World)
    requires Step(w, lim, a, w')
    ensures !a.Enter? && !a.PersistRisk? ==> SameControls(w'.db.account, w.db.account)
    ensures a.Enter? && Barred(w.db.account, a.request.entry.day, a.request.entry.at) ==> w'.db == w.db
  {
    hide Step, EntryAllowed, EntryWritten, ExitWritten, L.Mark, MarksWritten, Barred, SameControls, RiskWritten, CostWritten;
    SameIsSame(w.db.account);
    if w'.db != w.db {
      StepOnDb(w, lim, a, w');
      match a
      case Enter(_, q, _, _) => AllowedIsNotBarred(w.db, q, lim);
      case Leave(_, x, _) =>
        var id :| ExitHits(w.db, M.Valued(x), id) && w'.db == ExitWritten(w.db, M.Valued(x), id);
        ExitKeepsControls(w.db, M.Valued(x), id);
      case Marks(who, m, gains, _) => OthersKeepControls(w.db, L.Mark(w.ledgers[who], m), gains, 0.0);
      case RecordCost(_, amount, _) => OthersKeepControls(w.db, L.Initial(0.0), map[], amount);
      case PersistRisk(_, _, _, _, _) =>
    }
  }

  lemma SameIsSame(a: Account)
    ensures SameControls(a, a)
  {
  }

  lemma SameBars(a: Account, b: Account, day: Day, at: int)
    requires SameControls(a, b)
    ensures Barred(a, day, at) <==> Barred(b, day, at)
  {
  }

  /** The entry, if the step is one, is barred by the controls. */
  predicate EntryBarred(controls: Account, a: Action) {
    a.Enter? ==> Barred(controls, a.request.entry.day, a.request.entry.at)
  }

  /** Over every run, as long as the risk manager stores nothing new and every entry is for a time
      and day the controls bar, the controls stay and no entry changes the account: a plain halt
      bars every entry, a daily one those of its day, and a pause those before its end. */
  lemma {:induction false} BarredUntilLifted(ws: seq<World>, lim: Limits, acts: seq<Action>, i: nat, j: nat)
    requires IsRun(ws, lim, acts) && i <= j < |ws|
    requires forall m :: i <= m < j ==> !acts[m].PersistRisk? && EntryBarred(ws[i].db.account, acts[m])
    ensures SameControls(ws[j].db.account, ws[i].db.account)
    ensures forall m :: i <= m < j && acts[m].Enter? ==> ws[m + 1].db == ws[m].db
    decreases j
  {
    hide Step, Barred, SameControls;
    if i == j {
      SameIsSame(ws[i].db.account);
    } else {
      BarredUntilLifted(ws, lim, acts, i, j - 1);
      assert Step(ws[j - 1], lim, acts[j - 1], ws[j - 1 + 1]);
      StepOnControls(ws[j - 1], lim, acts[j - 1], ws[j]);
      if acts[j - 1].Enter? {
        SameBars(ws[j - 1].db.account, ws[i].db.account, acts[j - 1].request.entry.day, acts[j - 1].request.entry.at);
      } else {
        ControlsChain(ws[j].db.account, ws[j - 1].db.account, ws[i].db.account);
      }
    }
  }

  lemma ControlsChain(a: Account, b: Account, c: Account)
    requires SameControls(a, b) && SameControls(b, c)
    ensures SameControls(a, c)
  {
  }

  /** A halt other than a daily one bars every entry until the risk manager stores something new. */
  lemma HaltHolds(ws: seq<World>, lim: Limits, acts: seq<Action>, i: nat, j: nat)
    requires IsRun(ws, lim, acts) && i <= j < |ws| && ws[i].db.account.halt == OtherHalt
    requires forall m :: i <= m < j ==> !acts[m].PersistRisk?
    ensures ws[j].db.account.halt == OtherHalt
    ensures forall m :: i <= m < j && acts[m].Enter? ==> ws[m + 1].db == ws[m].db
  {
    hide Step;
    BarredUntilLifted(ws, lim, acts, i, j);
  }

  lemma RiskIsStored(w: World, lim: Limits, a: Action, w': World)
    requires Step(w, lim, a, w') && a.PersistRisk?
    ensures var controls := w'.db.account;
            if a.who in w.owned && OwnsAccount(w, a.who) && Lands(a.commit)
            then controls == w.db.account.(halt := a.halt, haltDay := a.haltDay, pauseUntil := a.pauseUntil)
            else w'.db == w.db
  {
    hide OwnsAccount;
  }
}
