/** The exposure limit when commits may have unknown outcomes: exactly which step exceeds it, by
    how much at most, and exactly how long every ledger in use agrees with the database. */
module Exposure {
  import opened Options
  import opened Sums
  import L = Ledger
  import opened PaperAccount
  import opened Admission
  import M = BrokerMirror
  import B = BookSplits
  import R = Recovery

  // ---------------------------------------------------------------------------
  // The step that exceeds the limit.

  /** Marks that reach the database. */
  ghost predicate MarksLand(w: World, a: Action) {
    a.Marks? && Lands(a.commit) && a.who in w.ledgers && a.who in w.owned && OwnsAccount(w, a.who)
  }

  /** The marking ledger shows more locked capital than the limit. */
  ghost predicate Overexposes(w: World, lim: Limits, a: Action) {
    MarksLand(w, a) && w.ledgers[a.who].locked > lim.maxExposure
  }

  /** The marking ledger shows other cash than the database. */
  ghost predicate Unbalances(w: World, a: Action) {
    MarksLand(w, a)
    && var l := w.ledgers[a.who];
       l.equity - l.unrealized - l.locked != w.db.account.cash
  }

  lemma MarksOnDb(w: World, lim: Limits, a: Action, w': World)
    requires Step(w, lim, a, w') && a.Marks?
    ensures MarksLand(w, a) ==> w'.db == MarksWritten(w.db, L.Mark(w.ledgers[a.who], a.marks), a.gains)
    ensures !MarksLand(w, a) ==> w'.db == w.db
  {
    hide MarksWritten, L.Mark, OwnsAccount;
  }

  lemma OthersKeepFigures(db: Db, h: Halt, d: Option<Day>, p: Option<int>, amount: real)
    ensures RiskWritten(db, h, d, p).account.locked == db.account.locked == CostWritten(db, amount).account.locked
    ensures R.CashBalanced(RiskWritten(db, h, d, p).account) <==> R.CashBalanced(db.account)
    ensures R.CashBalanced(CostWritten(db, amount).account) <==> R.CashBalanced(db.account)
  {
  }

  /** Every other step leaves no more locked capital than before or than the limit, and the
      balance of cash as it was. */
  lemma OnlyMarksCount(w: World, lim: Limits, a: Action, w': World)
    requires Inv(w, lim) && Step(w, lim, a, w') && !a.Marks?
    ensures w'.db.account.locked <= w.db.account.locked || w'.db.account.locked <= lim.maxExposure
    ensures R.CashBalanced(w'.db.account) <==> R.CashBalanced(w.db.account)
  {
    hide Guarded, R.Stored, LedgersOwned, Step, EntryAllowed, EntryWritten, ExitWritten, AtMostOneRun, R.CashBalanced;
    if w'.db != w.db {
      StepOnDb(w, lim, a, w');
      match a
      case Enter(_, q, _, _) =>
        EntryWasSound(w, lim, a, w');
        EntryStaysWithin(w.db, q, lim);
      case Leave(_, x, _) =>
        var id :| ExitHits(w.db, M.Valued(x), id) && w'.db == ExitWritten(w.db, M.Valued(x), id);
        ExitStaysWithin(w.db, M.Valued(x), id, lim);
      case PersistRisk(_, h, d, p, _) => OthersKeepFigures(w.db, h, d, p, 0.0);
      case RecordCost(_, amount, _) => OthersKeepFigures(w.db, NotHalted, None, None, amount);
    }
  }

  /** Locked capital within the limit stays so through a step exactly when the step is no marking
      by an owner whose ledger shows more. */
  lemma ExposureStaysIff(w: World, lim: Limits, a: Action, w': World)
    requires Inv(w, lim) && Step(w, lim, a, w') && w.db.account.locked <= lim.maxExposure
    ensures w'.db.account.locked <= lim.maxExposure <==> !Overexposes(w, lim, a)
  {
    hide Guarded, R.Stored, LedgersOwned, Step, AtMostOneRun, MarksWritten, L.Mark, OwnsAccount;
    if a.Marks? {
      MarksOnDb(w, lim, a, w');
      if MarksLand(w, a) {
        R.MarkKeepsCash(w.ledgers[a.who], a.marks);
        MarksStayWithin(w.db, L.Mark(w.ledgers[a.who], a.marks), a.gains, lim);
      }
    } else {
      OnlyMarksCount(w, lim, a, w');
    }
  }

  /** A database that can be restored from stays so through a step exactly when the step is no
      marking by an owner whose ledger shows other cash. */
  lemma BalanceStaysIff(w: World, lim: Limits, a: Action, w': World)
    requires Inv(w, lim) && Step(w, lim, a, w') && R.Restorable(w.db)
    ensures R.Restorable(w'.db) <==> !Unbalances(w, a)
  {
    hide Guarded, R.Stored, LedgersOwned, Step, AtMostOneRun, MarksWritten, L.Mark, OwnsAccount, R.CashBalanced;
    StepKeepsGuards(w, lim, a, w');
    if a.Marks? {
      MarksOnDb(w, lim, a, w');
      if MarksLand(w, a) {
        R.MarkKeepsCash(w.ledgers[a.who], a.marks);
        R.MarksStayStored(w.db, L.Mark(w.ledgers[a.who], a.marks), a.gains);
      }
    } else {
      OnlyMarksCount(w, lim, a, w');
    }
  }

  /** Over every run, whatever the outcomes of commits, locked capital is within the limit at every
      moment exactly when no marking is made by an owner whose ledger shows more. */
  lemma {:induction false} ExposureOverRunIff(ws: seq<World>, lim: Limits, acts: seq<Action>, k: nat)
    requires IsRun(ws, lim, acts) && k < |ws|
    ensures (forall j :: 0 <= j <= k ==> ws[j].db.account.locked <= lim.maxExposure)
            <==> forall j :: 0 <= j < k ==> !Overexposes(ws[j], lim, acts[j])
  {
    hide Step, Inv, Overexposes;
    if k == 0 {
      InitSettled(ws[0], lim);
    } else {
      ExposureOverRunIff(ws, lim, acts, k - 1);
      LimitsHold(ws, lim, acts, k - 1);
      assert Step(ws[k - 1], lim, acts[k - 1], ws[k - 1 + 1]);
      if ws[k - 1].db.account.locked <= lim.maxExposure {
        ExposureStaysIff(ws[k - 1], lim, acts[k - 1], ws[k]);
      }
    }
  }

  /** The same for the balance of cash, without which a restored ledger would not agree. */
  lemma {:induction false} BalanceOverRunIff(ws: seq<World>, lim: Limits, acts: seq<Action>, k: nat)
    requires IsRun(ws, lim, acts) && k < |ws|
    ensures (forall j :: 0 <= j <= k ==> R.Restorable(ws[j].db)) <==> forall j :: 0 <= j < k ==> !Unbalances(ws[j], acts[j])
  {
    hide Step, Inv, Unbalances, R.Restorable;
    if k == 0 {
      InitSettled(ws[0], lim);
    } else {
      BalanceOverRunIff(ws, lim, acts, k - 1);
      LimitsHold(ws, lim, acts, k - 1);
      assert Step(ws[k - 1], lim, acts[k - 1], ws[k - 1 + 1]);
      if R.Restorable(ws[k - 1].db) {
        BalanceStaysIff(ws[k - 1], lim, acts[k - 1], ws[k]);
      }
    }
  }

  // ---------------------------------------------------------------------------
  // By how much: one network fee.

  ghost predicate LedgerWithin(l: L.State, most: real) {
    l.locked <= most && forall id {:trigger l.positions[id]} :: id in l.positions ==> l.positions[id].cost >= 0.0
  }

  /** `fee` is the largest network fee of an entry. */
  ghost predicate WithinFee(w: World, lim: Limits, fee: real) {
    w.db.account.locked <= lim.maxExposure + fee
    && forall p {:trigger w.ledgers[p]} :: p in w.ledgers ==> LedgerWithin(w.ledgers[p], lim.maxExposure + fee)
  }

  predicate FeeAtMost(a: Action, fee: real) {
    a.Enter? ==> a.request.entry.fee <= fee
  }

  lemma EnterStaysWithin(l: L.State, e: L.Entry, most: real)
    requires LedgerWithin(l, most) && e.usd > 0.0 && e.fee >= 0.0 && l.locked + e.usd + e.fee <= most
    ensures LedgerWithin(L.Enter(l, e).0, most)
  {
    var l' := L.Enter(l, e).0;
    forall id | id in l'.positions ensures l'.positions[id].cost >= 0.0 {
      if id in l.positions { assert l.positions[id].cost >= 0.0; }
    }
  }

  lemma LeaveStaysWithin(l: L.State, x: L.Exit, most: real)
    requires LedgerWithin(l, most)
    ensures LedgerWithin(L.Leave(l, x).0, most)
  {
    hide L.ClosePosition, L.Released;
    var l' := L.Leave(l, x).0;
    if l' != l {
      var id := l.byToken[x.mint];
      assert l' == L.ClosePosition(l, x, id);
      CloseStaysWithin(l, x, id, most);
    }
  }

  lemma CloseStaysWithin(l: L.State, x: L.Exit, id: L.PositionId, most: real)
    requires LedgerWithin(l, most) && id in l.positions && 0.0 < x.tokens <= l.positions[id].tokens
    ensures LedgerWithin(L.ClosePosition(l, x, id), most)
  {
    var p := l.positions[id];
    assert 0.0 <= L.Released(p, x) <= p.cost by { ReleasedIsPart(p, x); }
    hide L.Released;
    var l' := L.ClosePosition(l, x, id);
    forall j | j in l'.positions ensures l'.positions[j].cost >= 0.0 {
      assert l.positions[j].cost >= 0.0;
    }
  }

  lemma ReleasedIsPart(p: L.Position, x: L.Exit)
    requires p.cost >= 0.0 && 0.0 < x.tokens <= p.tokens
    ensures 0.0 <= L.Released(p, x) <= p.cost
  {
    R.ReleasedIsPart(p.cost, p.tokens, x.tokens);
    ProportionalShare(p.cost, p.tokens, x.tokens);
  }

  lemma MarkStaysWithin(l: L.State, m: L.Marks, most: real)
    requires LedgerWithin(l, most)
    ensures LedgerWithin(L.Mark(l, m), most)
  {
    hide L.Contributions;
    var l' := L.Mark(l, m);
    forall id | id in l'.positions ensures l'.positions[id].cost >= 0.0 {
      assert l.positions[id].cost >= 0.0;
    }
  }

  lemma RestoredIsWithin(db: Db, most: real)
    requires R.Stored(db) && db.account.locked <= most
    ensures LedgerWithin(R.Restored(db), most)
  {
    hide R.RestoredPosition, R.Restored, M.Filed;
    var l := R.Restored(db);
    R.RestoredPositions(db);
    R.RestoredFigures(db);
    forall id | id in l.positions ensures l.positions[id].cost >= 0.0 {
      R.RestoredRow(db.positions[id]);
      assert db.positions[id].cost >= 0.0;
    }
  }

  /** What the broker may do to the ledger: repeat the requested amounts, once the risk manager has
      let them through. */
  lemma OpenOnLedger(b: M.Books, q: EntryRequest, lim: Limits, owner: bool, riskAllows: bool, most: real)
    requires LedgerWithin(b.ledger, most) && q.entry.usd > 0.0 && q.entry.fee >= 0.0
    requires riskAllows ==> b.ledger.locked + q.entry.usd + q.entry.fee <= most
    ensures LedgerWithin(M.BrokerOpen(b, q, lim, owner, riskAllows).ledger, most)
  {
    hide L.Enter, LedgerWithin, EntryAllowed, EntryWritten, M.KnownTo;
    if riskAllows {
      EnterStaysWithin(b.ledger, q.entry, most);
      if q.entry.order in b.db.orders {
        EnterStaysWithin(b.ledger, M.MirroredEntry(q.entry, b.db.orders[q.entry.order]), most);
      }
    }
  }

  lemma CloseOnLedger(b: M.Books, x: ExitRequest, owner: bool, most: real)
    requires LedgerWithin(b.ledger, most)
    ensures LedgerWithin(M.BrokerClose(b, x, owner).ledger, most)
  {
    hide L.Leave, LedgerWithin, ExitWritten, M.KnownTo;
    LeaveStaysWithin(b.ledger, M.Valued(x).exit, most);
    if x.exit.order in b.db.orders {
      LeaveStaysWithin(b.ledger, M.MirroredExit(M.Valued(x).exit, b.db.orders[x.exit.order]), most);
    }
  }

  /** The ledger a step leaves its process with. */
  lemma ActorsLedger(w: World, lim: Limits, a: Action, w': World, fee: real)
    requires Inv(w, lim) && Step(w, lim, a, w') && WithinFee(w, lim, fee) && FeeAtMost(a, fee)
    requires a.who in w'.ledgers && (a.Load? || a.Enter? || a.Leave? || a.Marks?)
    ensures LedgerWithin(w'.ledgers[a.who], lim.maxExposure + fee)
  {
    hide Guarded, R.Stored, R.Restored, AtMostOneRun, M.BrokerOpen, M.BrokerClose, L.Mark, MarksWritten, OwnsAccount, LedgerWithin;
    var most := lim.maxExposure + fee;
    match a
    case Load(_) => RestoredIsWithin(w.db, most);
    case Enter(who, q, risk, _) =>
      OpenOnLedger(M.Books(w.db, w.ledgers[who]), q, lim, OwnsAccount(w, who), risk, most);
    case Leave(who, x, _) => CloseOnLedger(M.Books(w.db, w.ledgers[who]), x, OwnsAccount(w, who), most);
    case Marks(who, m, _, _) => MarkStaysWithin(w.ledgers[who], m, most);
  }

  lemma StepStaysWithinFee(w: World, lim: Limits, a: Action, w': World, fee: real)
    requires Inv(w, lim) && Step(w, lim, a, w') && WithinFee(w, lim, fee) && FeeAtMost(a, fee) && fee >= 0.0
    ensures WithinFee(w', lim, fee)
  {
    hide Guarded, R.Stored, R.Restored, AtMostOneRun, L.Mark, MarksWritten, OwnsAccount, LedgerWithin, Step, MarksLand;
    var most := lim.maxExposure + fee;
    forall p | p in w'.ledgers ensures LedgerWithin(w'.ledgers[p], most) {
      LedgersMove(w, lim, a, w', p);
      if p == a.who && (a.Load? || a.Enter? || a.Leave? || a.Marks?) {
        ActorsLedger(w, lim, a, w', fee);
      }
    }
    if a.Marks? {
      MarksOnDb(w, lim, a, w');
      MarkedLocked(w, lim, a, w', most);
    } else {
      OnlyMarksCount(w, lim, a, w');
    }
  }

  lemma MarkedLocked(w: World, lim: Limits, a: Action, w': World, most: real)
    requires Step(w, lim, a, w') && a.Marks? && w.db.account.locked <= most
    requires forall p {:trigger w.ledgers[p]} :: p in w.ledgers ==> LedgerWithin(w.ledgers[p], most)
    ensures w'.db.account.locked <= most
  {
    hide L.Mark, OwnsAccount, Step;
    MarksOnDb(w, lim, a, w');
    if MarksLand(w, a) {
      R.MarkKeepsCash(w.ledgers[a.who], a.marks);
    }
  }

  /** Over every run, whatever the outcomes of commits, locked capital exceeds the limit by at most
      one network fee, the largest of the run. */
  lemma {:induction false} ExposureWithinFee(ws: seq<World>, lim: Limits, acts: seq<Action>, fee: real, k: nat)
    requires IsRun(ws, lim, acts) && k < |ws| && fee >= 0.0
    requires forall i :: 0 <= i < |acts| ==> FeeAtMost(acts[i], fee)
    ensures WithinFee(ws[k], lim, fee)
  {
    hide Step, Inv, FeeAtMost, LedgerWithin;
    if k > 0 {
      ExposureWithinFee(ws, lim, acts, fee, k - 1);
      LimitsHold(ws, lim, acts, k - 1);
      assert Step(ws[k - 1], lim, acts[k - 1], ws[k - 1 + 1]);
      StepStaysWithinFee(ws[k - 1], lim, acts[k - 1], ws[k], fee);
    }
  }

  // ---------------------------------------------------------------------------
  // How long the ledgers in use agree with the database.

  /** The ledger of the process whose run is active agrees with the database. */
  ghost predicate Synced(w: World) {
    forall p {:trigger w.ledgers[p]} :: p in w.ledgers && OwnsActive(w, p) ==> M.Sound(M.Books(w.db, w.ledgers[p]))
  }

  ghost predicate Settled(w: World, lim: Limits) {
    Inv(w, lim) && w.db.account.locked <= lim.maxExposure && R.Restorable(w.db) && Synced(w)
  }

  /** The entry or exit of the action, as the broker sees it. */
  ghost function AtBroker(w: World, lim: Limits, a: Action): M.Action
    requires a.who in w.owned && (a.Enter? || a.Leave? || a.Marks?)
  {
    match a
    case Enter(who, q, risk, _) => M.Open(q, lim, OwnsAccount(w, who), risk)
    case Leave(who, x, _) => M.Close(x, OwnsAccount(w, who))
    case Marks(who, m, gains, commit) => M.Revalue(m, gains, OwnsAccount(w, who) && Lands(commit))
  }

  /** An entry or exit that passes every guard and lands, but is reported as failed to the process
      whose ledger is in use. */
  ghost predicate LosesSync(w: World, lim: Limits, a: Action) {
    (a.Enter? || a.Leave?) && a.commit == Unknown(true) && a.who in w.ledgers && OwnsActive(w, a.who)
    && var b := M.Books(w.db, w.ledgers[a.who]);
       if a.Enter? then M.EntryCommits(b, AtBroker(w, lim, a)) else M.ExitCommits(b, AtBroker(w, lim, a))
  }

  /** The books of the acting process after its step. */
  lemma ActorsBooks(w: World, lim: Limits, a: Action, w': World)
    requires Step(w, lim, a, w') && (a.Enter? || a.Leave? || a.Marks?) && a.who in w.ledgers
    ensures a.who in w.owned && a.who in w'.ledgers
    ensures var b, after := M.Books(w.db, w.ledgers[a.who]), M.Apply(M.Books(w.db, w.ledgers[a.who]), AtBroker(w, lim, a));
            M.Fresh(w.db, AtBroker(w, lim, a)) && M.SoundQuote(AtBroker(w, lim, a))
            && M.Books(w'.db, w'.ledgers[a.who])
               == if a.Marks? || a.commit.Known? then after
                  else if a.commit.landed then M.Books(after.db, b.ledger) else b
  {
    hide M.BrokerOpen, M.BrokerClose, M.BrokerRevalue, OwnsAccount;
  }

  lemma ActorStaysSoundIff(w: World, lim: Limits, a: Action, w': World)
    requires Step(w, lim, a, w') && (a.Enter? || a.Leave? || a.Marks?) && a.who in w.ledgers && OwnsActive(w, a.who)
    requires M.Sound(M.Books(w.db, w.ledgers[a.who]))
    ensures a.who in w'.ledgers && (M.Sound(M.Books(w'.db, w'.ledgers[a.who])) <==> !LosesSync(w, lim, a))
  {
    hide Step, M.Sound, M.Apply, M.Fresh, M.SoundQuote, OwnsAccount, M.EntryCommits, M.ExitCommits, AtBroker;
    var b := M.Books(w.db, w.ledgers[a.who]);
    ActorsBooks(w, lim, a, w');
    var mine := AtBroker(w, lim, a);
    IsSameKind(w, lim, a);
    if a.Marks? || a.commit != Unknown(true) {
      M.StepKeepsAgreement(b, mine);
    } else {
      LostIff(b, mine);
    }
  }

  lemma IsSameKind(w: World, lim: Limits, a: Action)
    requires a.who in w.owned && (a.Enter? || a.Leave? || a.Marks?)
    ensures var mine := AtBroker(w, lim, a); (a.Enter? <==> mine.Open?) && (a.Leave? <==> mine.Close?)
  {
  }

  /** Without the ledger's half an operation leaves the books in agreement exactly when a guard
      refuses it. */
  lemma LostIff(b: M.Books, a: M.Action)
    requires M.Sound(b) && M.Fresh(b.db, a) && M.SoundQuote(a) && (a.Open? || a.Close?)
    ensures M.Sound(M.Books(M.Apply(b, a).db, b.ledger)) <==> !(if a.Open? then M.EntryCommits(b, a) else M.ExitCommits(b, a))
  {
    hide M.Apply, M.EntryCommits, M.ExitCommits, M.OrdersAgree, M.AccountsAgree, M.Filed, M.Usable, L.Enter, L.Leave, EntryWritten,
      ExitWritten;
    if a.Open? {
      M.EntryEffect(b, a);
      if M.EntryCommits(b, a) {
        M.NotDust(b, a);
        B.EntryIsStored(b, a.request);
      }
    } else {
      M.ExitEffect(b, a);
      if M.ExitCommits(b, a) {
        R.ExitWasNew(b, a);
        var x, id := M.Valued(a.exit), b.ledger.byToken[a.exit.exit.mint];
        M.HeldPosition(b, id);
        B.ExitTakesTokens(b.db, x, id);
        assert !M.SamePosition(ExitWritten(b.db, x, id).positions[id], b.ledger.positions[id]);
      }
    }
  }

  /** Every other step leaves the database as it is, or is made while no ledger is in use. */
  lemma LedgerAfter(w: World, lim: Limits, a: Action, w': World, p: ProcessId)
    requires Settled(w, lim) && Step(w, lim, a, w') && p in w'.ledgers && OwnsActive(w', p)
    requires !(p == a.who && p in w.ledgers && (a.Enter? || a.Leave? || a.Marks?))
    ensures M.Sound(M.Books(w'.db, w'.ledgers[p]))
  {
    hide M.Sound, Guarded, R.Stored, R.CashBalanced, R.Restored, OwnsAccount, StartRefused, AtMostOneRun, Step;
    StepKeepsRuns(w, lim, a, w');
    ActorIsKnown(w, lim, a, w');
    LedgersMove(w, lim, a, w', p);
    if a.Load? && p == a.who {
      R.RestoredIsSound(w.db);
    } else if w'.db != w.db {
      StepOnDb(w, lim, a, w');
      if !a.RecordCost? { WriterIsAlone(w, a.who, p); }
      if a.PersistRisk? { RiskKeepsSound(w.db, a.halt, a.haltDay, a.pauseUntil, w.ledgers[p]); }
    }
  }

  lemma RiskKeepsSound(db: Db, h: Halt, d: Option<Day>, p: Option<int>, l: L.State)
    requires M.Sound(M.Books(db, l))
    ensures M.Sound(M.Books(RiskWritten(db, h, d, p), l))
  {
    hide M.Usable;
    R.MarksFiled(db, RiskWritten(db, h, d, p));
  }

  lemma SyncStaysIff(w: World, lim: Limits, a: Action, w': World)
    requires Settled(w, lim) && Step(w, lim, a, w')
    ensures Synced(w') <==> !LosesSync(w, lim, a)
  {
    hide M.Sound, Guarded, R.Restorable, R.Stored, Step, AtMostOneRun, LosesSync;
    StepKeepsRuns(w, lim, a, w');
    forall p | p in w'.ledgers && OwnsActive(w', p) && !LosesSync(w, lim, a)
      ensures M.Sound(M.Books(w'.db, w'.ledgers[p]))
    {
      if p == a.who && p in w.ledgers && (a.Enter? || a.Leave? || a.Marks?) {
        ActorStaysSoundIff(w, lim, a, w');
      } else {
        LedgerAfter(w, lim, a, w', p);
      }
    }
    if LosesSync(w, lim, a) { LostActor(w, lim, a, w'); }
  }

  lemma LostActor(w: World, lim: Limits, a: Action, w': World)
    requires Settled(w, lim) && Step(w, lim, a, w') && LosesSync(w, lim, a)
    ensures !Synced(w')
  {
    hide M.Sound, Guarded, R.Restorable, R.Stored, Step, M.EntryCommits, M.ExitCommits, AtBroker;
    StepKeepsRuns(w, lim, a, w');
    ActorStaysSoundIff(w, lim, a, w');
    assert OwnsActive(w', a.who);
  }

  lemma OwnersLedgerIsSound(w: World, lim: Limits, who: ProcessId)
    requires Inv(w, lim) && Synced(w) && who in w.ledgers && who in w.owned && OwnsAccount(w, who)
    ensures M.Sound(M.Books(w.db, w.ledgers[who]))
  {
    hide M.Sound, Guarded, R.Stored;
    assert OwnsActive(w, who);
  }

  lemma SyncedMarksAreSound(w: World, lim: Limits, a: Action)
    requires Settled(w, lim)
    ensures !Overexposes(w, lim, a) && !Unbalances(w, a)
  {
    hide Guarded, R.Stored, AtMostOneRun, OwnsAccount, M.OrdersAgree, M.RowsAgree, M.Usable, M.Filed;
    if MarksLand(w, a) { OwnersLedgerIsSound(w, lim, a.who); }
  }

  /** While everything agrees, a step ends that exactly when it loses the ledger's half of an entry
      or exit. */
  lemma SettledStaysIff(w: World, lim: Limits, a: Action, w': World)
    requires Settled(w, lim) && Step(w, lim, a, w')
    ensures Settled(w', lim) <==> !LosesSync(w, lim, a)
  {
    hide Inv, R.Restorable, Step, LosesSync, Synced;
    StepKeepsInv(w, lim, a, w');
    SyncStaysIff(w, lim, a, w');
    SyncedMarksAreSound(w, lim, a);
    ExposureStaysIff(w, lim, a, w');
    BalanceStaysIff(w, lim, a, w');
  }

  lemma InitSettled(w: World, lim: Limits)
    requires Init(w, lim)
    ensures Settled(w, lim)
  {
    hide Inv;
    InitInv(w, lim);
    var start :| start >= 0.0 && w.db == Initial(start);
    R.InitialIsRestorable(start);
  }

  /** Over every run, locked capital is within the limit, the database can be restored from and
      the ledger in use agrees with it, all at every moment, exactly when no entry or exit that
      passes its guards lands under a commit reported as failed to the process in charge. */
  lemma {:induction false} SettledOverRunIff(ws: seq<World>, lim: Limits, acts: seq<Action>, k: nat)
    requires IsRun(ws, lim, acts) && k < |ws|
    ensures (forall j :: 0 <= j <= k ==> Settled(ws[j], lim)) <==> forall j :: 0 <= j < k ==> !LosesSync(ws[j], lim, acts[j])
  {
    hide Step, Settled, LosesSync;
    if k == 0 {
      InitSettled(ws[0], lim);
    } else {
      SettledOverRunIff(ws, lim, acts, k - 1);
      assert Step(ws[k - 1], lim, acts[k - 1], ws[k - 1 + 1]);
      if Settled(ws[k - 1], lim) {
        SettledStaysIff(ws[k - 1], lim, acts[k - 1], ws[k]);
      }
    }
  }
}
