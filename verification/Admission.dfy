/** Runtime ownership and entry limits over every interleaving of processes that start, load
    their ledger, stop, crash, enter, exit, revalue and keep risk state and costs in the same
    database, every commit of which may have an unknown outcome. */
module Admission {
  import opened Options
  import L = Ledger
  import opened PaperAccount
  import M = BrokerMirror
  import R = Recovery

  type ProcessId = nat
  type RunId = nat

  /** An active run has no stop time. */
  datatype Run = Run(active: bool, heartbeat: int)

  /** `ledgers` holds the in-memory ledger of every process that has loaded one. */
  datatype World = World(db: Db, runs: map<RunId, Run>, owned: map<ProcessId, Option<RunId>>,
                         ledgers: map<ProcessId, L.State>)

  /** How a transaction ends: the process is told of the commit, or it is told of a failure, and
      the commit has landed or not. */
  datatype Commit = Known | Unknown(landed: bool)

  predicate Lands(c: Commit) {
    c.Known? || c.landed
  }

  datatype Action =
    | StartRun(who: ProcessId, run: RunId, now: int, staleAfter: int, leaseFences: bool, commit: Commit)
    | Load(who: ProcessId)
    | Heartbeat(who: ProcessId, run: RunId, now: int, commit: Commit)
    | StopRun(who: ProcessId, run: RunId, now: int, commit: Commit)
    | Crash(who: ProcessId)
    | Enter(who: ProcessId, request: EntryRequest, riskAllows: bool, commit: Commit)
    | Leave(who: ProcessId, exit: ExitRequest, commit: Commit)
    | Marks(who: ProcessId, marks: L.Marks, gains: map<PositionId, real>, commit: Commit)
    | PersistRisk(who: ProcessId, halt: Halt, haltDay: Option<Day>, pauseUntil: Option<int>, commit: Commit)
    | RecordCost(who: ProcessId, amount: real, commit: Commit)

  function Active(runs: map<RunId, Run>): set<RunId> {
    set r | r in runs && runs[r].active
  }

  /** `_assert_transaction_runtime_owner`: a process without a run may write only when no run
      is active, a process with one only while its run is the active one. */
  predicate OwnsAccount(w: World, who: ProcessId)
    requires who in w.owned
  {
    if w.owned[who].None? then Active(w.runs) == {}
    else w.owned[who].value in Active(w.runs) && forall r :: r in Active(w.runs) ==> r == w.owned[who].value
  }

  /** `start_system_run` is refused while this process owns a run, or while another run still
      shows a fresh heartbeat and no database lease has fenced it. */
  predicate StartRefused(w: World, a: Action)
    requires a.StartRun? && a.who in w.owned
  {
    w.owned[a.who].Some?
    || (!a.leaseFences && exists r :: r in Active(w.runs) && w.runs[r].heartbeat >= a.now - a.staleAfter)
  }

  function StopAll(runs: map<RunId, Run>, now: int): map<RunId, Run> {
    map r | r in runs :: if runs[r].active then Run(false, now) else runs[r]
  }

  /** The database keeps what has landed; the ledger follows only what its process is told. */
  ghost function Followed(w: World, who: ProcessId, after: M.Books, commit: Commit): World {
    w.(db := if Lands(commit) then after.db else w.db,
       ledgers := if commit.Known? then w.ledgers[who := after.ledger] else w.ledgers)
  }

  /** A process with a ledger goes through its broker, one without writes the database alone. */
  ghost function Entered(w: World, lim: Limits, who: ProcessId, q: EntryRequest, riskAllows: bool, commit: Commit): World
    requires who in w.owned
  {
    if who in w.ledgers
    then Followed(w, who, M.BrokerOpen(M.Books(w.db, w.ledgers[who]), q, lim, OwnsAccount(w, who), riskAllows), commit)
    else
      var out := CommitEntry(w.db, q, lim, OwnsAccount(w, who));
      if out.Written? && Lands(commit) then w.(db := out.db) else w
  }

  ghost function Left(w: World, who: ProcessId, x: ExitRequest, commit: Commit): World
    requires who in w.owned
  {
    if who in w.ledgers
    then Followed(w, who, M.BrokerClose(M.Books(w.db, w.ledgers[who]), x, OwnsAccount(w, who)), commit)
    else
      var out := CommitExit(w.db, M.Valued(x), OwnsAccount(w, who));
      if out.Written? && Lands(commit) then w.(db := out.db) else w
  }

  /** The ledger is marked before the transaction begins. */
  ghost function Revalued(w: World, who: ProcessId, m: L.Marks, gains: map<PositionId, real>, commit: Commit): World
    requires who in w.owned && who in w.ledgers
  {
    var after := M.BrokerRevalue(M.Books(w.db, w.ledgers[who]), m, gains, OwnsAccount(w, who) && Lands(commit));
    w.(db := after.db, ledgers := w.ledgers[who := after.ledger])
  }

  /** A process loads its ledger once it has started its run, and loses it with the run. Costs
      are recorded only while no run is active. */
  ghost predicate Step(w: World, lim: Limits, a: Action, w': World) {
    a.who in w.owned &&
    match a
    case StartRun(who, run, now, _, _, commit) =>
      run !in w.runs
      && w' == if StartRefused(w, a) || !Lands(commit) then w
               else w.(runs := StopAll(w.runs, now)[run := Run(true, now)],
                       owned := if commit.Known? then w.owned[who := Some(run)] else w.owned)
    case Load(who) =>
      w.owned[who].Some? && OnePerMint(w.db.positions)
      && w' == w.(ledgers := w.ledgers[who := R.Restored(w.db)])
    case Heartbeat(who, run, now, commit) =>
      w' == if Lands(commit) && w.owned[who] == Some(run) && run in Active(w.runs)
            then w.(runs := w.runs[run := Run(true, now)]) else w
    case StopRun(who, run, now, commit) =>
      var forgets := commit.Known? && w.owned[who] == Some(run);
      w' == w.(runs := if Lands(commit) && run in w.runs then w.runs[run := Run(false, now)] else w.runs,
               owned := if forgets then w.owned[who := None] else w.owned,
               ledgers := if forgets then w.ledgers - {who} else w.ledgers)
    case Crash(who) => w' == w.(owned := w.owned[who := None], ledgers := w.ledgers - {who})
    case Enter(who, q, risk, commit) => SoundEntry(w, lim, a) && w' == Entered(w, lim, who, q, risk, commit)
    case Leave(who, x, commit) => SoundExit(w, x) && w' == Left(w, who, x, commit)
    case Marks(who, m, gains, commit) => who in w.ledgers && w' == Revalued(w, who, m, gains, commit)
    case PersistRisk(who, halt, haltDay, pauseUntil, commit) =>
      w' == if OwnsAccount(w, who) && Lands(commit)
            then w.(db := RiskWritten(w.db, halt, haltDay, pauseUntil)) else w
    case RecordCost(who, amount, commit) =>
      w' == if amount > 0.0 && Active(w.runs) == {} && Lands(commit)
            then w.(db := CostWritten(w.db, amount)) else w
  }

  /** What the risk manager and the quote guarantee of a request that reaches the database. The
      risk manager compares the requested amount, without its fee, with what the ledger shows. */
  ghost predicate SoundEntry(w: World, lim: Limits, a: Action)
    requires a.Enter?
  {
    var e := a.request.entry;
    e.usd > 0.0 && e.fee >= 0.0 && e.tokens > 0.0 && e.position !in w.db.positions
    && (e.order in w.db.orders ==> w.db.orders[e.order].isBuy)
    && (a.riskAllows && a.who in w.ledgers ==> w.ledgers[a.who].locked + e.usd <= lim.maxExposure)
  }

  ghost predicate SoundExit(w: World, x: ExitRequest) {
    (x.quoted ==> x.exit.usd >= 0.0) && (x.exit.order in w.db.orders ==> !w.db.orders[x.exit.order].isBuy)
  }

  // ---------------------------------------------------------------------------
  // The invariant.

  ghost predicate AtMostOneRun(w: World) {
    (forall r, t :: r in Active(w.runs) && t in Active(w.runs) ==> r == t)
    && (forall p {:trigger w.owned[p]} :: p in w.owned && w.owned[p].Some? ==> w.owned[p].value in w.runs)
    && (forall p, q :: p in w.owned && q in w.owned && w.owned[p].Some? && w.owned[p] == w.owned[q] ==> p == q)
  }

  /** The limits that the transactions keep by themselves. Without recorded costs cash is not
      negative. */
  ghost predicate Guarded(db: Db, lim: Limits) {
    db.account.operational >= 0.0 && db.account.cash + db.account.operational >= 0.0
    && |LiveIds(db.positions)| <= lim.maxOpen
    && forall day :: |BuysOn(db.orders, day)| <= lim.maxTrades
  }

  ghost predicate OwnsActive(w: World, p: ProcessId) {
    p in w.owned && w.owned[p].Some? && w.owned[p].value in Active(w.runs)
  }

  ghost predicate LedgersOwned(w: World) {
    forall p {:trigger p in w.ledgers} :: p in w.ledgers ==> p in w.owned && w.owned[p].Some?
  }

  ghost predicate Inv(w: World, lim: Limits) {
    AtMostOneRun(w) && Guarded(w.db, lim) && R.Stored(w.db) && LedgersOwned(w)
  }

  // ---------------------------------------------------------------------------
  // Entries and exits.

  lemma AddedOrder(orders: map<OrderId, Order>, o: OrderId, order: Order, day: Day)
    requires o !in orders
    ensures |BuysOn(orders[o := order], day)|
            == |BuysOn(orders, day)| + if order.isBuy && order.day == day then 1 else 0
  {
    var before, after := BuysOn(orders, day), BuysOn(orders[o := order], day);
    if order.isBuy && order.day == day {
      assert after == before + {o};
    } else {
      assert after == before;
    }
  }

  /** An admitted entry leaves every limit met, the exposure limit included. */
  lemma EntryStaysWithin(db: Db, q: EntryRequest, lim: Limits)
    requires Guarded(db, lim) && R.Stored(db) && EntryAllowed(db, q, lim)
    requires q.entry.usd > 0.0 && q.entry.fee >= 0.0 && q.entry.tokens > 0.0
    requires q.entry.order !in db.orders && q.entry.position !in db.positions
    ensures Guarded(EntryWritten(db, q), lim) && R.Stored(EntryWritten(db, q))
    ensures EntryWritten(db, q).account.locked <= lim.maxExposure
    ensures R.CashBalanced(EntryWritten(db, q).account) <==> R.CashBalanced(db.account)
  {
    hide BuysOn, Abs, R.Stored, R.CashBalanced;
    var db' := EntryWritten(db, q);
    R.EntryStaysStored(db, q, lim);
    assert LiveIds(db'.positions) == LiveIds(db.positions) + {q.entry.position};
    forall day ensures |BuysOn(db'.orders, day)| <= lim.maxTrades {
      AddedOrder(db.orders, q.entry.order, Order(true, q.entry.at, q.entry.day, q.entry.position), day);
    }
  }

  lemma ExitStaysWithin(db: Db, x: ExitRequest, id: PositionId, lim: Limits)
    requires Guarded(db, lim) && R.Stored(db) && ExitHits(db, x, id) && x.exit.order !in db.orders
    ensures Guarded(ExitWritten(db, x, id), lim) && R.Stored(ExitWritten(db, x, id))
    ensures ExitWritten(db, x, id).account.locked <= db.account.locked
    ensures R.CashBalanced(ExitWritten(db, x, id).account) <==> R.CashBalanced(db.account)
  {
    hide BuysOn, LiveIds, Figures, OnePerMint, SoundRows, M.Filed, R.CashBalanced;
    var db', p := ExitWritten(db, x, id), db.positions[id];
    R.ExitStaysStored(db, x, id);
    R.ExitFiguresAreSound(db, x, id);
    R.SameMintKeepsOne(db.positions, id, db'.positions[id]);
    forall day ensures |BuysOn(db'.orders, day)| <= lim.maxTrades {
      AddedOrder(db.orders, x.exit.order, Order(false, x.exit.at, x.exit.day, id), day);
    }
  }

  // ---------------------------------------------------------------------------
  // What a step does to the database.

  lemma EntryDb(b: M.Books, q: EntryRequest, lim: Limits, owner: bool, riskAllows: bool)
    ensures var db := M.BrokerOpen(b, q, lim, owner, riskAllows).db;
            db == b.db
            || (owner && q.entry.order !in b.db.orders && EntryAllowed(b.db, q, lim) && db == EntryWritten(b.db, q))
  {
    hide EntryAllowed, EntryWritten, L.Enter, M.KnownTo;
    assert EntryAllowed(b.db, q, lim) ==> q.entry.tokens != 0.0 by { AllowedIsNotDust(b.db, q, lim); }
  }

  lemma AllowedIsNotDust(db: Db, q: EntryRequest, lim: Limits)
    ensures EntryAllowed(db, q, lim) ==> q.entry.tokens != 0.0
  {
  }

  lemma ExitDb(b: M.Books, x: ExitRequest, owner: bool)
    ensures var db := M.BrokerClose(b, x, owner).db;
            db == b.db
            || (owner && x.exit.order !in b.db.orders
                && exists id :: ExitHits(b.db, M.Valued(x), id) && db == ExitWritten(b.db, M.Valued(x), id))
  {
    hide ExitWritten, L.Leave, M.KnownTo;
  }

  /** The database changes only by an admitted entry, an admitted exit, marks, risk state or a
      cost; all but the cost come from a process that owns the account. */
  lemma StepOnDb(w: World, lim: Limits, a: Action, w': World)
    requires Step(w, lim, a, w') && w'.db != w.db
    ensures a.RecordCost? || OwnsAccount(w, a.who)
    ensures (a.Enter? || a.Leave? || a.Marks? || a.PersistRisk? || a.RecordCost?) && Lands(a.commit)
    ensures match a
            case Enter(_, q, _, _) =>
              q.entry.order !in w.db.orders && EntryAllowed(w.db, q, lim) && q.entry.tokens > 0.0
              && w'.db == EntryWritten(w.db, q)
            case Leave(_, x, _) =>
              x.exit.order !in w.db.orders
              && exists id :: ExitHits(w.db, M.Valued(x), id) && w'.db == ExitWritten(w.db, M.Valued(x), id)
            case Marks(who, m, gains, _) => who in w.ledgers && w'.db == MarksWritten(w.db, L.Mark(w.ledgers[who], m), gains)
            case PersistRisk(_, h, d, p, _) => w'.db == RiskWritten(w.db, h, d, p)
            case RecordCost(_, amount, _) => amount > 0.0 && Active(w.runs) == {} && w'.db == CostWritten(w.db, amount)
            case _ => false
  {
    hide EntryAllowed, EntryWritten, ExitWritten, StartRefused, OwnsAccount, M.BrokerOpen, M.BrokerClose, L.Mark, MarksWritten;
    match a
    case Enter(who, q, risk, _) =>
      if who in w.ledgers {
        EntryDb(M.Books(w.db, w.ledgers[who]), q, lim, OwnsAccount(w, who), risk);
      }
    case Leave(who, x, _) =>
      if who in w.ledgers {
        ExitDb(M.Books(w.db, w.ledgers[who]), x, OwnsAccount(w, who));
      }
    case _ =>
  }

  /** Marks take the locked capital and the balance from the ledger, whatever it holds. */
  lemma MarksStayWithin(db: Db, l: L.State, gains: map<PositionId, real>, lim: Limits)
    requires Guarded(db, lim) && R.Stored(db)
    ensures var after := MarksWritten(db, l, gains);
            Guarded(after, lim) && R.Stored(after) && (after.account.locked <= lim.maxExposure <==> l.locked <= lim.maxExposure)
  {
    hide BuysOn, R.Stored;
    var after := MarksWritten(db, l, gains);
    R.MarkedRowsStay(db, l, gains);
    assert LiveIds(after.positions) == LiveIds(db.positions);
    R.MarksStayStored(db, l, gains);
  }

  lemma StepKeepsGuards(w: World, lim: Limits, a: Action, w': World)
    requires Inv(w, lim) && Step(w, lim, a, w')
    ensures Guarded(w'.db, lim) && R.Stored(w'.db)
  {
    hide Guarded, R.Stored, LedgersOwned, Step, EntryAllowed, EntryWritten, ExitWritten, L.Mark, MarksWritten, AtMostOneRun;
    if w'.db != w.db {
      StepOnDb(w, lim, a, w');
      match a
      case Enter(_, q, _, _) =>
        EntryWasSound(w, lim, a, w');
        EntryStaysWithin(w.db, q, lim);
      case Leave(_, x, _) =>
        var id :| ExitHits(w.db, M.Valued(x), id) && w'.db == ExitWritten(w.db, M.Valued(x), id);
        ExitStaysWithin(w.db, M.Valued(x), id, lim);
      case Marks(who, m, gains, _) => MarksStayWithin(w.db, L.Mark(w.ledgers[who], m), gains, lim);
      case PersistRisk(_, h, d, p, _) => RiskStaysWithin(w.db, h, d, p, lim);
      case RecordCost(_, amount, _) => CostStaysWithin(w.db, amount, lim);
    }
  }

  lemma ActorIsKnown(w: World, lim: Limits, a: Action, w': World)
    requires Step(w, lim, a, w')
    ensures a.who in w.owned
  {
  }

  lemma EntryWasSound(w: World, lim: Limits, a: Action, w': World)
    requires a.Enter? && Step(w, lim, a, w')
    ensures SoundEntry(w, lim, a)
  {
  }

  lemma RiskStaysWithin(db: Db, h: Halt, d: Option<Day>, p: Option<int>, lim: Limits)
    requires Guarded(db, lim) && R.Stored(db)
    ensures Guarded(RiskWritten(db, h, d, p), lim) && R.Stored(RiskWritten(db, h, d, p))
  {
    hide BuysOn, M.Filed;
    R.MarksFiled(db, RiskWritten(db, h, d, p));
  }

  lemma CostStaysWithin(db: Db, amount: real, lim: Limits)
    requires Guarded(db, lim) && R.Stored(db) && amount > 0.0
    ensures Guarded(CostWritten(db, amount), lim) && R.Stored(CostWritten(db, amount))
  {
    hide BuysOn, M.Filed;
    R.MarksFiled(db, CostWritten(db, amount));
  }

  // ---------------------------------------------------------------------------
  // Ownership and ledgers.

  lemma StepKeepsRuns(w: World, lim: Limits, a: Action, w': World)
    requires AtMostOneRun(w) && Step(w, lim, a, w')
    ensures AtMostOneRun(w')
    ensures !(a.StartRun? || a.Heartbeat? || a.StopRun? || a.Crash?) ==> w'.runs == w.runs && w'.owned == w.owned
  {
    hide StartRefused, Entered, Left, Revalued, OwnsAccount, SoundEntry, SoundExit, RiskWritten, CostWritten, R.Restored;
    match a
    case Heartbeat(_, _, _, _) =>
      assert Active(w'.runs) == Active(w.runs) && w'.owned == w.owned;
      assert forall p :: p in w'.owned && w'.owned[p].Some? ==> w.owned[p].value in w'.runs;
    case StopRun(who, run, now, commit) => StopKeepsRuns(w, who, run, now, w');
    case Enter(who, q, risk, commit) => EnteredElsewhere(w, lim, who, q, risk, commit);
    case Leave(who, x, commit) => LeftElsewhere(w, who, x, commit);
    case Marks(who, m, gains, commit) => RevaluedElsewhere(w, who, m, gains, commit);
    case _ =>
  }

  lemma EnteredElsewhere(w: World, lim: Limits, who: ProcessId, q: EntryRequest, risk: bool, commit: Commit)
    requires who in w.owned
    ensures var w' := Entered(w, lim, who, q, risk, commit);
            w'.runs == w.runs && w'.owned == w.owned && w'.ledgers.Keys == w.ledgers.Keys
            && forall p :: p in w.ledgers && p != who ==> w'.ledgers[p] == w.ledgers[p]
  {
    hide M.BrokerOpen;
  }

  lemma LeftElsewhere(w: World, who: ProcessId, x: ExitRequest, commit: Commit)
    requires who in w.owned
    ensures var w' := Left(w, who, x, commit);
            w'.runs == w.runs && w'.owned == w.owned && w'.ledgers.Keys == w.ledgers.Keys
            && forall p :: p in w.ledgers && p != who ==> w'.ledgers[p] == w.ledgers[p]
  {
    hide M.BrokerClose;
  }

  lemma RevaluedElsewhere(w: World, who: ProcessId, m: L.Marks, gains: map<PositionId, real>, commit: Commit)
    requires who in w.owned && who in w.ledgers
    ensures var w' := Revalued(w, who, m, gains, commit);
            w'.runs == w.runs && w'.owned == w.owned && w'.ledgers.Keys == w.ledgers.Keys
            && forall p :: p in w.ledgers && p != who ==> w'.ledgers[p] == w.ledgers[p]
  {
    hide M.BrokerRevalue;
  }

  lemma StopKeepsRuns(w: World, who: ProcessId, run: RunId, now: int, w': World)
    requires AtMostOneRun(w) && who in w.owned
    requires w'.runs == w.runs || (run in w.runs && w'.runs == w.runs[run := Run(false, now)])
    requires w'.owned == w.owned || w'.owned == w.owned[who := None]
    ensures AtMostOneRun(w')
    ensures forall p :: OwnsActive(w', p) ==> OwnsActive(w, p) && w'.owned[p] == w.owned[p]
  {
    assert Active(w'.runs) <= Active(w.runs);
    forall p | p in w'.owned && w'.owned[p].Some? ensures w'.owned[p].value in w'.runs {
      assert w'.owned[p] == w.owned[p];
    }
  }

  /** Only one process can own the account through an active run. */
  lemma WriterIsAlone(w: World, who: ProcessId, p: ProcessId)
    requires AtMostOneRun(w) && who in w.owned && OwnsAccount(w, who) && OwnsActive(w, p)
    ensures p == who
  {
  }

  /** What a step does to the ledgers: it changes at most the actor's, and keeps no ledger whose
      run it ends; a run it starts belongs to a process without one. */
  lemma LedgersMove(w: World, lim: Limits, a: Action, w': World, p: ProcessId)
    requires AtMostOneRun(w) && LedgersOwned(w) && Step(w, lim, a, w') && p in w'.ledgers
    ensures p in w'.owned && w'.owned[p].Some?
    ensures p in w.ledgers || (a.Load? && p == a.who)
    ensures p in w.ledgers && OwnsActive(w', p) ==> OwnsActive(w, p)
    ensures a.Load? ==> w'.db == w.db
    ensures a.Load? && p == a.who ==> OnePerMint(w.db.positions) && w'.ledgers[p] == R.Restored(w.db)
    ensures p in w.ledgers && !(p == a.who && (a.Load? || a.Enter? || a.Leave? || a.Marks?)) ==> w'.ledgers[p] == w.ledgers[p]
  {
    hide Entered, Left, Revalued, R.Restored, OwnsAccount, SoundEntry, SoundExit, RiskWritten, CostWritten;
    match a
    case StartRun(_, _, _, _, _, _) =>
    case Heartbeat(_, _, _, _) =>
      assert Active(w'.runs) == Active(w.runs);
    case StopRun(who, run, now, commit) => StopKeepsRuns(w, who, run, now, w');
    case Enter(who, q, risk, commit) => EnteredElsewhere(w, lim, who, q, risk, commit);
    case Leave(who, x, commit) => LeftElsewhere(w, who, x, commit);
    case Marks(who, m, gains, commit) => RevaluedElsewhere(w, who, m, gains, commit);
    case _ =>
  }

  // ---------------------------------------------------------------------------
  // Runs of the system.

  lemma StepKeepsInv(w: World, lim: Limits, a: Action, w': World)
    requires Inv(w, lim) && Step(w, lim, a, w')
    ensures Inv(w', lim)
  {
    hide Guarded, R.Stored, Step, AtMostOneRun;
    StepKeepsGuards(w, lim, a, w');
    StepKeepsRuns(w, lim, a, w');
    forall p | p in w'.ledgers ensures p in w'.owned && w'.owned[p].Some? {
      LedgersMove(w, lim, a, w', p);
    }
  }

  ghost predicate Init(w: World, lim: Limits) {
    lim.maxExposure >= 0.0 && w.runs == map[] && w.ledgers == map[]
    && (exists start :: start >= 0.0 && w.db == Initial(start))
    && forall p :: p in w.owned ==> w.owned[p] == None
  }

  lemma InitInv(w: World, lim: Limits)
    requires Init(w, lim)
    ensures Inv(w, lim)
  {
    assert LiveIds(w.db.positions) == {};
    assert forall day :: BuysOn(w.db.orders, day) == {};
  }

  ghost predicate IsRun(ws: seq<World>, lim: Limits, acts: seq<Action>) {
    |ws| == |acts| + 1 && Init(ws[0], lim)
    && forall i :: 0 <= i < |acts| ==> Step(ws[i], lim, acts[i], ws[i + 1])
  }

  /** In every reachable state, whatever the outcome of any commit, at most one run is active, cash
      is not negative but for recorded costs, the number of live positions and of entries per day
      are within their limits, no token has two live positions, no cost is negative and every
      order is filed with its fill. The exposure limit is the subject of module `Exposure`. */
  lemma {:induction false} LimitsHold(ws: seq<World>, lim: Limits, acts: seq<Action>, k: nat)
    requires IsRun(ws, lim, acts) && k < |ws|
    ensures Inv(ws[k], lim)
  {
    hide Step, Inv, Init;
    if k == 0 {
      InitInv(ws[0], lim);
    } else {
      LimitsHold(ws, lim, acts, k - 1);
      StepKeepsInv(ws[k - 1], lim, acts[k - 1], ws[k]);
    }
  }

  /** While a run is active, only its one owner changes the account. */
  lemma OnlyOwnerWrites(ws: seq<World>, lim: Limits, acts: seq<Action>, k: nat, r: RunId)
    requires IsRun(ws, lim, acts) && k < |acts| && r in Active(ws[k].runs)
    requires ws[k + 1].db != ws[k].db
    ensures acts[k].who in ws[k].owned && ws[k].owned[acts[k].who] == Some(r)
    ensures forall p :: p in ws[k].owned && ws[k].owned[p] == Some(r) ==> p == acts[k].who
  {
    hide EntryAllowed, EntryWritten, ExitWritten, StartRefused, Guarded, R.Stored, LedgersOwned, Step, MarksWritten, L.Mark;
    LimitsHold(ws, lim, acts, k);
    assert Step(ws[k], lim, acts[k], ws[k + 1]);
    ActorIsKnown(ws[k], lim, acts[k], ws[k + 1]);
    StepOnDb(ws[k], lim, acts[k], ws[k + 1]);
  }

  /** A process whose run was taken over writes nothing more through it; only a cost, which needs
      no ownership but that no run is active, can still be recorded. */
  lemma FencedOwnerCannotWrite(w: World, lim: Limits, a: Action, w': World, r: RunId)
    requires Inv(w, lim) && Step(w, lim, a, w') && a.who in w.owned && w.owned[a.who] == Some(r)
    requires r in w.runs && !w.runs[r].active
    ensures w'.db == w.db || (a.RecordCost? && Active(w.runs) == {})
    ensures r in w'.runs && !w'.runs[r].active && (w'.owned[a.who] == Some(r) || w'.owned[a.who] == None)
  {
    hide EntryAllowed, EntryWritten, ExitWritten, Guarded, R.Stored, LedgersOwned, MarksWritten, L.Mark, Entered, Left,
      Revalued;
    if w'.db != w.db {
      StepOnDb(w, lim, a, w');
    }
    StepKeepsRuns(w, lim, a, w');
  }

  /** A run whose start was committed but not remembered is owned by nobody. */
  ghost predicate Unowned(w: World, r: RunId) {
    r in Active(w.runs) && forall p :: p in w.owned ==> w.owned[p] != Some(r)
  }

  /** Another run is started, or this one is stopped. */
  ghost predicate Ends(w: World, a: Action, r: RunId)
    requires a.who in w.owned
  {
    (a.StartRun? && !StartRefused(w, a) && Lands(a.commit)) || (a.StopRun? && a.run == r && Lands(a.commit))
  }

  /** While the active run is owned by nobody no step changes the account, and only a landed start
      or stop ends that. */
  lemma UnownedRunBlocksAccount(w: World, lim: Limits, a: Action, w': World, r: RunId)
    requires Inv(w, lim) && Step(w, lim, a, w') && Unowned(w, r)
    ensures w'.db == w.db && a.who in w.owned
    ensures Unowned(w', r) <==> !Ends(w, a, r)
  {
    hide EntryAllowed, EntryWritten, ExitWritten, Guarded, R.Stored, LedgersOwned, MarksWritten, L.Mark, Entered, Left,
      Revalued, StartRefused, RiskWritten, CostWritten;
    if w'.db != w.db {
      StepOnDb(w, lim, a, w');
      ActorIsKnown(w, lim, a, w');
    }
    StepKeepsRuns(w, lim, a, w');
    if a.Heartbeat? { assert Active(w'.runs) == Active(w.runs); }
  }

  /** Over every run, from the moment a run belongs to nobody it stays so, and the account stays as
      it is, exactly until another run is started or it is stopped. */
  lemma {:induction false} UnownedOverRunIff(ws: seq<World>, lim: Limits, acts: seq<Action>, i: nat, j: nat, r: RunId)
    requires IsRun(ws, lim, acts) && i <= j < |ws| && Unowned(ws[i], r)
    ensures forall m :: i <= m < j ==> acts[m].who in ws[m].owned
    ensures (forall m :: i <= m <= j ==> Unowned(ws[m], r)) <==> forall m :: i <= m < j ==> !Ends(ws[m], acts[m], r)
    ensures (forall m :: i <= m < j ==> Unowned(ws[m], r)) ==> ws[j].db == ws[i].db
    decreases j
  {
    hide Step, Inv, Unowned, Ends;
    if i < j {
      UnownedOverRunIff(ws, lim, acts, i, j - 1, r);
      LimitsHold(ws, lim, acts, j - 1);
      assert Step(ws[j - 1], lim, acts[j - 1], ws[j - 1 + 1]);
      ActorIsKnown(ws[j - 1], lim, acts[j - 1], ws[j]);
      if Unowned(ws[j - 1], r) {
        UnownedRunBlocksAccount(ws[j - 1], lim, acts[j - 1], ws[j], r);
      }
    }
  }
}
