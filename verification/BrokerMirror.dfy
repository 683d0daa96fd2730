/** The broker commits to the database first and then repeats the operation on the in-memory
    ledger. Both books agree after every run, although each computes the cost of a partial
    close its own way. */
module BrokerMirror {
  import opened Options
  import opened Sums
  import L = Ledger
  import opened PaperAccount

  datatype Books = Books(db: Db, ledger: L.State)

  // ---------------------------------------------------------------------------
  // Agreement.

  /** The row and the ledger position hold the same amounts; the statuses may differ only
      where a partial exit was written off. */
  ghost predicate SamePosition(r: Row, p: L.Position) {
    r.mint == p.mint && r.tokens == p.tokens && r.cost == p.cost && r.realized == p.realized
    && r.entryTokens == p.entryTokens && r.entryCost == p.entryCost && r.openedAt == p.openedAt
    && r.tp1Taken == p.tp1Taken && r.tp2Taken == p.tp2Taken
    && (Live(r) ==> p.status == L.Open)
    && (p.status == L.Open ==> Live(r) || r.status == UnrecoverableRow)
  }

  ghost predicate RowsAgree(db: Db, l: L.State) {
    db.positions.Keys == l.positions.Keys
    && forall id {:trigger db.positions[id]} :: id in db.positions ==> SamePosition(db.positions[id], l.positions[id])
  }

  ghost predicate AccountsAgree(a: Account, l: L.State) {
    a.locked == l.locked && a.realized == l.realized
    && a.equity - a.unrealized == l.equity - l.unrealized
    && a.cash == l.equity - l.unrealized - l.locked
  }

  /** Both hold the same fills, and know the same orders of each side. */
  ghost predicate OrdersAgree(db: Db, l: L.State) {
    db.fills == l.fills
    && (forall o :: o in l.entryOrders <==> o in db.orders && db.orders[o].isBuy)
    && (forall o :: o in l.exitOrders <==> o in db.orders && !db.orders[o].isBuy)
    && (forall o :: o in l.entryOrders ==> l.entryOrders[o] == db.orders[o].position)
    && (forall o :: o in l.exitOrders ==> l.exitOrders[o] == db.orders[o].position)
  }

  ghost predicate Agree(b: Books) {
    RowsAgree(b.db, b.ledger) && AccountsAgree(b.db.account, b.ledger) && OrdersAgree(b.db, b.ledger)
  }

  /** Every order is recorded with its one fill. */
  ghost predicate Filed(db: Db) {
    (forall f :: f in db.fills ==>
       f.order in db.orders && db.orders[f.order] == Order(f.isEntry, f.at, f.day, f.positionId))
    && (forall o :: o in db.orders ==> exists f :: f in db.fills && f.order == o)
    && (forall o :: o in db.orders ==> db.orders[o].position in db.positions)
  }

  /** What the mirror needs of the ledger; every run of the ledger keeps it, and so does
      restoring one from the database. */
  ghost predicate Usable(l: L.State) {
    L.Indexed(l) && L.Listed(l)
    && forall id {:trigger l.positions[id]} :: id in l.positions && l.positions[id].status == L.Open ==> l.positions[id].tokens > 0.0
  }

  ghost predicate Sound(b: Books) {
    Agree(b) && Usable(b.ledger) && Filed(b.db)
  }

  // ---------------------------------------------------------------------------
  // The operations.

  datatype Action =
    | Open(request: EntryRequest, limits: Limits, owner: bool, riskAllows: bool)
    | Close(exit: ExitRequest, owner: bool)
    | Revalue(marks: L.Marks, gains: map<PositionId, real>, owner: bool)

  /** `get_fill_by_order`: the newest fill under an order. */
  function FillOf(fills: seq<L.Fill>, o: OrderId): Option<L.Fill> {
    if fills == [] then None
    else if fills[|fills| - 1].order == o then Some(fills[|fills| - 1])
    else FillOf(fills[..|fills| - 1], o)
  }

  predicate KnownTo(l: L.State, o: OrderId, isEntry: bool) {
    FillOf(l.fills, o).Some? && FillOf(l.fills, o).value.isEntry == isEntry
  }

  /** The ledger repeats what the database reports to be stored. */
  function MirroredEntry(e: L.Entry, o: Order): L.Entry {
    e.(position := o.position, at := o.at, day := o.day)
  }

  function MirroredExit(x: L.Exit, o: Order): L.Exit {
    x.(at := o.at, day := o.day)
  }

  /** `open`: a known order is answered; the risk manager refuses a non-positive size and a
      token the ledger still holds; then the database commits; then the ledger repeats it. */
  function BrokerOpen(b: Books, q: EntryRequest, lim: Limits, owner: bool, riskAllows: bool): Books {
    if KnownTo(b.ledger, q.entry.order, true) then b
    else if !riskAllows || q.entry.usd <= 0.0 || q.entry.mint in b.ledger.byToken then b
    else
      match CommitEntry(b.db, q, lim, owner)
      case Written(db) => Books(db, L.Enter(b.ledger, q.entry).0)
      case Answered(o) => Books(b.db, L.Enter(b.ledger, MirroredEntry(q.entry, o)).0)
      case Raised => b
  }

  /** Without a quote the exit is valued at nothing and its reason is the missing route. */
  function Valued(x: ExitRequest): ExitRequest {
    if x.quoted then x else x.(exit := x.exit.(usd := 0.0, fee := 0.0, reason := L.OtherReason))
  }

  ghost function BrokerClose(b: Books, x: ExitRequest, owner: bool): Books {
    var e := x.exit;
    if e.tokens <= 0.0 || KnownTo(b.ledger, e.order, false) then b
    else if e.mint !in b.ledger.byToken || b.ledger.byToken[e.mint] !in b.ledger.positions
            || e.tokens > b.ledger.positions[b.ledger.byToken[e.mint]].tokens then b
    else
      match CommitExit(b.db, Valued(x), owner)
      case Written(db) => Books(db, L.Leave(b.ledger, Valued(x).exit).0)
      case Answered(o) => Books(b.db, L.Leave(b.ledger, MirroredExit(Valued(x).exit, o)).0)
      case Raised => b
  }

  /** A revaluation marks the ledger and then stores its figures; for a process that does not
      own the account the second half raises. */
  ghost function BrokerRevalue(b: Books, m: L.Marks, gains: map<PositionId, real>, owner: bool): Books {
    var l := L.Mark(b.ledger, m);
    Books(if owner then MarksWritten(b.db, l, gains) else b.db, l)
  }

  ghost function Apply(b: Books, a: Action): Books {
    match a
    case Open(q, lim, owner, risk) => BrokerOpen(b, q, lim, owner, risk)
    case Close(x, owner) => BrokerClose(b, x, owner)
    case Revalue(m, gains, owner) => BrokerRevalue(b, m, gains, owner)
  }

  /** No order identifier serves both an entry and an exit, and position identifiers are new. */
  ghost predicate Fresh(db: Db, a: Action) {
    match a
    case Open(q, _, _, _) =>
      (q.entry.order in db.orders ==> db.orders[q.entry.order].isBuy) && q.entry.position !in db.positions
    case Close(x, _) => x.exit.order in db.orders ==> !db.orders[x.exit.order].isBuy
    case Revalue(_, _, _) => true
  }

  /** The quoted amounts have the sign a market quote has. */
  predicate SoundQuote(a: Action) {
    match a
    case Open(q, _, _, _) => q.entry.tokens > 0.0
    case Close(x, _) => x.quoted ==> x.exit.usd >= 0.0
    case Revalue(_, _, _) => true
  }

  // ---------------------------------------------------------------------------
  // Known orders.

  lemma {:induction false} FillOfIsIn(fills: seq<L.Fill>, o: OrderId)
    ensures FillOf(fills, o).Some? ==> FillOf(fills, o).value in fills && FillOf(fills, o).value.order == o
    ensures FillOf(fills, o).None? ==> forall f :: f in fills ==> f.order != o
  {
    if fills != [] {
      FillOfIsIn(fills[..|fills| - 1], o);
      assert fills == fills[..|fills| - 1] + [fills[|fills| - 1]];
    }
  }

  /** In agreeing books the ledger knows exactly the orders the database has stored. */
  lemma KnownIffStored(b: Books, o: OrderId, isEntry: bool)
    requires OrdersAgree(b.db, b.ledger) && Filed(b.db)
    ensures KnownTo(b.ledger, o, isEntry) <==> o in b.db.orders && b.db.orders[o].isBuy == isEntry
  {
    FillOfIsIn(b.ledger.fills, o);
  }

  // ---------------------------------------------------------------------------
  // When an operation writes.

  /** The guards of an entry, as a caller can check them before the call. */
  ghost predicate EntryCommits(b: Books, a: Action)
    requires a.Open?
  {
    var e := a.request.entry;
    a.riskAllows && e.usd > 0.0 && e.mint !in b.ledger.byToken && e.order !in b.db.orders
    && a.owner && EntryAllowed(b.db, a.request, a.limits)
  }

  /** The guards of an exit: the token is held, its row is live, the amount is there. */
  ghost predicate ExitCommits(b: Books, a: Action)
    requires a.Close?
  {
    var e := a.exit.exit;
    e.mint in b.ledger.byToken && e.order !in b.db.orders && a.owner
    && var id := b.ledger.byToken[e.mint];
       id in b.db.positions && Live(b.db.positions[id]) && 0.0 < e.tokens <= b.db.positions[id].tokens
  }

  lemma EntryEffect(b: Books, a: Action)
    requires a.Open? && Sound(b) && Fresh(b.db, a)
    ensures Apply(b, a) == if EntryCommits(b, a)
                           then Books(EntryWritten(b.db, a.request), L.Enter(b.ledger, a.request.entry).0) else b
  {
    hide RowsAgree, AccountsAgree, L.Indexed, L.Listed, EntryAllowed, EntryWritten, L.Enter, KnownTo;
    KnownIffStored(b, a.request.entry.order, true);
  }

  lemma ExitEffect(b: Books, a: Action)
    requires a.Close? && Sound(b) && Fresh(b.db, a)
    ensures ExitCommits(b, a) ==> b.ledger.byToken[a.exit.exit.mint] in b.db.positions
                                  && ExitHits(b.db, Valued(a.exit), b.ledger.byToken[a.exit.exit.mint])
    ensures Apply(b, a) == if ExitCommits(b, a)
                           then Books(ExitWritten(b.db, Valued(a.exit), b.ledger.byToken[a.exit.exit.mint]),
                                      L.Leave(b.ledger, Valued(a.exit).exit).0)
                           else b
  {
    hide AccountsAgree, L.Listed, ExitWritten, L.Leave, KnownTo;
    var x := Valued(a.exit);
    KnownIffStored(b, x.exit.order, false);
    forall id | ExitHits(b.db, x, id) ensures x.exit.mint in b.ledger.byToken && id == b.ledger.byToken[x.exit.mint] {
      assert SamePosition(b.db.positions[id], b.ledger.positions[id]);
    }
    if x.exit.mint in b.ledger.byToken {
      var id := b.ledger.byToken[x.exit.mint];
      assert SamePosition(b.db.positions[id], b.ledger.positions[id]);
      assert ExitCommits(b, a) ==> ExitHits(b.db, x, id);
    }
  }

  // ---------------------------------------------------------------------------
  // Every operation keeps the agreement.

  lemma EntryFiled(db: Db, q: EntryRequest)
    requires Filed(db) && q.entry.tokens != 0.0 && q.entry.order !in db.orders
    ensures Filed(EntryWritten(db, q))
  {
    hide Lifted, NewRow;
    FiledAppend(db, EntryWritten(db, q), EntryFill(q.entry));
  }

  lemma ExitFiled(db: Db, x: ExitRequest, id: PositionId)
    requires Filed(db) && ExitHits(db, x, id) && x.exit.order !in db.orders
    ensures Filed(ExitWritten(db, x, id))
  {
    hide RowAfterExit, AccountAfterExit, Figures;
    FiledAppend(db, ExitWritten(db, x, id), ExitFill(db.positions[id], x, id, Figures(db.positions[id], x).received));
  }

  lemma FiledAppend(db: Db, db': Db, f: L.Fill)
    requires Filed(db) && f.order !in db.orders && db'.fills == db.fills + [f]
    requires db'.orders == db.orders[f.order := Order(f.isEntry, f.at, f.day, f.positionId)]
    requires db.positions.Keys <= db'.positions.Keys && f.positionId in db'.positions
    ensures Filed(db')
  {
    assert forall g :: g in db'.fills <==> g in db.fills || g == f;
  }

  lemma OpenKeepsUsable(l: L.State, e: L.Entry)
    requires Usable(l) && L.FreshEntry(l, e) && e.tokens > 0.0 && e.mint !in l.byToken
    ensures Usable(L.OpenPosition(l, e))
  {
    hide L.Indexed, L.Listed;
    L.OpenKeepsTables(l, e);
  }

  lemma CloseKeepsUsable(l: L.State, x: L.Exit, id: PositionId)
    requires Usable(l) && x.mint in l.byToken && id == l.byToken[x.mint]
    requires id in l.positions && 0.0 < x.tokens <= l.positions[id].tokens
    ensures Usable(L.ClosePosition(l, x, id))
  {
    L.CloseKeepsLists(l, x, id);
    L.CloseKeepsIndex(l, x, id);
  }

  lemma OpenKeepsAgreement(b: Books, a: Action)
    requires a.Open? && Sound(b) && Fresh(b.db, a) && SoundQuote(a)
    ensures Sound(Apply(b, a))
  {
    hide L.Indexed, L.Listed, EntryAllowed, Filed;
    EntryEffect(b, a);
    if EntryCommits(b, a) {
      NotDust(b, a);
      EntryFiled(b.db, a.request);
      OpenKeepsUsable(b.ledger, a.request.entry);
      OpenedBooksAgree(b, a.request);
    }
  }

  lemma NotDust(b: Books, a: Action)
    requires a.Open? && EntryCommits(b, a)
    ensures a.request.entry.tokens != 0.0
  {
  }

  lemma OpenedBooksAgree(b: Books, q: EntryRequest)
    requires Agree(b) && q.entry.usd > 0.0 && q.entry.tokens > 0.0 && q.entry.order !in b.db.orders
    requires q.entry.mint !in b.ledger.byToken && q.entry.position !in b.db.positions
    ensures L.Enter(b.ledger, q.entry).0 == L.OpenPosition(b.ledger, q.entry)
    ensures Agree(Books(EntryWritten(b.db, q), L.OpenPosition(b.ledger, q.entry)))
  {
    hide RowsAgree, OrdersAgree, AccountsAgree;
    assert q.entry.order !in b.ledger.entryOrders by { StoredIsKnown(b, q.entry.order); }
    OpenedRowsAgree(b, q);
    OpenedOrdersAgree(b, q);
  }

  lemma StoredIsKnown(b: Books, o: OrderId)
    requires OrdersAgree(b.db, b.ledger) && o !in b.db.orders
    ensures o !in b.ledger.entryOrders && o !in b.ledger.exitOrders
  {
  }

  lemma OpenedRowsAgree(b: Books, q: EntryRequest)
    requires RowsAgree(b.db, b.ledger) && AccountsAgree(b.db.account, b.ledger)
    requires q.entry.tokens > 0.0 && q.entry.position !in b.db.positions
    ensures var db, l := EntryWritten(b.db, q), L.OpenPosition(b.ledger, q.entry);
            RowsAgree(db, l) && AccountsAgree(db.account, l)
  {
    var after := Books(EntryWritten(b.db, q), L.OpenPosition(b.ledger, q.entry));
    forall id | id in after.db.positions ensures SamePosition(after.db.positions[id], after.ledger.positions[id]) {
      if id != q.entry.position { assert SamePosition(b.db.positions[id], b.ledger.positions[id]); }
    }
  }

  lemma OpenedOrdersAgree(b: Books, q: EntryRequest)
    requires OrdersAgree(b.db, b.ledger) && q.entry.tokens > 0.0 && q.entry.order !in b.db.orders
    ensures OrdersAgree(EntryWritten(b.db, q), L.OpenPosition(b.ledger, q.entry))
  {
    hide NewRow, Lifted;
  }

  lemma CloseKeepsAgreement(b: Books, a: Action)
    requires a.Close? && Sound(b) && Fresh(b.db, a) && SoundQuote(a)
    ensures Sound(Apply(b, a))
  {
    hide L.Listed, ExitWritten, L.ClosePosition, Filed, AccountsAgree;
    var x := Valued(a.exit);
    ExitEffect(b, a);
    if ExitCommits(b, a) {
      var id := b.ledger.byToken[x.exit.mint];
      assert SamePosition(b.db.positions[id], b.ledger.positions[id]);
      LeavesOpen(b.ledger, x.exit, id);
      ExitFiled(b.db, x, id);
      CloseKeepsUsable(b.ledger, x.exit, id);
      ClosedBooksAgree(b, x, id);
    }
  }

  lemma LeavesOpen(l: L.State, x: L.Exit, id: PositionId)
    requires x.usd >= 0.0 && x.order !in l.exitOrders && x.mint in l.byToken && id == l.byToken[x.mint]
    requires id in l.positions && l.positions[id].status == L.Open && 0.0 < x.tokens <= l.positions[id].tokens
    ensures L.Leave(l, x) == (L.ClosePosition(l, x, id), L.Done(id))
  {
    hide L.ClosePosition;
  }

  /** Cost per token times amount is cost times closed fraction, so both sides release the
      same cost and book the same gain. */
  lemma ClosedBooksAgree(b: Books, x: ExitRequest, id: PositionId)
    requires Agree(b) && ExitHits(b.db, x, id) && x == Valued(x) && x.exit.order !in b.db.orders
    ensures id in b.ledger.positions && b.ledger.positions[id].tokens > 0.0
    ensures Agree(Books(ExitWritten(b.db, x, id), L.ClosePosition(b.ledger, x.exit, id)))
  {
    hide AccountsAgree, SamePosition, OrdersAgree, L.ClosedPosition, RowAfterExit, AccountAfterExit;
    HeldPosition(b, id);
    var after := Books(ExitWritten(b.db, x, id), L.ClosePosition(b.ledger, x.exit, id));
    OneRowAgrees(b, x, id);
    ClosedOrdersAgree(b, x, id);
    forall j | j in after.db.positions ensures SamePosition(after.db.positions[j], after.ledger.positions[j]) {
      if j != id { assert SamePosition(b.db.positions[j], b.ledger.positions[j]); }
    }
  }

  lemma HeldPosition(b: Books, id: PositionId)
    requires RowsAgree(b.db, b.ledger) && id in b.db.positions
    ensures id in b.ledger.positions && SamePosition(b.db.positions[id], b.ledger.positions[id])
    ensures b.ledger.positions[id].tokens == b.db.positions[id].tokens
  {
    assert SamePosition(b.db.positions[id], b.ledger.positions[id]);
  }

  lemma ClosedOrdersAgree(b: Books, x: ExitRequest, id: PositionId)
    requires OrdersAgree(b.db, b.ledger) && ExitHits(b.db, x, id) && x.exit.order !in b.db.orders
    requires id in b.ledger.positions && b.ledger.positions[id].tokens > 0.0
    requires ExitFill(b.db.positions[id], x, id, Figures(b.db.positions[id], x).received)
             == L.ExitFill(b.ledger.positions[id], x.exit, id)
    ensures OrdersAgree(ExitWritten(b.db, x, id), L.ClosePosition(b.ledger, x.exit, id))
  {
    hide Figures, L.ExitFill, ExitFill, L.ClosedPosition, RowAfterExit, AccountAfterExit;
  }

  lemma OneRowAgrees(b: Books, x: ExitRequest, id: PositionId)
    requires ExitHits(b.db, x, id) && id in b.ledger.positions && x == Valued(x)
    requires SamePosition(b.db.positions[id], b.ledger.positions[id]) && AccountsAgree(b.db.account, b.ledger)
    ensures var db, l := ExitWritten(b.db, x, id), L.ClosePosition(b.ledger, x.exit, id);
            SamePosition(db.positions[id], l.positions[id]) && AccountsAgree(db.account, l)
            && ExitFill(b.db.positions[id], x, id, Figures(b.db.positions[id], x).received)
               == L.ExitFill(b.ledger.positions[id], x.exit, id)
  {
    var p := b.db.positions[id];
    ProportionalShare(p.cost, p.tokens, x.exit.tokens);
    assert Figures(p, x).received == L.NetReceived(x.exit);
  }

  lemma RevalueKeepsAgreement(b: Books, a: Action)
    requires a.Revalue? && Sound(b)
    ensures Sound(Apply(b, a))
  {
    hide RowsAgree, AccountsAgree, OrdersAgree, Filed, Usable;
    MarkedRowsAgree(b, a);
    MarkedBooksAgree(b, a);
    MarkKeepsUsable(b.ledger, a.marks);
  }

  lemma MarkedRowsAgree(b: Books, a: Action)
    requires a.Revalue? && RowsAgree(b.db, b.ledger)
    ensures RowsAgree(Apply(b, a).db, Apply(b, a).ledger)
  {
    hide L.Contributions;
    var after := Apply(b, a);
    forall id | id in after.db.positions ensures SamePosition(after.db.positions[id], after.ledger.positions[id]) {
      assert SamePosition(b.db.positions[id], b.ledger.positions[id]);
    }
  }

  lemma MarkedBooksAgree(b: Books, a: Action)
    requires a.Revalue? && AccountsAgree(b.db.account, b.ledger) && OrdersAgree(b.db, b.ledger) && Filed(b.db)
    ensures var after := Apply(b, a);
            AccountsAgree(after.db.account, after.ledger) && OrdersAgree(after.db, after.ledger) && Filed(after.db)
  {
    hide L.Contributions, L.MarkAll, RowMarked, Total;
    var after := Apply(b, a);
    assert after.db.positions.Keys == b.db.positions.Keys;
  }

  lemma MarkKeepsUsable(l: L.State, m: L.Marks)
    requires Usable(l)
    ensures Usable(L.Mark(l, m))
  {
    hide L.Indexed, L.Listed, L.Contributions, Total;
    L.MarkMovesNothing(l.positions, m);
    L.IndexIgnoresValues(l, L.Mark(l, m));
  }

  lemma StepKeepsAgreement(b: Books, a: Action)
    requires Sound(b) && Fresh(b.db, a) && SoundQuote(a)
    ensures Sound(Apply(b, a))
  {
    hide Apply, Sound;
    match a
    case Open(_, _, _, _) => OpenKeepsAgreement(b, a);
    case Close(_, _) => CloseKeepsAgreement(b, a);
    case Revalue(_, _, _) => RevalueKeepsAgreement(b, a);
  }

  // ---------------------------------------------------------------------------
  // Whole runs.

  ghost predicate IsRun(bs: seq<Books>, acts: seq<Action>, start: real) {
    |bs| == |acts| + 1 && bs[0] == Books(Initial(start), L.Initial(start))
    && forall i :: 0 <= i < |acts| ==>
         Fresh(bs[i].db, acts[i]) && SoundQuote(acts[i]) && bs[i + 1] == Apply(bs[i], acts[i])
  }

  /** Over every run of entries, exits and revaluations, repeated orders and refused
      transactions included, the database and the ledger agree on remaining tokens, remaining
      cost, realized gains, locked capital, cash, equity less unrealized gains, orders and fills. */
  lemma {:induction false} BooksAgree(bs: seq<Books>, acts: seq<Action>, start: real, k: nat)
    requires IsRun(bs, acts, start) && k < |bs|
    ensures Sound(bs[k])
  {
    hide Apply, Sound, Fresh, SoundQuote;
    if k == 0 {
      InitialAgrees(start);
    } else {
      BooksAgree(bs, acts, start, k - 1);
      assert Fresh(bs[k - 1].db, acts[k - 1]) && bs[k - 1 + 1] == Apply(bs[k - 1], acts[k - 1]);
      StepKeepsAgreement(bs[k - 1], acts[k - 1]);
    }
  }

  lemma InitialAgrees(start: real)
    ensures Sound(Books(Initial(start), L.Initial(start)))
  {
  }

  /** What an operation does to the ledger is an admissible ledger operation, so everything
      proved of ledger runs holds of the mirrored ledger. */
  lemma MirrorKeepsLedgerInv(b: Books, a: Action, start: real)
    requires Sound(b) && L.Inv(b.ledger, start) && Fresh(b.db, a) && SoundQuote(a)
    ensures L.Inv(Apply(b, a).ledger, start)
  {
    hide L.Inv, L.Mark, L.Enter, L.Leave, EntryWritten, ExitWritten;
    match a
    case Open(q, _, _, _) =>
      EntryEffect(b, a);
      if EntryCommits(b, a) { L.StepKeepsInv(b.ledger, start, L.Buy(q.entry)); }
    case Close(x, _) =>
      ExitEffect(b, a);
      if ExitCommits(b, a) { L.StepKeepsInv(b.ledger, start, L.Sell(Valued(x).exit)); }
    case Revalue(m, _, _) => L.StepKeepsInv(b.ledger, start, L.Revalue(m));
  }

  lemma {:induction false} LedgerInvHolds(bs: seq<Books>, acts: seq<Action>, start: real, k: nat)
    requires IsRun(bs, acts, start) && k < |bs|
    ensures L.Inv(bs[k].ledger, start)
  {
    hide Apply, Sound, Fresh, SoundQuote, L.Inv;
    if k == 0 {
      L.InitialInv(start);
    } else {
      LedgerInvHolds(bs, acts, start, k - 1);
      BooksAgree(bs, acts, start, k - 1);
      assert Fresh(bs[k - 1].db, acts[k - 1]) && bs[k - 1 + 1] == Apply(bs[k - 1], acts[k - 1]);
      MirrorKeepsLedgerInv(bs[k - 1], acts[k - 1], start);
    }
  }
}
