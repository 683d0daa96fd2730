/** The durable paper account: what a committed entry or exit transaction writes, and when it
    is refused. A refusal raises inside the transaction, so nothing is written. */
module PaperAccount {
  import opened Options
  import L = Ledger

  type PositionId = L.PositionId
  type OrderId = L.OrderId
  type Mint = L.Mint
  type Day = L.Day

  datatype RowStatus = OpenRow | PartialRow | ClosedRow | UnrecoverableRow

  datatype Row = Row(
    mint: Mint, status: RowStatus, entryTokens: real, entryCost: real, openedAt: int,
    tokens: real, cost: real, realized: real, unrealized: real,
    highValue: real, lowValue: real, best: real, worst: real, tp1Taken: bool, tp2Taken: bool, lastNewHighAt: Option<int>)

  datatype Order = Order(isBuy: bool, at: int, day: Day, position: PositionId)

  datatype Halt = NotHalted | DailyHalt | OtherHalt

  datatype Account = Account(
    cash: real, locked: real, realized: real, unrealized: real, operational: real, equity: real, peak: real,
    halt: Halt, haltDay: Option<Day>, pauseUntil: Option<int>)

  datatype Db = Db(account: Account, positions: map<PositionId, Row>, orders: map<OrderId, Order>, fills: seq<L.Fill>)

  datatype Limits = Limits(maxPosition: real, maxExposure: real, maxOpen: nat, dailyLoss: real, maxTrades: nat)

  /** One entry transaction: the order and the equity mark its trading day is measured
      against. */
  datatype EntryRequest = EntryRequest(entry: L.Entry, baseline: Option<real>)

  /** One exit transaction; without a quote the position is written off. */
  datatype ExitRequest = ExitRequest(exit: L.Exit, quoted: bool)

  function Initial(start: real): Db {
    Db(Account(start, 0.0, 0.0, 0.0, 0.0, start, start, NotHalted, None, None), map[], map[], [])
  }

  predicate Live(r: Row) {
    r.status == OpenRow || r.status == PartialRow
  }

  function LiveIds(positions: map<PositionId, Row>): set<PositionId> {
    set id | id in positions && Live(positions[id])
  }

  function BuysOn(orders: map<OrderId, Order>, day: Day): set<OrderId> {
    set o | o in orders && orders[o].isBuy && orders[o].day == day
  }

  predicate HoldsMint(positions: map<PositionId, Row>, mint: Mint) {
    exists id :: id in positions && Live(positions[id]) && positions[id].mint == mint
  }

  ghost predicate OnePerMint(positions: map<PositionId, Row>) {
    forall i, j ::
      (i in positions && j in positions && Live(positions[i]) && Live(positions[j])
       && positions[i].mint == positions[j].mint) ==> i == j
  }

  ghost predicate SoundRows(positions: map<PositionId, Row>) {
    forall id {:trigger positions[id]} :: id in positions ==>
      positions[id].cost >= 0.0 && (Live(positions[id]) ==> positions[id].tokens > 0.0)
  }

  function Abs(x: real): real { if x < 0.0 then -x else x }

  // ---------------------------------------------------------------------------
  // commit_paper_entry

  /** A pause that has run out and a daily halt of an earlier day are lifted first. */
  function Lifted(a: Account, day: Day, at: int): Account {
    var b := if a.pauseUntil.Some? && a.pauseUntil.value <= at then a.(pauseUntil := None) else a;
    if b.haltDay.Some? && b.haltDay.value != day
    then b.(halt := if b.halt == DailyHalt then NotHalted else b.halt, haltDay := None)
    else b
  }

  predicate EntryAllowed(db: Db, q: EntryRequest, lim: Limits) {
    var a := Lifted(db.account, q.entry.day, q.entry.at);
    var cost := L.EntryCost(q.entry);
    a.halt == NotHalted && a.pauseUntil.None?
    && q.entry.usd <= lim.maxPosition
    && a.locked + cost <= lim.maxExposure
    && |LiveIds(db.positions)| < lim.maxOpen
    && |BuysOn(db.orders, q.entry.day)| < lim.maxTrades
    && (q.baseline.Some? ==> a.equity - q.baseline.value > -Abs(lim.dailyLoss))
    && !HoldsMint(db.positions, q.entry.mint)
    && a.cash >= cost
    && q.entry.tokens != 0.0
  }

  function NewRow(e: L.Entry): Row {
    var cost := L.EntryCost(e);
    Row(e.mint, OpenRow, e.tokens, cost, e.at, e.tokens, cost, 0.0, 0.0, cost, cost, 0.0, 0.0, false, false, Some(e.at))
  }

  function EntryFill(e: L.Entry): L.Fill
    requires e.tokens != 0.0
  {
    L.Fill(e.position, e.order, true, e.tokens, L.EntryCost(e), L.EntryCost(e) / e.tokens, e.at, e.day)
  }

  function EntryWritten(db: Db, q: EntryRequest): Db
    requires q.entry.tokens != 0.0
  {
    var e := q.entry;
    var a := Lifted(db.account, e.day, e.at);
    var cost := L.EntryCost(e);
    Db(a.(cash := a.cash - cost, locked := a.locked + cost),
       db.positions[e.position := NewRow(e)],
       db.orders[e.order := Order(true, e.at, e.day, e.position)],
       db.fills + [EntryFill(e)])
  }

  /** A repeated order is answered by its stored record, before anything else is checked. */
  datatype Outcome = Written(db: Db) | Answered(order: Order) | Raised

  function CommitEntry(db: Db, q: EntryRequest, lim: Limits, owner: bool): Outcome {
    if q.entry.order in db.orders then Answered(db.orders[q.entry.order])
    else if !owner || !EntryAllowed(db, q, lim) then Raised
    else Written(EntryWritten(db, q))
  }

  // ---------------------------------------------------------------------------
  // commit_paper_exit

  /** The cost released, the money received, the marked gain given up and the share kept. */
  datatype ExitFigures = ExitFigures(released: real, received: real, gone: real, kept: real)

  function Figures(p: Row, x: ExitRequest): ExitFigures
    requires p.tokens > 0.0
  {
    ExitFigures(p.cost / p.tokens * x.exit.tokens,
                if x.quoted then L.NetReceived(x.exit) else L.Max(0.0, x.exit.usd),
                p.unrealized * (x.exit.tokens / p.tokens),
                1.0 - x.exit.tokens / p.tokens)
  }

  function RowAfterExit(p: Row, x: ExitRequest, f: ExitFigures): Row {
    var left := p.tokens - x.exit.tokens;
    p.(tokens := left, cost := p.cost - f.released, realized := p.realized + (f.received - f.released),
       unrealized := p.unrealized - f.gone,
       highValue := L.Scaled(p.highValue, f.kept), lowValue := L.Scaled(p.lowValue, f.kept),
       tp1Taken := p.tp1Taken || x.exit.reason == L.Tp1, tp2Taken := p.tp2Taken || x.exit.reason == L.Tp2,
       status := if !x.quoted then UnrecoverableRow else if left <= 0.0 then ClosedRow else PartialRow)
  }

  function AccountAfterExit(a: Account, f: ExitFigures): Account {
    var gain := f.received - f.released;
    var equity := a.equity + (gain - f.gone);
    a.(cash := a.cash + f.received, locked := a.locked - f.released, realized := a.realized + gain,
       unrealized := a.unrealized - f.gone, equity := equity, peak := L.Max(a.peak, equity))
  }

  function ExitFill(p: Row, x: ExitRequest, id: PositionId, received: real): L.Fill
    requires p.tokens > 0.0
  {
    L.Fill(id, x.exit.order, false, x.exit.tokens, received, p.cost / p.tokens, x.exit.at, x.exit.day)
  }

  function ExitWritten(db: Db, x: ExitRequest, id: PositionId): Db
    requires id in db.positions && db.positions[id].tokens > 0.0
  {
    var p := db.positions[id];
    var f := Figures(p, x);
    Db(AccountAfterExit(db.account, f),
       db.positions[id := RowAfterExit(p, x, f)],
       db.orders[x.exit.order := Order(false, x.exit.at, x.exit.day, id)],
       db.fills + [ExitFill(p, x, id, f.received)])
  }

  /** `x` hits the live row of its token. */
  predicate ExitHits(db: Db, x: ExitRequest, id: PositionId) {
    id in db.positions && Live(db.positions[id]) && db.positions[id].mint == x.exit.mint
    && 0.0 < x.exit.tokens <= db.positions[id].tokens
  }

  ghost function CommitExit(db: Db, x: ExitRequest, owner: bool): Outcome {
    if x.exit.order in db.orders then Answered(db.orders[x.exit.order])
    else if owner && exists id :: ExitHits(db, x, id)
    then var id :| ExitHits(db, x, id); Written(ExitWritten(db, x, id))
    else Raised
  }

  // ---------------------------------------------------------------------------
  // The other account writers.

  /** `update_paper_marks`: the ledger's account figures, and for each given position its marked
      gain, extremes and targets. */
  function MarksWritten(db: Db, l: L.State, gains: map<PositionId, real>): Db {
    db.(account := db.account.(equity := l.equity, peak := l.peak, unrealized := l.unrealized, locked := l.locked),
        positions := map id | id in db.positions ::
          if id in gains && id in l.positions then RowMarked(db.positions[id], l.positions[id], gains[id])
          else db.positions[id])
  }

  function RowMarked(r: Row, p: L.Position, gain: real): Row {
    r.(unrealized := gain, highValue := p.highValue, lowValue := if p.lowValue.Some? then p.lowValue.value else 0.0,
       best := p.best, worst := p.worst, tp1Taken := p.tp1Taken, tp2Taken := p.tp2Taken, lastNewHighAt := p.lastNewHighAt)
  }

  /** `persist_risk_state`. */
  function RiskWritten(db: Db, halt: Halt, haltDay: Option<Day>, pauseUntil: Option<int>): Db {
    db.(account := db.account.(halt := halt, haltDay := haltDay, pauseUntil := pauseUntil))
  }

  /** `record_operational_cost`. */
  function CostWritten(db: Db, amount: real): Db {
    db.(account := db.account.(operational := db.account.operational + amount, cash := db.account.cash - amount,
                               equity := db.account.equity - amount))
  }
}
