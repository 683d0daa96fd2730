/** What a trade moves, in the requested amounts themselves: one entry, exit and mark on each of the
    two books, and the cash of a whole run. */
module TradeFigures {
  import opened Options
  import opened Sums
  import L = Ledger
  import opened PaperAccount
  import opened BrokerMirror

  function Larger(a: real, b: real): real { if a < b then b else a }

  // ---------------------------------------------------------------------------
  // The ledger.

  /** An entry locks its amount and its fee, and opens a position of that cost. */
  lemma OpeningMoves(l: L.State, e: L.Entry)
    requires e.usd > 0.0 && e.tokens > 0.0 && e.order !in l.entryOrders && e.mint !in l.byToken
    ensures var l', cost := L.Enter(l, e).0, e.usd + e.fee;
            L.Enter(l, e).1 == L.Done(e.position)
            && l'.locked == l.locked + cost && l'.equity == l.equity && l'.realized == l.realized
            && l'.unrealized == l.unrealized && l'.peak == l.peak && l'.daily == l.daily && l'.baseline == l.baseline
            && l'.order == l.order + [e.position] && l'.byToken == l.byToken[e.mint := e.position]
            && l'.entryOrders == l.entryOrders[e.order := e.position] && l'.exitOrders == l.exitOrders
            && l'.fills == l.fills + [L.Fill(e.position, e.order, true, e.tokens, cost, cost / e.tokens, e.at, e.day)]
            && l'.positions.Keys == l.positions.Keys + {e.position}
            && (forall id :: id in l.positions && id != e.position ==> l'.positions[id] == l.positions[id])
            && var p := l'.positions[e.position];
               p.mint == e.mint && p.status == L.Open && p.tokens == e.tokens == p.entryTokens
               && p.cost == cost == p.entryCost && p.openedAt == e.at && !p.tp1Taken && !p.tp2Taken
               && p.realized == p.lastValue == p.highValue == p.peakUnrealized == p.best == p.worst == 0.0
               && p.lowValue.None? && p.lastNewHighAt.None?
  {
  }

  /** An exit of a part of a position releases that part of its cost and of its marked gain, and
      books what is received less the fee, but not less than nothing, against that cost. */
  lemma ClosingMoves(l: L.State, x: L.Exit, id: PositionId)
    requires x.usd >= 0.0 && x.order !in l.exitOrders && x.mint in l.byToken && id == l.byToken[x.mint]
    requires id in l.positions && l.positions[id].status == L.Open && 0.0 < x.tokens <= l.positions[id].tokens
    ensures var l', p := L.Leave(l, x).0, l.positions[id];
            var part, got := x.tokens / p.tokens, Larger(0.0, x.usd - x.fee);
            var gain, marked := got - p.cost * part, if p.lastValue > 0.0 then p.lastValue - p.cost else 0.0;
            L.Leave(l, x).1 == L.Done(id)
            && l'.realized == l.realized + gain && l'.locked == l.locked - p.cost * part
            && l'.unrealized == l.unrealized - marked * part
            && l'.equity == l.equity + gain - marked * part && l'.peak == Larger(l.peak, l'.equity)
            && l'.daily == l.daily[x.day := (if x.day in l.daily then l.daily[x.day] else 0.0) + gain]
            && l'.exitOrders == l.exitOrders[x.order := id] && l'.entryOrders == l.entryOrders
            && l'.byToken == (if x.tokens == p.tokens then l.byToken - {x.mint} else l.byToken)
            && l'.order == l.order && l'.baseline == l.baseline && l'.positions.Keys == l.positions.Keys
            && l'.fills == l.fills + [L.Fill(id, x.order, false, x.tokens, got, p.cost / p.tokens, x.at, x.day)]
            && (forall j :: j in l.positions && j != id ==> l'.positions[j] == l.positions[j])
  {
    hide L.ClosedPosition;
    StatusAfter(l.positions[id], x);
  }

  lemma StatusAfter(p: L.Position, x: L.Exit)
    requires p.status == L.Open && 0.0 < x.tokens <= p.tokens
    ensures L.ClosedPosition(p, x).status == if x.tokens == p.tokens then L.Closed else L.Open
  {
  }

  /** The position keeps the other part of all its amounts. */
  lemma ClosingLeaves(p: L.Position, x: L.Exit)
    requires p.status == L.Open && 0.0 < x.tokens <= p.tokens
    ensures var q, kept := L.ClosedPosition(p, x), 1.0 - x.tokens / p.tokens;
            var got := Larger(0.0, x.usd - x.fee);
            q.tokens == p.tokens - x.tokens && q.cost == p.cost * kept
            && q.realized == p.realized + got - p.cost * (1.0 - kept)
            && q.lastValue == p.lastValue * kept && q.highValue == p.highValue * kept
            && q.peakUnrealized == p.peakUnrealized * kept
            && (q.lowValue.Some? <==> p.lowValue.Some?)
            && (p.lowValue.Some? ==> q.lowValue.value == p.lowValue.value * kept)
            && q.tp1Taken == (p.tp1Taken || x.reason == L.Tp1) && q.tp2Taken == (p.tp2Taken || x.reason == L.Tp2)
            && q.status == (if x.tokens == p.tokens then L.Closed else L.Open)
            && q.mint == p.mint && q.entryTokens == p.entryTokens && q.entryCost == p.entryCost
            && q.openedAt == p.openedAt && q.lastNewHighAt == p.lastNewHighAt && q.best == p.best && q.worst == p.worst
  {
    PartOfCost(p.cost, x.tokens / p.tokens);
    assert L.Released(p, x) == p.cost * (1.0 - (1.0 - x.tokens / p.tokens));
  }

  lemma PartOfCost(cost: real, part: real)
    ensures cost - cost * part == cost * (1.0 - part)
  {
  }

  /** Marking revalues the open positions that have a price and no other; the unrealized gain is
      then that of these positions alone. */
  lemma MarkingMoves(l: L.State, m: L.Marks)
    ensures var l' := L.Mark(l, m);
            var gains := map id | id in l.positions ::
                           var p := l.positions[id];
                           if p.status == L.Open && p.mint in m.prices then p.tokens * m.prices[p.mint] - p.cost else 0.0;
            l'.unrealized == Total(gains) && l'.equity == l.equity - l.unrealized + Total(gains)
            && l'.peak == Larger(l.peak, l'.equity) && l'.realized == l.realized && l'.locked == l.locked
            && l'.baseline == (if m.day in l.baseline then l.baseline else l.baseline[m.day := l'.equity])
            && l'.fills == l.fills && l'.order == l.order && l'.daily == l.daily && l'.byToken == l.byToken
            && l'.entryOrders == l.entryOrders && l'.exitOrders == l.exitOrders
            && l'.positions.Keys == l.positions.Keys
  {
    hide Total, L.MarkAll;
    assert L.Contributions(l.positions, m) == map id | id in l.positions ::
      var p := l.positions[id];
      if p.status == L.Open && p.mint in m.prices then p.tokens * m.prices[p.mint] - p.cost else 0.0;
    assert L.MarkAll(l.positions, m).Keys == l.positions.Keys by { KeysStay(l.positions, m); }
  }

  lemma KeysStay(positions: map<PositionId, L.Position>, m: L.Marks)
    ensures L.MarkAll(positions, m).Keys == positions.Keys
  {
  }

  /** A marked position takes the value as its last one and extends its extremes by it. */
  lemma MarkingOfPosition(l: L.State, m: L.Marks, id: PositionId)
    requires id in l.positions
    ensures id in L.Mark(l, m).positions
    ensures var p, q := l.positions[id], L.Mark(l, m).positions[id];
            if p.status == L.Open && p.mint in m.prices then
              var value := p.tokens * m.prices[p.mint];
              q.lastValue == value && q.peakUnrealized == Larger(p.peakUnrealized, value - p.cost)
              && q.highValue == Larger(p.highValue, value)
              && q.lastNewHighAt == (if value > p.highValue then Some(m.at) else p.lastNewHighAt)
              && q.lowValue == Some(if p.lowValue.Some? && p.lowValue.value < value then p.lowValue.value else value)
              && (p.cost > 0.0 ==>
                    var gain := (value - p.cost) / p.cost;
                    q.best == Larger(p.best, gain) && q.worst == (if gain < p.worst then gain else p.worst))
              && (p.cost <= 0.0 ==> q.best == p.best && q.worst == p.worst)
              && q == p.(lastValue := q.lastValue, peakUnrealized := q.peakUnrealized, highValue := q.highValue,
                         lastNewHighAt := q.lastNewHighAt, lowValue := q.lowValue, best := q.best, worst := q.worst)
            else q == p
  {
    hide Total, L.Contributions;
  }

  // ---------------------------------------------------------------------------
  // The database.

  /** A revaluation stores the ledger's equity, peak, unrealized gain and locked capital, and for
      each revalued position its gain and the extremes, targets and time of its high in the ledger;
      every other row, the cash and the records stay. */
  lemma RevaluationMoves(db: Db, l: L.State, gains: map<PositionId, real>)
    ensures var a, d := db.account, MarksWritten(db, l, gains);
            d.account.equity == l.equity && d.account.peak == l.peak && d.account.unrealized == l.unrealized
            && d.account.locked == l.locked && d.account.cash == a.cash && d.account.realized == a.realized
            && d.account.operational == a.operational
            && d.orders == db.orders && d.fills == db.fills && d.positions.Keys == db.positions.Keys
            && (forall id :: id in db.positions && (id !in gains || id !in l.positions) ==>
                  d.positions[id] == db.positions[id])
            && forall id :: id in db.positions && id in gains && id in l.positions ==>
                 var r, p, q := db.positions[id], l.positions[id], d.positions[id];
                 q.unrealized == gains[id] && q.highValue == p.highValue && q.best == p.best && q.worst == p.worst
                 && (p.lowValue.Some? ==> q.lowValue == p.lowValue.value) && (p.lowValue.None? ==> q.lowValue == 0.0)
                 && q.tp1Taken == p.tp1Taken && q.tp2Taken == p.tp2Taken && q.lastNewHighAt == p.lastNewHighAt
                 && q.mint == r.mint && q.status == r.status && q.tokens == r.tokens && q.cost == r.cost
                 && q.entryTokens == r.entryTokens && q.entryCost == r.entryCost && q.openedAt == r.openedAt
                 && q.realized == r.realized
  {
  }

  /** A written entry takes its amount and fee out of the cash and locks it. */
  lemma EntryMoves(db: Db, q: EntryRequest)
    requires q.entry.tokens != 0.0
    ensures var a, e, d := db.account, q.entry, EntryWritten(db, q);
            var cost := e.usd + e.fee;
            d.account.cash == a.cash - cost && d.account.locked == a.locked + cost
            && d.account.equity == a.equity && d.account.peak == a.peak && d.account.realized == a.realized
            && d.account.unrealized == a.unrealized && d.account.operational == a.operational
            && d.orders == db.orders[e.order := Order(true, e.at, e.day, e.position)]
            && d.fills == db.fills + [L.Fill(e.position, e.order, true, e.tokens, cost, cost / e.tokens, e.at, e.day)]
            && d.positions.Keys == db.positions.Keys + {e.position}
            && (forall id :: id in db.positions && id != e.position ==> d.positions[id] == db.positions[id])
            && var r := d.positions[e.position];
               r.mint == e.mint && r.status == OpenRow && r.tokens == e.tokens == r.entryTokens
               && r.cost == cost == r.entryCost && r.highValue == r.lowValue == cost && r.openedAt == e.at
               && r.realized == r.unrealized == r.best == r.worst == 0.0
               && !r.tp1Taken && !r.tp2Taken && r.lastNewHighAt == Some(e.at)
  {
  }

  /** A written exit puts what is received into the cash, releases the part of the cost, and keeps
      the other part of the row's amounts. Without a quote the row is unrecoverable. */
  lemma ExitMoves(db: Db, x: ExitRequest, id: PositionId)
    requires ExitHits(db, x, id)
    ensures var a, r, d := db.account, db.positions[id], ExitWritten(db, x, id);
            var part := x.exit.tokens / r.tokens;
            var got := Larger(0.0, if x.quoted then x.exit.usd - x.exit.fee else x.exit.usd);
            var gain := got - r.cost * part;
            d.account.cash == a.cash + got && d.account.locked == a.locked - r.cost * part
            && d.account.realized == a.realized + gain && d.account.unrealized == a.unrealized - r.unrealized * part
            && d.account.equity == a.equity + gain - r.unrealized * part
            && d.account.peak == Larger(a.peak, d.account.equity) && d.account.operational == a.operational
            && d.orders == db.orders[x.exit.order := Order(false, x.exit.at, x.exit.day, id)]
            && d.fills == db.fills + [L.Fill(id, x.exit.order, false, x.exit.tokens, got, r.cost / r.tokens, x.exit.at, x.exit.day)]
            && d.positions.Keys == db.positions.Keys
            && (forall j :: j in db.positions && j != id ==> d.positions[j] == db.positions[j])
  {
    hide RowAfterExit;
    ProportionalShare(db.positions[id].cost, db.positions[id].tokens, x.exit.tokens);
  }

  lemma ExitLeaves(db: Db, x: ExitRequest, id: PositionId)
    requires ExitHits(db, x, id)
    ensures id in ExitWritten(db, x, id).positions
    ensures var r, after := db.positions[id], ExitWritten(db, x, id).positions[id];
            var kept := 1.0 - x.exit.tokens / r.tokens;
            var got := Larger(0.0, if x.quoted then x.exit.usd - x.exit.fee else x.exit.usd);
            after.tokens == r.tokens - x.exit.tokens && after.cost == r.cost * kept
            && after.realized == r.realized + got - r.cost * (1.0 - kept) && after.unrealized == r.unrealized * kept
            && after.highValue == r.highValue * kept && after.lowValue == r.lowValue * kept
            && after.tp1Taken == (r.tp1Taken || x.exit.reason == L.Tp1)
            && after.tp2Taken == (r.tp2Taken || x.exit.reason == L.Tp2)
            && after.status == (if !x.quoted then UnrecoverableRow
                                else if x.exit.tokens == r.tokens then ClosedRow else PartialRow)
            && after.mint == r.mint && after.entryTokens == r.entryTokens && after.entryCost == r.entryCost
            && after.openedAt == r.openedAt && after.lastNewHighAt == r.lastNewHighAt
            && after.best == r.best && after.worst == r.worst
  {
    hide AccountAfterExit;
    var r := db.positions[id];
    ProportionalShare(r.cost, r.tokens, x.exit.tokens);
    PartOfCost(r.cost, x.exit.tokens / r.tokens);
    PartOfCost(r.unrealized, x.exit.tokens / r.tokens);
  }

  // ---------------------------------------------------------------------------
  // The cash of a run.

  /** What a step pays out or takes in, by the requested amounts: an entry that is made costs its
      amount and its fee, an exit that is made brings its amount less its fee, nothing without a
      quote. */
  ghost function Flow(b: Books, a: Action): real {
    if a.Open? && EntryCommits(b, a) then -(a.request.entry.usd + a.request.entry.fee)
    else if a.Close? && a.exit.quoted && ExitCommits(b, a) then Larger(0.0, a.exit.exit.usd - a.exit.exit.fee)
    else 0.0
  }

  ghost function Flows(bs: seq<Books>, acts: seq<Action>, k: nat): real
    requires k <= |acts| <= |bs|
  {
    if k == 0 then 0.0 else Flows(bs, acts, k - 1) + Flow(bs[k - 1], acts[k - 1])
  }

  lemma HitIsHeld(b: Books, a: Action)
    requires a.Close? && ExitCommits(b, a)
    ensures a.exit.exit.mint in b.ledger.byToken
  {
  }

  lemma StepMovesCash(b: Books, a: Action)
    requires Sound(b) && Fresh(b.db, a)
    ensures Apply(b, a).db.account.cash == b.db.account.cash + Flow(b, a)
  {
    hide EntryCommits, ExitCommits, Sound, EntryWritten, ExitWritten, L.Enter, L.Leave;
    match a
    case Open(_, _, _, _) =>
      EntryEffect(b, a);
      if EntryCommits(b, a) {
        NotDust(b, a);
        EntryMoves(b.db, a.request);
      }
    case Close(x, _) =>
      ExitEffect(b, a);
      if ExitCommits(b, a) {
        HitIsHeld(b, a);
        ExitMoves(b.db, Valued(x), b.ledger.byToken[x.exit.mint]);
      }
    case Revalue(_, _, _) =>
  }

  lemma StartingCash(start: real)
    ensures Initial(start).account.cash == start
  {
  }

  /** Over every run of the broker the cash is the starting cash, less the amounts and fees of the
      entries made, plus the amounts less fees of the quoted exits made; and so is what the ledger
      shows as cash. */
  lemma {:induction false} CashIsFlow(bs: seq<Books>, acts: seq<Action>, start: real, k: nat)
    requires IsRun(bs, acts, start) && k < |bs|
    ensures bs[k].db.account.cash == start + Flows(bs, acts, k)
    ensures bs[k].ledger.equity - bs[k].ledger.unrealized - bs[k].ledger.locked == start + Flows(bs, acts, k)
  {
    hide Apply, Sound, Fresh, SoundQuote, Flow;
    BooksAgree(bs, acts, start, k);
    LedgerCash(bs[k]);
    if k == 0 {
      StartingCash(start);
    } else {
      CashIsFlow(bs, acts, start, k - 1);
      BooksAgree(bs, acts, start, k - 1);
      assert Fresh(bs[k - 1].db, acts[k - 1]) && bs[k - 1 + 1] == Apply(bs[k - 1], acts[k - 1]);
      StepMovesCash(bs[k - 1], acts[k - 1]);
    }
  }

  lemma LedgerCash(b: Books)
    requires Sound(b)
    ensures b.ledger.equity - b.ledger.unrealized - b.ledger.locked == b.db.account.cash
  {
  }
}
