/** The broker as it runs: a database object whose transactions write rows, a ledger object,
    and the sequence commit-then-mirror. */
module BrokerStore {
  import opened Options
  import L = Ledger
  import opened LedgerReports
  import opened PaperAccount
  import opened BrokerMirror
  import R = Recovery

  class PaperDatabase {
    var account: Account
    var positions: map<PositionId, Row>
    var orders: map<OrderId, Order>
    var fills: seq<L.Fill>
    /** Position identifiers in insertion order. */
    var ids: seq<PositionId>

    function View(): Db
      reads this
    {
      Db(account, positions, orders, fills)
    }

    ghost predicate Valid()
      reads this
    {
      (forall id :: id in ids <==> id in positions) && OnePerMint(positions)
    }

    constructor (start: real)
      ensures Valid() && View() == Initial(start)
    {
      account := Initial(start).account;
      positions, orders, fills, ids := map[], map[], [], [];
    }

    /** The live row of a token, if there is one. */
    method FindLive(mint: Mint) returns (found: Option<PositionId>)
      requires Valid()
      ensures found.Some? ==> found.value in positions && Live(positions[found.value]) && positions[found.value].mint == mint
      ensures found.None? ==> !HoldsMint(positions, mint)
    {
      for i := 0 to |ids|
        invariant forall j :: 0 <= j < i ==> !(Live(positions[ids[j]]) && positions[ids[j]].mint == mint)
      {
        assert ids[i] in ids;
        if Live(positions[ids[i]]) && positions[ids[i]].mint == mint { return Some(ids[i]); }
      }
      return None;
    }

    /** `commit_paper_entry`. */
    method CommitEntry(q: EntryRequest, lim: Limits, owner: bool) returns (out: Outcome)
      requires Valid() && q.entry.position !in positions
      modifies this
      ensures Valid() && out == PaperAccount.CommitEntry(old(View()), q, lim, owner)
      ensures View() == if out.Written? then out.db else old(View())
    {
      hide Lifted, LiveIds, BuysOn, L.EntryCost, Abs;
      if q.entry.order in orders { return Answered(orders[q.entry.order]); }
      if !owner { return Raised; }
      var a := Lifted(account, q.entry.day, q.entry.at);
      if a.halt != NotHalted || a.pauseUntil.Some? { return Raised; }
      var cost := L.EntryCost(q.entry);
      if q.entry.usd > lim.maxPosition || a.locked + cost > lim.maxExposure { return Raised; }
      if |LiveIds(positions)| >= lim.maxOpen || |BuysOn(orders, q.entry.day)| >= lim.maxTrades { return Raised; }
      if q.baseline.Some? && a.equity - q.baseline.value <= -Abs(lim.dailyLoss) { return Raised; }
      var duplicate := FindLive(q.entry.mint);
      if duplicate.Some? || a.cash < cost || q.entry.tokens == 0.0 { return Raised; }
      var e := q.entry;
      orders := orders[e.order := Order(true, e.at, e.day, e.position)];
      fills := fills + [L.Fill(e.position, e.order, true, e.tokens, cost, cost / e.tokens, e.at, e.day)];
      positions := positions[e.position := NewRow(e)];
      ids := ids + [e.position];
      account := a.(cash := a.cash - cost, locked := a.locked + cost);
      out := Written(View());
    }

    /** `commit_paper_exit`. */
    method CommitExit(x: ExitRequest, owner: bool) returns (out: Outcome)
      requires Valid() && SoundRows(positions)
      modifies this
      ensures Valid() && out == PaperAccount.CommitExit(old(View()), x, owner)
      ensures View() == if out.Written? then out.db else old(View())
    {
      hide Figures, SoundRows;
      if x.exit.order in orders { return Answered(orders[x.exit.order]); }
      var found := FindLive(x.exit.mint);
      if found.None? || !owner { return Raised; }
      var id := found.value;
      if x.exit.tokens <= 0.0 || x.exit.tokens > positions[id].tokens { return Raised; }
      assert ExitHits(View(), x, id);
      WriteExit(x, id);
      out := Written(View());
    }

    method WriteExit(x: ExitRequest, id: PositionId)
      requires Valid() && id in positions && Live(positions[id]) && positions[id].tokens > 0.0
      modifies this
      ensures Valid() && View() == ExitWritten(old(View()), x, id)
    {
      hide Figures, L.Max, RowAfterExit, OnePerMint, LiveIds;
      RowKeepsMint(positions[id], x);
      R.SameMintKeepsOne(positions, id, RowAfterExit(positions[id], x, Figures(positions[id], x)));
      var p := positions[id];
      var f := ComputeFigures(p, x);
      var gain := f.received - f.released;
      orders := orders[x.exit.order := Order(false, x.exit.at, x.exit.day, id)];
      fills := fills + [L.Fill(id, x.exit.order, false, x.exit.tokens, f.received, p.cost / p.tokens, x.exit.at, x.exit.day)];
      var reduced := ReduceRow(p, x, f);
      positions := positions[id := reduced];
      account := account.(cash := account.cash + f.received, locked := account.locked - f.released);
      account := account.(realized := account.realized + gain, unrealized := account.unrealized - f.gone);
      account := account.(equity := account.equity + (gain - f.gone));
      account := account.(peak := L.Max(account.peak, account.equity));
    }
  }

  /** The updates of the row itself. */
  method ReduceRow(before: Row, x: ExitRequest, f: ExitFigures) returns (p: Row)
    ensures p == RowAfterExit(before, x, f)
  {
    hide L.Scaled;
    p := before;
    var gain := f.received - f.released;
    p := p.(tokens := p.tokens - x.exit.tokens, cost := p.cost - f.released);
    p := p.(realized := p.realized + gain, unrealized := p.unrealized - f.gone);
    p := p.(highValue := L.Scaled(p.highValue, f.kept), lowValue := L.Scaled(p.lowValue, f.kept));
    if x.exit.reason == L.Tp1 { p := p.(tp1Taken := true); } else if x.exit.reason == L.Tp2 { p := p.(tp2Taken := true); }
    p := p.(status := if !x.quoted then UnrecoverableRow else if p.tokens <= 0.0 then ClosedRow else PartialRow);
  }

  lemma RowKeepsMint(p: Row, x: ExitRequest)
    requires p.tokens > 0.0
    ensures RowAfterExit(p, x, Figures(p, x)).mint == p.mint
  {
  }

  method ComputeFigures(p: Row, x: ExitRequest) returns (f: ExitFigures)
    requires p.tokens > 0.0
    ensures f == Figures(p, x)
  {
    var closed := x.exit.tokens / p.tokens;
    var gone := p.unrealized * closed;
    var perToken := p.cost / p.tokens;
    var fee := if x.quoted then x.exit.fee else 0.0;
    f := ExitFigures(perToken * x.exit.tokens, L.Max(0.0, x.exit.usd - fee), gone, 1.0 - closed);
  }

  // ---------------------------------------------------------------------------
  // Waiting for a quote.

  datatype Quote = Quote(usd: real, fee: real)

  datatype Waited = Quoted(quote: Quote, tries: nat) | GaveUp(tries: nat) | StillTrying

  /** The first `n` requests all failed. */
  ghost predicate NoneIn(answers: seq<Option<Quote>>, n: nat) {
    n <= |answers| && forall i :: 0 <= i < n ==> answers[i].None?
  }

  /** After each of the first `n` failures there was time for another request. */
  ghost predicate TimeLeft(n: nat, interval: nat, timeout: nat) {
    forall i :: 0 <= i < n ==> Elapsed(i, interval) < timeout
  }

  /** The waiting time counted when request `i` fails. */
  function Elapsed(i: nat, interval: nat): nat {
    i * interval
  }

  /** The retry loop of `close`, in milliseconds: it asks again while requests fail and the
      counted waiting time is below the timeout. */
  method AwaitQuote(answers: seq<Option<Quote>>, interval: nat, timeout: nat) returns (waited: Waited)
    ensures match waited
            case Quoted(quote, tries) =>
              0 < tries <= |answers| && answers[tries - 1] == Some(quote)
              && NoneIn(answers, tries - 1) && TimeLeft(tries - 1, interval, timeout)
            case GaveUp(tries) =>
              0 < tries && NoneIn(answers, tries)
              && TimeLeft(tries - 1, interval, timeout) && Elapsed(tries - 1, interval) >= timeout
            case StillTrying => NoneIn(answers, |answers|) && TimeLeft(|answers|, interval, timeout)
  {
    var elapsed := 0;
    for i := 0 to |answers|
      invariant NoneIn(answers, i) && TimeLeft(i, interval, timeout) && elapsed == Elapsed(i, interval)
    {
      if answers[i].Some? { return Quoted(answers[i].value, i + 1); }
      if elapsed >= timeout { return GaveUp(i + 1); }
      elapsed := elapsed + interval;
      NextElapsed(i, interval);
    }
    return StillTrying;
  }

  lemma NextElapsed(i: nat, interval: nat)
    ensures Elapsed(i + 1, interval) == Elapsed(i, interval) + interval
  {
  }

  /** With a positive interval the loop makes at most one request more than fits the timeout;
      without one it stops only at a quote, unless the timeout is zero too. */
  lemma LoopEndsIff(interval: nat, timeout: nat)
    ensures (exists n: nat :: !TimeLeft(n, interval, timeout)) <==> interval > 0 || timeout == 0
    ensures interval > 0 ==> !TimeLeft(timeout / interval + 2, interval, timeout)
  {
    if interval > 0 {
      var k := timeout / interval + 1;
      assert Elapsed(k, interval) >= timeout by { NextElapsed(timeout / interval, interval); }
      assert !TimeLeft(k + 1, interval, timeout);
    } else if timeout == 0 {
      assert Elapsed(0, interval) >= timeout;
      assert !TimeLeft(1, interval, timeout);
    } else {
      forall n: nat ensures TimeLeft(n, interval, timeout) {
        forall i | 0 <= i < n ensures Elapsed(i, interval) < timeout {
          assert Elapsed(i, 0) == 0;
        }
      }
    }
  }

  class Broker {
    const database: PaperDatabase
    const ledger: PaperLedger

    constructor (database: PaperDatabase, ledger: PaperLedger)
      ensures this.database == database && this.ledger == ledger
    {
      this.database := database;
      this.ledger := ledger;
    }

    ghost function View(): Books
      reads database, ledger
    {
      Books(database.View(), ledger.state)
    }

    /** `get_fill_by_order`, and whether the fill is of the given side. */
    method Knows(o: OrderId, isEntry: bool) returns (known: bool)
      ensures known == KnownTo(ledger.state, o, isEntry)
    {
      var fills := ledger.state.fills;
      assert fills[..|fills|] == fills;
      for i := |fills| downto 0
        invariant FillOf(fills, o) == FillOf(fills[..i], o)
      {
        assert fills[..i + 1][..i] == fills[..i];
        if fills[i].order == o { return fills[i].isEntry == isEntry; }
      }
      return false;
    }

    /** `open` with a given quote: known order, risk check, commit, mirror. */
    method Open(q: EntryRequest, lim: Limits, owner: bool, riskAllows: bool)
      requires database.Valid() && q.entry.position !in database.positions
      modifies database, ledger
      ensures database.Valid() && View() == BrokerOpen(old(View()), q, lim, owner, riskAllows)
    {
      hide PaperAccount.CommitEntry, L.Enter, KnownTo;
      var known := Knows(q.entry.order, true);
      if known { return; }
      if !riskAllows || q.entry.usd <= 0.0 || q.entry.mint in ledger.state.byToken { return; }
      var out := database.CommitEntry(q, lim, owner);
      match out
      case Written(_) => var _ := ledger.Open(q.entry);
      case Answered(o) => var _ := ledger.Open(MirroredEntry(q.entry, o));
      case Raised =>
    }

    /** `close` with a given quote, or none: known order, amount check, commit, mirror. */
    method Close(x: ExitRequest, owner: bool)
      requires database.Valid() && SoundRows(database.positions)
      requires forall m :: m in ledger.state.byToken ==>
                 ledger.state.byToken[m] in ledger.state.positions
                 && ledger.state.positions[ledger.state.byToken[m]].tokens > 0.0
      modifies database, ledger
      ensures database.Valid() && View() == BrokerClose(old(View()), x, owner)
    {
      hide PaperAccount.CommitExit, L.Leave, SoundRows, KnownTo;
      var e := x.exit;
      if e.tokens <= 0.0 { return; }
      var known := Knows(e.order, false);
      if known || e.mint !in ledger.state.byToken { return; }
      if e.tokens > ledger.state.positions[ledger.state.byToken[e.mint]].tokens { return; }
      var out := database.CommitExit(Valued(x), owner);
      match out
      case Written(_) => var _ := ledger.Close(Valued(x).exit);
      case Answered(o) => var _ := ledger.Close(MirroredExit(Valued(x).exit, o));
      case Raised =>
    }

    /** `close` from the first request for a quote: the exit is valued at the quote it got, less
        the adverse fill, or written off when it gave up. */
    method CloseAtMarket(x: L.Exit, answers: seq<Option<Quote>>, interval: nat, timeout: nat, adverse: real, owner: bool)
      returns (waited: Waited)
      requires database.Valid() && SoundRows(database.positions)
      requires forall m :: m in ledger.state.byToken ==>
                 ledger.state.byToken[m] in ledger.state.positions
                 && ledger.state.positions[ledger.state.byToken[m]].tokens > 0.0
      modifies database, ledger
      ensures database.Valid()
      ensures View() == if waited.StillTrying? then old(View()) else BrokerClose(old(View()), ExitAfter(x, waited, adverse), owner)
      ensures waited.GaveUp? ==> 0 < waited.tries && NoneIn(answers, waited.tries) && Elapsed(waited.tries - 1, interval) >= timeout
    {
      waited := AwaitQuote(answers, interval, timeout);
      if !waited.StillTrying? {
        Close(ExitAfter(x, waited, adverse), owner);
      }
    }
  }

  function ExitAfter(x: L.Exit, waited: Waited, adverse: real): ExitRequest {
    match waited
    case Quoted(quote, _) => ExitRequest(x.(usd := quote.usd * adverse, fee := quote.fee), true)
    case _ => ExitRequest(x, false)
  }
}
