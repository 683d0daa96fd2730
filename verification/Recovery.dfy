/** Restoring the ledger of a restarted process from the database: what it gets back of the
    ledger that was lost, and what a position written off in part leaves behind. */
module Recovery {
  import opened Options
  import opened StringOrder
  import opened Sums
  import L = Ledger
  import opened PaperAccount
  import opened BrokerMirror
  import opened WriteOffs

  // ---------------------------------------------------------------------------
  // restore_from_database

  /** The stored row says nothing of the last executable value, which becomes the cost. */
  function RestoredPosition(r: Row): L.Position {
    L.Position(r.mint, if Live(r) then L.Open else L.Closed, r.entryTokens, r.entryCost, r.tokens, r.cost, r.realized,
               r.cost, r.highValue, Some(r.lowValue), 0.0, r.best, r.worst, r.tp1Taken, r.tp2Taken, r.openedAt,
               r.lastNewHighAt)
  }

  /** Realized gains per day, from the exit fills. */
  function DailyOf(fills: seq<L.Fill>): map<Day, real> {
    if fills == [] then map[]
    else
      var rest, last := DailyOf(fills[..|fills| - 1]), fills[|fills| - 1];
      if last.isEntry then rest else L.Credited(rest, last.day, L.Gain(last))
  }

  ghost function Restored(db: Db): L.State
    requires OnePerMint(db.positions)
  {
    var a := db.account;
    L.State(a.equity, a.peak, a.realized, a.unrealized, a.locked, Sorted(db.positions.Keys),
            map id | id in db.positions :: RestoredPosition(db.positions[id]), db.fills, DailyOf(db.fills), map[],
            map o | o in db.orders && db.orders[o].isBuy :: db.orders[o].position,
            map o | o in db.orders && !db.orders[o].isBuy :: db.orders[o].position,
            map id | id in db.positions && Live(db.positions[id]) :: db.positions[id].mint := id)
  }

  /** What every transaction keeps of the rows, whatever ledger its process holds. */
  ghost predicate Stored(db: Db) {
    OnePerMint(db.positions) && SoundRows(db.positions) && Filed(db)
  }

  predicate CashBalanced(a: Account) {
    a.cash == a.equity - a.unrealized - a.locked
  }

  ghost predicate Restorable(db: Db) {
    Stored(db) && CashBalanced(db.account)
  }

  lemma RestoredPositions(db: Db)
    requires OnePerMint(db.positions)
    ensures var l := Restored(db);
            l.positions.Keys == db.positions.Keys
            && forall id {:trigger l.positions[id]} :: id in db.positions ==> l.positions[id] == RestoredPosition(db.positions[id])
    ensures var tokens := Restored(db).byToken;
            (forall m :: m in tokens ==>
               tokens[m] in db.positions && Live(db.positions[tokens[m]]) && db.positions[tokens[m]].mint == m)
            && (forall id :: id in db.positions && Live(db.positions[id]) ==>
                  db.positions[id].mint in tokens && tokens[db.positions[id].mint] == id)
  {
    hide RestoredPosition, DailyOf, Sorted;
  }

  lemma RestoredOrders(db: Db)
    requires OnePerMint(db.positions)
    ensures OrdersAgree(db, Restored(db))
  {
    hide RestoredPosition, DailyOf, Sorted;
  }

  lemma RestoredFigures(db: Db)
    requires OnePerMint(db.positions)
    ensures var a, l := db.account, Restored(db);
            l.equity == a.equity && l.peak == a.peak && l.realized == a.realized && l.unrealized == a.unrealized
            && l.locked == a.locked && l.fills == db.fills && l.daily == DailyOf(db.fills)
  {
    hide RestoredPosition, DailyOf, Sorted;
  }

  lemma RestoredRow(r: Row)
    ensures SamePosition(r, RestoredPosition(r))
    ensures (RestoredPosition(r).status == L.Open <==> Live(r)) && RestoredPosition(r).tokens == r.tokens
    ensures RestoredPosition(r).cost == r.cost && RestoredPosition(r).mint == r.mint
  {
  }

  /** A restored ledger agrees with the database and can go on. */
  lemma RestoredIsSound(db: Db)
    requires Restorable(db)
    ensures Sound(Books(db, Restored(db)))
  {
    hide Restored, RestoredPosition, SamePosition, L.Indexed, L.Listed, Filed, OrdersAgree;
    var l := Restored(db);
    RestoredIsListed(db);
    RestoredIsIndexed(db);
    RestoredOrders(db);
    RestoredFigures(db);
    RestoredPositions(db);
    forall id | id in db.positions ensures SamePosition(db.positions[id], l.positions[id]) {
      RestoredRow(db.positions[id]);
    }
    forall id | id in l.positions && l.positions[id].status == L.Open ensures l.positions[id].tokens > 0.0 {
      RestoredRow(db.positions[id]);
      assert db.positions[id].cost >= 0.0;
    }
  }

  lemma RestoredIsIndexed(db: Db)
    requires OnePerMint(db.positions)
    ensures L.Indexed(Restored(db))
  {
    hide Restored, RestoredPosition;
    var l := Restored(db);
    RestoredPositions(db);
    forall id | id in l.positions
      ensures (l.positions[id].status == L.Open <==> Live(db.positions[id])) && l.positions[id].mint == db.positions[id].mint
    {
      RestoredRow(db.positions[id]);
    }
  }

  lemma RestoredIsListed(db: Db)
    requires OnePerMint(db.positions) && Filed(db)
    ensures L.Listed(Restored(db))
  {
    hide DailyOf, Less;
    var l := Restored(db);
    forall i, j | 0 <= i < j < |l.order| ensures l.order[i] != l.order[j] {
      Irreflexive(l.order[i]);
      assert Less(l.order[i], l.order[j]);
    }
    forall i | 0 <= i < |l.fills| ensures l.fills[i].positionId in l.positions {
      assert l.fills[i] in db.fills;
    }
  }

  // ---------------------------------------------------------------------------
  // Daily gains.

  lemma DailyAppend(fills: seq<L.Fill>, f: L.Fill)
    ensures DailyOf(fills + [f])
            == if f.isEntry then DailyOf(fills) else L.Credited(DailyOf(fills), f.day, L.Gain(f))
  {
    assert (fills + [f])[..|fills|] == fills;
  }

  lemma StepKeepsDaily(s: L.State, a: L.Action)
    requires s.daily == DailyOf(s.fills)
    ensures L.Apply(s, a).daily == DailyOf(L.Apply(s, a).fills)
  {
    hide DailyOf, L.Gain, L.Released, L.Gone, L.ClosedPosition, L.Credited;
    match a
    case Buy(e) =>
      if L.Enter(s, e).0 != s {
        var fills := L.Enter(s, e).0.fills;
        assert fills == s.fills + [fills[|s.fills|]];
        DailyAppend(s.fills, fills[|s.fills|]);
      }
    case Sell(x) =>
      if L.Leave(s, x).0 != s {
        var id := s.byToken[x.mint];
        DailyAppend(s.fills, L.ExitFill(s.positions[id], x, id));
        GainOfExit(s.positions[id], x, id);
      }
    case Revalue(m) => MarkKeepsFills(s, m);
  }

  lemma MarkKeepsFills(s: L.State, m: L.Marks)
    ensures L.Mark(s, m).fills == s.fills && L.Mark(s, m).daily == s.daily
  {
  }

  lemma GainOfExit(p: L.Position, x: L.Exit, id: PositionId)
    requires p.tokens > 0.0
    ensures L.Gain(L.ExitFill(p, x, id)) == L.NetReceived(x) - L.Released(p, x)
  {
    ProportionalShare(p.cost, p.tokens, x.tokens);
  }

  /** Over every ledger run each day's total is the one recomputed from that day's exit fills. */
  lemma {:induction false} DailyFromFills(ss: seq<L.State>, acts: seq<L.Action>, start: real, k: nat)
    requires L.IsRun(ss, acts, start) && k < |ss|
    ensures ss[k].daily == DailyOf(ss[k].fills)
  {
    hide L.Apply, L.Admissible;
    if k > 0 {
      DailyFromFills(ss, acts, start, k - 1);
      assert L.Apply(ss[k - 1], acts[k - 1]) == ss[k - 1 + 1];
      StepKeepsDaily(ss[k - 1], acts[k - 1]);
    }
  }

  // ---------------------------------------------------------------------------
  // What a restart gets back.

  /** The amounts of a position, which both books keep. */
  ghost predicate SameAmounts(p: L.Position, q: L.Position) {
    p.mint == q.mint && p.tokens == q.tokens && p.cost == q.cost && p.realized == q.realized
    && p.entryTokens == q.entryTokens && p.entryCost == q.entryCost && p.openedAt == q.openedAt
    && p.tp1Taken == q.tp1Taken && p.tp2Taken == q.tp2Taken
  }

  /** The restored ledger has the lost ledger's fills, orders, daily and realized gains, locked
      capital, equity less unrealized gains and position amounts. Its positions have the same
      status, and its open tokens are the same, exactly when none is stranded. */
  lemma RestoreMatchesLost(b: Books)
    requires Sound(b) && Restorable(b.db) && b.ledger.daily == DailyOf(b.ledger.fills)
    ensures var r, l := Restored(b.db), b.ledger;
            r.fills == l.fills && r.entryOrders == l.entryOrders && r.exitOrders == l.exitOrders && r.daily == l.daily
            && r.realized == l.realized && r.locked == l.locked && r.equity - r.unrealized == l.equity - l.unrealized
            && r.positions.Keys == l.positions.Keys
            && (forall id :: id in l.positions ==>
                  SameAmounts(r.positions[id], l.positions[id])
                  && (r.positions[id].status == l.positions[id].status <==> !Stranded(b, id)))
            && (r.byToken == l.byToken <==> forall id :: !Stranded(b, id))
  {
    hide Restored, DailyOf, L.Listed, L.Indexed, Filed, OrdersAgree, SameAmounts, Stranded;
    var r, l := Restored(b.db), b.ledger;
    RestoredFigures(b.db);
    RestoredPositions(b.db);
    RestoredOrders(b.db);
    SameOrders(b.db, r, l);
    forall id | id in l.positions
      ensures SameAmounts(r.positions[id], l.positions[id])
              && (r.positions[id].status == l.positions[id].status <==> !Stranded(b, id))
    {
      OneRestored(b, id);
    }
    TokensMatchIff(b);
  }

  lemma SameOrders(db: Db, r: L.State, l: L.State)
    requires OrdersAgree(db, r) && OrdersAgree(db, l)
    ensures r.fills == l.fills && r.entryOrders == l.entryOrders && r.exitOrders == l.exitOrders
  {
  }

  lemma OneRestored(b: Books, id: PositionId)
    requires RowsAgree(b.db, b.ledger) && id in b.ledger.positions
    ensures id in b.db.positions
    ensures SameAmounts(RestoredPosition(b.db.positions[id]), b.ledger.positions[id])
    ensures RestoredPosition(b.db.positions[id]).status == b.ledger.positions[id].status <==> !Stranded(b, id)
  {
    HeldPosition(b, id);
  }

  lemma TokensMatchIff(b: Books)
    requires Sound(b) && OnePerMint(b.db.positions)
    ensures Restored(b.db).byToken == b.ledger.byToken <==> forall id :: !Stranded(b, id)
    ensures forall id :: Stranded(b, id) ==> b.db.positions[id].mint !in Restored(b.db).byToken
  {
    hide Restored, L.Listed, Filed, AccountsAgree, OrdersAgree;
    var r, l := Restored(b.db), b.ledger;
    RestoredPositions(b.db);
    forall id | Stranded(b, id)
      ensures b.db.positions[id].mint in l.byToken && b.db.positions[id].mint !in r.byToken
    {
      StrandedIsFree(b, id);
    }
    if forall id :: !Stranded(b, id) { NoneStranded(b); }
  }

  lemma StrandedIsFree(b: Books, id: PositionId)
    requires Sound(b) && OnePerMint(b.db.positions) && Stranded(b, id)
    ensures b.db.positions[id].mint in b.ledger.byToken && b.db.positions[id].mint !in Restored(b.db).byToken
  {
    hide Restored, L.Listed, Filed, AccountsAgree, OrdersAgree;
    var mint, r := b.db.positions[id].mint, Restored(b.db);
    RestoredPositions(b.db);
    HeldPosition(b, id);
    if mint in r.byToken {
      HeldPosition(b, r.byToken[mint]);
    }
  }

  lemma NoneStranded(b: Books)
    requires Sound(b) && OnePerMint(b.db.positions) && forall id :: !Stranded(b, id)
    ensures Restored(b.db).byToken == b.ledger.byToken
  {
    hide Restored, L.Listed, Filed, AccountsAgree, OrdersAgree;
    var r, l := Restored(b.db), b.ledger;
    RestoredPositions(b.db);
    forall m ensures (m in l.byToken <==> m in r.byToken) && (m in l.byToken ==> l.byToken[m] == r.byToken[m]) {
      if m in l.byToken {
        HeldPosition(b, l.byToken[m]);
        assert !Stranded(b, l.byToken[m]);
      }
      if m in r.byToken { HeldPosition(b, r.byToken[m]); }
    }
  }

  /** The costs of stranded remainders. */
  ghost function StrandedCosts(b: Books): map<PositionId, real> {
    map id | id in b.db.positions :: if Stranded(b, id) then b.db.positions[id].cost else 0.0
  }

  /** After a restart the locked capital exceeds the costs of the open positions by exactly the
      costs of the stranded remainders; and a stranded token can be bought again. */
  lemma RestartKeepsStrandedCapital(b: Books, start: real)
    requires Sound(b) && L.Balanced(b.ledger, start) && OnePerMint(b.db.positions)
    ensures Restored(b.db).locked == Total(L.OpenCosts(Restored(b.db).positions)) + Total(StrandedCosts(b))
    ensures forall id :: Stranded(b, id) ==> b.db.positions[id].mint !in Restored(b.db).byToken
  {
    hide Restored, RestoredPosition, L.Listed, Filed, L.Recount, OrdersAgree, L.Indexed;
    var all, open, stranded := L.OpenCosts(b.ledger.positions), L.OpenCosts(Restored(b.db).positions), StrandedCosts(b);
    RestoredPositions(b.db);
    RestoredFigures(b.db);
    forall id | id in all.Keys ensures all[id] == open[id] + stranded[id] {
      HeldPosition(b, id);
      RestoredRow(b.db.positions[id]);
    }
    SumOfSums(all.Keys, all, open, stranded);
    assert open.Keys == all.Keys == stranded.Keys;
    TokensMatchIff(b);
  }

  // ---------------------------------------------------------------------------
  // Every transaction leaves the database restorable.

  lemma EntryStaysStored(db: Db, q: EntryRequest, lim: Limits)
    requires Stored(db) && EntryAllowed(db, q, lim) && q.entry.order !in db.orders
    requires q.entry.usd > 0.0 && q.entry.fee >= 0.0 && q.entry.tokens > 0.0 && q.entry.position !in db.positions
    ensures Stored(EntryWritten(db, q))
    ensures CashBalanced(EntryWritten(db, q).account) <==> CashBalanced(db.account)
  {
    hide BuysOn, LiveIds, Abs, Filed;
    EntryFiled(db, q);
  }

  lemma SameMintKeepsOne(positions: map<PositionId, Row>, id: PositionId, r: Row)
    requires OnePerMint(positions) && id in positions && Live(positions[id]) && r.mint == positions[id].mint
    ensures OnePerMint(positions[id := r])
    ensures |LiveIds(positions[id := r])| <= |LiveIds(positions)|
  {
    SubsetIsSmaller(LiveIds(positions[id := r]), LiveIds(positions));
  }

  lemma ReleasedIsPart(c: real, r: real, t: real)
    requires c >= 0.0 && 0.0 < t <= r
    ensures 0.0 <= c / r * t <= c
  {
    var unit := c / r;
    assert unit * r == c;
    ProductNotNegative(unit, t);
    ProductNotNegative(unit, r - t);
  }

  lemma ExitFiguresAreSound(db: Db, x: ExitRequest, id: PositionId)
    requires SoundRows(db.positions) && ExitHits(db, x, id)
    ensures 0.0 <= Figures(db.positions[id], x).released <= db.positions[id].cost
    ensures Figures(db.positions[id], x).received >= 0.0
  {
    var p := db.positions[id];
    assert p.cost >= 0.0;
    ReleasedIsPart(p.cost, p.tokens, x.exit.tokens);
  }

  lemma ExitKeepsSound(db: Db, x: ExitRequest, id: PositionId)
    requires SoundRows(db.positions) && ExitHits(db, x, id)
    ensures SoundRows(ExitWritten(db, x, id).positions)
  {
    hide Figures;
    var db' := ExitWritten(db, x, id);
    ExitFiguresAreSound(db, x, id);
    forall j | j in db'.positions
      ensures db'.positions[j].cost >= 0.0 && (Live(db'.positions[j]) ==> db'.positions[j].tokens > 0.0)
    {
      assert db.positions[j].cost >= 0.0;
    }
  }

  lemma ExitStaysStored(db: Db, x: ExitRequest, id: PositionId)
    requires Stored(db) && ExitHits(db, x, id) && x.exit.order !in db.orders
    ensures Stored(ExitWritten(db, x, id))
    ensures CashBalanced(ExitWritten(db, x, id).account) <==> CashBalanced(db.account)
  {
    hide OnePerMint, SoundRows, Figures, Filed, LiveIds;
    ExitFiled(db, x, id);
    ExitKeepsSound(db, x, id);
    SameMintKeepsOne(db.positions, id, ExitWritten(db, x, id).positions[id]);
  }

  lemma MarkedRowsStay(db: Db, l: L.State, gains: map<PositionId, real>)
    ensures var after := MarksWritten(db, l, gains);
            after.positions.Keys == db.positions.Keys && after.orders == db.orders && after.fills == db.fills
            && (forall id {:trigger after.positions[id]} :: id in db.positions ==>
                  after.positions[id].status == db.positions[id].status && after.positions[id].mint == db.positions[id].mint
                  && after.positions[id].tokens == db.positions[id].tokens && after.positions[id].cost == db.positions[id].cost)
    ensures OnePerMint(db.positions) ==> OnePerMint(MarksWritten(db, l, gains).positions)
    ensures SoundRows(db.positions) ==> SoundRows(MarksWritten(db, l, gains).positions)
  {
    var after := MarksWritten(db, l, gains);
    forall id | SoundRows(db.positions) && id in after.positions
      ensures after.positions[id].cost >= 0.0 && (Live(after.positions[id]) ==> after.positions[id].tokens > 0.0)
    {
      assert db.positions[id].cost >= 0.0;
    }
  }

  lemma MarksFiled(db: Db, after: Db)
    requires Filed(db) && after.fills == db.fills && after.orders == db.orders && after.positions.Keys == db.positions.Keys
    ensures Filed(after)
  {
  }

  /** Marks keep the rows; the cash stays balanced exactly if it is the ledger's too. */
  lemma MarksStayStored(db: Db, l: L.State, gains: map<PositionId, real>)
    requires Stored(db)
    ensures Stored(MarksWritten(db, l, gains))
    ensures CashBalanced(MarksWritten(db, l, gains).account) <==> db.account.cash == l.equity - l.unrealized - l.locked
  {
    hide OnePerMint, SoundRows, Filed;
    var after := MarksWritten(db, l, gains);
    MarkedRowsStay(db, l, gains);
    MarksFiled(db, after);
  }

  /** Marking changes equity and unrealized gains alike, and no locked capital. */
  lemma MarkKeepsCash(l: L.State, m: L.Marks)
    ensures var l' := L.Mark(l, m);
            l'.locked == l.locked && l'.equity - l'.unrealized == l.equity - l.unrealized
  {
    hide L.Contributions, L.MarkAll;
  }

  lemma MarksStayRestorable(db: Db, l: L.State, m: L.Marks, gains: map<PositionId, real>)
    requires Restorable(db) && AccountsAgree(db.account, l)
    ensures Restorable(MarksWritten(db, L.Mark(l, m), gains))
  {
    hide L.Mark, MarksWritten, Stored;
    MarksStayStored(db, L.Mark(l, m), gains);
    MarkKeepsCash(l, m);
  }

  // ---------------------------------------------------------------------------
  // A restart after any run.

  /** Network fees are not negative. */
  predicate FeeNotNegative(a: Action) {
    a.Open? ==> a.request.entry.fee >= 0.0
  }

  lemma StepStaysRestorable(b: Books, a: Action)
    requires Sound(b) && Fresh(b.db, a) && SoundQuote(a) && FeeNotNegative(a) && Restorable(b.db)
    ensures Restorable(Apply(b, a).db)
  {
    hide Stored, CashBalanced, Sound, EntryWritten, ExitWritten, MarksWritten, L.Mark, ExitCommits, EntryCommits;
    match a
    case Open(q, lim, _, _) =>
      EntryEffect(b, a);
      if EntryCommits(b, a) {
        EntryWasAdmitted(b, a);
        EntryStaysStored(b.db, q, lim);
      }
    case Close(x, _) =>
      ExitEffect(b, a);
      if ExitCommits(b, a) {
        ExitWasNew(b, a);
        ExitStaysStored(b.db, Valued(x), b.ledger.byToken[x.exit.mint]);
      }
    case Revalue(m, gains, _) =>
      AccountsOf(b);
      MarksStayRestorable(b.db, b.ledger, m, gains);
  }

  lemma EntryWasAdmitted(b: Books, a: Action)
    requires a.Open? && EntryCommits(b, a)
    ensures EntryAllowed(b.db, a.request, a.limits) && a.request.entry.usd > 0.0 && a.request.entry.order !in b.db.orders
  {
  }

  lemma ExitWasNew(b: Books, a: Action)
    requires a.Close? && ExitCommits(b, a)
    ensures a.exit.exit.order !in b.db.orders && a.exit.exit.mint in b.ledger.byToken
  {
  }

  lemma AccountsOf(b: Books)
    requires Sound(b)
    ensures AccountsAgree(b.db.account, b.ledger)
  {
  }

  lemma StepKeepsBooksDaily(b: Books, a: Action)
    requires Sound(b) && Fresh(b.db, a)
    requires b.ledger.daily == DailyOf(b.ledger.fills)
    ensures Apply(b, a).ledger.daily == DailyOf(Apply(b, a).ledger.fills)
  {
    hide L.Mark, L.Enter, L.Leave, EntryWritten, ExitWritten, DailyOf;
    match a
    case Open(q, _, _, _) =>
      EntryEffect(b, a);
      if EntryCommits(b, a) { StepKeepsDaily(b.ledger, L.Buy(q.entry)); }
    case Close(x, _) =>
      ExitEffect(b, a);
      if ExitCommits(b, a) { StepKeepsDaily(b.ledger, L.Sell(Valued(x).exit)); }
    case Revalue(m, _, _) => StepKeepsDaily(b.ledger, L.Revalue(m));
  }

  /** After every run of the broker the process can be restarted: the restored ledger agrees with
      the database, and it is the lost ledger up to what `RestoreMatchesLost` says. */
  lemma {:induction false} RestartAfterRun(bs: seq<Books>, acts: seq<Action>, start: real, k: nat)
    requires IsRun(bs, acts, start) && k < |bs| && forall i :: 0 <= i < |acts| ==> FeeNotNegative(acts[i])
    ensures Restorable(bs[k].db) && Sound(Books(bs[k].db, Restored(bs[k].db)))
    ensures Sound(bs[k]) && bs[k].ledger.daily == DailyOf(bs[k].ledger.fills)
  {
    hide Apply, Sound, Fresh, SoundQuote, Restorable, Restored, DailyOf, FeeNotNegative;
    BooksAgree(bs, acts, start, k);
    if k == 0 {
      InitialIsRestorable(start);
    } else {
      RestartAfterRun(bs, acts, start, k - 1);
      assert Fresh(bs[k - 1].db, acts[k - 1]) && bs[k - 1 + 1] == Apply(bs[k - 1], acts[k - 1]);
      StepStaysRestorable(bs[k - 1], acts[k - 1]);
      StepKeepsBooksDaily(bs[k - 1], acts[k - 1]);
    }
    RestoredIsSound(bs[k].db);
  }

  lemma InitialIsRestorable(start: real)
    ensures Restorable(Initial(start)) && L.Initial(start).daily == DailyOf(L.Initial(start).fills)
  {
  }
}
