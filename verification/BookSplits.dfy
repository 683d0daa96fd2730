/** Where the agreement of the two books ends: quotes without a market's sign, commits whose
    outcome was unknown, and positions written off in part. */
module BookSplits {
  import opened Options
  import L = Ledger
  import opened PaperAccount
  import opened BrokerMirror

  // ---------------------------------------------------------------------------
  // Quotes without a market's sign.

  /** An entry leaves the books in agreement exactly when one of its guards refuses it or the
      quoted token amount is positive: the database writes a negative amount, the ledger
      refuses it. */
  lemma EntryAgreementIff(b: Books, a: Action)
    requires a.Open? && Sound(b) && Fresh(b.db, a)
    ensures Agree(Apply(b, a)) <==> !EntryCommits(b, a) || a.request.entry.tokens > 0.0
  {
    hide EntryCommits, AccountsAgree, OrdersAgree, Usable, Filed;
    if a.request.entry.tokens > 0.0 {
      OpenKeepsAgreement(b, a);
    } else {
      EntryEffect(b, a);
      if EntryCommits(b, a) { NegativeEntrySplits(b, a); }
    }
  }

  lemma NegativeEntrySplits(b: Books, a: Action)
    requires a.Open? && Fresh(b.db, a) && EntryCommits(b, a) && RowsAgree(b.db, b.ledger) && a.request.entry.tokens <= 0.0
    ensures a.request.entry.tokens < 0.0
    ensures !Agree(Books(EntryWritten(b.db, a.request), L.Enter(b.ledger, a.request.entry).0))
  {
    NotDust(b, a);
    assert a.request.entry.position in EntryWritten(b.db, a.request).positions;
  }

  /** An exit leaves them in agreement exactly when one of its guards refuses it or its quote, if
      there is one, is not negative. */
  lemma ExitAgreementIff(b: Books, a: Action)
    requires a.Close? && Sound(b) && Fresh(b.db, a)
    ensures Agree(Apply(b, a)) <==> !ExitCommits(b, a) || !a.exit.quoted || a.exit.exit.usd >= 0.0
  {
    hide ExitCommits, AccountsAgree, OrdersAgree, Usable, Filed, RowsAgree;
    if SoundQuote(a) {
      CloseKeepsAgreement(b, a);
    } else {
      ExitEffect(b, a);
      if ExitCommits(b, a) { NegativeExitSplits(b, a); }
    }
  }

  lemma NegativeExitSplits(b: Books, a: Action)
    requires a.Close? && Sound(b) && ExitCommits(b, a) && a.exit.quoted && a.exit.exit.usd < 0.0
    requires ExitHits(b.db, a.exit, b.ledger.byToken[a.exit.exit.mint])
    ensures !Agree(Books(ExitWritten(b.db, a.exit, b.ledger.byToken[a.exit.exit.mint]), L.Leave(b.ledger, a.exit.exit).0))
  {
    hide AccountsAgree, OrdersAgree, Usable, Filed;
    var id := b.ledger.byToken[a.exit.exit.mint];
    HeldPosition(b, id);
    ExitTakesTokens(b.db, a.exit, id);
    assert L.Leave(b.ledger, a.exit.exit).0 == b.ledger;
    var after := Books(ExitWritten(b.db, a.exit, id), b.ledger);
    assert !SamePosition(after.db.positions[id], after.ledger.positions[id]);
  }

  lemma ExitTakesTokens(db: Db, x: ExitRequest, id: PositionId)
    requires ExitHits(db, x, id)
    ensures id in ExitWritten(db, x, id).positions
    ensures ExitWritten(db, x, id).positions[id].tokens == db.positions[id].tokens - x.exit.tokens
  {
  }

  const Wide := Limits(10.0, 10.0, 5, 50.0, 5)

  function EntryOf(tokens: real): EntryRequest {
    EntryRequest(L.Entry("mint", 1.0, tokens, "buy", "p", 0.0, 0, 0), None)
  }

  function ExitOf(tokens: real, usd: real, quoted: bool): ExitRequest {
    ExitRequest(L.Exit("mint", usd, tokens, "sell", 0.0, L.OtherReason, 1, 0), quoted)
  }

  function Empty(): Books {
    Books(Initial(100.0), L.Initial(100.0))
  }

  lemma EmptyAdmits(tokens: real)
    requires tokens != 0.0
    ensures var a := Open(EntryOf(tokens), Wide, true, true);
            Sound(Empty()) && Fresh(Empty().db, a) && EntryCommits(Empty(), a)
  {
    hide Sound, EntryAllowed, LiveIds, BuysOn;
    InitialAgrees(100.0);
    EmptyAllows(EntryOf(tokens), Initial(100.0));
  }

  lemma EmptyAllows(q: EntryRequest, db: Db)
    requires db == Initial(100.0) && q == EntryOf(q.entry.tokens) && q.entry.tokens != 0.0
    ensures EntryAllowed(db, q, Wide)
  {
    assert LiveIds(db.positions) == {};
    assert BuysOn(db.orders, q.entry.day) == {};
    assert L.EntryCost(q.entry) == 1.0;
  }

  function Holding(): Books {
    Books(EntryWritten(Initial(100.0), EntryOf(2.0)), L.OpenPosition(L.Initial(100.0), EntryOf(2.0).entry))
  }

  lemma HoldingIsReached()
    ensures var a := Open(EntryOf(2.0), Wide, true, true);
            Fresh(Empty().db, a) && Apply(Empty(), a) == Holding() && Sound(Holding())
  {
    hide EntryCommits, EntryWritten, Sound, Agree, Usable, Filed, Apply;
    var a := Open(EntryOf(2.0), Wide, true, true);
    EmptyAdmits(2.0);
    OpenKeepsAgreement(Empty(), a);
    EntryEffect(Empty(), a);
    assert L.Enter(L.Initial(100.0), EntryOf(2.0).entry).0 == L.OpenPosition(L.Initial(100.0), EntryOf(2.0).entry);
  }

  lemma HoldingAdmits(tokens: real, usd: real, quoted: bool)
    requires 0.0 < tokens <= 2.0
    ensures var a := Close(ExitOf(tokens, usd, quoted), true);
            Fresh(Holding().db, a) && ExitCommits(Holding(), a) && Holding().ledger.byToken["mint"] == "p"
  {
  }

  /** Concrete books that a negative quote splits, for an entry and for an exit. */
  lemma NegativeQuotesSplit() returns (entry: Action, exit: Action)
    ensures entry.Open? && Sound(Empty()) && Fresh(Empty().db, entry) && !Agree(Apply(Empty(), entry))
    ensures exit.Close? && Sound(Holding()) && Fresh(Holding().db, exit) && !Agree(Apply(Holding(), exit))
  {
    hide EntryCommits, ExitCommits, Sound, Agree, Apply, Holding, Empty;
    entry := Open(EntryOf(-1.0), Wide, true, true);
    EmptyAdmits(-1.0);
    EntryAgreementIff(Empty(), entry);
    exit := Close(ExitOf(1.0, -1.0, true), true);
    HoldingIsReached();
    HoldingAdmits(1.0, -1.0, true);
    ExitAgreementIff(Holding(), exit);
  }

  // ---------------------------------------------------------------------------
  // Commits with an unknown outcome.

  /** The database has the entry, but its commit was reported as failed, so the ledger has not
      repeated it. A retry under the same order asks for a quote again, is answered by the stored
      order, and repeats the new quote on the ledger: the books agree again exactly when it is
      let through and gives the stored amount of the stored token at the stored cost. */
  lemma EntryRetryHealsIff(b: Books, a: Action, retry: Action)
    requires a.Open? && Sound(b) && Fresh(b.db, a) && EntryCommits(b, a) && a.request.entry.tokens > 0.0
    requires retry.Open? && retry.request.entry.order == a.request.entry.order
    ensures var lost, e, r := Books(EntryWritten(b.db, a.request), b.ledger), a.request.entry, retry.request.entry;
            !Agree(lost)
            && (Agree(Apply(lost, retry)) <==>
                  retry.riskAllows && r.usd > 0.0 && r.mint == e.mint && r.tokens == e.tokens
                  && L.EntryCost(r) == L.EntryCost(e))
  {
    hide AccountsAgree, L.Indexed, L.Listed, EntryAllowed, KnownTo, EntryWritten, L.Enter;
    var e, r := a.request.entry, retry.request.entry;
    var lost := Books(EntryWritten(b.db, a.request), b.ledger);
    KnownIffStored(b, e.order, true);
    EntryIsStored(b, a.request);
    var stored := Order(true, e.at, e.day, e.position);
    if !retry.riskAllows || r.usd <= 0.0 || r.mint in b.ledger.byToken {
      assert Apply(lost, retry) == lost;
    } else {
      assert Apply(lost, retry) == Books(lost.db, L.Enter(b.ledger, MirroredEntry(r, stored)).0);
      RepeatedEntry(b, a.request, r);
    }
  }

  lemma EntryIsStored(b: Books, q: EntryRequest)
    requires q.entry.tokens != 0.0 && q.entry.position !in b.db.positions && RowsAgree(b.db, b.ledger)
    ensures var db := EntryWritten(b.db, q);
            q.entry.order in db.orders && db.orders[q.entry.order] == Order(true, q.entry.at, q.entry.day, q.entry.position)
            && !Agree(Books(db, b.ledger))
  {
    assert q.entry.position in EntryWritten(b.db, q).positions;
  }

  lemma RepeatedEntry(b: Books, q: EntryRequest, r: L.Entry)
    requires Agree(b) && q.entry.usd > 0.0 && q.entry.tokens > 0.0 && q.entry.order !in b.db.orders
    requires q.entry.mint !in b.ledger.byToken && q.entry.position !in b.db.positions
    requires r.usd > 0.0 && r.order == q.entry.order && r.mint !in b.ledger.byToken
    ensures var m := MirroredEntry(r, Order(true, q.entry.at, q.entry.day, q.entry.position));
            Agree(Books(EntryWritten(b.db, q), L.Enter(b.ledger, m).0)) <==>
              r.mint == q.entry.mint && r.tokens == q.entry.tokens && L.EntryCost(r) == L.EntryCost(q.entry)
  {
    hide AccountsAgree;
    var e := q.entry;
    var m := MirroredEntry(r, Order(true, e.at, e.day, e.position));
    var after := Books(EntryWritten(b.db, q), L.Enter(b.ledger, m).0);
    StoredIsKnown(b, e.order);
    if r.mint == e.mint && r.tokens == e.tokens && L.EntryCost(r) == L.EntryCost(e) {
      OpenedBooksAgree(b, q);
      SameOpening(b.ledger, e, m);
    } else if r.tokens <= 0.0 {
      assert e.position in after.db.positions && e.position !in after.ledger.positions;
    } else {
      var row, p := after.db.positions[e.position], after.ledger.positions[e.position];
      assert p.tokens == r.tokens && p.cost == L.EntryCost(r) && p.mint == r.mint;
      assert row.tokens == e.tokens && row.cost == L.EntryCost(e) && row.mint == e.mint;
      assert !SamePosition(row, p);
    }
  }

  lemma SameOpening(l: L.State, e: L.Entry, m: L.Entry)
    requires e.tokens > 0.0 && m.tokens == e.tokens && L.EntryCost(m) == L.EntryCost(e)
    requires m.mint == e.mint && m.order == e.order && m.position == e.position && m.at == e.at && m.day == e.day
    ensures L.OpenPosition(l, m) == L.OpenPosition(l, e)
  {
  }

  /** Both reasons leave the same profit targets taken. */
  predicate SameTargets(p: L.Position, one: L.Reason, other: L.Reason) {
    ((p.tp1Taken || one == L.Tp1) <==> (p.tp1Taken || other == L.Tp1))
    && ((p.tp2Taken || one == L.Tp2) <==> (p.tp2Taken || other == L.Tp2))
  }

  /** The same for an exit: the books agree again exactly when the retry sells the stored amount of
      the stored token for the stored net value, and takes the stored profit targets. A retry
      that has lost its quote has lost its reason too. */
  lemma ExitRetryHealsIff(b: Books, a: Action, retry: Action)
    requires a.Close? && Sound(b) && Fresh(b.db, a) && ExitCommits(b, a) && SoundQuote(a)
    requires retry.Close? && retry.exit.exit.order == a.exit.exit.order
    ensures var x, r, id := Valued(a.exit), Valued(retry.exit).exit, b.ledger.byToken[a.exit.exit.mint];
            var lost := Books(ExitWritten(b.db, x, id), b.ledger);
            id in b.ledger.positions && !Agree(lost)
            && (Agree(Apply(lost, retry)) <==>
                  r.mint == x.exit.mint && r.tokens == x.exit.tokens && r.usd >= 0.0
                  && L.NetReceived(r) == L.NetReceived(x.exit)
                  && SameTargets(b.ledger.positions[id], r.reason, x.exit.reason))
  {
    hide AccountsAgree, L.Listed, KnownTo, ExitWritten, L.ClosePosition, Figures, L.Leave, SameTargets;
    var x, r, id := Valued(a.exit), Valued(retry.exit).exit, b.ledger.byToken[a.exit.exit.mint];
    ExitEffect(b, a);
    HeldPosition(b, id);
    ExitTakesTokens(b.db, x, id);
    KnownIffStored(b, x.exit.order, false);
    var lost := Books(ExitWritten(b.db, x, id), b.ledger);
    assert !SamePosition(lost.db.positions[id], lost.ledger.positions[id]);
    StoredOrder(b.db, x, id);
    var m := MirroredExit(r, Order(false, x.exit.at, x.exit.day, id));
    if r.tokens > 0.0 && r.mint in b.ledger.byToken
       && r.tokens <= b.ledger.positions[b.ledger.byToken[r.mint]].tokens
    {
      assert Apply(lost, retry) == Books(lost.db, L.Leave(b.ledger, m).0);
      RetriedExit(b, x, m, id);
    } else {
      assert Apply(lost, retry) == lost;
    }
  }

  lemma RetriedExit(b: Books, x: ExitRequest, m: L.Exit, id: PositionId)
    requires Sound(b) && ExitHits(b.db, x, id) && x == Valued(x) && x.exit.order !in b.db.orders
    requires x.exit.mint in b.ledger.byToken && b.ledger.byToken[x.exit.mint] == id
    requires id in b.ledger.positions && b.ledger.positions[id].tokens == b.db.positions[id].tokens
    requires m.order == x.exit.order && m.at == x.exit.at && m.day == x.exit.day
    requires m.mint in b.ledger.byToken && 0.0 < m.tokens <= b.ledger.positions[b.ledger.byToken[m.mint]].tokens
    requires !Agree(Books(ExitWritten(b.db, x, id), b.ledger))
    ensures Agree(Books(ExitWritten(b.db, x, id), L.Leave(b.ledger, m).0)) <==>
              m.mint == x.exit.mint && m.tokens == x.exit.tokens && m.usd >= 0.0
              && L.NetReceived(m) == L.NetReceived(x.exit)
              && SameTargets(b.ledger.positions[id], m.reason, x.exit.reason)
  {
    hide AccountsAgree, L.Listed, ExitWritten, L.ClosePosition, Figures, L.NetReceived, SameTargets;
    var held := b.ledger.byToken[m.mint];
    StoredIsKnown(b, m.order);
    if m.usd < 0.0 {
      NegativeIsRefused(b.ledger, m);
    } else {
      LeavesOpen(b.ledger, m, held);
      if held == id {
        RepeatedExit(b, x, m, id);
      } else {
        OtherPositionCloses(b, x, m, id, held);
      }
    }
  }

  lemma NegativeIsRefused(l: L.State, x: L.Exit)
    requires x.usd < 0.0
    ensures L.Leave(l, x).0 == l
  {
  }

  lemma OtherPositionCloses(b: Books, x: ExitRequest, m: L.Exit, id: PositionId, held: PositionId)
    requires OrdersAgree(b.db, b.ledger) && ExitHits(b.db, x, id) && held != id
    requires held in b.ledger.positions && b.ledger.positions[held].tokens > 0.0
    ensures !OrdersAgree(ExitWritten(b.db, x, id), L.ClosePosition(b.ledger, m, held))
  {
    var mine, theirs := ExitWritten(b.db, x, id).fills, L.ClosePosition(b.ledger, m, held).fills;
    assert mine[|b.db.fills|].positionId == id && theirs[|b.ledger.fills|].positionId == held;
  }

  lemma OpenIsHeld(b: Books, id: PositionId)
    requires RowsAgree(b.db, b.ledger) && id in b.db.positions && Live(b.db.positions[id])
    ensures id in b.ledger.positions && b.ledger.positions[id].status == L.Open
  {
    assert SamePosition(b.db.positions[id], b.ledger.positions[id]);
  }

  lemma StoredOrder(db: Db, x: ExitRequest, id: PositionId)
    requires ExitHits(db, x, id)
    ensures ExitWritten(db, x, id).orders == db.orders[x.exit.order := Order(false, x.exit.at, x.exit.day, id)]
  {
  }

  lemma RepeatedExit(b: Books, x: ExitRequest, m: L.Exit, id: PositionId)
    requires Agree(b) && ExitHits(b.db, x, id) && x == Valued(x) && x.exit.order !in b.db.orders
    requires id in b.ledger.positions && b.ledger.positions[id].tokens == b.db.positions[id].tokens
    requires m.mint == x.exit.mint && m.order == x.exit.order && m.at == x.exit.at && m.day == x.exit.day
    requires 0.0 < m.tokens <= b.ledger.positions[id].tokens
    ensures Agree(Books(ExitWritten(b.db, x, id), L.ClosePosition(b.ledger, m, id))) <==>
              m.tokens == x.exit.tokens && L.NetReceived(m) == L.NetReceived(x.exit)
              && SameTargets(b.ledger.positions[id], m.reason, x.exit.reason)
  {
    hide AccountsAgree, RowsAgree, L.ClosedPosition, RowAfterExit, AccountAfterExit, L.NetReceived, SameTargets;
    var after := Books(ExitWritten(b.db, x, id), L.ClosePosition(b.ledger, m, id));
    if m.tokens == x.exit.tokens && L.NetReceived(m) == L.NetReceived(x.exit) {
      if SameTargets(b.ledger.positions[id], m.reason, x.exit.reason) {
        ClosedBooksAgree(b, x, id);
        SameClosing(b.ledger, x.exit, m, id);
      } else {
        OtherTargets(b, x, m, id);
      }
    } else {
      var mine, theirs := after.db.fills[|b.db.fills|], after.ledger.fills[|b.ledger.fills|];
      assert mine.tokens == x.exit.tokens && theirs.tokens == m.tokens && theirs.usd == L.NetReceived(m);
      assert mine.usd == L.NetReceived(x.exit) by { ReceivedIsNet(b.db.positions[id], x); }
    }
  }

  lemma OtherTargets(b: Books, x: ExitRequest, m: L.Exit, id: PositionId)
    requires RowsAgree(b.db, b.ledger) && ExitHits(b.db, x, id) && id in b.ledger.positions
    requires b.ledger.positions[id].tokens > 0.0 && !SameTargets(b.ledger.positions[id], m.reason, x.exit.reason)
    ensures !RowsAgree(ExitWritten(b.db, x, id), L.ClosePosition(b.ledger, m, id))
  {
    hide Figures, AccountAfterExit;
    assert SamePosition(b.db.positions[id], b.ledger.positions[id]);
    var row, p := ExitWritten(b.db, x, id).positions[id], L.ClosePosition(b.ledger, m, id).positions[id];
    assert !SamePosition(row, p);
  }

  lemma ReceivedIsNet(p: Row, x: ExitRequest)
    requires p.tokens > 0.0 && x == Valued(x)
    ensures Figures(p, x).received == L.NetReceived(x.exit)
  {
  }

  lemma SameClosing(l: L.State, x: L.Exit, m: L.Exit, id: PositionId)
    requires id in l.positions && l.positions[id].tokens > 0.0
    requires m.tokens == x.tokens && L.NetReceived(m) == L.NetReceived(x) && m.mint == x.mint && m.order == x.order
    requires m.at == x.at && m.day == x.day && SameTargets(l.positions[id], m.reason, x.reason)
    ensures L.ClosePosition(l, m, id) == L.ClosePosition(l, x, id)
  {
    hide L.NetReceived;
    var p := l.positions[id];
    assert L.ClosedShare(p, m) == L.ClosedShare(p, x);
    assert L.ClosedPosition(p, m) == L.ClosedPosition(p, x);
  }

  /** Same amount, same value, another reason: a first profit target sold for nothing, its commit
      reported as failed, retried without a quote. The books stay split. */
  lemma LostReasonSplits() returns (b: Books, a: Action, retry: Action)
    ensures a.Close? && retry.Close? && Sound(b) && Fresh(b.db, a) && ExitCommits(b, a)
    ensures retry.exit.exit == a.exit.exit && a.exit.exit.usd == 0.0
    ensures var id := b.ledger.byToken[a.exit.exit.mint];
            id in b.db.positions && b.db.positions[id].tokens > 0.0
            && !Agree(Apply(Books(ExitWritten(b.db, Valued(a.exit), id), b.ledger), retry))
  {
    hide ExitCommits, Sound, Agree, Apply, Holding, ExitWritten;
    b := Holding();
    var x := ExitOf(1.0, 0.0, true);
    a := Close(x.(exit := x.exit.(reason := L.Tp1)), true);
    retry := Close(x.(exit := x.exit.(reason := L.Tp1), quoted := false), true);
    HoldingIsReached();
    HoldingAdmitsTarget(a);
    ExitRetryHealsIff(b, a, retry);
  }

  lemma HoldingAdmitsTarget(a: Action)
    requires a == Close(ExitRequest(ExitOf(1.0, 0.0, true).exit.(reason := L.Tp1), true), true)
    ensures Fresh(Holding().db, a) && ExitCommits(Holding(), a) && Holding().ledger.byToken["mint"] == "p"
    ensures !Holding().ledger.positions["p"].tp1Taken && "p" in Holding().db.positions && Holding().db.positions["p"].tokens > 0.0
  {
  }
}
