/** Positions written off in part: an exit without a quote takes its row out of the live ones
    while the ledger keeps the position open. */
module WriteOffs {
  import L = Ledger
  import opened PaperAccount
  import opened BrokerMirror
  import opened BookSplits

  /** The step sells some of position `id` without a quote. */
  ghost predicate WritesOff(b: Books, a: Action, id: PositionId) {
    a.Close? && !a.exit.quoted && ExitCommits(b, a) && b.ledger.byToken[a.exit.exit.mint] == id
  }

  /** Written off, with an amount left that the ledger still holds as open. */
  ghost predicate Stranded(b: Books, id: PositionId) {
    id in b.db.positions && b.db.positions[id].status == UnrecoverableRow
    && id in b.ledger.positions && b.ledger.positions[id].status == L.Open
  }

  // ---------------------------------------------------------------------------
  // One step.

  lemma StepOnRow(b: Books, a: Action, id: PositionId)
    requires Sound(b) && Fresh(b.db, a) && SoundQuote(a) && id in b.db.positions
    ensures var after := Apply(b, a);
            id in b.ledger.positions && id in after.db.positions && id in after.ledger.positions
            && (after.ledger.positions[id].status == L.Open ==>
                  b.ledger.positions[id].status == L.Open
                  && (Live(after.db.positions[id]) <==> Live(b.db.positions[id]) && !WritesOff(b, a, id)))
            && (Stranded(b, id) ==> SameRemainder(b, after, id))
  {
    hide AccountsAgree, OrdersAgree, Filed, L.Listed, EntryCommits, ExitCommits;
    HeldPosition(b, id);
    match a
    case Open(q, _, _, _) =>
      EntryEffect(b, a);
      if EntryCommits(b, a) { OtherRowsStay(b, q, id); }
    case Close(x, _) =>
      ExitEffect(b, a);
      if ExitCommits(b, a) { ExitOnRow(b, a, id); }
    case Revalue(_, _, _) => MarkOnRow(b, a, id);
  }

  /** The remainder of a stranded position is what it was, in both books. */
  ghost predicate SameRemainder(b: Books, after: Books, id: PositionId)
    requires id in b.db.positions && id in b.ledger.positions
  {
    Stranded(after, id)
    && after.db.positions[id].mint == b.db.positions[id].mint
    && after.db.positions[id].tokens == b.db.positions[id].tokens
    && after.db.positions[id].cost == b.db.positions[id].cost
    && after.ledger.positions[id].tokens == b.ledger.positions[id].tokens
    && after.ledger.positions[id].cost == b.ledger.positions[id].cost
  }

  lemma OtherRowsStay(b: Books, q: EntryRequest, id: PositionId)
    requires id in b.db.positions && id in b.ledger.positions && q.entry.position !in b.db.positions && q.entry.tokens > 0.0
    requires b.db.positions.Keys == b.ledger.positions.Keys
    ensures id in EntryWritten(b.db, q).positions && EntryWritten(b.db, q).positions[id] == b.db.positions[id]
    ensures var l := L.Enter(b.ledger, q.entry).0; id in l.positions && l.positions[id] == b.ledger.positions[id]
  {
  }

  lemma ExitOnRow(b: Books, a: Action, id: PositionId)
    requires a.Close? && Sound(b) && ExitCommits(b, a) && SoundQuote(a) && Fresh(b.db, a) && id in b.db.positions
    requires id in b.ledger.positions && SamePosition(b.db.positions[id], b.ledger.positions[id])
    ensures var hit := b.ledger.byToken[a.exit.exit.mint];
            hit in b.db.positions && ExitHits(b.db, Valued(a.exit), hit) && hit in b.ledger.positions
            && var after := Books(ExitWritten(b.db, Valued(a.exit), hit), L.Leave(b.ledger, Valued(a.exit).exit).0);
            id in after.db.positions && id in after.ledger.positions
            && (hit != id ==> after.db.positions[id] == b.db.positions[id] && after.ledger.positions[id] == b.ledger.positions[id])
            && (hit == id && after.ledger.positions[id].status == L.Open ==>
                  Live(b.db.positions[id]) && b.ledger.positions[id].status == L.Open
                  && (Live(after.db.positions[id]) <==> a.exit.quoted))
  {
    hide AccountsAgree, Filed, L.Listed, Figures;
    var hit := b.ledger.byToken[a.exit.exit.mint];
    HeldPosition(b, hit);
    OpenIsHeld(b, hit);
    LeavesOpen(b.ledger, Valued(a.exit).exit, hit);
  }

  lemma MarkOnRow(b: Books, a: Action, id: PositionId)
    requires a.Revalue? && id in b.db.positions && id in b.ledger.positions
    ensures var after := Apply(b, a);
            id in after.db.positions && id in after.ledger.positions
            && after.db.positions[id].status == b.db.positions[id].status
            && after.db.positions[id].mint == b.db.positions[id].mint
            && after.db.positions[id].tokens == b.db.positions[id].tokens
            && after.db.positions[id].cost == b.db.positions[id].cost
            && after.ledger.positions[id].status == b.ledger.positions[id].status
            && after.ledger.positions[id].tokens == b.ledger.positions[id].tokens
            && after.ledger.positions[id].cost == b.ledger.positions[id].cost
  {
    hide L.Contributions;
  }

  lemma StepAdds(b: Books, a: Action, id: PositionId)
    requires Sound(b) && Fresh(b.db, a) && SoundQuote(a) && id !in b.db.positions && id in Apply(b, a).db.positions
    ensures Live(Apply(b, a).db.positions[id])
    ensures !WritesOff(b, a, id)
  {
    hide AccountsAgree, OrdersAgree, Filed, L.Listed, EntryCommits;
    if a.Open? { EntryEffect(b, a); }
    if a.Close? { ExitEffect(b, a); }
  }

  /** No entry and no exit of its token is made while a position is stranded. */
  lemma StrandedBlocksToken(b: Books, a: Action, id: PositionId)
    requires Sound(b) && Fresh(b.db, a) && Stranded(b, id) && (a.Open? || a.Close?)
    requires (if a.Open? then a.request.entry.mint else a.exit.exit.mint) == b.db.positions[id].mint
    ensures Apply(b, a) == b
  {
    hide AccountsAgree, OrdersAgree, Filed, L.Listed, Apply;
    HeldPosition(b, id);
    assert b.ledger.byToken[b.db.positions[id].mint] == id;
    if a.Open? { EntryEffect(b, a); } else { ExitEffect(b, a); }
  }

  // ---------------------------------------------------------------------------
  // Whole runs.

  lemma {:induction false} RowsStay(bs: seq<Books>, acts: seq<Action>, start: real, i: nat, j: nat, id: PositionId)
    requires IsRun(bs, acts, start) && i <= j < |bs| && id in bs[i].db.positions
    ensures id in bs[j].db.positions
    decreases j
  {
    hide Apply, Sound, Fresh, SoundQuote, Stranded, WritesOff, SameRemainder;
    if i < j {
      RowsStay(bs, acts, start, i, j - 1, id);
      BooksAgree(bs, acts, start, j - 1);
      assert Fresh(bs[j - 1].db, acts[j - 1]) && bs[j - 1 + 1] == Apply(bs[j - 1], acts[j - 1]);
      StepOnRow(bs[j - 1], acts[j - 1], id);
    }
  }

  lemma WrittenOffIsStored(b: Books, a: Action, id: PositionId)
    requires WritesOff(b, a, id)
    ensures id in b.db.positions
  {
  }

  /** Over every run, the row of a position the ledger holds open is live exactly when no exit
      without a quote has sold part of it. */
  lemma {:induction false} LiveUnlessWrittenOff(bs: seq<Books>, acts: seq<Action>, start: real, k: nat, id: PositionId)
    requires IsRun(bs, acts, start) && k < |bs| && id in bs[k].db.positions && id in bs[k].ledger.positions
    requires bs[k].ledger.positions[id].status == L.Open
    ensures Live(bs[k].db.positions[id]) <==> forall i :: 0 <= i < k ==> !WritesOff(bs[i], acts[i], id)
  {
    hide Apply, Sound, Fresh, SoundQuote, Stranded, WritesOff, SameRemainder;
    BooksAgree(bs, acts, start, k - 1);
    var b, a := bs[k - 1], acts[k - 1];
    assert Fresh(b.db, a) && bs[k - 1 + 1] == Apply(b, a);
    if id in b.db.positions {
      StepOnRow(b, a, id);
      LiveUnlessWrittenOff(bs, acts, start, k - 1, id);
    } else {
      StepAdds(b, a, id);
      forall i | 0 <= i < k ensures !WritesOff(bs[i], acts[i], id) {
        if WritesOff(bs[i], acts[i], id) {
          WrittenOffIsStored(bs[i], acts[i], id);
          RowsStay(bs, acts, start, i, k - 1, id);
        }
      }
    }
  }

  /** A stranded remainder stays for the rest of the run: its tokens, its cost, and so its part
      of the locked capital, never change again. */
  lemma {:induction false} StrandedForGood(bs: seq<Books>, acts: seq<Action>, start: real, i: nat, j: nat, id: PositionId)
    requires IsRun(bs, acts, start) && i <= j < |bs| && Stranded(bs[i], id)
    ensures SameRemainder(bs[i], bs[j], id)
    ensures L.OpenCosts(bs[j].ledger.positions)[id] == L.OpenCosts(bs[i].ledger.positions)[id]
    decreases j
  {
    hide Apply, Sound, Fresh, SoundQuote, WritesOff;
    if i < j {
      StrandedForGood(bs, acts, start, i, j - 1, id);
      BooksAgree(bs, acts, start, j - 1);
      assert Fresh(bs[j - 1].db, acts[j - 1]) && bs[j - 1 + 1] == Apply(bs[j - 1], acts[j - 1]);
      StepOnRow(bs[j - 1], acts[j - 1], id);
    }
  }

  /** Such a run: an entry of two tokens, then an exit of one without a quote. */
  lemma PartialWriteOffStrands() returns (bs: seq<Books>, acts: seq<Action>)
    ensures IsRun(bs, acts, 100.0) && |acts| == 2 && WritesOff(bs[1], acts[1], "p")
    ensures acts[0] == Open(EntryOf(2.0), Wide, true, true)
    ensures Stranded(bs[2], "p") && bs[2].db.positions["p"].tokens == 1.0
  {
    hide EntryCommits, ExitCommits, Sound, Agree, Apply, Holding, Empty;
    var entry, exit := Open(EntryOf(2.0), Wide, true, true), Close(ExitOf(1.0, 0.0, false), true);
    HoldingIsReached();
    HoldingAdmits(1.0, 0.0, false);
    ExitEffect(Holding(), exit);
    WrittenOff();
    FirstBooks();
    bs, acts := [Empty(), Holding(), Apply(Holding(), exit)], [entry, exit];
  }

  lemma FirstBooks()
    ensures Empty() == Books(Initial(100.0), L.Initial(100.0))
  {
  }

  lemma WrittenOff()
    ensures "p" in Holding().db.positions && Holding().db.positions["p"].tokens > 0.0
    ensures var x := Valued(ExitOf(1.0, 0.0, false));
            Stranded(Books(ExitWritten(Holding().db, x, "p"), L.Leave(Holding().ledger, x.exit).0), "p")
            && ExitWritten(Holding().db, x, "p").positions["p"].tokens == 1.0
  {
    hide Figures, AccountAfterExit;
    assert Holding().db.positions["p"].tokens == 2.0;
    var x := Valued(ExitOf(1.0, 0.0, false));
    assert L.Leave(Holding().ledger, x.exit).0 == L.ClosePosition(Holding().ledger, x.exit, "p");
  }
}
