/** What one `record_events` call guarantees its caller: agreement between remembered tokens
    and durable rows, take-over of abandoned claims, and retries after an ambiguous commit. */
module ClaimRetry {
  import opened Options
  import opened EventClaims
  import opened ClaimProtocol

  /** After a call returns, the process remembers a token for a batch event exactly when the
      durable row is PROCESSING under that token, and no other token has changed. */
  lemma ReturnedTokensMatchRows(s: Store, memory: Tokens, c: Call, e: EventId)
    requires Drawn(memory, c) && Record(s, memory, c, Committed).reply.Returned?
    ensures var done := Record(s, memory, c, Committed);
            if e in c.events then
              e in done.store.rows
              && (e in done.memory <==> OwnedBy(done.store.rows[e], ClaimTokens(memory, c)[e]))
              && (e in done.memory ==> done.memory[e] == ClaimTokens(memory, c)[e])
            else Get(done.memory, e) == Get(memory, e) && Get(done.store.rows, e) == Get(s.rows, e)
  {
    hide Unique, NewIds, Number, Results, Stale, Sequenced;
  }

  /** A failed body whose reconciliation ran leaves the same agreement, with the rows untouched. */
  lemma ReconciledTokensMatchRows(s: Store, memory: Tokens, c: Call, e: EventId)
    requires Drawn(memory, c) && e in c.events && |c.events| <= MAX_EVENT_BATCH_SIZE
    ensures var done := Record(s, memory, c, BodyFailed(true));
            done.store == s
            && (e in done.memory <==> e in s.rows && OwnedBy(s.rows[e], ClaimTokens(memory, c)[e]))
  {
    hide Sequenced, Results, StoreAfter;
  }

  /** The events a committed call accepts, in terms of the stored rows: unknown and failed
      events, its own claims when resuming, and claims of others that are stale or reclaimed. */
  lemma AcceptedIff(s: Store, memory: Tokens, c: Call, i: nat)
    requires Drawn(memory, c) && SequenceInv(s) && Unused(s.sequence, c)
    requires i < |c.events| <= 1024
    ensures var done, e := Record(s, memory, c, Committed), c.events[i];
            done.reply.Returned? && |done.reply.results| == |c.events|
            && (done.reply.results[i].accepted <==>
                  e !in c.events[..i]
                  && (e in s.rows ==>
                        var row := s.rows[e];
                        row.status == Failed
                        || (row.status == Processing
                            && (c.reclaim || row.lastAttempt.None? || c.now >= row.lastAttempt.value + 120_000_000
                                || (c.resumeOwned && row.token == Some(ClaimTokens(memory, c)[e]))))))
            && (done.reply.results[i].accepted ==>
                  e in done.store.sequence && done.reply.results[i].sequence == done.store.sequence[e]
                  && OwnedBy(done.store.rows[e], ClaimTokens(memory, c)[e]))
  {
    hide Unique, NewIds, Number, SequenceInv, Unused, Extends;
    ClaimKeepsSequences(s, ClaimTokens(memory, c), c);
  }

  /** A call raises exactly when its batch is over the bound, its body fails, or its commit has an
      unknown outcome; an empty batch is answered without a transaction. */
  lemma RaisesIff(s: Store, memory: Tokens, c: Call, fate: Fate)
    requires Drawn(memory, c) && SequenceInv(s) && Unused(s.sequence, c)
    ensures var done := Record(s, memory, c, fate);
            (done.reply.Raised? <==> c.events != [] && (|c.events| > 1024 || fate != Committed))
            && (done.store != s ==> 0 < |c.events| <= 1024 && (fate == Committed || fate == CommitUnknown(true)))
            && (|c.events| > 1024 ==> done.memory == memory)
  {
    hide Unique, NewIds, Number, SequenceInv, Unused, Extends, StoreAfter, Results, Accepts, Sequenced;
    ClaimKeepsSequences(s, ClaimTokens(memory, c), c);
  }

  /** The retried call may see a later clock, but no claim of another process turns stale in
      between. */
  ghost predicate NoStalenessCrossed(s: Store, toks: Tokens, c: Call, later: int) {
    forall e :: e in toks && e in s.rows && s.rows[e].status == Processing && !OwnedBy(s.rows[e], toks[e])
                    && s.rows[e].lastAttempt.Some?
                ==> (c.now >= s.rows[e].lastAttempt.value + 120_000_000 <==> later >= s.rows[e].lastAttempt.value + 120_000_000)
  }

  ghost predicate IsRetry(c: Call, retry: Call) {
    retry.events == c.events && retry.reclaim == c.reclaim && retry.resumeOwned && c.resumeOwned
  }

  /** After an unknown commit outcome, retrying with `resume_owned` ends exactly as one clean
      call would have: as the first call, if its commit had landed, and otherwise as a first
      call made at the time of the retry. */
  lemma RetryEqualsCleanCall(s: Store, memory: Tokens, c: Call, retry: Call, landed: bool)
    requires Drawn(memory, c) && SequenceInv(s) && Unused(s.sequence, c) && Unused(s.sequence, retry)
    requires c.events != [] && |c.events| <= MAX_EVENT_BATCH_SIZE && IsRetry(c, retry)
    requires NoStalenessCrossed(s, ClaimTokens(memory, c), c, retry.now)
    ensures var first := Record(s, memory, c, CommitUnknown(landed));
            first.reply.Raised? && Drawn(first.memory, retry)
            && Record(first.store, first.memory, retry, Committed)
               == Record(s, memory, if landed then c else c.(now := retry.now, numbers := retry.numbers), Committed)
  {
    var toks := ClaimTokens(memory, c);
    ClaimKeepsSequences(s, toks, c);
    ClaimKeepsSequences(s, toks, retry);
    RetryTokens(memory, c, retry);
    if landed {
      RetryOfLanded(s, memory, c, retry);
    } else {
      RetryOfLost(s, memory, c, retry);
    }
  }

  lemma RetryTokens(memory: Tokens, c: Call, retry: Call)
    requires Drawn(memory, c) && retry.events == c.events
    ensures Drawn(memory + ClaimTokens(memory, c), retry)
    ensures ClaimTokens(memory + ClaimTokens(memory, c), retry) == ClaimTokens(memory, c)
  {
  }

  lemma RetryOfLost(s: Store, memory: Tokens, c: Call, retry: Call)
    requires Drawn(memory, c) && c.events != [] && |c.events| <= MAX_EVENT_BATCH_SIZE && IsRetry(c, retry)
    requires Sequenced(s, ClaimTokens(memory, c), c) && Sequenced(s, ClaimTokens(memory, c), retry)
    ensures var toks := ClaimTokens(memory, c);
            Drawn(memory + toks, retry)
            && Record(s, memory + toks, retry, Committed)
               == Record(s, memory, c.(now := retry.now, numbers := retry.numbers), Committed)
  {
    hide Unique, NewIds, Number, StoreAfter, Sequenced, Results, Accepts;
    var toks := ClaimTokens(memory, c);
    var again := c.(now := retry.now, numbers := retry.numbers);
    assert ClaimTokens(memory, again) == toks;
    RetryTokens(memory, c, retry);
    SameDecisions(s, toks, retry, again);
    assert TokensAfter(memory + toks, s, toks, retry) == TokensAfter(memory, s, toks, again);
  }

  lemma SameDecisions(s: Store, toks: Tokens, c: Call, d: Call)
    requires c == d.(mint := c.mint) && forall e :: e in c.events ==> e in toks
    ensures StoreAfter(s, toks, c) == StoreAfter(s, toks, d)
    ensures forall e :: e in toks ==> Accepts(s, toks, c, e) == Accepts(s, toks, d, e)
    ensures Sequenced(s, toks, c) == Sequenced(s, toks, d)
    ensures Results(s, toks, c) == Results(s, toks, d)
  {
    assert forall e :: e in toks ==> Decide(Get(s.rows, e), toks[e], c) == Decide(Get(s.rows, e), toks[e], d);
    assert RowsAfter(s, toks, c) == RowsAfter(s, toks, d);
    assert forall i :: 0 <= i < |c.events| ==> ResultAt(s, toks, c, i) == ResultAt(s, toks, d, i);
  }

  lemma RetryOfLanded(s: Store, memory: Tokens, c: Call, retry: Call)
    requires Drawn(memory, c) && c.events != [] && |c.events| <= MAX_EVENT_BATCH_SIZE && IsRetry(c, retry)
    requires SequenceInv(s) && Unused(s.sequence, c)
    requires NoStalenessCrossed(s, ClaimTokens(memory, c), c, retry.now)
    ensures var toks := ClaimTokens(memory, c);
            Drawn(memory + toks, retry)
            && Record(StoreAfter(s, toks, c), memory + toks, retry, Committed) == Record(s, memory, c, Committed)
  {
    hide StoreAfter, TokensAfter, Results, Accepts, Unused, Extends, SequenceInv, Drawn, Sequenced;
    var toks := ClaimTokens(memory, c);
    ClaimKeepsSequences(s, toks, c);
    RetryTokens(memory, c, retry);
    RetriedStore(s, toks, c, retry);
    RetriedReply(s, memory, toks, c, retry);
    StillSequenced(s, toks, c, retry);
  }

  lemma RetriedStore(s: Store, toks: Tokens, c: Call, retry: Call)
    requires IsRetry(c, retry) && NoStalenessCrossed(s, toks, c, retry.now) && forall e :: e in c.events ==> e in toks
    ensures StoreAfter(StoreAfter(s, toks, c), toks, retry) == StoreAfter(s, toks, c)
    ensures forall e :: e in toks ==> Accepts(StoreAfter(s, toks, c), toks, retry, e) == Accepts(s, toks, c, e)
  {
    hide Unique, NewIds, Number, RowAfter, Accepts;
    var s' := StoreAfter(s, toks, c);
    NothingNew(s, toks, c, retry);
    forall e | e in toks
      ensures Accepts(s', toks, retry, e) == Accepts(s, toks, c, e)
              && RowAfter(Get(s'.rows, e), toks[e], retry) == s'.rows[e]
    {
      RetriedRow(s, toks, c, retry, e);
    }
    assert RowsAfter(s', toks, retry) == s'.rows;
  }

  lemma RetriedReply(s: Store, memory: Tokens, toks: Tokens, c: Call, retry: Call)
    requires IsRetry(c, retry) && NoStalenessCrossed(s, toks, c, retry.now) && forall e :: e in c.events ==> e in toks
    ensures var s' := StoreAfter(s, toks, c);
            TokensAfter(memory + toks, s', toks, retry) == TokensAfter(memory, s, toks, c)
            && Results(s', toks, retry) == Results(s, toks, c)
  {
    hide StoreAfter, Accepts;
    var s' := StoreAfter(s, toks, c);
    RetriedStore(s, toks, c, retry);
    forall e | e in toks && !Accepts(s, toks, c, e) ensures e in s.rows && e in s'.rows && s'.rows[e] == s.rows[e] {
      RetriedRow(s, toks, c, retry, e);
    }
    assert forall i :: 0 <= i < |c.events| ==> ResultAt(s', toks, retry, i) == ResultAt(s, toks, c, i);
  }

  lemma StillSequenced(s: Store, toks: Tokens, c: Call, retry: Call)
    requires IsRetry(c, retry) && NoStalenessCrossed(s, toks, c, retry.now) && forall e :: e in c.events ==> e in toks
    requires Sequenced(s, toks, c)
    ensures Sequenced(StoreAfter(s, toks, c), toks, retry)
  {
    hide StoreAfter, Accepts;
    RetriedStore(s, toks, c, retry);
  }

  /** One row of the retried batch: an accepted row is resumed unchanged, a kept row is kept. */
  lemma RetriedRow(s: Store, toks: Tokens, c: Call, retry: Call, e: EventId)
    requires IsRetry(c, retry) && NoStalenessCrossed(s, toks, c, retry.now) && e in toks
    ensures var s' := StoreAfter(s, toks, c);
            Accepts(s', toks, retry, e) == Accepts(s, toks, c, e)
            && RowAfter(Get(s'.rows, e), toks[e], retry) == s'.rows[e]
            && (!Accepts(s, toks, c, e) ==> e in s.rows && e in s'.rows && s'.rows[e] == s.rows[e])
  {
    hide Unique, NewIds, Number;
  }

  /** The batch's sequence numbers are already stored, so a retry numbers nothing. */
  lemma NothingNew(s: Store, toks: Tokens, c: Call, retry: Call)
    requires retry.events == c.events && forall e :: e in c.events ==> e in toks
    ensures var s' := StoreAfter(s, toks, c);
            Number(s'.sequence, NewIds(s'.rows, Unique(retry.events)), retry.numbers) == s'.sequence
  {
    var s' := StoreAfter(s, toks, c);
    UniqueIsDistinct(c.events);
    NewIdsAreNew(s'.rows, Unique(c.events));
    var ids := NewIds(s'.rows, Unique(c.events));
    assert forall i :: 0 <= i < |ids| ==> ids[i] in ids;
  }
}
