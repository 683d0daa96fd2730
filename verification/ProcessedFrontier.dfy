/** The stream checkpoint: the newest wanted event inside the fully processed prefix of the
    ingest order. It never passes an unprocessed event and never moves back. */
module ProcessedFrontier {
  import opened EventClaims
  import opened ClaimProtocol

  /** Which stored events a query selects: those not replayed, of one protocol or of all. */
  type Filter = EventId -> bool

  predicate Unresolved(s: Store, e: EventId) {
    e in s.rows && e in s.sequence && s.rows[e].status != Processed
  }

  /** `_processed_prefix_condition` for one event. */
  ghost predicate InPrefix(s: Store, e: EventId) {
    e in s.rows && e in s.sequence && s.rows[e].status == Processed
    && forall f :: Unresolved(s, f) ==> s.sequence[e] < s.sequence[f]
  }

  ghost predicate Candidate(s: Store, wanted: Filter, e: EventId) {
    InPrefix(s, e) && wanted(e)
  }

  /** The row `load_stream_checkpoint` selects: the candidate with the largest sequence. */
  ghost predicate IsCheckpoint(s: Store, wanted: Filter, e: EventId) {
    Candidate(s, wanted, e) && forall f :: Candidate(s, wanted, f) ==> s.sequence[f] <= s.sequence[e]
  }

  /** Everything at or below the checkpoint is processed. */
  lemma NothingUnprocessedBelow(s: Store, wanted: Filter, checkpoint: EventId, e: EventId)
    requires SequenceInv(s) && IsCheckpoint(s, wanted, checkpoint)
    requires e in s.rows && s.sequence[e] <= s.sequence[checkpoint]
    ensures s.rows[e].status == Processed
  {
    assert Unresolved(s, e) <==> s.rows[e].status != Processed;
  }

  /** If any event qualifies, the query finds one. */
  lemma CheckpointExists(s: Store, wanted: Filter, e: EventId)
    requires Candidate(s, wanted, e)
    ensures exists c :: IsCheckpoint(s, wanted, c) && s.sequence[c] >= s.sequence[e]
  {
    var pool := set c | c in s.sequence && Candidate(s, wanted, c);
    assert e in pool;
    var c := Newest(s.sequence, pool, e);
    assert forall f :: Candidate(s, wanted, f) ==> f in pool;
    assert IsCheckpoint(s, wanted, c);
  }

  lemma {:induction false} Newest(sequence: map<EventId, nat>, pool: set<EventId>, e: EventId) returns (c: EventId)
    requires e in pool && forall x :: x in pool ==> x in sequence
    ensures c in pool && forall x :: x in pool ==> sequence[x] <= sequence[c]
    decreases |pool|
  {
    if pool == {e} { return e; }
    var rest := pool - {e};
    assert pool == rest + {e};
    var f :| f in rest;
    c := Newest(sequence, rest, f);
    if sequence[c] < sequence[e] { c := e; }
  }

  // ---------------------------------------------------------------------------
  // Over runs with one ingest writer: every new sequence number is above all stored ones.

  ghost predicate OrderedIngest(w: World, a: Action) {
    a.Claim? ==> forall e, n :: e in w.store.sequence && n in a.call.numbers ==> w.store.sequence[e] < n
  }

  /** A step keeps every stored sequence and puts new events after all of them. */
  ghost predicate Appends(s: Store, s': Store) {
    (forall e :: e in s.sequence ==> e in s'.sequence && s'.sequence[e] == s.sequence[e])
    && (forall e, f :: e in s'.sequence && e !in s.sequence && f in s.sequence ==> s.sequence[f] < s'.sequence[e])
    && (forall e :: e in s.rows && s.rows[e].status == Processed ==> e in s'.rows && s'.rows[e] == s.rows[e])
  }

  lemma StepSequences(w: World, a: Action, w': World)
    requires Inv(w) && Step(w, a, w')
    ensures if a.Claim? then Extends(w.store.sequence, w'.store.sequence, a.call)
            else w'.store.sequence == w.store.sequence
  {
    hide Record, RowsInv, LocalsInv, SequenceInv, Extends, Unused, AllOwned, ClaimedRows, ClaimTokens;
    if a.Claim? {
      ClaimWrites(w.store, w.local[a.who].tokens, a.call, a.fate);
    }
  }

  lemma StepAppends(w: World, a: Action, w': World)
    requires Inv(w) && Step(w, a, w') && OrderedIngest(w, a)
    ensures Appends(w.store, w'.store)
  {
    hide Step, Inv, HoldsClaim;
    StepSequences(w, a, w');
    forall e | e in w.store.rows && w.store.rows[e].status == Processed
      ensures e in w'.store.rows && w'.store.rows[e] == w.store.rows[e]
    {
      RowChangeIsFenced(w, a, w', e);
    }
  }

  /** A processed prefix stays a processed prefix. */
  lemma PrefixStays(s: Store, s': Store, e: EventId)
    requires SequenceInv(s) && SequenceInv(s') && Appends(s, s') && InPrefix(s, e)
    ensures InPrefix(s', e) && s'.sequence[e] == s.sequence[e]
  {
    forall f | Unresolved(s', f) ensures s'.sequence[e] < s'.sequence[f] {
      if f in s.sequence {
        assert Unresolved(s, f);
      }
    }
  }

  ghost predicate IsOrderedRun(ws: seq<World>, acts: seq<Action>) {
    IsRun(ws, acts) && forall i :: 0 <= i < |acts| ==> OrderedIngest(ws[i], acts[i])
  }

  lemma {:induction false} PrefixStaysOverRun(ws: seq<World>, acts: seq<Action>, i: nat, j: nat, e: EventId)
    requires IsOrderedRun(ws, acts) && i <= j < |ws| && InPrefix(ws[i].store, e)
    ensures InPrefix(ws[j].store, e) && ws[j].store.sequence[e] == ws[i].store.sequence[e]
    decreases j
  {
    hide Step, InPrefix, Appends;
    if i < j {
      PrefixStaysOverRun(ws, acts, i, j - 1, e);
      RunKeepsInv(ws, acts, j - 1);
      RunKeepsInv(ws, acts, j);
      assert Step(ws[j - 1], acts[j - 1], ws[j - 1 + 1]);
      StepAppends(ws[j - 1], acts[j - 1], ws[j]);
      PrefixStays(ws[j - 1].store, ws[j].store, e);
    }
  }

  /** Over any run with one ingest writer a loaded checkpoint never disappears and never
      moves backwards. */
  lemma CheckpointNeverMovesBack(ws: seq<World>, acts: seq<Action>, i: nat, j: nat, wanted: Filter, e: EventId)
    requires IsOrderedRun(ws, acts) && i <= j < |ws| && IsCheckpoint(ws[i].store, wanted, e)
    ensures exists f :: IsCheckpoint(ws[j].store, wanted, f)
    ensures forall f :: IsCheckpoint(ws[j].store, wanted, f) ==>
              f in ws[j].store.sequence && e in ws[i].store.sequence
              && ws[i].store.sequence[e] <= ws[j].store.sequence[f]
  {
    hide IsOrderedRun;
    PrefixStaysOverRun(ws, acts, i, j, e);
    CheckpointExists(ws[j].store, wanted, e);
  }
}
