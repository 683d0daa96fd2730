/** The claim methods as the program performs them: one database handle with its token
    dictionary, working on the shared claim table through loops over the batch. */
module ClaimStore {
  import opened Options
  import opened EventClaims
  import opened ClaimProtocol

  class ClaimTable {
    var rows: map<EventId, Row>
    var sequence: map<EventId, nat>

    constructor ()
      ensures rows == map[] && sequence == map[]
    {
      rows, sequence := map[], map[];
    }

    ghost function View(): Store
      reads this
    {
      Store(rows, sequence)
    }
  }

  class Database {
    var tokens: Tokens
    const table: ClaimTable

    constructor (table: ClaimTable)
      ensures this.table == table && tokens == map[]
    {
      this.table := table;
      tokens := map[];
    }

    /** `record_events` under a given transaction outcome. */
    method RecordEvents(c: Call, fate: Fate) returns (reply: Reply)
      requires Drawn(tokens, c)
      modifies this, table
      ensures Effect(table.View(), tokens, reply) == Record(old(table.View()), old(tokens), c, fate)
    {
      hide Unique, NewIds, Number, RowsAfter, TokensAfter, Results, Reconcile, Accepts, OwnedBy, Sequenced;
      if c.events == [] { return Returned([]); }
      if |c.events| > MAX_EVENT_BATCH_SIZE { return Raised; }
      ghost var s := table.View();
      ghost var memory := tokens;
      var unique := Dedupe(c.events);
      UniqueIsDistinct(c.events);
      var claims := DrawTokens(tokens, c, unique);
      tokens := tokens + claims;
      var rows, claimed, owned, inserted := ClaimRows(s, table.rows, unique, claims, c);
      var sequence := NumberRows(table.rows, table.sequence, unique, inserted, c.numbers);
      assert Store(rows, sequence) == StoreAfter(s, claims, c);
      var complete := claimed <= sequence.Keys;
      CompleteMeansSequenced(s, claims, c, claimed);
      if fate.BodyFailed? || !complete {
        if !fate.BodyFailed? || fate.reconciled {
          ReconcileTokens(claims, unique);
        }
        return Raised;
      }
      if fate.CommitUnknown? {
        if fate.landed { table.rows, table.sequence := rows, sequence; }
        return Raised;
      }
      table.rows, table.sequence := rows, sequence;
      ReleaseUnclaimed(memory, s, c, claims, claimed + owned, unique);
      var results := ListResults(s, claims, c, claimed, sequence);
      reply := Returned(results);
    }

    /** `_reconcile_event_claim_tokens`. */
    method ReconcileTokens(claims: Tokens, ids: seq<EventId>)
      requires forall e :: e in ids <==> e in claims
      requires forall i, j :: 0 <= i < j < |ids| ==> ids[i] != ids[j]
      modifies this
      ensures tokens == Reconcile(old(tokens), table.View(), claims)
    {
      var before := tokens;
      for i := 0 to |ids|
        invariant tokens.Keys <= before.Keys && forall e :: e in tokens ==> tokens[e] == before[e]
        invariant forall e :: e in before && e !in ids[..i] ==> e in tokens
        invariant forall e :: e in before && e in ids[..i] ==>
          (e in tokens <==> !(before[e] == claims[e] && !(e in table.rows && OwnedBy(table.rows[e], claims[e]))))
      {
        var e := ids[i];
        var durable := e in table.rows && OwnedBy(table.rows[e], claims[e]);
        if !durable && e in tokens && tokens[e] == claims[e] {
          tokens := tokens - {e};
        }
        assert ids[..i + 1] == ids[..i] + [e];
      }
      assert ids[..|ids|] == ids;
    }

    /** The closing loop of a committed call: forget the claims that were not obtained. */
    method ReleaseUnclaimed(ghost memory: Tokens, ghost s: Store, c: Call, claims: Tokens, retained: set<EventId>, ids: seq<EventId>)
      requires tokens == memory + claims
      requires forall e :: e in ids <==> e in claims
      requires forall e :: e in claims && !Accepts(s, claims, c, e) ==> e in s.rows
      requires forall e :: e in claims ==>
                 (e in retained <==> Accepts(s, claims, c, e) || OwnedBy(s.rows[e], claims[e]))
      modifies this`tokens
      ensures tokens == TokensAfter(memory, s, claims, c)
    {
      hide Accepts, OwnedBy;
      for i := 0 to |ids|
        invariant tokens.Keys <= memory.Keys + claims.Keys
        invariant forall e :: e in tokens ==> tokens[e] == (memory + claims)[e]
        invariant forall e :: e in memory + claims && e !in ids[..i] ==> e in tokens
        invariant forall e :: e in ids[..i] ==> (e in tokens <==> e in retained)
      {
        var e := ids[i];
        if e !in retained && e in tokens && tokens[e] == claims[e] {
          tokens := tokens - {e};
        }
        assert ids[..i + 1] == ids[..i] + [e];
      }
      assert ids[..|ids|] == ids;
      assert tokens.Keys == TokensAfter(memory, s, claims, c).Keys;
    }

    /** `mark_events_processed` and `mark_events_failed`: every event needs a remembered token,
        every row must still be owned under it, and a returned call forgets those tokens. */
    method MarkEvents(ids: seq<EventId>, status: Status, at: int, fate: Fate) returns (ok: bool)
      requires forall i, j :: 0 <= i < j < |ids| ==> ids[i] != ids[j]
      modifies this, table
      ensures ok <==> CanMark(old(table.View()), old(tokens), ids) && fate.Committed?
      ensures table.View() == if CanMark(old(table.View()), old(tokens), ids) && Lands(fate)
                              then Finish(old(table.View()), Captured(old(tokens), ids), status, at)
                              else old(table.View())
      ensures tokens == if ok then old(tokens) - (set e | e in ids) else old(tokens)
    {
      hide AllOwned;
      var captured, claims := CaptureClaims(tokens, ids);
      if !captured { return false; }
      var owned, rows := FinishRows(table, ids, claims, status, at);
      if !owned || fate.BodyFailed? || (fate.CommitUnknown? && !fate.landed) { return false; }
      table.rows := rows;
      if fate.CommitUnknown? { return false; }
      for i := 0 to |ids|
        modifies this
        invariant tokens == old(tokens) - (set e | e in ids[..i])
      {
        assert ids[..i + 1] == ids[..i] + [ids[i]];
        assert ids[i] in ids;
        if ids[i] in tokens && tokens[ids[i]] == claims[ids[i]] {
          tokens := tokens - {ids[i]};
        }
      }
      assert ids[..|ids|] == ids;
      ok := true;
    }
  }

  /** The claims a process presents for `ids`. */
  ghost function Captured(tokens: Tokens, ids: seq<EventId>): Tokens {
    map e | e in ids && e in tokens :: tokens[e]
  }

  ghost predicate CanMark(s: Store, tokens: Tokens, ids: seq<EventId>) {
    (forall e :: e in ids ==> e in tokens) && AllOwned(s, Captured(tokens, ids))
  }

  /** Marking takes a remembered token for every event, under which its row is still PROCESSING;
      the marked rows then have the status, the time and no token, and all others stay. */
  lemma MarkingIs(s: Store, tokens: Tokens, ids: seq<EventId>, status: Status, at: int)
    ensures CanMark(s, tokens, ids)
            <==> forall e :: e in ids ==>
                   e in tokens && e in s.rows && s.rows[e].status == Processing && s.rows[e].token == Some(tokens[e])
    ensures CanMark(s, tokens, ids) ==>
              var s' := Finish(s, Captured(tokens, ids), status, at);
              s'.sequence == s.sequence && s'.rows.Keys == s.rows.Keys
              && forall e :: e in s.rows ==>
                   s'.rows[e] == if e in ids then Row(status, s.rows[e].attempts, Some(at), None) else s.rows[e]
  {
    if CanMark(s, tokens, ids) {
      forall e | e in ids
        ensures e in tokens && e in s.rows && s.rows[e].status == Processing && s.rows[e].token == Some(tokens[e])
      {
        assert Captured(tokens, ids)[e] == tokens[e];
      }
    }
  }

  method CaptureClaims(tokens: Tokens, ids: seq<EventId>) returns (ok: bool, claims: Tokens)
    ensures ok <==> forall e :: e in ids ==> e in tokens
    ensures ok ==> claims == Captured(tokens, ids)
  {
    claims := map[];
    for i := 0 to |ids|
      invariant forall e :: e in claims <==> e in ids[..i]
      invariant forall e :: e in claims ==> e in tokens && claims[e] == tokens[e]
    {
      if ids[i] !in tokens {
        assert ids[i] in ids;
        return false, claims;
      }
      claims := claims[ids[i] := tokens[ids[i]]];
      assert ids[..i + 1] == ids[..i] + [ids[i]];
    }
    assert ids[..|ids|] == ids;
    ok := true;
  }

  method FinishRows(table: ClaimTable, ids: seq<EventId>, claims: Tokens, status: Status, at: int)
    returns (ok: bool, rows: map<EventId, Row>)
    requires forall e :: e in ids <==> e in claims
    requires forall i, j :: 0 <= i < j < |ids| ==> ids[i] != ids[j]
    ensures ok <==> AllOwned(table.View(), claims)
    ensures ok ==> rows == Finish(table.View(), claims, status, at).rows
  {
    hide OwnedBy, Ended;
    rows := table.rows;
    for i := 0 to |ids|
      invariant rows.Keys == table.rows.Keys
      invariant forall e :: e in ids[..i] ==>
        e in table.rows && OwnedBy(table.rows[e], claims[e])
        && rows[e] == Ended(table.rows[e], status, at)
      invariant forall e :: e in rows && e !in ids[..i] ==> rows[e] == table.rows[e]
    {
      var e := ids[i];
      assert e in ids;
      if e !in table.rows || !OwnedBy(table.rows[e], claims[e]) {
        return false, rows;
      }
      rows := rows[e := Ended(rows[e], status, at)];
      assert ids[..i + 1] == ids[..i] + [e];
    }
    assert ids[..|ids|] == ids;
    ok := true;
  }

  // ---------------------------------------------------------------------------
  // The loops of record_events.

  method Dedupe(events: seq<EventId>) returns (unique: seq<EventId>)
    ensures unique == Unique(events)
  {
    unique := [];
    var seen: set<EventId> := {};
    for i := 0 to |events|
      invariant seen == (set e | e in events[..i]) && unique == Unique(events[..i])
    {
      assert events[..i + 1][..i] == events[..i];
      if events[i] !in seen {
        seen := seen + {events[i]};
        unique := unique + [events[i]];
      }
    }
    assert events[..|events|] == events;
  }

  method DrawTokens(tokens: Tokens, c: Call, unique: seq<EventId>) returns (claims: Tokens)
    requires Drawn(tokens, c) && forall e :: e in unique <==> e in c.events
    ensures claims == ClaimTokens(tokens, c)
  {
    claims := map[];
    for i := 0 to |unique|
      invariant claims.Keys == (set e | e in unique[..i])
      invariant forall e :: e in claims ==> e in c.events && claims[e] == ClaimTokens(tokens, c)[e]
    {
      var e := unique[i];
      assert e in unique;
      var token := if e in tokens then tokens[e] else c.mint[e];
      claims := claims[e := token];
      assert unique[..i + 1] == unique[..i] + [e];
    }
    assert unique[..|unique|] == unique;
  }

  /** The insert-or-ignore statement followed by the loop over the conflicting rows. */
  method ClaimRows(ghost s: Store, stored: map<EventId, Row>, unique: seq<EventId>, claims: Tokens, c: Call)
    returns (rows: map<EventId, Row>, claimed: set<EventId>, owned: set<EventId>, inserted: set<EventId>)
    requires stored == s.rows && forall e :: e in unique <==> e in claims
    requires forall i, j :: 0 <= i < j < |unique| ==> unique[i] != unique[j]
    ensures forall e :: e in inserted <==> e in unique && e !in stored
    ensures rows == RowsAfter(s, claims, c)
    ensures forall e :: e in claimed <==> e in claims && Accepts(s, claims, c, e)
    ensures forall e :: e in claims && !Accepts(s, claims, c, e) ==> e in stored
    ensures forall e :: e in owned <==> e in claims && !Accepts(s, claims, c, e) && OwnedBy(stored[e], claims[e])
  {
    hide RowAfter, Decide, RowsAfter, Accepts, OwnedBy;
    rows, inserted := InsertNew(stored, unique, claims, c);
    claimed, owned := {}, {};
    ghost var done: set<EventId> := {};
    for i := 0 to |unique|
      invariant forall j :: 0 <= j < |unique| ==> (unique[j] in done <==> j < i)
      invariant forall e :: e in done ==> e in claims
      invariant forall e :: e in rows <==> e in stored || e in claims
      invariant forall e :: e in rows ==>
        rows[e] == if e in done || e !in stored then RowAfter(Get(stored, e), claims[e], c) else stored[e]
      invariant forall e :: e in claimed <==> e in done && Accepts(s, claims, c, e)
      invariant forall e :: e in done && !Accepts(s, claims, c, e) ==> e in stored
      invariant forall e :: e in owned <==> e in done && !Accepts(s, claims, c, e) && OwnedBy(stored[e], claims[e])
    {
      var e := unique[i];
      assert e in unique && e !in done;
      if e in inserted {
        NewIsAccepted(s, claims, c, e);
        claimed := claimed + {e};
      } else {
        var accept, keep, row := ClaimExisting(s, claims, stored[e], e, c);
        if accept { claimed := claimed + {e}; }
        if keep { owned := owned + {e}; }
        rows := rows[e := row];
      }
      done := done + {e};
    }
    assert forall e :: e in claims ==> e in unique && e in done;
    RowsArePlaced(s, claims, c, rows);
  }

  lemma NewIsAccepted(s: Store, claims: Tokens, c: Call, e: EventId)
    requires e in claims && e !in s.rows
    ensures Accepts(s, claims, c, e)
  {
  }

  lemma RowsArePlaced(s: Store, claims: Tokens, c: Call, rows: map<EventId, Row>)
    requires forall e :: e in rows <==> e in s.rows || e in claims
    requires forall e :: e in rows ==>
               rows[e] == if e in claims then RowAfter(Get(s.rows, e), claims[e], c) else s.rows[e]
    ensures rows == RowsAfter(s, claims, c)
  {
    hide RowAfter;
  }

  /** The branches for one row that was already in the table. */
  method ClaimExisting(ghost s: Store, claims: Tokens, existing: Row, e: EventId, c: Call)
    returns (accept: bool, keep: bool, row: Row)
    requires e in s.rows && s.rows[e] == existing && e in claims
    ensures row == RowAfter(Some(existing), claims[e], c)
    ensures accept <==> Accepts(s, claims, c, e)
    ensures keep <==> !accept && OwnedBy(existing, claims[e])
  {
    var token := claims[e];
    accept, keep, row := true, false, existing;
    if c.resumeOwned && existing.status == Processing && existing.token == Some(token) { return; }
    var stale := existing.lastAttempt.None? || c.now - existing.lastAttempt.value >= STALE_AFTER;
    if existing.status == Processed || (existing.status == Processing && !stale && !c.reclaim) {
      accept := false;
      keep := existing.status == Processing && existing.token == Some(token);
      return;
    }
    row := Row(Processing, existing.attempts + 1, Some(c.now), Some(token));
  }

  method InsertNew(stored: map<EventId, Row>, unique: seq<EventId>, claims: Tokens, c: Call)
    returns (rows: map<EventId, Row>, inserted: set<EventId>)
    requires forall e :: e in unique <==> e in claims
    ensures forall e :: e in inserted <==> e in unique && e !in stored
    ensures forall e :: e in rows <==> e in stored || e in claims
    ensures forall e :: e in stored ==> rows[e] == stored[e]
    ensures forall e :: e in unique && e !in stored ==> rows[e] == RowAfter(None, claims[e], c)
  {
    rows, inserted := stored, {};
    for i := 0 to |unique|
      invariant forall e :: e in inserted <==> e in unique[..i] && e !in stored
      invariant forall e :: e in rows <==> e in stored || e in unique[..i]
      invariant forall e :: e in stored ==> rows[e] == stored[e]
      invariant forall e :: e in unique[..i] && e !in stored ==> rows[e] == RowAfter(None, claims[e], c)
    {
      var e := unique[i];
      assert unique[..i + 1] == unique[..i] + [e];
      assert e in unique;
      if e !in rows {
        rows := rows[e := Row(Processing, 1, Some(c.now), Some(claims[e]))];
        inserted := inserted + {e};
      }
    }
    assert unique[..|unique|] == unique;
  }

  lemma CompleteMeansSequenced(s: Store, claims: Tokens, c: Call, claimed: set<EventId>)
    requires forall e :: e in claimed <==> e in claims && Accepts(s, claims, c, e)
    ensures claimed <= StoreAfter(s, claims, c).sequence.Keys <==> Sequenced(s, claims, c)
  {
    hide Accepts, StoreAfter;
  }

  method NumberRows(stored: map<EventId, Row>, sequence: map<EventId, nat>, unique: seq<EventId>, inserted: set<EventId>, numbers: seq<nat>)
    returns (numbered: map<EventId, nat>)
    requires forall e :: e in inserted <==> e in unique && e !in stored
    ensures numbered == Number(sequence, NewIds(stored, unique), numbers)
  {
    hide NewIds, Number;
    EmptyBatch(stored, sequence, numbers);
    numbered := sequence;
    var drawn := 0;
    for i := 0 to |unique|
      invariant drawn == |NewIds(stored, unique[..i])|
      invariant numbered == Number(sequence, NewIds(stored, unique[..i]), numbers)
    {
      assert unique[i] in unique;
      ghost var ids := NewIds(stored, unique[..i]);
      NextId(stored, unique, i);
      NumberNext(sequence, ids, unique[i], numbers);
      if unique[i] in inserted {
        numbered := numbered[unique[i] := NumberAt(numbers, drawn)];
        drawn := drawn + 1;
      } else {
        assert ids + [] == ids;
      }
    }
    assert unique[..|unique|] == unique;
  }

  lemma EmptyBatch(stored: map<EventId, Row>, sequence: map<EventId, nat>, numbers: seq<nat>)
    ensures NewIds(stored, []) == [] && Number(sequence, [], numbers) == sequence
  {
  }

  lemma NextId(stored: map<EventId, Row>, unique: seq<EventId>, i: nat)
    requires i < |unique|
    ensures NewIds(stored, unique[..i + 1])
            == NewIds(stored, unique[..i]) + if unique[i] in stored then [] else [unique[i]]
  {
    assert unique[..i + 1][..i] == unique[..i];
  }

  lemma NumberNext(sequence: map<EventId, nat>, ids: seq<EventId>, e: EventId, numbers: seq<nat>)
    ensures Number(sequence, ids + [e], numbers) == Number(sequence, ids, numbers)[e := NumberAt(numbers, |ids|)]
  {
    assert (ids + [e])[..|ids|] == ids;
  }

  method ListResults(ghost s: Store, claims: Tokens, c: Call, claimed: set<EventId>, sequence: map<EventId, nat>)
    returns (results: seq<RecordResult>)
    requires forall e :: e in c.events ==> e in claims
    requires forall e :: e in claims ==> (e in claimed <==> Accepts(s, claims, c, e))
    requires sequence == StoreAfter(s, claims, c).sequence
    ensures results == Results(s, claims, c)
  {
    hide Accepts, StoreAfter;
    results := [];
    var emitted: set<EventId> := {};
    for i := 0 to |c.events|
      invariant |results| == i && emitted == (set e | e in c.events[..i])
      invariant forall j :: 0 <= j < i ==> results[j] == ResultAt(s, claims, c, j)
    {
      var e := c.events[i];
      var accepted := e !in emitted && e in claimed;
      results := results + [RecordResult(accepted, e, if accepted && e in sequence then sequence[e] else 0)];
      emitted := emitted + {e};
      assert c.events[..i + 1] == c.events[..i] + [e];
    }
  }
}
