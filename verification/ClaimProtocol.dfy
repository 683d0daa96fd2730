/** The claim protocol over every process: claims, stale take-overs, completions, failures,
    ambiguous commits and crashes, in any interleaving. */
module ClaimProtocol {
  import opened Options
  import opened EventClaims

  type ProcessId = nat

  /** What a process keeps in memory: its token map and the completions staged in its open
      state batch. */
  datatype Local = Local(tokens: Tokens, staged: Tokens)

  datatype Owner = Owner(process: ProcessId, event: EventId)

  /** `issued` remembers to whom each token identifier was handed out. */
  datatype World = World(store: Store, local: map<ProcessId, Local>, issued: map<Token, Owner>)

  datatype Action =
    | Claim(who: ProcessId, call: Call, fate: Fate)
    | Stage(who: ProcessId, event: EventId)
    | FlushBatch(who: ProcessId, at: int, fate: Fate)
    | MarkProcessed(who: ProcessId, events: set<EventId>, at: int, fate: Fate)
    | MarkFailed(who: ProcessId, events: set<EventId>, at: int, fate: Fate)
    | Release(who: ProcessId, event: EventId)
    | Crash(who: ProcessId)

  predicate Lands(fate: Fate) {
    fate.Committed? || (fate.CommitUnknown? && fate.landed)
  }

  /** Identifiers drawn for new tokens have never been handed out before, and the sequence
      numbers handed out are unused. */
  ghost predicate FreshDraw(w: World, who: ProcessId, c: Call) {
    who in w.local && Drawn(w.local[who].tokens, c)
    && (forall e :: e in c.mint ==> c.mint[e] !in w.issued)
    && Injective(c.mint)
    && Unused(w.store.sequence, c)
  }

  ghost predicate Injective(toks: Tokens) {
    forall e, f :: e in toks && f in toks && toks[e] == toks[f] ==> e == f
  }

  ghost function Issue(issued: map<Token, Owner>, who: ProcessId, mint: Tokens): map<Token, Owner>
    requires Injective(mint)
  {
    issued + map e | e in mint :: mint[e] := Owner(who, e)
  }

  /** The claims `who` would present for `events`. */
  function Presented(w: World, who: ProcessId, events: set<EventId>): Tokens
    requires who in w.local
  {
    map e | e in events && e in w.local[who].tokens :: w.local[who].tokens[e]
  }

  ghost function Finished(w: World, claims: Tokens, status: Status, at: int, fate: Fate): Store {
    if Lands(fate) && AllOwned(w.store, claims) then Finish(w.store, claims, status, at) else w.store
  }

  ghost predicate Step(w: World, a: Action, w': World) {
    a.who in w.local &&
    var me := w.local[a.who];
    match a
    case Claim(who, c, fate) =>
      FreshDraw(w, who, c)
      && var done := Record(w.store, me.tokens, c, fate);
      w' == World(done.store, w.local[who := me.(tokens := done.memory)], Issue(w.issued, who, c.mint))
    case Stage(who, e) =>
      e in me.tokens && (e in me.staged ==> me.staged[e] == me.tokens[e])
      && w' == w.(local := w.local[who := me.(staged := me.staged[e := me.tokens[e]])])
    case FlushBatch(who, at, fate) =>
      w' == w.(store := Finished(w, me.staged, Processed, at, fate), local := w.local[who := me.(staged := map[])])
    case MarkProcessed(who, events, at, fate) =>
      MarkStep(w, who, events, Processed, at, fate, w')
    case MarkFailed(who, events, at, fate) =>
      MarkStep(w, who, events, Failed, at, fate, w')
    case Release(who, e) =>
      w' == w.(local := w.local[who := me.(tokens := me.tokens - {e})])
    case Crash(who) =>
      w' == w.(local := w.local[who := Local(map[], map[])])
  }

  /** Marking needs a token for every event; a returned call forgets the tokens it used. */
  ghost predicate MarkStep(w: World, who: ProcessId, events: set<EventId>, status: Status, at: int, fate: Fate, w': World)
    requires who in w.local
  {
    var me := w.local[who];
    var claims := Presented(w, who, events);
    events <= me.tokens.Keys
    && w' == w.(store := Finished(w, claims, status, at, fate),
                local := if fate.Committed? && AllOwned(w.store, claims)
                         then w.local[who := me.(tokens := me.tokens - events)] else w.local)
  }

  // ---------------------------------------------------------------------------
  // The invariant.

  ghost predicate Inv(w: World) {
    RowsInv(w) && LocalsInv(w) && SequenceInv(w.store)
  }

  ghost predicate RowsInv(w: World) {
    forall e {:trigger w.store.rows[e]} :: e in w.store.rows ==> RowInv(w.store.rows[e], w.issued, e)
  }

  ghost predicate RowInv(row: Row, issued: map<Token, Owner>, e: EventId) {
    (row.token.Some? <==> row.status == Processing)
    && row.attempts >= 1
    && (row.token.Some? ==> row.token.value in issued && issued[row.token.value].event == e)
  }

  ghost predicate LocalsInv(w: World) {
    forall p {:trigger w.local[p]} :: p in w.local ==>
      Belongs(w.local[p].tokens, w.issued, p) && Belongs(w.local[p].staged, w.issued, p)
  }

  ghost predicate Belongs(toks: Tokens, issued: map<Token, Owner>, p: ProcessId) {
    forall e {:trigger toks[e]} :: e in toks ==> toks[e] in issued && issued[toks[e]] == Owner(p, e)
  }

  /** One raw row per claimed event, each with its own sequence number. */
  ghost predicate SequenceInv(s: Store) {
    s.rows.Keys == s.sequence.Keys && Distinct(s.sequence)
  }

  ghost predicate Distinct(sequence: map<EventId, nat>) {
    forall e, f :: e in sequence && f in sequence && sequence[e] == sequence[f] ==> e == f
  }

  ghost predicate Init(w: World) {
    w.store == Store(map[], map[]) && w.issued == map[]
    && forall p :: p in w.local ==> w.local[p] == Local(map[], map[])
  }

  // ---------------------------------------------------------------------------
  // Numbering.

  lemma {:induction false} UniqueIsDistinct(events: seq<EventId>)
    ensures |Unique(events)| <= |events|
    ensures forall e :: e in Unique(events) <==> e in events
    ensures forall i, j :: 0 <= i < j < |Unique(events)| ==> Unique(events)[i] != Unique(events)[j]
  {
    if events != [] {
      var front := events[..|events| - 1];
      UniqueIsDistinct(front);
      assert events == front + [events[|events| - 1]];
    }
  }

  lemma {:induction false} NewIdsAreNew(rows: map<EventId, Row>, ids: seq<EventId>)
    requires forall i, j :: 0 <= i < j < |ids| ==> ids[i] != ids[j]
    ensures |NewIds(rows, ids)| <= |ids|
    ensures forall e :: e in NewIds(rows, ids) <==> e in ids && e !in rows
    ensures forall i, j :: 0 <= i < j < |NewIds(rows, ids)| ==> NewIds(rows, ids)[i] != NewIds(rows, ids)[j]
  {
    if ids != [] {
      var front := ids[..|ids| - 1];
      NewIdsAreNew(rows, front);
      assert ids == front + [ids[|ids| - 1]];
    }
  }

  lemma {:induction false} NumberGives(sequence: map<EventId, nat>, ids: seq<EventId>, numbers: seq<nat>)
    requires forall i, j :: 0 <= i < j < |ids| ==> ids[i] != ids[j]
    ensures forall e :: e in Number(sequence, ids, numbers) <==> e in sequence || e in ids
    ensures forall e :: e in sequence && e !in ids ==> Number(sequence, ids, numbers)[e] == sequence[e]
    ensures forall i :: 0 <= i < |ids| ==> ids[i] in ids && Number(sequence, ids, numbers)[ids[i]] == NumberAt(numbers, i)
  {
    hide NumberAt, Number;
    NumberUnfolds(sequence, ids, numbers);
    if ids != [] {
      var front, last := ids[..|ids| - 1], ids[|ids| - 1];
      NumberGives(sequence, front, numbers);
      assert forall e :: e in ids <==> e in front || e == last;
      assert last !in front;
      forall i | 0 <= i < |ids| ensures ids[i] in ids && Number(sequence, ids, numbers)[ids[i]] == NumberAt(numbers, i) {
        if i < |front| { assert front[i] == ids[i]; }
      }
    }
  }

  lemma NumberUnfolds(sequence: map<EventId, nat>, ids: seq<EventId>, numbers: seq<nat>)
    ensures Number(sequence, ids, numbers)
            == if ids == [] then sequence
               else Number(sequence, ids[..|ids| - 1], numbers)[ids[|ids| - 1] := NumberAt(numbers, |ids| - 1)]
  {
  }

  lemma NumberingExtends(sequence: map<EventId, nat>, ids: seq<EventId>, c: Call)
    requires forall i, j :: 0 <= i < j < |ids| ==> ids[i] != ids[j]
    requires (forall e :: e in ids ==> e !in sequence) && |ids| <= |c.events|
    requires Distinct(sequence) && Unused(sequence, c)
    ensures Distinct(Number(sequence, ids, c.numbers)) && Extends(sequence, Number(sequence, ids, c.numbers), c)
  {
    hide Number;
    NumberGives(sequence, ids, c.numbers);
    var n := Number(sequence, ids, c.numbers);
    forall e | e in n && e !in sequence ensures n[e] in c.numbers {
      var i := IndexIn(ids, e);
    }
    forall e, f | e in n && f in n && n[e] == n[f] ensures e == f {
      if e in ids && f in ids {
        var i := IndexIn(ids, e);
        var j := IndexIn(ids, f);
        DrawnOnce(sequence, c, i, j);
      }
    }
  }

  lemma IndexIn(ids: seq<EventId>, e: EventId) returns (i: nat)
    requires e in ids
    ensures i < |ids| && ids[i] == e
  {
    i :| i < |ids| && ids[i] == e;
  }

  lemma DrawnOnce(sequence: map<EventId, nat>, c: Call, i: nat, j: nat)
    requires Unused(sequence, c) && i < |c.events| && j < |c.events|
    requires NumberAt(c.numbers, i) == NumberAt(c.numbers, j)
    ensures i == j
  {
    assert forall a, b :: 0 <= a < b < |c.numbers| ==> c.numbers[a] != c.numbers[b];
  }

  lemma ClaimKeepsSequences(s: Store, toks: Tokens, c: Call)
    requires SequenceInv(s) && toks.Keys == (set e | e in c.events)
    requires Unused(s.sequence, c)
    ensures SequenceInv(StoreAfter(s, toks, c)) && Sequenced(s, toks, c)
    ensures Extends(s.sequence, StoreAfter(s, toks, c).sequence, c)
  {
    hide Unique, NewIds, Number, RowAfter, Decide, Unused, Extends, Distinct;
    UniqueIsDistinct(c.events);
    NewIdsAreNew(s.rows, Unique(c.events));
    var ids := NewIds(s.rows, Unique(c.events));
    NumberGives(s.sequence, ids, c.numbers);
    NumberingExtends(s.sequence, ids, c);
    var s' := StoreAfter(s, toks, c);
    assert s'.rows.Keys == s.rows.Keys + toks.Keys;
    assert s'.rows.Keys == s'.sequence.Keys;
  }

  /** The numbers a call draws are increasing and not in use, whatever other calls drew in
      between, and there is one for each of its events. */
  ghost predicate Unused(sequence: map<EventId, nat>, c: Call) {
    |c.events| <= |c.numbers|
    && (forall i, j :: 0 <= i < j < |c.numbers| ==> c.numbers[i] < c.numbers[j])
    && (forall e :: e in sequence ==> sequence[e] !in c.numbers)
  }

  /** Stored numbers stay; new ones are among the call's own. */
  ghost predicate Extends(old': map<EventId, nat>, new': map<EventId, nat>, c: Call) {
    (forall e :: e in old' ==> e in new' && new'[e] == old'[e])
    && (forall e :: e in new' && e !in old' ==> new'[e] in c.numbers)
  }

  // ---------------------------------------------------------------------------
  // Every step keeps the invariant.

  lemma StepKeepsInv(w: World, a: Action, w': World)
    requires Inv(w) && Step(w, a, w')
    ensures Inv(w')
  {
    match a
    case Claim(who, c, fate) => ClaimKeepsInv(w, who, c, fate, w');
    case FlushBatch(who, at, fate) => FlushKeepsInv(w, who, at, fate, w');
    case MarkProcessed(who, events, at, fate) => MarkKeepsInv(w, who, events, Processed, at, fate, w');
    case MarkFailed(who, events, at, fate) => MarkKeepsInv(w, who, events, Failed, at, fate, w');
    case _ => LocalStepKeepsInv(w, a, w');
  }

  /** Staging, releasing and crashing touch only the memory of one process. */
  lemma LocalStepKeepsInv(w: World, a: Action, w': World)
    requires Inv(w) && Step(w, a, w') && (a.Stage? || a.Release? || a.Crash?)
    ensures Inv(w')
  {
    hide RowInv, SequenceInv, Record;
  }

  lemma FlushKeepsInv(w: World, who: ProcessId, at: int, fate: Fate, w': World)
    requires Inv(w) && Step(w, FlushBatch(who, at, fate), w')
    ensures Inv(w')
  {
    hide Record;
    forall e | e in w'.store.rows ensures RowInv(w'.store.rows[e], w'.issued, e) {
      assert RowInv(w.store.rows[e], w.issued, e);
    }
  }

  lemma MarkKeepsInv(w: World, who: ProcessId, events: set<EventId>, status: Status, at: int, fate: Fate, w': World)
    requires Inv(w) && who in w.local && status != Processing && MarkStep(w, who, events, status, at, fate, w')
    ensures Inv(w')
  {
    forall e | e in w'.store.rows ensures RowInv(w'.store.rows[e], w'.issued, e) {
      assert RowInv(w.store.rows[e], w.issued, e);
    }
  }

  /** What a claim may make of one row, as seen through the tokens of the calling process. */
  ghost predicate ClaimedRow(row: Option<Row>, row': Row, token: Token, c: Call) {
    Some(row') == row
    || (row'.status == Processing && row'.token == Some(token) && row'.lastAttempt == Some(c.now)
        && (row.None? ==> row'.attempts == 1)
        && (row.Some? ==> row.value.status != Processed && row'.attempts == row.value.attempts + 1
                          && (row.value.status == Processing && !c.reclaim && row.value.lastAttempt.Some? ==>
                                c.now >= row.value.lastAttempt.value + 120_000_000)))
  }

  ghost predicate ClaimedRows(rows: map<EventId, Row>, rows': map<EventId, Row>, toks: Tokens, c: Call) {
    rows.Keys <= rows'.Keys <= rows.Keys + toks.Keys
    && (forall e :: e in rows' && e !in toks ==> rows'[e] == rows[e])
    && (forall e :: e in rows' && e in toks ==> ClaimedRow(Get(rows, e), rows'[e], toks[e], c))
  }

  lemma RowsAfterAreClaimed(s: Store, toks: Tokens, c: Call)
    ensures ClaimedRows(s.rows, RowsAfter(s, toks, c), toks, c)
    ensures ClaimedRows(s.rows, s.rows, toks, c)
  {
  }

  /** A call writes nothing or everything it decided, and keeps only tokens it had or drew. */
  lemma RecordShape(s: Store, memory: Tokens, c: Call, fate: Fate)
    requires Drawn(memory, c)
    ensures var done, toks := Record(s, memory, c, fate), ClaimTokens(memory, c);
            done.store in {s, StoreAfter(s, toks, c)}
            && forall e :: e in done.memory ==> Get(memory + toks, e) == Some(done.memory[e])
  {
    hide StoreAfter, Accepts, Results, Sequenced;
  }

  lemma ClaimWrites(s: Store, memory: Tokens, c: Call, fate: Fate)
    requires Drawn(memory, c) && SequenceInv(s) && Unused(s.sequence, c)
    ensures var done, toks := Record(s, memory, c, fate), ClaimTokens(memory, c);
            ClaimedRows(s.rows, done.store.rows, toks, c)
            && SequenceInv(done.store) && Extends(s.sequence, done.store.sequence, c)
  {
    hide Record, RowsAfter, Number, NewIds, Unique, SequenceInv, Extends, Unused, ClaimedRows;
    var toks := ClaimTokens(memory, c);
    RecordShape(s, memory, c, fate);
    RowsAfterAreClaimed(s, toks, c);
    ClaimKeepsSequences(s, toks, c);
    NothingExtends(s.sequence, c);
  }

  lemma NothingExtends(sequence: map<EventId, nat>, c: Call)
    ensures Extends(sequence, sequence, c)
  {
  }

  lemma DrawBelongs(w: World, who: ProcessId, c: Call)
    requires LocalsInv(w) && FreshDraw(w, who, c)
    ensures Belongs(w.local[who].tokens + ClaimTokens(w.local[who].tokens, c), Issue(w.issued, who, c.mint), who)
    ensures Belongs(ClaimTokens(w.local[who].tokens, c), Issue(w.issued, who, c.mint), who)
  {
    hide Issue;
    IssueExtends(w, who, c);
    assert Belongs(w.local[who].tokens, w.issued, who);
  }

  lemma ClaimKeepsRows(w: World, rows': map<EventId, Row>, issued': map<Token, Owner>, toks: Tokens, c: Call, who: ProcessId)
    requires RowsInv(w) && ClaimedRows(w.store.rows, rows', toks, c) && Belongs(toks, issued', who)
    requires forall t :: t in w.issued ==> t in issued' && issued'[t] == w.issued[t]
    ensures forall e :: e in rows' ==> RowInv(rows'[e], issued', e)
  {
    hide Stale;
    forall e | e in rows' ensures RowInv(rows'[e], issued', e) {
      if e in w.store.rows {
        assert RowInv(w.store.rows[e], w.issued, e);
      }
    }
  }

  lemma ClaimKeepsInv(w: World, who: ProcessId, c: Call, fate: Fate, w': World)
    requires Inv(w) && Step(w, Claim(who, c, fate), w')
    ensures Inv(w')
  {
    hide Record, SequenceInv, Extends, Unused, ClaimedRows, ClaimTokens, Issue, RowInv;
    var me := w.local[who];
    var toks := ClaimTokens(me.tokens, c);
    IssueExtends(w, who, c);
    DrawBelongs(w, who, c);
    RecordShape(w.store, me.tokens, c, fate);
    ClaimWrites(w.store, me.tokens, c, fate);
    ClaimKeepsRows(w, w'.store.rows, w'.issued, toks, c, who);
    forall p | p in w'.local
      ensures Belongs(w'.local[p].tokens, w'.issued, p) && Belongs(w'.local[p].staged, w'.issued, p)
    {
      assert Belongs(w.local[p].tokens, w.issued, p) && Belongs(w.local[p].staged, w.issued, p);
    }
  }

  lemma IssueExtends(w: World, who: ProcessId, c: Call)
    requires FreshDraw(w, who, c)
    ensures forall t :: t in w.issued ==> t in Issue(w.issued, who, c.mint) && Issue(w.issued, who, c.mint)[t] == w.issued[t]
    ensures Belongs(c.mint, Issue(w.issued, who, c.mint), who)
  {
  }

  // ---------------------------------------------------------------------------
  // Fencing.

  /** The process holds, for `e`, the token that the table currently stores. */
  ghost predicate HoldsClaim(w: World, p: ProcessId, e: EventId) {
    p in w.local && e in w.store.rows && w.store.rows[e].status == Processing
    && var t := w.store.rows[e].token;
    (Get(w.local[p].tokens, e) == t || Get(w.local[p].staged, e) == t)
  }

  /** At most one process can complete or fail an event. */
  lemma OneHolder(w: World, p: ProcessId, q: ProcessId, e: EventId)
    requires Inv(w) && HoldsClaim(w, p, e) && HoldsClaim(w, q, e)
    ensures p == q
  {
    assert RowInv(w.store.rows[e], w.issued, e);
    var t := w.store.rows[e].token.value;
    assert w.issued[t] == Owner(p, e) by {
      if e in w.local[p].tokens && w.local[p].tokens[e] == t {
        assert Belongs(w.local[p].tokens, w.issued, p);
      } else {
        assert Belongs(w.local[p].staged, w.issued, p);
      }
    }
    assert w.issued[t] == Owner(q, e) by {
      if e in w.local[q].tokens && w.local[q].tokens[e] == t {
        assert Belongs(w.local[q].tokens, w.issued, q);
      } else {
        assert Belongs(w.local[q].staged, w.issued, q);
      }
    }
  }

  /** A row that leaves PROCESSING was finished by the one process that held its current
      token, in the way that process reported; a row whose token changes hands was stale or
      reclaimed, and the take-over counts one more attempt. */
  ghost predicate FencedChange(w: World, a: Action, row: Row, row': Row, e: EventId) {
    row' == row
    || (row.status == Processing && HoldsClaim(w, a.who, e)
        && ((a.FlushBatch? && row' == Row(Processed, row.attempts, Some(a.at), None))
            || (a.MarkProcessed? && row' == Row(Processed, row.attempts, Some(a.at), None))
            || (a.MarkFailed? && row' == Row(Failed, row.attempts, Some(a.at), None))))
    || (a.Claim? && row.status != Processed && row'.token.Some?
        && row' == Row(Processing, row.attempts + 1, Some(a.call.now), row'.token)
        && (row.status == Processing && !a.call.reclaim && row.lastAttempt.Some? ==>
              a.call.now >= row.lastAttempt.value + 120_000_000))
  }

  lemma RowChangeIsFenced(w: World, a: Action, w': World, e: EventId)
    requires Inv(w) && Step(w, a, w') && e in w.store.rows
    ensures e in w'.store.rows && FencedChange(w, a, w.store.rows[e], w'.store.rows[e], e)
  {
    hide Record, SequenceInv, Extends, Unused, LocalsInv, Issue;
    assert RowInv(w.store.rows[e], w.issued, e);
    if a.Claim? {
      ClaimWrites(w.store, w.local[a.who].tokens, a.call, a.fate);
    }
  }

  /** A row that appears was inserted by a claim of the acting process. */
  lemma NewRowIsClaimed(w: World, a: Action, w': World, e: EventId)
    requires Inv(w) && Step(w, a, w') && e !in w.store.rows && e in w'.store.rows
    ensures a.Claim? && w'.store.rows[e].status == Processing && w'.store.rows[e].attempts == 1
  {
    hide Record, SequenceInv, Extends, Unused;
    if a.Claim? {
      ClaimWrites(w.store, w.local[a.who].tokens, a.call, a.fate);
    }
  }

  /** A batch completes all of its events or none: all of them exactly when every row is still
      PROCESSING under the staged token and the commit lands. */
  lemma BatchCompletesIff(w: World, who: ProcessId, at: int, fate: Fate, w': World)
    requires Step(w, FlushBatch(who, at, fate), w')
    ensures var staged, rows, rows' := w.local[who].staged, w.store.rows, w'.store.rows;
            var held := forall e :: e in staged ==>
                          e in rows && rows[e].status == Processing && rows[e].token == Some(staged[e]);
            w'.local[who].staged == map[] && w'.local[who].tokens == w.local[who].tokens
            && w'.store.sequence == w.store.sequence
            && if held && (fate == Committed || fate == CommitUnknown(true)) then
                 rows'.Keys == rows.Keys
                 && (forall e :: e in staged ==> rows'[e] == Row(Processed, rows[e].attempts, Some(at), None))
                 && (forall e :: e in rows && e !in staged ==> rows'[e] == rows[e])
               else rows' == rows
  {
  }

  /** Marking completes, or fails, all of the named events or none, in the same way; a call that is
      told of its success forgets their tokens. */
  lemma MarkRule(w: World, a: Action, w': World)
    requires Step(w, a, w') && (a.MarkProcessed? || a.MarkFailed?)
    ensures var tokens, rows, rows' := w.local[a.who].tokens, w.store.rows, w'.store.rows;
            var held := forall e :: e in a.events ==>
                          e in tokens && e in rows && rows[e].status == Processing && rows[e].token == Some(tokens[e]);
            a.events <= tokens.Keys && w'.store.sequence == w.store.sequence && w'.issued == w.issued
            && (if held && (a.fate == Committed || a.fate == CommitUnknown(true)) then
                  rows'.Keys == rows.Keys
                  && (forall e :: e in a.events ==>
                        rows'[e] == Row(if a.MarkFailed? then Failed else Processed, rows[e].attempts, Some(a.at), None))
                  && (forall e :: e in rows && e !in a.events ==> rows'[e] == rows[e])
                else rows' == rows)
            && w'.local == (if held && a.fate == Committed
                            then w.local[a.who := w.local[a.who].(tokens := tokens - a.events)] else w.local)
  {
    var tokens, claims := w.local[a.who].tokens, Presented(w, a.who, a.events);
    assert claims.Keys == a.events;
    assert AllOwned(w.store, claims) <==> forall e :: e in a.events ==>
      e in tokens && e in w.store.rows && w.store.rows[e].status == Processing && w.store.rows[e].token == Some(tokens[e])
    by {
      assert forall e :: e in claims ==> claims[e] == tokens[e];
    }
  }

  /** Nothing but a used token or number keeps a process from making any call. */
  lemma ClaimIsPossible(w: World, who: ProcessId, c: Call, fate: Fate) returns (w': World)
    requires who in w.local && Inv(w)
    requires forall e :: e in c.events ==> e in c.mint
    requires forall e :: e in c.mint ==> c.mint[e] !in w.issued
    requires forall e, f :: e in c.mint && f in c.mint && e != f ==> c.mint[e] != c.mint[f]
    requires |c.numbers| >= |c.events| && forall i, j :: 0 <= i < j < |c.numbers| ==> c.numbers[i] < c.numbers[j]
    requires forall e :: e in w.store.sequence ==> w.store.sequence[e] !in c.numbers
    ensures Step(w, Claim(who, c, fate), w')
  {
    hide Record, Inv;
    var me := w.local[who];
    assert FreshDraw(w, who, c);
    var done := Record(w.store, me.tokens, c, fate);
    w' := World(done.store, w.local[who := me.(tokens := done.memory)], Issue(w.issued, who, c.mint));
  }

  /** A batch holding one superseded claim completes none of its events. */
  lemma SupersededBatchWritesNothing(w: World, who: ProcessId, at: int, fate: Fate, w': World, e: EventId)
    requires Inv(w) && Step(w, FlushBatch(who, at, fate), w')
    requires e in w.local[who].staged
    requires exists q :: q != who && HoldsClaim(w, q, e)
    ensures w'.store == w.store
  {
    var q :| q != who && HoldsClaim(w, q, e);
    if AllOwned(w.store, w.local[who].staged) {
      assert HoldsClaim(w, who, e);
      OneHolder(w, who, q, e);
      assert false;
    }
  }

  // ---------------------------------------------------------------------------
  // Whole runs.

  ghost predicate IsRun(ws: seq<World>, acts: seq<Action>) {
    |ws| == |acts| + 1 && Init(ws[0])
    && forall i :: 0 <= i < |acts| ==> Step(ws[i], acts[i], ws[i + 1])
  }

  lemma {:induction false} RunKeepsInv(ws: seq<World>, acts: seq<Action>, k: nat)
    requires IsRun(ws, acts) && k < |ws|
    ensures Inv(ws[k])
  {
    hide Step;
    if k > 0 {
      RunKeepsInv(ws, acts, k - 1);
      StepKeepsInv(ws[k - 1], acts[k - 1], ws[k]);
    }
  }

  /** A PROCESSED row is never written again, over any run. */
  lemma {:induction false} ProcessedIsFinal(ws: seq<World>, acts: seq<Action>, i: nat, j: nat, e: EventId)
    requires IsRun(ws, acts) && i <= j < |ws|
    requires e in ws[i].store.rows && ws[i].store.rows[e].status == Processed
    ensures e in ws[j].store.rows && ws[j].store.rows[e] == ws[i].store.rows[e]
    decreases j
  {
    hide Step, Inv;
    if i < j {
      ProcessedIsFinal(ws, acts, i, j - 1, e);
      RunKeepsInv(ws, acts, j - 1);
      RowChangeIsFenced(ws[j - 1], acts[j - 1], ws[j], e);
    }
  }

  ghost predicate IsProcessed(w: World, e: EventId) {
    e in w.store.rows && w.store.rows[e].status == Processed
  }

  /** Each event enters PROCESSED at most once in a run, and does so in a step of the process
      holding its current claim. */
  lemma ProcessedOnceByItsHolder(ws: seq<World>, acts: seq<Action>, i: nat, j: nat, e: EventId)
    requires IsRun(ws, acts) && i < |acts| && j < |acts|
    requires !IsProcessed(ws[i], e) && IsProcessed(ws[i + 1], e)
    requires !IsProcessed(ws[j], e) && IsProcessed(ws[j + 1], e)
    ensures i == j && HoldsClaim(ws[i], acts[i].who, e)
    ensures forall q :: HoldsClaim(ws[i], q, e) ==> q == acts[i].who
  {
    hide Step, Inv, HoldsClaim;
    if i < j {
      ProcessedIsFinal(ws, acts, i + 1, j, e);
    }
    if j < i {
      ProcessedIsFinal(ws, acts, j + 1, i, e);
    }
    RunKeepsInv(ws, acts, i);
    if e in ws[i].store.rows {
      RowChangeIsFenced(ws[i], acts[i], ws[i + 1], e);
      forall q | HoldsClaim(ws[i], q, e) ensures q == acts[i].who {
        OneHolder(ws[i], q, acts[i].who, e);
      }
    } else {
      NewRowIsClaimed(ws[i], acts[i], ws[i + 1], e);
    }
  }

  lemma {:induction false} WhoClaimed(ws: seq<World>, acts: seq<Action>, j: nat, e: EventId) returns (i: nat)
    requires IsRun(ws, acts) && j < |ws| && e in ws[j].store.rows && ws[j].store.rows[e].status == Processing
    ensures i < j && acts[i].Claim? && e in ws[i + 1].store.rows && ws[i + 1].store.rows[e] == ws[j].store.rows[e]
    ensures Get(ws[i].store.rows, e) != Some(ws[j].store.rows[e])
    ensures ws[j].store.rows[e].lastAttempt == Some(acts[i].call.now)
    decreases j
  {
    hide Step, Inv, HoldsClaim;
    if j > 0 {
      RunKeepsInv(ws, acts, j - 1);
      assert Step(ws[j - 1], acts[j - 1], ws[j - 1 + 1]);
      if e in ws[j - 1].store.rows && ws[j - 1].store.rows[e] == ws[j].store.rows[e] {
        i := WhoClaimed(ws, acts, j - 1, e);
      } else {
        i := j - 1;
        ClaimStamps(ws[i], acts[i], ws[j], e);
      }
    }
  }

  /** The step that makes a row PROCESSING, or takes it over, is a claim and stamps its time. */
  lemma ClaimStamps(w: World, a: Action, w': World, e: EventId)
    requires Inv(w) && Step(w, a, w') && e in w'.store.rows && w'.store.rows[e].status == Processing
    requires Get(w.store.rows, e) != Some(w'.store.rows[e])
    ensures a.Claim? && w'.store.rows[e].lastAttempt == Some(a.call.now)
  {
    hide Record, SequenceInv, Extends, Unused, HoldsClaim;
    if e in w.store.rows { RowChangeIsFenced(w, a, w', e); } else { NewRowIsClaimed(w, a, w', e); }
    if a.Claim? {
      ClaimWrites(w.store, w.local[a.who].tokens, a.call, a.fate);
    }
  }

  /** Over every run, a claim that takes over a PROCESSING row without being told to reclaim comes
      at least two minutes after the claim that wrote the row. */
  lemma TakeOverWaits(ws: seq<World>, acts: seq<Action>, j: nat, e: EventId) returns (i: nat)
    requires IsRun(ws, acts) && j < |acts| && acts[j].Claim? && !acts[j].call.reclaim
    requires e in ws[j].store.rows && ws[j].store.rows[e].status == Processing
    requires e in ws[j + 1].store.rows && ws[j + 1].store.rows[e] != ws[j].store.rows[e]
    ensures i < j && acts[i].Claim? && e in ws[i + 1].store.rows && ws[i + 1].store.rows[e] == ws[j].store.rows[e]
    ensures acts[j].call.now >= acts[i].call.now + 120_000_000
  {
    hide Step, Inv, HoldsClaim;
    i := WhoClaimed(ws, acts, j, e);
    RunKeepsInv(ws, acts, j);
    assert Step(ws[j], acts[j], ws[j + 1]);
    RowChangeIsFenced(ws[j], acts[j], ws[j + 1], e);
  }
}
