/** Durable event claims. Several processes share one table of claims; each also keeps, in
    memory, the token of every claim it believes it owns. Transactions are atomic, a raise
    inside one rolls it back, and only the commit itself can have an unknown outcome. */
module EventClaims {
  import opened Options

  type EventId = string
  type Token = nat
  type Tokens = map<EventId, Token>

  const MAX_EVENT_BATCH_SIZE := 1024
  /** Two minutes, in microseconds. */
  const STALE_AFTER := 120_000_000

  datatype Status = Processing | Processed | Failed

  datatype Row = Row(status: Status, attempts: nat, lastAttempt: Option<int>, token: Option<Token>)

  /** The claim table and, for every stored raw event, its ingest sequence. */
  datatype Store = Store(rows: map<EventId, Row>, sequence: map<EventId, nat>)

  /** One `record_events` call. `mint` holds the identifiers drawn for events without a
      remembered token and `numbers` the ingest sequence numbers the call draws, in order. */
  datatype Call = Call(events: seq<EventId>, mint: Tokens, now: int, reclaim: bool, resumeOwned: bool,
                       numbers: seq<nat>)

  datatype RecordResult = RecordResult(accepted: bool, eventId: EventId, sequence: nat)

  datatype Reply = Returned(results: seq<RecordResult>) | Raised

  /** How the environment lets a transaction end. */
  datatype Fate =
    | Committed
    | CommitUnknown(landed: bool)
    | BodyFailed(reconciled: bool)

  // ---------------------------------------------------------------------------
  // One row.

  datatype Decision = Insert | Resume | Take | Keep

  predicate Stale(row: Row, now: int) {
    row.lastAttempt.None? || now - row.lastAttempt.value >= STALE_AFTER
  }

  predicate OwnedBy(row: Row, token: Token) {
    row.status == Processing && row.token == Some(token)
  }

  function Decide(row: Option<Row>, token: Token, c: Call): Decision {
    if row.None? then Insert
    else if c.resumeOwned && OwnedBy(row.value, token) then Resume
    else if row.value.status == Processed
            || (row.value.status == Processing && !Stale(row.value, c.now) && !c.reclaim) then Keep
    else Take
  }

  function RowAfter(row: Option<Row>, token: Token, c: Call): (r: Row)
  {
    match Decide(row, token, c)
    case Insert => Row(Processing, 1, Some(c.now), Some(token))
    case Take => Row(Processing, row.value.attempts + 1, Some(c.now), Some(token))
    case Resume => row.value
    case Keep => row.value
  }

  // ---------------------------------------------------------------------------
  // One call.

  predicate Drawn(memory: Tokens, c: Call) {
    forall e :: e in c.events ==> e in memory || e in c.mint
  }

  function ClaimTokens(memory: Tokens, c: Call): Tokens
    requires Drawn(memory, c)
  {
    map e | e in c.events :: if e in memory then memory[e] else c.mint[e]
  }

  predicate Accepts(s: Store, toks: Tokens, c: Call, e: EventId)
    requires e in toks
  {
    Decide(Get(s.rows, e), toks[e], c) != Keep
  }

  function RowsAfter(s: Store, toks: Tokens, c: Call): map<EventId, Row> {
    map e | e in s.rows.Keys + toks.Keys ::
      if e in toks then RowAfter(Get(s.rows, e), toks[e], c) else s.rows[e]
  }

  /** First occurrences, in order. */
  function Unique(events: seq<EventId>): seq<EventId> {
    if events == [] then []
    else
      var front, last := events[..|events| - 1], events[|events| - 1];
      if last in front then Unique(front) else Unique(front) + [last]
  }

  /** The ids of `ids` the claim table does not hold yet, in order. */
  function NewIds(rows: map<EventId, Row>, ids: seq<EventId>): seq<EventId> {
    if ids == [] then []
    else
      var front, last := ids[..|ids| - 1], ids[|ids| - 1];
      if last in rows then NewIds(rows, front) else NewIds(rows, front) + [last]
  }

  /** The number drawn for the new row `i` of a call. */
  function NumberAt(numbers: seq<nat>, i: nat): nat {
    if i < |numbers| then numbers[i] else 0
  }

  function Number(sequence: map<EventId, nat>, ids: seq<EventId>, numbers: seq<nat>): map<EventId, nat> {
    if ids == [] then sequence
    else Number(sequence, ids[..|ids| - 1], numbers)[ids[|ids| - 1] := NumberAt(numbers, |ids| - 1)]
  }

  function StoreAfter(s: Store, toks: Tokens, c: Call): Store {
    Store(RowsAfter(s, toks, c), Number(s.sequence, NewIds(s.rows, Unique(c.events)), c.numbers))
  }

  /** Every accepted event has an ingest sequence; otherwise the body raises. */
  predicate Sequenced(s: Store, toks: Tokens, c: Call) {
    forall e :: e in toks && Accepts(s, toks, c, e) ==> e in StoreAfter(s, toks, c).sequence
  }

  /** The token map once a call has returned. */
  function TokensAfter(memory: Tokens, s: Store, toks: Tokens, c: Call): Tokens {
    map e | e in memory.Keys + toks.Keys
            && (e in toks ==> Accepts(s, toks, c, e) || OwnedBy(s.rows[e], toks[e])) ::
      if e in toks then toks[e] else memory[e]
  }

  /** `_reconcile_event_claim_tokens`: forget the tokens the table does not confirm. */
  function Reconcile(memory: Tokens, s: Store, toks: Tokens): Tokens {
    map e | e in memory
            && !(e in toks && memory[e] == toks[e] && !(e in s.rows && OwnedBy(s.rows[e], toks[e]))) ::
      memory[e]
  }

  function ResultAt(s: Store, toks: Tokens, c: Call, i: nat): RecordResult
    requires i < |c.events| && c.events[i] in toks
  {
    var e := c.events[i];
    var accepted := e !in c.events[..i] && Accepts(s, toks, c, e);
    var after := StoreAfter(s, toks, c).sequence;
    RecordResult(accepted, e, if accepted && e in after then after[e] else 0)
  }

  function Results(s: Store, toks: Tokens, c: Call): seq<RecordResult>
    requires forall e :: e in c.events ==> e in toks
  {
    seq(|c.events|, i requires 0 <= i < |c.events| => ResultAt(s, toks, c, i))
  }

  datatype Effect = Effect(store: Store, memory: Tokens, reply: Reply)

  /** The whole effect of `record_events` under a given transaction outcome. */
  function Record(s: Store, memory: Tokens, c: Call, fate: Fate): Effect
    requires Drawn(memory, c)
  {
    if c.events == [] then Effect(s, memory, Returned([]))
    else if |c.events| > MAX_EVENT_BATCH_SIZE then Effect(s, memory, Raised)
    else
      var toks := ClaimTokens(memory, c);
      if fate.BodyFailed? || !Sequenced(s, toks, c) then
        var unconfirmed := fate.BodyFailed? && !fate.reconciled;
        Effect(s, if unconfirmed then memory + toks else Reconcile(memory + toks, s, toks), Raised)
      else if fate.CommitUnknown? then
        Effect(if fate.landed then StoreAfter(s, toks, c) else s, memory + toks, Raised)
      else
        Effect(StoreAfter(s, toks, c), TokensAfter(memory, s, toks, c), Returned(Results(s, toks, c)))
  }

  /** `mark_events_processed` and `mark_events_failed` on a set of captured claims: all rows
      must still be owned under the captured tokens, or nothing is written. */
  predicate AllOwned(s: Store, claims: Tokens) {
    forall e :: e in claims ==> e in s.rows && OwnedBy(s.rows[e], claims[e])
  }

  function Finish(s: Store, claims: Tokens, status: Status, at: int): Store
    requires AllOwned(s, claims)
  {
    s.(rows := map e | e in s.rows ::
      if e in claims then Ended(s.rows[e], status, at) else s.rows[e])
  }

  function Ended(row: Row, status: Status, at: int): Row {
    row.(status := status, lastAttempt := Some(at), token := None)
  }
}
