/** The message outbox: leases, fencing tokens, bounded attempts, an uncertain state that only
    an operator resolves. Workers, operators and lease expiry interleave freely. */
module Outbox {
  import opened Options
  import opened Sums

  type MessageId = string
  type Token = nat

  const LEASE_SECONDS := 30
  const MAX_ATTEMPTS := 10

  datatype State = Pending | Sending | Delivered | Failing | Uncertain | Dead

  datatype Message = Message(state: State, attempts: nat, claimedAt: Option<int>, token: Option<Token>,
                             availableAt: int, deliveredAt: Option<int>)

  datatype Resolution = Retry | ConfirmDelivered | ConfirmDead

  // ---------------------------------------------------------------------------
  // One message.

  function NewMessage(at: int): Message {
    Message(Pending, 0, None, None, at, None)
  }

  /** The lease sweep at the start of `pending_outbox`. */
  predicate LeaseExpired(m: Message, now: int) {
    m.state == Sending && m.claimedAt.Some? && m.claimedAt.value <= now - LEASE_SECONDS
  }

  function Sweep(m: Message, now: int): Message {
    if LeaseExpired(m, now) then m.(state := Uncertain, token := None) else m
  }

  predicate Claimable(m: Message, now: int) {
    m.deliveredAt.None? && (m.state == Pending || m.state == Failing) && m.availableAt <= now
  }

  function Claimed(m: Message, now: int, token: Token): Message {
    m.(availableAt := now + LEASE_SECONDS, attempts := m.attempts + 1, state := Sending,
       claimedAt := Some(now), token := Some(token))
  }

  predicate HeldUnder(m: Message, token: Token) {
    m.state == Sending && m.token == Some(token)
  }

  function DeliveredNow(m: Message, now: int): Message {
    m.(deliveredAt := Some(now), state := Delivered, claimedAt := None, token := None)
  }

  function Power2(n: nat): nat {
    if n == 0 then 1 else 2 * Power2(n - 1)
  }

  /** The back-off before the next attempt: 2, 4, ... 256 seconds, never above 300. */
  function Backoff(attempts: nat): nat {
    var doubled := Power2(if attempts < 8 then attempts else 8);
    if doubled < 300 then doubled else 300
  }

  /** The waiting time doubles with every attempt up to 256 seconds and stays there. */
  lemma BackoffDoubles(attempts: nat)
    ensures Backoff(0) == 1
    ensures Backoff(attempts + 1) == if attempts < 8 then 2 * Backoff(attempts) else Backoff(attempts)
    ensures 1 <= Backoff(attempts) <= 256
  {
    Doubling(if attempts < 8 then attempts else 8);
    Doubling(if attempts + 1 < 8 then attempts + 1 else 8);
  }

  lemma {:induction false} Doubling(n: nat)
    requires n <= 8
    ensures 1 <= Power2(n) && Power2(n) * Power2(8 - n) == 256
  {
    if n > 0 {
      Doubling(n - 1);
      assert Power2(9 - n) == 2 * Power2(8 - n);
    } else {
      assert Power2(8) == 2 * Power2(7) && Power2(7) == 2 * Power2(6) && Power2(6) == 2 * Power2(5);
      assert Power2(5) == 2 * Power2(4) && Power2(4) == 2 * Power2(3) && Power2(3) == 2 * Power2(2);
    }
  }

  function FailedNow(m: Message, now: int): Message {
    m.(state := if m.attempts >= MAX_ATTEMPTS then Dead else Failing, claimedAt := None, token := None,
       availableAt := now + Backoff(m.attempts))
  }

  function Unresolved(m: Message): Message {
    m.(state := Uncertain, claimedAt := None, token := None)
  }

  function Buried(m: Message): Message {
    m.(state := Dead, claimedAt := None, token := None)
  }

  function Resolved(m: Message, choice: Resolution, now: int): Message {
    match choice
    case Retry => m.(state := Failing, availableAt := now, claimedAt := None, token := None)
    case ConfirmDelivered => DeliveredNow(m, now)
    case ConfirmDead => Buried(m)
  }

  // ---------------------------------------------------------------------------
  // All messages, all workers.

  /** `issued` maps every claim token to its message, `sent` holds the tokens under which a
      message was handed to the messenger, `retries` counts operator retries. */
  datatype World = World(store: map<MessageId, Message>, issued: map<Token, MessageId>, sent: set<Token>,
                         retries: map<MessageId, nat>)

  datatype Report = Sent | Rejected | Unknown | Refused

  /** How the delivery of a claimed message goes. */
  datatype Attempt =
    | BlockedByPolicy
    | EmptyText
    | Accepted
    | PermissionOrValueError
    | RuntimeFailure
    | OtherFailure

  /** The report a delivery loop makes of it. */
  function Classify(a: Attempt): Report {
    match a
    case Accepted => Sent
    case RuntimeFailure => Rejected
    case OtherFailure => Unknown
    case _ => Refused
  }

  datatype Action =
    | Add(id: MessageId, at: int)
    | ClaimBatch(now: int, picks: map<MessageId, Token>)
    | Send(token: Token)
    | Conclude(id: MessageId, token: Token, report: Report, now: int)
    | Resolve(id: MessageId, choice: Resolution, now: int)

  /** What a worker's report makes of the message it holds. */
  function Concluded(m: Message, report: Report, now: int): Message {
    match report
    case Sent => DeliveredNow(m, now)
    case Rejected => FailedNow(m, now)
    case Unknown => Unresolved(m)
    case Refused => Buried(m)
  }

  ghost predicate Picks(w: World, now: int, picks: map<MessageId, Token>) {
    (forall id :: id in picks ==> id in w.store && Claimable(Sweep(w.store[id], now), now)
                                  && picks[id] !in w.issued)
    && (forall a, b :: a in picks && b in picks && picks[a] == picks[b] ==> a == b)
  }

  function ClaimStore(store: map<MessageId, Message>, now: int, picks: map<MessageId, Token>): map<MessageId, Message> {
    map id | id in store ::
      if id in picks then Claimed(Sweep(store[id], now), now, picks[id]) else Sweep(store[id], now)
  }

  ghost function Issue(issued: map<Token, MessageId>, picks: map<MessageId, Token>): map<Token, MessageId>
    requires forall a, b :: a in picks && b in picks && picks[a] == picks[b] ==> a == b
  {
    issued + map id | id in picks :: picks[id] := id
  }

  ghost predicate Step(w: World, a: Action, w': World) {
    match a
    case Add(id, at) =>
      id !in w.store
      && w' == w.(store := w.store[id := NewMessage(at)], retries := w.retries[id := 0])
    case ClaimBatch(now, picks) =>
      Picks(w, now, picks)
      && w' == w.(store := ClaimStore(w.store, now, picks), issued := Issue(w.issued, picks))
    case Send(token) =>
      token in w.issued && token !in w.sent && w' == w.(sent := w.sent + {token})
    case Conclude(id, token, report, now) =>
      // a superseded or missing claim raises and changes nothing
      w' == if id in w.store && HeldUnder(w.store[id], token)
            then w.(store := w.store[id := Concluded(w.store[id], report, now)]) else w
    case Resolve(id, choice, now) =>
      w' == if id in w.store && id in w.retries && w.store[id].state == Uncertain
            then w.(store := w.store[id := Resolved(w.store[id], choice, now)],
                    retries := if choice == Retry then w.retries[id := w.retries[id] + 1] else w.retries)
            else w
  }

  ghost function TokensOf(issued: map<Token, MessageId>, id: MessageId): set<Token> {
    set t | t in issued && issued[t] == id
  }

  // ---------------------------------------------------------------------------
  // The invariant.

  ghost predicate MessageInv(m: Message, id: MessageId, issued: map<Token, MessageId>, retries: nat) {
    (m.token.Some? <==> m.state == Sending)
    && (m.token.Some? ==> m.token.value in issued && issued[m.token.value] == id)
    && (m.state == Sending ==> m.claimedAt.Some?)
    && (m.deliveredAt.Some? <==> m.state == Delivered)
    && m.attempts == |TokensOf(issued, id)|
    && m.attempts <= MAX_ATTEMPTS + retries
    && (m.state == Pending || m.state == Failing ==> m.attempts < MAX_ATTEMPTS + retries)
  }

  ghost predicate Inv(w: World) {
    w.store.Keys == w.retries.Keys
    && (forall id {:trigger w.store[id]} :: id in w.store ==> MessageInv(w.store[id], id, w.issued, w.retries[id]))
    && (forall t :: t in w.issued ==> w.issued[t] in w.store)
    && w.sent <= w.issued.Keys
  }

  ghost predicate Init(w: World) {
    w == World(map[], map[], {}, map[])
  }

  lemma IssueAddsOne(issued: map<Token, MessageId>, picks: map<MessageId, Token>, id: MessageId)
    requires forall a, b :: a in picks && b in picks && picks[a] == picks[b] ==> a == b
    requires forall a :: a in picks ==> picks[a] !in issued
    ensures |TokensOf(Issue(issued, picks), id)| == |TokensOf(issued, id)| + if id in picks then 1 else 0
  {
    var old', new' := TokensOf(issued, id), TokensOf(Issue(issued, picks), id);
    if id in picks {
      assert new' == old' + {picks[id]};
    } else {
      assert new' == old';
    }
  }

  lemma ClaimKeepsInv(w: World, now: int, picks: map<MessageId, Token>, w': World)
    requires Inv(w) && Step(w, ClaimBatch(now, picks), w')
    ensures Inv(w')
  {
    hide TokensOf, MessageInv;
    forall id | id in w'.store ensures MessageInv(w'.store[id], id, w'.issued, w'.retries[id]) {
      assert MessageInv(w.store[id], id, w.issued, w.retries[id]);
      ClaimedMessageInv(w, now, picks, id);
    }
  }

  lemma ClaimedMessageInv(w: World, now: int, picks: map<MessageId, Token>, id: MessageId)
    requires Picks(w, now, picks) && id in w.store && id in w.retries
    requires MessageInv(w.store[id], id, w.issued, w.retries[id])
    ensures MessageInv(ClaimStore(w.store, now, picks)[id], id, Issue(w.issued, picks), w.retries[id])
  {
    hide TokensOf;
    IssueAddsOne(w.issued, picks, id);
  }

  lemma AddKeepsInv(w: World, id: MessageId, at: int, w': World)
    requires Inv(w) && Step(w, Add(id, at), w')
    ensures Inv(w')
  {
    assert TokensOf(w.issued, id) == {};
    hide TokensOf;
    forall x | x in w'.store ensures MessageInv(w'.store[x], x, w'.issued, w'.retries[x]) {
      if x != id {
        assert MessageInv(w.store[x], x, w.issued, w.retries[x]);
      }
    }
  }

  lemma OneMessageKeepsInv(w: World, id: MessageId, m: Message, retries: nat, w': World)
    requires Inv(w) && id in w.store && retries >= w.retries[id]
    requires MessageInv(m, id, w.issued, retries)
    requires w' == w.(store := w.store[id := m], retries := w.retries[id := retries])
    ensures Inv(w')
  {
    hide MessageInv;
    forall x | x in w'.store ensures MessageInv(w'.store[x], x, w'.issued, w'.retries[x]) {
      if x != id {
        assert MessageInv(w.store[x], x, w.issued, w.retries[x]);
      }
    }
  }

  lemma ConcludeKeepsInv(w: World, id: MessageId, token: Token, report: Report, now: int, w': World)
    requires Inv(w) && Step(w, Conclude(id, token, report, now), w')
    ensures Inv(w')
  {
    hide TokensOf, Step, Backoff;
    ConcludeStep(w, id, token, report, now, w');
    if w' != w {
      assert MessageInv(w.store[id], id, w.issued, w.retries[id]);
      assert w.retries == w.retries[id := w.retries[id]];
      OneMessageKeepsInv(w, id, Concluded(w.store[id], report, now), w.retries[id], w');
    }
  }

  lemma ConcludeStep(w: World, id: MessageId, token: Token, report: Report, now: int, w': World)
    requires Step(w, Conclude(id, token, report, now), w')
    ensures w' == if id in w.store && HeldUnder(w.store[id], token)
                  then w.(store := w.store[id := Concluded(w.store[id], report, now)]) else w
  {
  }

  lemma ResolveKeepsInv(w: World, id: MessageId, choice: Resolution, now: int, w': World)
    requires Inv(w) && Step(w, Resolve(id, choice, now), w')
    ensures Inv(w')
  {
    hide TokensOf, Picks, Issue;
    if w' != w {
      assert MessageInv(w.store[id], id, w.issued, w.retries[id]);
      assert w'.retries == w.retries[id := w'.retries[id]];
      OneMessageKeepsInv(w, id, w'.store[id], w'.retries[id], w');
    }
  }

  lemma StepKeepsInv(w: World, a: Action, w': World)
    requires Inv(w) && Step(w, a, w')
    ensures Inv(w')
  {
    match a
    case Add(id, at) => AddKeepsInv(w, id, at, w');
    case ClaimBatch(now, picks) => ClaimKeepsInv(w, now, picks, w');
    case Send(token) => SendKeepsInv(w, token, w');
    case Conclude(id, token, report, now) => ConcludeKeepsInv(w, id, token, report, now, w');
    case Resolve(id, choice, now) => ResolveKeepsInv(w, id, choice, now, w');
  }

  lemma SendKeepsInv(w: World, token: Token, w': World)
    requires Inv(w) && Step(w, Send(token), w')
    ensures Inv(w')
  {
    hide MessageInv;
  }

  // ---------------------------------------------------------------------------
  // What one step may do to one message.

  predicate Terminal(m: Message) {
    m.state == Delivered || m.state == Dead
  }

  predicate ClaimsMessage(a: Action, id: MessageId) {
    a.ClaimBatch? && id in a.picks
  }

  /** The two ways back to a claimable state: the holder's own report of a rejected send, and
      an operator's retry. */
  ghost predicate Reopens(w: World, a: Action, id: MessageId) {
    id in w.store
    && ((a.Conclude? && a.id == id && a.report == Rejected && HeldUnder(w.store[id], a.token))
        || (a.Resolve? && a.id == id && a.choice == Retry && w.store[id].state == Uncertain))
  }

  lemma StepOnMessage(w: World, a: Action, w': World, id: MessageId)
    requires Inv(w) && Step(w, a, w') && id in w.store
    ensures id in w'.store
    ensures Terminal(w.store[id]) ==> w'.store[id] == w.store[id]
    ensures w'.store[id].state == Failing && w.store[id].state != Failing ==> Reopens(w, a, id)
    ensures w'.store[id].state == Pending ==> w'.store[id] == w.store[id]
    ensures ClaimsMessage(a, id) ==>
              (w.store[id].state == Pending || w.store[id].state == Failing)
              && w'.store[id].token == Some(a.picks[id])
    ensures w'.store[id].token.Some? && w'.store[id].token != w.store[id].token ==> ClaimsMessage(a, id)
  {
    hide TokensOf, Backoff, Issue;
    assert MessageInv(w.store[id], id, w.issued, w.retries[id]);
    if a.ClaimBatch? {
      ClaimOnMessage(w.store[id], a.now, w.store, a.picks, id);
    }
  }

  lemma ClaimOnMessage(m: Message, now: int, store: map<MessageId, Message>, picks: map<MessageId, Token>, id: MessageId)
    requires id in store && m == store[id]
    ensures ClaimStore(store, now, picks)[id] == if id in picks then Claimed(Sweep(m, now), now, picks[id]) else Sweep(m, now)
  {
  }

  // ---------------------------------------------------------------------------
  // Whole runs.

  ghost predicate IsRun(ws: seq<World>, acts: seq<Action>) {
    |ws| == |acts| + 1 && Init(ws[0])
    && forall i :: 0 <= i < |acts| ==> Step(ws[i], acts[i], ws[i + 1])
  }

  lemma {:induction false} RunKeepsInv(ws: seq<World>, acts: seq<Action>, k: nat)
    requires IsRun(ws, acts) && k < |ws|
    ensures Inv(ws[k])
  {
    hide Step, MessageInv;
    if k > 0 {
      RunKeepsInv(ws, acts, k - 1);
      StepKeepsInv(ws[k - 1], acts[k - 1], ws[k]);
    }
  }

  /** DELIVERED and DEAD rows are never written again. */
  lemma {:induction false} TerminalIsFinal(ws: seq<World>, acts: seq<Action>, i: nat, j: nat, id: MessageId)
    requires IsRun(ws, acts) && i <= j < |ws| && id in ws[i].store && Terminal(ws[i].store[id])
    ensures id in ws[j].store && ws[j].store[id] == ws[i].store[id]
    decreases j
  {
    hide Step, Inv;
    if i < j {
      TerminalIsFinal(ws, acts, i, j - 1, id);
      RunKeepsInv(ws, acts, j - 1);
      StepOnMessage(ws[j - 1], acts[j - 1], ws[j], id);
    }
  }

  /** Between a claim and the next claim of the same message, either the worker holding the
      first claim reported a rejected send, or an operator chose to retry. */
  lemma ReclaimNeedsReopening(ws: seq<World>, acts: seq<Action>, i: nat, j: nat, id: MessageId)
    requires IsRun(ws, acts) && i < j < |acts|
    requires ClaimsMessage(acts[i], id) && ClaimsMessage(acts[j], id)
    requires forall k :: i < k < j ==> !ClaimsMessage(acts[k], id)
    ensures exists k :: i < k < j && Reopens(ws[k], acts[k], id)
                        && (acts[k].Conclude? ==> acts[k].token == acts[i].picks[id])
  {
    hide Step, Inv;
    RunKeepsInv(ws, acts, i);
    assert Step(ws[i], acts[i], ws[i + 1]);
    assert id in ws[i].store by { PickedIsStored(ws[i], acts[i], ws[i + 1], id); }
    StepOnMessage(ws[i], acts[i], ws[i + 1], id);
    RunKeepsInv(ws, acts, j);
    assert id in ws[j].store by { PickedIsStored(ws[j], acts[j], ws[j + 1], id); }
    StepOnMessage(ws[j], acts[j], ws[j + 1], id);
    FindReopening(ws, acts, i, j, id);
  }

  lemma PickedIsStored(w: World, a: Action, w': World, id: MessageId)
    requires Step(w, a, w') && ClaimsMessage(a, id)
    ensures id in w.store
  {
  }

  ghost predicate HeldSince(w: World, id: MessageId, token: Token) {
    id in w.store && (w.store[id].token.Some? ==> w.store[id].token.value == token)
    && w.store[id].state != Pending
  }

  lemma {:induction false} FindReopening(ws: seq<World>, acts: seq<Action>, i: nat, j: nat, id: MessageId)
    requires IsRun(ws, acts) && i < j <= |acts|
    requires ClaimsMessage(acts[i], id) && id in ws[i + 1].store
    requires ws[i + 1].store[id].token == Some(acts[i].picks[id])
    requires forall k :: i < k < j ==> !ClaimsMessage(acts[k], id)
    ensures HeldSince(ws[j], id, acts[i].picks[id])
    ensures ws[j].store[id].state == Failing ==>
              exists k :: i < k < j && Reopens(ws[k], acts[k], id)
                          && (acts[k].Conclude? ==> acts[k].token == acts[i].picks[id])
    decreases j
  {
    hide Step, Inv;
    if j == i + 1 {
      RunKeepsInv(ws, acts, j);
      HeldIsSending(ws[j], id);
    } else {
      FindReopening(ws, acts, i, j - 1, id);
      RunKeepsInv(ws, acts, j - 1);
      StepOnMessage(ws[j - 1], acts[j - 1], ws[j], id);
    }
  }

  lemma HeldIsSending(w: World, id: MessageId)
    requires Inv(w) && id in w.store && w.store[id].token.Some?
    ensures w.store[id].state == Sending
  {
    assert MessageInv(w.store[id], id, w.issued, w.retries[id]);
  }

  lemma FailingWaits(w: World, a: Action, w': World, id: MessageId)
    requires Inv(w) && Step(w, a, w') && id in w.store && w.store[id].state == Failing
    ensures id in w'.store
    ensures !ClaimsMessage(a, id) ==> w'.store[id] == w.store[id]
    ensures ClaimsMessage(a, id) ==> a.now >= w.store[id].availableAt
  {
    hide TokensOf, Backoff;
    assert MessageInv(w.store[id], id, w.issued, w.retries[id]);
  }

  lemma RejectedReport(w: World, a: Action, w': World)
    requires Step(w, a, w') && a.Conclude? && a.report == Rejected
    requires a.id in w.store && HeldUnder(w.store[a.id], a.token) && w.store[a.id].attempts < MAX_ATTEMPTS
    ensures a.id in w'.store && w'.store[a.id].state == Failing
    ensures w'.store[a.id].availableAt == a.now + Backoff(w.store[a.id].attempts)
  {
  }

  lemma {:induction false} FailingStays(ws: seq<World>, acts: seq<Action>, i: nat, j: nat, id: MessageId)
    requires IsRun(ws, acts) && i <= j < |ws| && id in ws[i].store && ws[i].store[id].state == Failing
    requires forall k :: i <= k < j ==> !ClaimsMessage(acts[k], id)
    ensures id in ws[j].store && ws[j].store[id] == ws[i].store[id]
    decreases j
  {
    hide Step, Inv, ClaimsMessage;
    if i < j {
      FailingStays(ws, acts, i, j - 1, id);
      RunKeepsInv(ws, acts, j - 1);
      FailingWaits(ws[j - 1], acts[j - 1], ws[j], id);
    }
  }

  /** After a rejected send the message is not claimed again, by any worker, before the back-off
      for its number of attempts has passed. */
  lemma BackoffIsWaited(ws: seq<World>, acts: seq<Action>, i: nat, j: nat)
    requires IsRun(ws, acts) && i < j < |acts| && acts[i].Conclude? && acts[i].report == Rejected
    requires acts[i].id in ws[i].store && HeldUnder(ws[i].store[acts[i].id], acts[i].token)
    requires ws[i].store[acts[i].id].attempts < 10
    requires ClaimsMessage(acts[j], acts[i].id)
    ensures acts[j].now >= acts[i].now + Backoff(ws[i].store[acts[i].id].attempts)
            || exists k :: i < k < j && ClaimsMessage(acts[k], acts[i].id)
  {
    hide Step, Inv, ClaimsMessage, Backoff;
    var id := acts[i].id;
    if forall k :: i < k < j ==> !ClaimsMessage(acts[k], id) {
      RejectedReport(ws[i], acts[i], ws[i + 1]);
      FailingStays(ws, acts, i + 1, j, id);
      RunKeepsInv(ws, acts, j);
      FailingWaits(ws[j], acts[j], ws[j + 1], id);
    }
  }

  /** A token that has left its message never comes back, so a late worker's report changes
      nothing from then on. */
  lemma {:induction false} LateTokenStaysDead(ws: seq<World>, acts: seq<Action>, i: nat, j: nat, id: MessageId, token: Token)
    requires IsRun(ws, acts) && i <= j < |ws|
    requires id in ws[i].store && token in ws[i].issued && ws[i].store[id].token != Some(token)
    ensures id in ws[j].store && token in ws[j].issued && ws[j].store[id].token != Some(token)
    decreases j
  {
    hide Step, Inv;
    if i < j {
      LateTokenStaysDead(ws, acts, i, j - 1, id, token);
      RunKeepsInv(ws, acts, j - 1);
      StepOnMessage(ws[j - 1], acts[j - 1], ws[j], id);
      IssuedGrows(ws[j - 1], acts[j - 1], ws[j], id, token);
    }
  }

  lemma IssuedGrows(w: World, a: Action, w': World, id: MessageId, token: Token)
    requires Step(w, a, w') && token in w.issued
    ensures token in w'.issued && (ClaimsMessage(a, id) ==> a.picks[id] != token)
  {
    hide Claimable, Sweep, TokensOf, MessageInv;
  }

  /** A worker that has not reported when its lease is over loses its message to the uncertain
      state at the next poll of any worker, whatever that poll claims. */
  lemma LeaseExpiryFences(w: World, now: int, picks: map<MessageId, Token>, w': World, id: MessageId)
    requires Inv(w) && Step(w, ClaimBatch(now, picks), w') && id in w.store
    requires w.store[id].state == Sending && w.store[id].claimedAt.Some? && now >= w.store[id].claimedAt.value + 30
    ensures id !in picks && w'.store[id].state == Uncertain && w'.store[id].token == None
  {
    hide TokensOf, Issue;
    assert MessageInv(w.store[id], id, w.issued, w.retries[id]);
  }

  lemma LateReportIsRejected(ws: seq<World>, acts: seq<Action>, i: nat, j: nat, id: MessageId, token: Token)
    requires IsRun(ws, acts) && i <= j < |acts|
    requires id in ws[i].store && token in ws[i].issued && ws[i].store[id].token != Some(token)
    requires acts[j].Conclude? && acts[j].id == id && acts[j].token == token
    ensures ws[j + 1] == ws[j]
  {
    LateTokenStaysDead(ws, acts, i, j, id, token);
    assert Step(ws[j], acts[j], ws[j + 1]);
  }

  // ---------------------------------------------------------------------------
  // What a poll, a report and an operator make of one message.

  /** Any due messages can be claimed under new tokens. */
  lemma PollIsPossible(w: World, now: int, picks: map<MessageId, Token>) returns (w': World)
    requires forall id :: id in picks ==>
               id in w.store && w.store[id].deliveredAt.None? && w.store[id].availableAt <= now
               && (w.store[id].state == Pending || w.store[id].state == Failing)
    requires forall id :: id in picks ==> picks[id] !in w.issued
    requires forall a, b :: a in picks && b in picks && a != b ==> picks[a] != picks[b]
    ensures Step(w, ClaimBatch(now, picks), w')
  {
    w' := w.(store := ClaimStore(w.store, now, picks), issued := Issue(w.issued, picks));
  }

  /** A poll takes the claim from a message sent for thirty seconds, claims only pending or failed
      messages whose time has come, each under its own token for thirty seconds, and leaves every
      other message alone. */
  lemma PollOutcome(w: World, now: int, picks: map<MessageId, Token>, w': World, id: MessageId)
    requires Step(w, ClaimBatch(now, picks), w') && id in w.store
    ensures var m := w.store[id];
            var overdue := m.state == Sending && m.claimedAt.Some? && now >= m.claimedAt.value + 30;
            id in w'.store
            && (id in picks ==>
                  (m.state == Pending || m.state == Failing) && m.deliveredAt.None? && m.availableAt <= now
                  && w'.store[id] == Message(Sending, m.attempts + 1, Some(now), Some(picks[id]), now + 30, None))
            && (overdue ==> id !in picks && w'.store[id] == m.(state := Uncertain, token := None))
            && (id !in picks && !overdue ==> w'.store[id] == m)
  {
    hide Issue;
  }

  /** A report counts only while its token holds the message. An accepted send delivers it; a
      rejected one makes it wait, or buries it at the tenth attempt; one of unknown outcome leaves
      it uncertain; anything else buries it. */
  lemma ReportOutcome(w: World, id: MessageId, token: Token, attempt: Attempt, now: int, w': World)
    requires Step(w, Conclude(id, token, Classify(attempt), now), w') && id in w.store
    ensures var m := w.store[id];
            if m.state != Sending || m.token != Some(token) then w' == w
            else
              w'.issued == w.issued && w'.sent == w.sent && w'.retries == w.retries
              && w'.store.Keys == w.store.Keys && (forall x :: x in w.store && x != id ==> w'.store[x] == w.store[x])
              && w'.store[id]
                 == match attempt
                    case Accepted => Message(Delivered, m.attempts, None, None, m.availableAt, Some(now))
                    case RuntimeFailure =>
                      Message(if m.attempts >= 10 then Dead else Failing, m.attempts, None, None,
                              now + Backoff(m.attempts), m.deliveredAt)
                    case OtherFailure => Message(Uncertain, m.attempts, None, None, m.availableAt, m.deliveredAt)
                    case _ => Message(Dead, m.attempts, None, None, m.availableAt, m.deliveredAt)
  {
    hide Backoff;
  }

  /** An operator decides only on uncertain messages: retried now, delivered now, or dead. */
  lemma OperatorOutcome(w: World, id: MessageId, choice: Resolution, now: int, w': World)
    requires Inv(w) && Step(w, Resolve(id, choice, now), w') && id in w.store
    ensures var m := w.store[id];
            if m.state != Uncertain then w' == w
            else
              w'.store.Keys == w.store.Keys && (forall x :: x in w.store && x != id ==> w'.store[x] == w.store[x])
              && w'.store[id]
                 == match choice
                    case Retry => Message(Failing, m.attempts, None, None, now, m.deliveredAt)
                    case ConfirmDelivered => Message(Delivered, m.attempts, None, None, m.availableAt, Some(now))
                    case ConfirmDead => Message(Dead, m.attempts, None, None, m.availableAt, m.deliveredAt)
  {
    hide MessageInv, Picks, ClaimStore, Issue;
  }

  /** Uncertain, or decided otherwise than by a retry. */
  ghost predicate Unclaimable(w: World, id: MessageId) {
    id in w.store && (w.store[id].state == Uncertain || Terminal(w.store[id]))
  }

  predicate Retries(a: Action, id: MessageId) {
    a.Resolve? && a.id == id && a.choice == Retry
  }

  lemma UnclaimableStep(w: World, a: Action, w': World, id: MessageId)
    requires Inv(w) && Step(w, a, w') && Unclaimable(w, id)
    ensures !ClaimsMessage(a, id) && (!Retries(a, id) ==> Unclaimable(w', id))
  {
    hide TokensOf, Backoff, Issue;
    assert MessageInv(w.store[id], id, w.issued, w.retries[id]);
  }

  lemma {:induction false} StaysUnclaimable(ws: seq<World>, acts: seq<Action>, i: nat, j: nat, id: MessageId)
    requires IsRun(ws, acts) && i <= j < |ws| && Unclaimable(ws[i], id)
    requires forall k :: i <= k < j ==> !Retries(acts[k], id)
    ensures Unclaimable(ws[j], id)
    decreases j
  {
    hide Step, Inv, Unclaimable;
    if i < j {
      StaysUnclaimable(ws, acts, i, j - 1, id);
      RunKeepsInv(ws, acts, j - 1);
      assert Step(ws[j - 1], acts[j - 1], ws[j - 1 + 1]);
      UnclaimableStep(ws[j - 1], acts[j - 1], ws[j], id);
    }
  }

  /** A message whose send had an unknown outcome is not claimed again before an operator has
      chosen to retry it. */
  lemma UnknownWaitsForOperator(ws: seq<World>, acts: seq<Action>, i: nat, j: nat)
    requires IsRun(ws, acts) && i < j < |acts| && acts[i].Conclude? && acts[i].report == Classify(OtherFailure)
    requires acts[i].id in ws[i].store && ws[i].store[acts[i].id].state == Sending
    requires ws[i].store[acts[i].id].token == Some(acts[i].token) && ClaimsMessage(acts[j], acts[i].id)
    ensures exists k :: i < k < j && Retries(acts[k], acts[i].id)
  {
    hide Step, Inv;
    var id := acts[i].id;
    assert Step(ws[i], acts[i], ws[i + 1]) && Step(ws[j], acts[j], ws[j + 1]);
    ReportOutcome(ws[i], id, acts[i].token, OtherFailure, acts[i].now, ws[i + 1]);
    if forall k :: i < k < j ==> !Retries(acts[k], id) {
      StaysUnclaimable(ws, acts, i + 1, j, id);
      RunKeepsInv(ws, acts, j);
      UnclaimableStep(ws[j], acts[j], ws[j + 1], id);
    }
  }

  /** No message is handed to the messenger more often than it was claimed, nor more than ten
      times plus once per operator retry. */
  lemma SendsAreBounded(ws: seq<World>, acts: seq<Action>, k: nat, id: MessageId)
    requires IsRun(ws, acts) && k < |ws| && id in ws[k].store
    ensures var w := ws[k];
            id in w.retries
            && |TokensOf(w.issued, id) * w.sent| <= w.store[id].attempts <= 10 + w.retries[id]
  {
    RunKeepsInv(ws, acts, k);
    var w := ws[k];
    assert MessageInv(w.store[id], id, w.issued, w.retries[id]);
    SubsetIsSmaller(TokensOf(w.issued, id) * w.sent, TokensOf(w.issued, id));
  }
}
