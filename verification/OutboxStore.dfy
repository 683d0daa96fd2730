/** The outbox methods on a mutable table, and one delivery round of the worker. */
module OutboxStore {
  import opened Options
  import opened Outbox

  const BATCH_LIMIT := 100

  function Due(rows: map<MessageId, Message>, order: seq<MessageId>, now: int): seq<MessageId> {
    if order == [] then []
    else
      var front, last := order[..|order| - 1], order[|order| - 1];
      Due(rows, front, now) + if last in rows && Claimable(rows[last], now) then [last] else []
  }

  function Swept(rows: map<MessageId, Message>, now: int): map<MessageId, Message> {
    map id | id in rows :: Sweep(rows[id], now)
  }

  function Take<T>(s: seq<T>, n: nat): seq<T> {
    if |s| <= n then s else s[..n]
  }

  ghost predicate Distinct(ids: seq<MessageId>) {
    forall i, j :: 0 <= i < j < |ids| ==> ids[i] != ids[j]
  }

  /** The claims made for `ids`. */
  function PicksFor(ids: seq<MessageId>, mint: map<MessageId, Token>): map<MessageId, Token> {
    map id | id in ids && id in mint :: mint[id]
  }

  lemma {:induction false} DueIsClaimable(rows: map<MessageId, Message>, order: seq<MessageId>, now: int)
    requires Distinct(order)
    ensures Distinct(Due(rows, order, now))
    ensures forall id :: id in Due(rows, order, now) <==> id in order && id in rows && Claimable(rows[id], now)
  {
    if order != [] {
      var front := order[..|order| - 1];
      DueIsClaimable(rows, front, now);
      assert order == front + [order[|order| - 1]];
    }
  }

  predicate IsDue(m: Message, now: int) {
    (m.state == Pending || m.state == Failing) && m.deliveredAt.None? && m.availableAt <= now
  }

  /** `claimed` holds due messages in creation order, each once: all of them if there is room, and
      otherwise the oldest. */
  ghost predicate OldestDue(rows: map<MessageId, Message>, order: seq<MessageId>, now: int, limit: nat,
                            claimed: seq<MessageId>)
    requires forall id :: id in order ==> id in rows
  {
    |claimed| <= limit && (forall id :: id in claimed ==> id in order && IsDue(rows[id], now))
    && (forall i, j :: 0 <= i < j < |order| && order[j] in claimed && IsDue(rows[order[i]], now) ==> order[i] in claimed)
    && (|claimed| < limit ==> forall id :: id in order && IsDue(rows[id], now) ==> id in claimed)
  }

  lemma DueAfterSweep(m: Message, now: int)
    ensures Claimable(Sweep(m, now), now) <==> IsDue(m, now)
  {
  }

  /** Due messages keep the order of `order`, so a cut takes the oldest. */
  lemma {:induction false} DueKeepsOrder(rows: map<MessageId, Message>, order: seq<MessageId>, now: int, n: nat, i: nat, j: nat)
    requires Distinct(order) && i < j < |order| && order[j] in Take(Due(rows, order, now), n)
    requires order[i] in rows && Claimable(rows[order[i]], now)
    ensures order[i] in Take(Due(rows, order, now), n)
  {
    hide Claimable;
    var front, last := order[..|order| - 1], order[|order| - 1];
    var due := Due(rows, front, now);
    DueIsClaimable(rows, front, now);
    assert order[i] in front by { assert front[i] == order[i]; }
    if j < |order| - 1 {
      assert front[i] == order[i] && front[j] == order[j];
      if order[j] == last { assert false; }
      assert order[j] in Take(due, n);
      DueKeepsOrder(rows, front, now, n, i, j);
      assert order[i] in Take(due, n);
    } else {
      assert last !in front;
      assert |due| < n;
    }
  }

  lemma TakesOldest(rows: map<MessageId, Message>, order: seq<MessageId>, now: int, limit: nat)
    requires Distinct(order) && forall id :: id in order ==> id in rows
    ensures OldestDue(rows, order, now, limit, Take(Due(Swept(rows, now), order, now), limit))
  {
    hide Due, Claimable, Sweep, IsDue;
    var swept := Swept(rows, now);
    var due := Due(swept, order, now);
    DueIsClaimable(swept, order, now);
    forall id | id in rows ensures Claimable(swept[id], now) <==> IsDue(rows[id], now) { DueAfterSweep(rows[id], now); }
    forall i, j | 0 <= i < j < |order| && order[j] in Take(due, limit) && IsDue(rows[order[i]], now)
      ensures order[i] in Take(due, limit)
    {
      DueKeepsOrder(swept, order, now, limit, i, j);
    }
  }

  /** The row of a claimed message once its delivery has been reported. */
  ghost predicate Ends(m: Message, attempt: Attempt, later: int, m': Message) {
    m'.attempts == m.attempts + 1 && m'.token.None? && m'.claimedAt.None?
    && (attempt == Accepted ==> m'.state == Delivered && m'.deliveredAt == Some(later))
    && (attempt == RuntimeFailure && m'.attempts < 10 ==> m'.state == Failing && m'.availableAt == later + Backoff(m'.attempts))
    && (attempt == RuntimeFailure && m'.attempts >= 10 ==> m'.state == Dead)
    && (attempt == OtherFailure ==> m'.state == Uncertain)
    && (attempt in {BlockedByPolicy, EmptyText, PermissionOrValueError} ==> m'.state == Dead)
    && (attempt != Accepted ==> m'.deliveredAt.None?)
  }

  lemma AttemptEnds(m: Message, now: int, token: Token, attempt: Attempt, later: int)
    requires IsDue(m, now)
    ensures Ends(m, attempt, later, Concluded(Claimed(Sweep(m, now), now, token), Classify(attempt), later))
  {
    hide Backoff;
  }

  function DeliveredCount(ids: seq<MessageId>, attempts: map<MessageId, Attempt>): nat {
    if ids == [] then 0
    else
      var last := ids[|ids| - 1];
      DeliveredCount(ids[..|ids| - 1], attempts)
      + if last in attempts && attempts[last] == Accepted then 1 else 0
  }

  class OutboxTable {
    var rows: map<MessageId, Message>
    /** Message ids by creation time. */
    var order: seq<MessageId>

    ghost predicate Valid()
      reads this
    {
      Distinct(order) && forall id :: id in order <==> id in rows
    }

    constructor ()
      ensures Valid() && rows == map[] && order == []
    {
      rows, order := map[], [];
    }

    /** The lease sweep: every SENDING row whose claim is too old becomes UNCERTAIN. */
    method ExpireLeases(now: int)
      requires Valid()
      modifies this`rows
      ensures rows == Swept(old(rows), now)
    {
      hide Sweep;
      for i := 0 to |order|
        invariant rows.Keys == old(rows).Keys
        invariant forall j :: 0 <= j < |order| ==> order[j] in order
        invariant forall j :: 0 <= j < |order| ==>
          rows[order[j]] == if j < i then Sweep(old(rows)[order[j]], now) else old(rows)[order[j]]
      {
        assert order[i] in order;
        rows := rows[order[i] := Sweep(rows[order[i]], now)];
      }
    }

    /** Claim the selected rows, each under its own fresh token. */
    method ClaimEach(ids: seq<MessageId>, now: int, mint: map<MessageId, Token>)
      requires Distinct(ids) && forall id :: id in ids ==> id in rows && id in mint
      modifies this`rows
      ensures rows.Keys == old(rows).Keys
      ensures forall id :: id in rows ==>
                rows[id] == if id in ids then Claimed(old(rows)[id], now, mint[id]) else old(rows)[id]
    {
      hide Claimed;
      for i := 0 to |ids|
        invariant rows.Keys == old(rows).Keys
        invariant forall id :: id in rows ==>
          rows[id] == if id in ids[..i] then Claimed(old(rows)[id], now, mint[id]) else old(rows)[id]
      {
        var id := ids[i];
        assert id in ids && id !in ids[..i];
        rows := rows[id := Claimed(rows[id], now, mint[id])];
        assert ids[..i + 1] == ids[..i] + [id];
      }
      assert ids[..|ids|] == ids;
    }

    /** `pending_outbox`: expire leases, then claim the oldest claimable messages. */
    method PendingOutbox(now: int, limit: nat, mint: map<MessageId, Token>) returns (claimed: seq<MessageId>)
      requires Valid() && forall id :: id in rows ==> id in mint
      modifies this`rows
      ensures Valid() && Distinct(claimed)
      ensures claimed == Take(Due(Swept(old(rows), now), order, now), limit)
      ensures forall id :: id in claimed ==> id in old(rows) && Claimable(Sweep(old(rows)[id], now), now)
      ensures OldestDue(old(rows), order, now, limit, claimed)
      ensures rows == ClaimStore(old(rows), now, PicksFor(claimed, mint))
    {
      hide Claimed, Claimable, Sweep, Due;
      ExpireLeases(now);
      DueIsClaimable(rows, order, now);
      claimed := SelectDue(rows, order, now, limit);
      TakesOldest(old(rows), order, now, limit);
      ClaimEach(claimed, now, mint);
    }

    /** A worker's report on a message it claimed; false stands for the raised error. */
    method Conclude(id: MessageId, token: Token, report: Report, now: int) returns (ok: bool)
      modifies this`rows
      ensures ok <==> id in old(rows) && HeldUnder(old(rows)[id], token)
      ensures rows == if ok then old(rows)[id := Concluded(old(rows)[id], report, now)] else old(rows)
    {
      if id !in rows || rows[id].state != Sending || rows[id].token.None? || rows[id].token.value != token {
        return false;
      }
      var m := rows[id];
      match report {
        case Sent => m := m.(deliveredAt := Some(now), state := Delivered);
        case Rejected => m := m.(state := if m.attempts >= MAX_ATTEMPTS then Dead else Failing,
                                 availableAt := now + Backoff(m.attempts));
        case Unknown => m := m.(state := Uncertain);
        case Refused => m := m.(state := Dead);
      }
      m := m.(claimedAt := None, token := None);
      rows := rows[id := m];
      ok := true;
    }

    /** The delivery loop: report on every claimed message as its attempt went. */
    method ReportEach(ids: seq<MessageId>, mint: map<MessageId, Token>, attempts: map<MessageId, Attempt>, now: int)
      returns (delivered: nat)
      requires Distinct(ids)
      requires forall id :: id in ids ==>
                 id in rows && id in mint && id in attempts && HeldUnder(rows[id], mint[id])
      modifies this`rows
      ensures rows.Keys == old(rows).Keys
      ensures forall id :: id in rows ==>
                rows[id] == if id in ids then Concluded(old(rows)[id], Classify(attempts[id]), now) else old(rows)[id]
      ensures delivered == DeliveredCount(ids, attempts)
    {
      hide Concluded, HeldUnder, Classify, DeliveredCount;
      delivered := 0;
      NoneDelivered(attempts);
      for i := 0 to |ids|
        invariant rows.Keys == old(rows).Keys
        invariant forall id :: id in rows ==>
          rows[id] == if id in ids[..i] then Concluded(old(rows)[id], Classify(attempts[id]), now) else old(rows)[id]
        invariant delivered == DeliveredCount(ids[..i], attempts)
      {
        var id := ids[i];
        assert id in ids && id !in ids[..i];
        assert ids[..i + 1] == ids[..i] + [id];
        NextDelivered(ids, i, attempts);
        var report := Classify(attempts[id]);
        var ok := Conclude(id, mint[id], report, now);
        if report == Sent {
          delivered := delivered + 1;
        }
      }
      assert ids[..|ids|] == ids;
    }

    /** `deliver_once` with no other worker in between: every due message is claimed once and
        ends as its attempt was classified; all others only lose expired leases. */
    method DeliverOnce(now: int, later: int, mint: map<MessageId, Token>, attempts: map<MessageId, Attempt>)
      returns (delivered: nat, claimed: seq<MessageId>)
      requires Valid() && forall id :: id in rows ==> id in mint && id in attempts
      modifies this`rows
      ensures Valid() && Distinct(claimed)
      ensures claimed == Take(Due(Swept(old(rows), now), order, now), BATCH_LIMIT)
      ensures rows.Keys == old(rows).Keys
      ensures forall id :: id in rows ==>
                rows[id] == if id in claimed
                            then Concluded(Claimed(Sweep(old(rows)[id], now), now, mint[id]), Classify(attempts[id]), later)
                            else Sweep(old(rows)[id], now)
      ensures delivered == DeliveredCount(claimed, attempts)
      ensures OldestDue(old(rows), order, now, 100, claimed)
      ensures forall id :: id in claimed ==> Ends(old(rows)[id], attempts[id], later, rows[id])
      ensures forall id :: id in rows && id !in claimed ==>
                var m := old(rows)[id];
                rows[id] == if m.state == Sending && m.claimedAt.Some? && now >= m.claimedAt.value + 30
                            then m.(state := Uncertain, token := None) else m
      ensures delivered == |AcceptedOf(claimed, attempts)|
    {
      hide Concluded, Sweep, Due, Claimable, DeliveredCount, Ends, AcceptedOf;
      claimed := PendingOutbox(now, BATCH_LIMIT, mint);
      delivered := ReportEach(claimed, mint, attempts, later);
      DeliveredAre(claimed, attempts);
      hide Claimed;
      forall id | id in rows
        ensures id in claimed ==> Ends(old(rows)[id], attempts[id], later, rows[id])
        ensures var m := old(rows)[id];
                Sweep(m, now) == if m.state == Sending && m.claimedAt.Some? && now >= m.claimedAt.value + 30
                                 then m.(state := Uncertain, token := None) else m
      {
        if id in claimed { AttemptEnds(old(rows)[id], now, mint[id], attempts[id], later); }
        SweptRow(old(rows)[id], now);
      }
    }
  }

  lemma SweptRow(m: Message, now: int)
    ensures Sweep(m, now) == if m.state == Sending && m.claimedAt.Some? && now >= m.claimedAt.value + 30
                             then m.(state := Uncertain, token := None) else m
  {
  }

  method SelectDue(rows: map<MessageId, Message>, order: seq<MessageId>, now: int, limit: nat)
    returns (ids: seq<MessageId>)
    ensures ids == Take(Due(rows, order, now), limit)
  {
    ids := [];
    for i := 0 to |order|
      invariant ids == Take(Due(rows, order[..i], now), limit)
    {
      assert order[..i + 1][..i] == order[..i];
      if |ids| < limit && order[i] in rows && Claimable(rows[order[i]], now) {
        ids := ids + [order[i]];
      }
    }
    assert order[..|order|] == order;
  }

  lemma NoneDelivered(attempts: map<MessageId, Attempt>)
    ensures DeliveredCount([], attempts) == 0
  {
  }

  lemma NextDelivered(ids: seq<MessageId>, i: nat, attempts: map<MessageId, Attempt>)
    requires i < |ids| && forall id :: id in ids ==> id in attempts
    ensures DeliveredCount(ids[..i + 1], attempts)
            == DeliveredCount(ids[..i], attempts) + if Classify(attempts[ids[i]]) == Sent then 1 else 0
  {
    assert ids[..i + 1][..i] == ids[..i];
  }

  /** The messages whose send was accepted. */
  ghost function AcceptedOf(ids: seq<MessageId>, attempts: map<MessageId, Attempt>): set<MessageId> {
    set id | id in ids && id in attempts && attempts[id] == Attempt.Accepted
  }

  lemma AcceptedAppend(ids: seq<MessageId>, last: MessageId, attempts: map<MessageId, Attempt>)
    requires last !in ids && last in attempts
    ensures |AcceptedOf(ids + [last], attempts)| == |AcceptedOf(ids, attempts)| + if attempts[last].Accepted? then 1 else 0
  {
    var before, after := AcceptedOf(ids, attempts), AcceptedOf(ids + [last], attempts);
    assert after == if attempts[last].Accepted? then before + {last} else before;
  }

  /** The count is that of the messages whose send was accepted. */
  lemma {:induction false} DeliveredAre(ids: seq<MessageId>, attempts: map<MessageId, Attempt>)
    requires Distinct(ids) && forall id :: id in ids ==> id in attempts
    ensures DeliveredCount(ids, attempts) == |AcceptedOf(ids, attempts)|
  {
    if ids == [] {
      assert AcceptedOf(ids, attempts) == {};
    } else {
      var front, last := ids[..|ids| - 1], ids[|ids| - 1];
      assert ids == front + [last];
      DeliveredAre(front, attempts);
      AcceptedAppend(front, last, attempts);
    }
  }
}
