/** The delivery loops of any number of workers over the message outbox, interleaved step by
    step: each claim is handed to the messenger at most once. */
module OutboxWorkers {
  import opened Options
  import opened Sums
  import opened Outbox

  type WorkerId = nat

  /** A claimed message a delivery loop still has to deal with. */
  datatype Job = Job(id: MessageId, token: Token)

  /** The rest of a worker's loop, and whether its head has been handed to the messenger. */
  datatype Worker = Worker(jobs: seq<Job>, handed: bool)

  /** `log` lists the tokens under which something was handed to the messenger, in order. */
  datatype System = System(w: World, workers: map<WorkerId, Worker>, log: seq<Token>)

  datatype Move =
    | Poll(who: WorkerId, now: int, picks: map<MessageId, Token>, order: seq<MessageId>)
    | Hand(who: WorkerId)
    | ReportHead(who: WorkerId, attempt: Attempt, now: int)
    | Stop(who: WorkerId)
    | Outside(action: Action)

  const Resting := Worker([], false)

  function JobsFor(order: seq<MessageId>, picks: map<MessageId, Token>): seq<Job>
    requires forall id :: id in order ==> id in picks
  {
    seq(|order|, i requires 0 <= i < |order| && order[i] in order => Job(order[i], picks[order[i]]))
  }

  ghost predicate Enumerates(order: seq<MessageId>, picks: map<MessageId, Token>) {
    (forall id :: id in order <==> id in picks)
    && (forall i, j :: 0 <= i < j < |order| ==> order[i] != order[j])
  }

  /** A loop starts with a poll, hands its head to the messenger at most once before it reports on
      it, goes on to the next message when the report is accepted, and is left with an error
      when it is not. A message blocked by policy or without text is not handed over. Operators
      act in between. */
  ghost predicate Step(s: System, m: Move, s': System) {
    match m
    case Poll(who, now, picks, order) =>
      who in s.workers && s.workers[who].jobs == [] && Picks(s.w, now, picks) && Enumerates(order, picks)
      && s' == System(s.w.(store := ClaimStore(s.w.store, now, picks), issued := Issue(s.w.issued, picks)),
                      s.workers[who := Worker(JobsFor(order, picks), false)], s.log)
    case Hand(who) =>
      who in s.workers && s.workers[who].jobs != [] && !s.workers[who].handed
      && var job := s.workers[who].jobs[0];
      s' == System(s.w.(sent := s.w.sent + {job.token}), s.workers[who := s.workers[who].(handed := true)],
                   s.log + [job.token])
    case ReportHead(who, attempt, now) =>
      who in s.workers && s.workers[who].jobs != []
      && (attempt in {Accepted, RuntimeFailure, OtherFailure} ==> s.workers[who].handed)
      && (attempt in {BlockedByPolicy, EmptyText} ==> !s.workers[who].handed)
      && var jobs, report := s.workers[who].jobs, Classify(attempt);
      var held := jobs[0].id in s.w.store && HeldUnder(s.w.store[jobs[0].id], jobs[0].token);
      s' == s.(w := if held
                    then s.w.(store := s.w.store[jobs[0].id := Concluded(s.w.store[jobs[0].id], report, now)]) else s.w,
               workers := s.workers[who := if held then Worker(jobs[1..], false) else Resting])
    case Stop(who) =>
      who in s.workers && s' == s.(workers := s.workers[who := Resting])
    case Outside(a) =>
      (a.Add? || a.Resolve?) && Outbox.Step(s.w, a, s'.w) && s' == s.(w := s'.w)
  }

  // ---------------------------------------------------------------------------
  // The invariant.

  /** The job a loop holds at a place. */
  ghost predicate Holds(s: System, p: WorkerId, i: nat, t: Token) {
    p in s.workers && i < |s.workers[p].jobs| && s.workers[p].jobs[i].token == t
  }

  ghost predicate JobsInv(s: System) {
    (forall p, i, t :: Holds(s, p, i, t) ==> t in s.w.issued)
    && (forall p, i, q, j, t :: Holds(s, p, i, t) && Holds(s, q, j, t) ==> p == q && i == j)
    && (forall p, i, t :: Holds(s, p, i, t) && t in s.log ==> i == 0 && s.workers[p].handed)
  }

  ghost predicate LogInv(s: System) {
    (forall t :: t in s.log <==> t in s.w.sent)
    && (forall i, j :: 0 <= i < j < |s.log| ==> s.log[i] != s.log[j])
  }

  ghost predicate SystemInv(s: System) {
    Inv(s.w) && JobsInv(s) && LogInv(s)
  }

  // ---------------------------------------------------------------------------
  // Every move keeps it.

  lemma PollKeepsInv(s: System, m: Move, s': System)
    requires SystemInv(s) && m.Poll? && Step(s, m, s')
    ensures SystemInv(s')
  {
    hide MessageInv, ClaimStore, TokensOf, Issue;
    ClaimKeepsInv(s.w, m.now, m.picks, s'.w);
    IssuedAfter(s.w.issued, m.picks);
    var jobs := JobsFor(m.order, m.picks);
    assert forall i :: 0 <= i < |jobs| ==> m.order[i] in m.order && jobs[i].token == m.picks[m.order[i]];
    forall p, i, q, j, t | Holds(s', p, i, t) && Holds(s', q, j, t) ensures p == q && i == j {
      if p != m.who { assert Holds(s, p, i, t); }
      if q != m.who { assert Holds(s, q, j, t); }
    }
    forall p, i, t | Holds(s', p, i, t) ensures t in s'.w.issued && (t in s'.log ==> i == 0 && s'.workers[p].handed) {
      if p != m.who { assert Holds(s, p, i, t); }
    }
  }

  lemma IssuedAfter(issued: map<Token, MessageId>, picks: map<MessageId, Token>)
    requires forall a, b :: a in picks && b in picks && picks[a] == picks[b] ==> a == b
    ensures forall t :: t in issued ==> t in Issue(issued, picks)
    ensures forall id :: id in picks ==> picks[id] in Issue(issued, picks)
  {
    var more := map id | id in picks :: picks[id] := id;
    assert forall id :: id in picks ==> picks[id] in more;
  }

  lemma HandKeepsInv(s: System, m: Move, s': System)
    requires SystemInv(s) && m.Hand? && Step(s, m, s')
    ensures SystemInv(s')
    ensures s.workers[m.who].jobs[0].token !in s.w.sent
  {
    hide MessageInv;
    var token := s.workers[m.who].jobs[0].token;
    assert Holds(s, m.who, 0, token);
    SendKeepsInv(s.w, token, s'.w);
    forall p, i, t | Holds(s', p, i, t) ensures Holds(s, p, i, t) {
    }
  }

  lemma LoopKeepsInv(s: System, m: Move, s': System)
    requires SystemInv(s) && (m.ReportHead? || m.Stop?) && Step(s, m, s')
    ensures SystemInv(s')
  {
    hide MessageInv, Concluded, HeldUnder;
    if m.ReportHead? {
      var job := s.workers[m.who].jobs[0];
      ConcludeKeepsInv(s.w, job.id, job.token, Classify(m.attempt), m.now, s'.w);
    }
    hide Inv;
    var shift := if m.ReportHead? && s'.workers[m.who].jobs != [] then 1 else 0;
    forall p: WorkerId, i: nat, t: Token | Holds(s', p, i, t)
      ensures Holds(s, p, if p == m.who then i + shift else i, t)
    {
    }
  }

  lemma OutsideKeepsInv(s: System, m: Move, s': System)
    requires SystemInv(s) && m.Outside? && Step(s, m, s')
    ensures SystemInv(s')
  {
    hide Inv, Outbox.Step;
    Outbox.StepKeepsInv(s.w, m.action, s'.w);
    OutsideLeaves(s.w, m.action, s'.w);
    forall p, i, t ensures Holds(s', p, i, t) <==> Holds(s, p, i, t) {
    }
  }

  lemma OutsideLeaves(w: World, a: Action, w': World)
    requires (a.Add? || a.Resolve?) && Outbox.Step(w, a, w')
    ensures w'.issued == w.issued && w'.sent == w.sent
  {
  }

  lemma MoveKeepsInv(s: System, m: Move, s': System)
    requires SystemInv(s) && Step(s, m, s')
    ensures SystemInv(s')
  {
    hide Step, SystemInv;
    match m
    case Poll(_, _, _, _) => PollKeepsInv(s, m, s');
    case Hand(_) => HandKeepsInv(s, m, s');
    case Outside(_) => OutsideKeepsInv(s, m, s');
    case _ => LoopKeepsInv(s, m, s');
  }

  /** Every move of the loops is a step of the outbox protocol, or leaves it as it is; in
      particular no loop ever hands over under a token a second time. */
  lemma MovesAreSteps(s: System, m: Move, s': System)
    requires SystemInv(s) && Step(s, m, s')
    ensures s'.w == s.w || exists a :: Outbox.Step(s.w, a, s'.w)
  {
    hide Inv, JobsInv, LogInv;
    match m
    case Poll(_, now, picks, _) => assert Outbox.Step(s.w, ClaimBatch(now, picks), s'.w);
    case Hand(who) =>
      var token := s.workers[who].jobs[0].token;
      HeadIsIssued(s, who);
      HandKeepsInv(s, m, s');
      assert Outbox.Step(s.w, Send(token), s'.w);
    case ReportHead(who, attempt, now) =>
      var job := s.workers[who].jobs[0];
      assert Outbox.Step(s.w, Conclude(job.id, job.token, Classify(attempt), now), s'.w);
    case Stop(_) =>
    case Outside(a) => assert Outbox.Step(s.w, a, s'.w);
  }

  lemma HeadIsIssued(s: System, who: WorkerId)
    requires SystemInv(s) && who in s.workers && s.workers[who].jobs != []
    ensures s.workers[who].jobs[0].token in s.w.issued
  {
    assert Holds(s, who, 0, s.workers[who].jobs[0].token);
  }

  // ---------------------------------------------------------------------------
  // Whole runs.

  ghost predicate IsRun(ss: seq<System>, ms: seq<Move>) {
    |ss| == |ms| + 1 && Init(ss[0].w) && ss[0].log == [] && (forall p :: p in ss[0].workers ==> ss[0].workers[p] == Resting)
    && forall i :: 0 <= i < |ms| ==> Step(ss[i], ms[i], ss[i + 1])
  }

  lemma {:induction false} RunKeepsInv(ss: seq<System>, ms: seq<Move>, k: nat)
    requires IsRun(ss, ms) && k < |ss|
    ensures SystemInv(ss[k])
  {
    hide Step;
    if k > 0 {
      RunKeepsInv(ss, ms, k - 1);
      MoveKeepsInv(ss[k - 1], ms[k - 1], ss[k]);
    }
  }

  /** Places in the log that belong to a message. */
  ghost function SendsOf(log: seq<Token>, issued: map<Token, MessageId>, id: MessageId): set<nat> {
    set i: nat | i < |log| && log[i] in issued && issued[log[i]] == id
  }

  ghost function TokensIn(log: seq<Token>, issued: map<Token, MessageId>, id: MessageId): set<Token> {
    set t | t in log && t in issued && issued[t] == id
  }

  lemma OneMoreSend(front: seq<Token>, last: Token, issued: map<Token, MessageId>, id: MessageId)
    requires last !in front
    ensures var own := last in issued && issued[last] == id;
            |SendsOf(front + [last], issued, id)| == |SendsOf(front, issued, id)| + (if own then 1 else 0)
            && |TokensIn(front + [last], issued, id)| == |TokensIn(front, issued, id)| + if own then 1 else 0
  {
    var n, log := |front|, front + [last];
    var places, tokens := SendsOf(front, issued, id), TokensIn(front, issued, id);
    if last in issued && issued[last] == id {
      assert SendsOf(log, issued, id) == places + {n};
      assert TokensIn(log, issued, id) == tokens + {last};
    } else {
      assert SendsOf(log, issued, id) == places;
      assert TokensIn(log, issued, id) == tokens;
    }
  }

  /** Without repetition there are as many sends as tokens sent. */
  lemma {:induction false} SendsAreTokens(log: seq<Token>, issued: map<Token, MessageId>, id: MessageId)
    requires forall i, j :: 0 <= i < j < |log| ==> log[i] != log[j]
    ensures |SendsOf(log, issued, id)| == |TokensIn(log, issued, id)|
  {
    if log == [] {
      assert SendsOf(log, issued, id) == {} && TokensIn(log, issued, id) == {};
    } else {
      hide SendsOf, TokensIn;
      var front, last := log[..|log| - 1], log[|log| - 1];
      assert log == front + [last];
      SendsAreTokens(front, issued, id);
      OneMoreSend(front, last, issued, id);
    }
  }

  /** Over every interleaving of delivery loops, stops and operators, the messenger gets a message
      at most once per claim, and at most ten times plus once per operator retry. */
  lemma SendsAreBounded(ss: seq<System>, ms: seq<Move>, k: nat, id: MessageId)
    requires IsRun(ss, ms) && k < |ss| && id in ss[k].w.store
    ensures var s := ss[k];
            id in s.w.retries
            && |SendsOf(s.log, s.w.issued, id)| <= s.w.store[id].attempts <= 10 + s.w.retries[id]
    ensures forall i, j :: 0 <= i < j < |ss[k].log| ==> ss[k].log[i] != ss[k].log[j]
  {
    hide IsRun, JobsInv, SendsOf;
    RunKeepsInv(ss, ms, k);
    var s := ss[k];
    assert MessageInv(s.w.store[id], id, s.w.issued, s.w.retries[id]);
    SendsAreTokens(s.log, s.w.issued, id);
    SubsetIsSmaller(TokensIn(s.log, s.w.issued, id), TokensOf(s.w.issued, id));
  }

  // ---------------------------------------------------------------------------
  // A send of unknown outcome.

  ghost predicate PicksMessage(m: Move, id: MessageId) {
    m.Poll? && id in m.picks
  }

  predicate OperatorRetries(m: Move, id: MessageId) {
    m.Outside? && Retries(m.action, id)
  }

  lemma UnclaimableMove(s: System, m: Move, s': System, id: MessageId)
    requires SystemInv(s) && Step(s, m, s') && Unclaimable(s.w, id)
    ensures !PicksMessage(m, id) && (!OperatorRetries(m, id) ==> Unclaimable(s'.w, id))
  {
    hide JobsInv, LogInv, TokensOf, Backoff, Issue;
    assert MessageInv(s.w.store[id], id, s.w.issued, s.w.retries[id]);
  }

  lemma {:induction false} StaysUnclaimable(ss: seq<System>, ms: seq<Move>, i: nat, j: nat, id: MessageId)
    requires IsRun(ss, ms) && i <= j < |ss| && Unclaimable(ss[i].w, id)
    requires forall k :: i <= k < j ==> !OperatorRetries(ms[k], id)
    ensures Unclaimable(ss[j].w, id)
    decreases j
  {
    hide Step, SystemInv, OperatorRetries, Unclaimable;
    if i < j {
      StaysUnclaimable(ss, ms, i, j - 1, id);
      RunKeepsInv(ss, ms, j - 1);
      assert Step(ss[j - 1], ms[j - 1], ss[j - 1 + 1]);
      UnclaimableMove(ss[j - 1], ms[j - 1], ss[j], id);
    }
  }

  lemma UnknownIsUncertain(s: System, m: Move, s': System, job: Job)
    requires Step(s, m, s') && m.ReportHead? && m.attempt == OtherFailure && job == s.workers[m.who].jobs[0]
    requires job.id in s.w.store && s.w.store[job.id].state == Sending && s.w.store[job.id].token == Some(job.token)
    ensures job.id in s'.w.store && s'.w.store[job.id].state == Uncertain
  {
  }

  /** Over every interleaving of delivery loops, a message whose send ended in an unknown way is
      claimed by no loop until an operator has chosen to retry it. */
  lemma UnknownWaitsForOperator(ss: seq<System>, ms: seq<Move>, i: nat, j: nat, job: Job)
    requires IsRun(ss, ms) && i < j < |ms| && ms[i].ReportHead? && ms[i].attempt == OtherFailure
    requires ms[i].who in ss[i].workers && ss[i].workers[ms[i].who].jobs != [] && ss[i].workers[ms[i].who].jobs[0] == job
    requires job.id in ss[i].w.store && ss[i].w.store[job.id].state == Sending
    requires ss[i].w.store[job.id].token == Some(job.token) && PicksMessage(ms[j], job.id)
    ensures exists k :: i < k < j && OperatorRetries(ms[k], job.id)
  {
    hide Step, SystemInv, OperatorRetries;
    assert Step(ss[i], ms[i], ss[i + 1]) && Step(ss[j], ms[j], ss[j + 1]);
    UnknownIsUncertain(ss[i], ms[i], ss[i + 1], job);
    if forall k :: i < k < j ==> !OperatorRetries(ms[k], job.id) {
      StaysUnclaimable(ss, ms, i + 1, j, job.id);
      RunKeepsInv(ss, ms, j);
      UnclaimableMove(ss[j], ms[j], ss[j + 1], job.id);
    }
  }
}
