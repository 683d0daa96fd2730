/** One stage of the ordered ingestion pipeline: a bounded queue fed by one producer, a
    worker that coalesces queued batches, and the list of pending batches kept for metrics.
    The environment is a script of producer moves and handler outcomes; it advances only
    where the program awaits. */
module StageWorker {
  import opened Options

  const MAX_EVENT_BATCH_SIZE := 1024

  type Event = nat

  /** `id` stands for the identity of the batch object; `at` is the clock reading it carries. */
  datatype Batch = Batch(id: nat, at: nat, events: seq<Event>)

  /** Equality as the queue's own methods test it. */
  predicate SameValue(a: Batch, b: Batch) {
    a.at == b.at && a.events == b.events
  }

  datatype Item = Work(batch: Batch) | Stop

  datatype Action =
    | Put(batch: Batch)
    | PutStop
    | PutResumes
    | CancelPut
    | HandlerReturns
    | HandlerRaises
    | CancelWorker

  datatype Exit = Returned | Raised | Waiting

  datatype Received = Got(item: Item) | Cancelled | NothingYet

  // ---------------------------------------------------------------------------
  // Sequences of batches.

  ghost function Works(queue: seq<Item>): seq<Batch> {
    if queue == [] then []
    else (if queue[0].Work? then [queue[0].batch] else []) + Works(queue[1..])
  }

  function Events(batches: seq<Batch>): seq<Event> {
    if batches == [] then [] else batches[0].events + Events(batches[1..])
  }

  function Flatten(inputs: seq<seq<Event>>): seq<Event> {
    if inputs == [] then [] else Flatten(inputs[..|inputs| - 1]) + inputs[|inputs| - 1]
  }

  /** No handler call exceeds the batch bound. */
  ghost predicate Fits(inputs: seq<seq<Event>>) {
    forall k :: 0 <= k < |inputs| ==> |inputs[k]| <= 1024
  }

  ghost function Optional(b: Option<Batch>): seq<Batch> {
    if b.Some? then [b.value] else []
  }

  ghost function Blocked(b: Option<Item>): seq<Batch> {
    if b.Some? && b.value.Work? then [b.value.batch] else []
  }

  function Pushed(b: Option<Item>): seq<Item> {
    if b.Some? then [b.value] else []
  }

  function Items(bs: seq<Batch>): seq<Item> {
    seq(|bs|, i requires 0 <= i < |bs| => Work(bs[i]))
  }

  lemma ItemsJoin(bs: seq<Batch>, cs: seq<Batch>)
    ensures Items(bs + cs) == Items(bs) + Items(cs)
  {
  }

  lemma ItemsOne(b: Batch)
    ensures Items([b]) == [Work(b)] && Items([]) == []
  {
  }

  lemma ItemsAppend(bs: seq<Batch>, b: Batch)
    ensures Items(bs + [b]) == Items(bs) + [Work(b)]
  {
  }

  /** No two batches have the same value, and all are of bounded size. */
  ghost predicate Sound(bs: seq<Batch>) {
    (forall i, j :: 0 <= i < j < |bs| ==> !SameValue(bs[i], bs[j]))
    && (forall i :: 0 <= i < |bs| ==> |bs[i].events| <= 1024)
  }

  lemma SoundAppend(bs: seq<Batch>, b: Batch)
    requires Sound(bs) && (forall x :: x in bs ==> !SameValue(x, b)) && |b.events| <= MAX_EVENT_BATCH_SIZE
    ensures Sound(bs + [b])
  {
  }

  lemma SoundSlice(bs: seq<Batch>)
    requires Sound(bs) && bs != []
    ensures Sound(bs[1..]) && Sound(bs[..|bs| - 1]) && |bs[0].events| <= MAX_EVENT_BATCH_SIZE
  {
  }

  lemma {:induction false} WorksAppend(queue: seq<Item>, item: Item)
    ensures Works(queue + [item]) == Works(queue) + Works([item])
  {
    if queue == [] {
      assert [] + [item] == [item];
    } else {
      WorksAppend(queue[1..], item);
      assert (queue + [item])[1..] == queue[1..] + [item];
    }
  }

  /** Taking the head of the queue moves it from the waiting part to the hand. */
  lemma HeadOf(queue: seq<Item>, waiting: Option<Item>, inHand: seq<Batch>)
    requires queue != []
    ensures var rest := Works(queue[1..]) + Blocked(waiting);
            var all := (inHand + []) + (Works(queue) + Blocked(waiting));
            if queue[0].Stop? then all == inHand + rest
            else all == (inHand + [queue[0].batch]) + rest
  {
    hide Works;
    WorksHead(queue);
    if queue[0].Work? {
      Regroup(inHand, queue[0].batch, Works(queue[1..]), Blocked(waiting));
    } else {
      assert inHand + [] == inHand && [] + Works(queue[1..]) == Works(queue[1..]);
    }
  }

  lemma MovesHead(front: seq<Item>, before: seq<Item>, after: seq<Item>, item: Item, waiting: Option<Item>)
    requires before == [item] + after
    ensures front + (before + Pushed(waiting)) == (front + [item]) + (after + Pushed(waiting))
  {
  }

  lemma UsesOne(used: seq<Action>, script: seq<Action>)
    requires script != []
    ensures (used + [script[0]]) + script[1..] == used + script
  {
  }

  lemma WorksHead(queue: seq<Item>)
    requires queue != []
    ensures Works(queue) == Blocked(Some(queue[0])) + Works(queue[1..])
  {
  }

  lemma Regroup(hand: seq<Batch>, b: Batch, works: seq<Batch>, blocked: seq<Batch>)
    ensures (hand + []) + (([b] + works) + blocked) == (hand + [b]) + (works + blocked)
  {
  }

  lemma FrontDone(item: Batch, rest: seq<Batch>, carried: seq<Batch>, behind: seq<Batch>, completed: seq<Batch>)
    ensures var all, left := (([item] + rest) + carried) + behind, (rest + carried) + behind;
            all[0] == item && all[1..] == left && completed + all == (completed + [item]) + left
  {
    assert (([item] + rest) + carried) + behind == [item] + ((rest + carried) + behind);
  }

  lemma WorksOne(item: Item)
    ensures Works([item]) == Blocked(Some(item))
  {
    assert [item][1..] == [];
  }

  lemma {:induction false} EventsAppend(bs: seq<Batch>, cs: seq<Batch>)
    ensures Events(bs + cs) == Events(bs) + Events(cs)
  {
    if bs == [] {
      assert [] + cs == cs;
    } else {
      assert (bs + cs)[1..] == bs[1..] + cs;
      EventsAppend(bs[1..], cs);
      assert bs[0].events + (Events(bs[1..]) + Events(cs)) == Events(bs) + Events(cs);
    }
  }

  lemma EventsOfNone()
    ensures Events([]) == [] && Flatten([]) == []
  {
  }

  lemma EventsOne(b: Batch)
    ensures Events([b]) == b.events
  {
    assert [b][1..] == [];
  }

  // ---------------------------------------------------------------------------

  class Stage {
    const capacity: nat
    var queue: seq<Item>
    /** A put waiting for room; one producer, so at most one. */
    var waiting: Option<Item>
    /** Items put and not yet marked done. */
    var unfinished: nat
    var pending: seq<Batch>
    var trackingError: bool
    /** What the environment still has to do. */
    var script: seq<Action>

    /** All batches enqueued so far, less cancelled puts. */
    ghost var offered: seq<Batch>
    /** The same puts with the stop requests among them, in order. */
    ghost var log: seq<Item>
    /** The part of the script that is over. */
    ghost var used: seq<Action>
    /** The batches completed so far, in order. */
    ghost var completed: seq<Batch>
    /** The arguments the handler has been called with. */
    ghost var inputs: seq<seq<Event>>

    constructor (capacity: nat, script: seq<Action>)
      requires capacity > 0
      ensures this.capacity == capacity && this.script == script
      ensures Tracked([], None) && Logged([])
      ensures inputs == [] && completed == [] && offered == [] && log == [] && used == []
    {
      this.capacity := capacity;
      this.script := script;
      queue, waiting, unfinished, pending, trackingError := [], None, 0, [], false;
      offered, completed, inputs, log, used := [], [], [], [], [];
    }

    /** What the worker has not taken yet. */
    ghost function Behind(): seq<Batch>
      reads this`queue, this`waiting
    {
      Works(queue) + Blocked(waiting)
    }

    /** The tracking invariant: pending is what the worker has in hand, then the carried
        batch, then the queue, then the blocked put; every item taken but not yet marked done
        is counted; nothing has been lost, duplicated or reordered. */
    ghost predicate Tracked(inHand: seq<Batch>, carried: Option<Batch>)
      reads this`queue, this`waiting, this`unfinished, this`pending, this`offered, this`completed, this`trackingError,
            this`inputs
    {
      pending == (inHand + Optional(carried)) + Behind()
      && unfinished == |inHand| + |Optional(carried)| + |queue|
      && |queue| <= capacity
      && offered == completed + pending
      && Sound(pending) && !trackingError && Fits(inputs)
    }

    /** What has been taken from the queue is `front`. */
    ghost predicate Logged(front: seq<Item>)
      reads this`log, this`queue, this`waiting
    {
      log == front + (queue + Pushed(waiting))
    }

    /** A producer move: `_enqueue_stage` up to the point where its put has finished or is
        waiting, a stop request, or the end of a waiting put. Moves that are not possible now
        are skipped; the clock tells batches with the same events apart. */
    method Produce(a: Action, ghost inHand: seq<Batch>, ghost carried: Option<Batch>, ghost front: seq<Item>)
      requires Tracked(inHand, carried) && Logged(front)
      modifies this`queue, this`waiting, this`unfinished, this`pending, this`offered, this`log
      ensures Tracked(inHand, carried) && Logged(front)
      ensures log == if a.Put? && old(waiting.None?) && old(IsNew(a.batch)) && |a.batch.events| <= 1024
                     then old(log) + [Work(a.batch)]
                     else if a.PutStop? && old(waiting.None?) then old(log) + [Stop]
                     else if a.CancelPut? && old(waiting.Some?) then old(log[..|log| - 1])
                     else old(log)
    {
      hide Works, Sound, Fits;
      if a.Put? && waiting.None? && IsNew(a.batch) && |a.batch.events| <= MAX_EVENT_BATCH_SIZE {
        ghost var ahead, behind := inHand + Optional(carried), Behind();
        SoundAppend(pending, a.batch);
        pending := pending + [a.batch];
        offered := offered + [a.batch];
        Offer(Work(a.batch), front);
        assert pending == (ahead + behind) + [a.batch] == ahead + (behind + [a.batch]);
      } else if a.PutStop? && waiting.None? {
        Offer(Stop, front);
      } else if a.PutResumes? && waiting.Some? && |queue| < capacity {
        ResumePut(front);
      } else if a.CancelPut? && waiting.Some? {
        CancelWaiting(inHand + Optional(carried), front);
      }
    }

    predicate IsNew(b: Batch)
      reads this`pending
    {
      forall x :: x in pending ==> !SameValue(x, b)
    }

    method ResumePut(ghost front: seq<Item>)
      requires waiting.Some? && |queue| < capacity && Logged(front)
      modifies this`queue, this`waiting, this`unfinished
      ensures Behind() == old(Behind()) && |queue| <= capacity && waiting.None? && Logged(front)
      ensures unfinished - |queue| == old(unfinished) - |old(queue)|
    {
      hide Works;
      WorksAppend(queue, waiting.value);
      WorksOne(waiting.value);
      queue, unfinished, waiting := queue + [waiting.value], unfinished + 1, None;
    }

    /** The exception path of `_enqueue_stage`: its batch leaves the pending list. */
    method CancelWaiting(ghost ahead: seq<Batch>, ghost front: seq<Item>)
      requires waiting.Some? && Sound(pending) && Logged(front)
      requires pending == ahead + Behind() && offered == completed + pending
      modifies this`waiting, this`pending, this`offered, this`log
      ensures Logged(front) && log == old(log[..|log| - 1])
      ensures pending == ahead + Behind() && offered == completed + pending && Sound(pending)
    {
      hide Works, Sound;
      if waiting.value.Work? {
        assert pending[|pending| - 1] == waiting.value.batch;
        RemoveLast(pending);
        SoundSlice(pending);
        pending := Remove(pending, waiting.value.batch);
        offered := offered[..|offered| - 1];
      }
      waiting := None;
      log := log[..|log| - 1];
    }

    /** `queue.put`: enter the queue, or wait for room. */
    method Offer(item: Item, ghost front: seq<Item>)
      requires waiting.None? && |queue| <= capacity && Logged(front)
      modifies this`queue, this`waiting, this`unfinished, this`log
      ensures Logged(front) && log == old(log) + [item]
      ensures |queue| <= capacity && Behind() == old(Behind()) + Blocked(Some(item))
      ensures unfinished - |queue| == old(unfinished) - |old(queue)|
    {
      hide Works;
      WorksAppend(queue, item);
      WorksOne(item);
      log := log + [item];
      if |queue| < capacity {
        queue, unfinished := queue + [item], unfinished + 1;
      } else {
        waiting := Some(item);
      }
    }

    /** `await queue.get()`: the environment moves while the queue is empty. */
    method Get(ghost carried: Option<Batch>, ghost front: seq<Item>) returns (r: Received)
      requires carried.None? && Tracked([], carried) && Logged(front)
      modifies this`queue, this`waiting, this`unfinished, this`pending, this`offered, this`script, this`log, this`used
      ensures |script| <= |old(script)| && used + script == old(used + script)
      ensures Logged(if r.Got? then front + [r.item] else front)
      ensures r.NothingYet? ==> script == [] && queue == []
      ensures r.Cancelled? ==> used != [] && used[|used| - 1] == CancelWorker
      ensures r.Got? && r.item.Work? ==> Tracked([r.item.batch], None)
      ensures r.Got? && r.item.Stop? ==> unfinished > 0 && TrackedButFor(1)
      ensures !r.Got? ==> Tracked([], None)
    {
      hide Works, Sound, Fits;
      while queue == []
        invariant Tracked([], None) && Logged(front)
        invariant |script| <= |old(script)| && used + script == old(used + script)
        decreases |script|
      {
        if script == [] { return NothingYet; }
        var a := script[0];
        UsesOne(used, script);
        used, script := used + [a], script[1..];
        if a.CancelWorker? { return Cancelled; }
        Produce(a, [], None, front);
      }
      r := Got(queue[0]);
      HeadOf(queue, waiting, []);
      MovesHead(front, queue, queue[1..], r.item, waiting);
      queue := queue[1..];
    }

    /** Tracked with nothing in hand, except that `extra` items still await their task_done. */
    ghost predicate TrackedButFor(extra: nat)
      reads this`queue, this`waiting, this`unfinished, this`pending, this`offered, this`completed, this`trackingError,
            this`inputs
    {
      pending == Behind()
      && unfinished == |queue| + extra
      && |queue| <= capacity
      && offered == completed + pending
      && Sound(pending) && !trackingError && Fits(inputs)
    }

    /** Waiting for the end of the script, ended by what the script said last. */
    ghost predicate EndsAs(exit: Exit)
      reads this`script, this`used
    {
      match exit
      case Waiting => script == []
      case Returned => used != [] && used[|used| - 1] == HandlerReturns
      case Raised => used != [] && used[|used| - 1] in {HandlerRaises, CancelWorker}
    }

    /** `await handler(...)`: the environment moves until the handler ends. */
    method AwaitHandler(input: seq<Event>, ghost inHand: seq<Batch>, ghost carried: Option<Batch>, ghost front: seq<Item>)
      returns (exit: Exit)
      requires Tracked(inHand, carried) && Logged(front) && |input| <= MAX_EVENT_BATCH_SIZE
      modifies this`queue, this`waiting, this`unfinished, this`pending, this`offered, this`script, this`inputs, this`log,
               this`used
      ensures Tracked(inHand, carried) && Logged(front) && inputs == old(inputs) + [input]
      ensures used + script == old(used + script) && EndsAs(exit)
      ensures |script| <= |old(script)| && (!exit.Waiting? ==> |script| < |old(script)|)
    {
      inputs := inputs + [input];
      hide Tracked, Logged;
      while script != []
        invariant Tracked(inHand, carried) && |script| <= |old(script)| && inputs == old(inputs) + [input]
        invariant Logged(front) && used + script == old(used + script)
        decreases |script|
      {
        var a := script[0];
        UsesOne(used, script);
        used, script := used + [a], script[1..];
        if a.HandlerReturns? { return Returned; }
        if a.HandlerRaises? || a.CancelWorker? { return Raised; }
        Produce(a, inHand, carried, front);
      }
      exit := Waiting;
    }

    /** `queue.get_nowait()` on a queue that is not empty. */
    method GetNowait(ghost inHand: seq<Batch>, ghost front: seq<Item>) returns (item: Item)
      requires Tracked(inHand, None) && queue != [] && Logged(front)
      modifies this`queue
      ensures |queue| == |old(queue)| - 1 && Logged(front + [item])
      ensures item.Work? ==> Tracked(inHand + [item.batch], None) && Tracked(inHand, Some(item.batch))
      ensures item.Stop? ==> pending == inHand + Behind() && unfinished == |inHand| + |queue| + 1
    {
      hide Sound, Fits, Works;
      item := queue[0];
      HeadOf(queue, waiting, inHand);
      MovesHead(front, queue, queue[1..], item, waiting);
      queue := queue[1..];
    }

    /** `_collect_stage_batch`: take queued batches while they fit. */
    method Collect(first: Batch, ghost before: seq<Item>) returns (items: seq<Batch>, carried: Option<Batch>, stopping: bool)
      requires Tracked([first], None) && Logged(before + [Work(first)])
      modifies this`queue, this`unfinished
      ensures Tracked(items, carried) && items != []
      ensures Logged(((before + Items(items)) + Items(Optional(carried))) + if stopping then [Stop] else [])
      ensures !(stopping && carried.Some?)
      ensures |Events(items)| <= 1024
      ensures carried.Some? ==> |Events(items)| + |carried.value.events| > 1024
      ensures carried.None? && !stopping ==> queue == []
      ensures items[0] == first
    {
      hide Sound, Fits, Events, Works;
      items, carried, stopping := [first], None, false;
      assert pending[0] == first;
      SoundSlice(pending);
      EventsOne(first);
      var total := |first.events|;
      assert before + Items([first]) == before + [Work(first)];
      while queue != []
        invariant Logged(before + Items(items))
        invariant Tracked(items, None) && items != [] && items[0] == first
        invariant total == |Events(items)| <= MAX_EVENT_BATCH_SIZE
        decreases |queue|
      {
        var candidate := GetNowait(items, before + Items(items));
        if candidate.Stop? {
          unfinished := unfinished - 1;
          stopping := true;
          assert (before + Items(items)) + Items([]) == before + Items(items);
          return;
        }
        var b := candidate.batch;
        if total + |b.events| > MAX_EVENT_BATCH_SIZE {
          carried := Some(b);
          assert Items([b]) == [Work(b)];
          assert ((before + Items(items)) + Items([b])) + [] == (before + Items(items)) + [Work(b)];
          return;
        }
        EventsAppend(items, [b]);
        ItemsAppend(items, b);
        assert (before + Items(items)) + [Work(b)] == before + (Items(items) + [Work(b)]);
        EventsOne(b);
        items := items + [b];
        total := total + |b.events|;
      }
      assert ((before + Items(items)) + Items([])) + [] == before + Items(items);
    }

    /** `_complete_stage`: pop the head, or report that the order was lost. */
    method CompleteStage(item: Batch)
      modifies this`pending, this`trackingError
      ensures old(pending) != [] && old(pending)[0] == item ==>
                pending == old(pending)[1..] && trackingError == old(trackingError)
      ensures !(old(pending) != [] && old(pending)[0] == item) ==>
                pending == Remove(old(pending), item) && trackingError
    {
      if pending != [] && pending[0] == item {
        pending := pending[1..];
      } else {
        trackingError := true;
        pending := Remove(pending, item);
      }
    }

    /** `task_done` and `_complete_stage` for the batch in front. */
    method Complete(item: Batch, ghost rest: seq<Batch>, ghost carried: Option<Batch>)
      requires Tracked([item] + rest, carried)
      modifies this`unfinished, this`pending, this`trackingError, this`completed
      ensures Tracked(rest, carried) && completed == old(completed) + [item]
    {
      hide Works, Sound, Fits;
      FrontDone(item, rest, Optional(carried), Behind(), completed);
      SoundSlice(pending);
      unfinished := unfinished - 1;
      CompleteStage(item);
      completed := completed + [item];
    }

    /** The release loop after a handler call. */
    method CompleteAll(items: seq<Batch>, ghost carried: Option<Batch>)
      requires Tracked(items, carried)
      modifies this`unfinished, this`pending, this`trackingError, this`completed
      ensures Tracked([], carried) && completed == old(completed) + items
    {
      assert items[0..] == items;
      for i := 0 to |items|
        invariant Tracked(items[i..], carried) && completed == old(completed) + items[..i]
      {
        assert items[i..] == [items[i]] + items[i + 1..];
        assert items[..i + 1] == items[..i] + [items[i]];
        Complete(items[i], items[i + 1..], carried);
      }
    }

    /** One turn of the worker: coalesce, call the handler, release the batches it was given. A
        stop request and a carried batch never come together, so the turn after a stop request,
        which would not coalesce, is never reached. */
    method Turn(first: Batch) returns (ended: Exit, ghost items: seq<Batch>, carried: Option<Batch>, stopping: bool)
      requires Tracked([first], None) && Flatten(inputs) == Events(completed)
      requires Logged(Items(completed) + [Work(first)])
      modifies this
      ensures |script| <= |old(script)| && (!ended.Waiting? ==> |script| < |old(script)|)
      ensures used + script == old(used + script) && EndsAs(ended)
      ensures !(stopping && carried.Some?)
      ensures ended.Waiting? ==>
                Tracked(items, carried) && Flatten(inputs) == Events(completed) + Events(items) && items != []
      ensures !ended.Waiting? ==>
                Tracked([], carried) && Flatten(inputs) == Events(completed)
                && Logged((Items(completed) + Items(Optional(carried))) + if stopping then [Stop] else [])
    {
      hide Works, Sound, Fits, Events, Items, Tracked, Logged, EndsAs;
      var batches;
      ghost var before := Items(completed);
      batches, carried, stopping := Collect(first, before);
      items := batches;
      ghost var given := inputs;
      ghost var front := ((before + Items(items)) + Items(Optional(carried))) + if stopping then [Stop] else [];
      ended := AwaitHandler(Events(batches), batches, carried, front);
      assert inputs[..|inputs| - 1] == given;
      if !ended.Waiting? {
        EventsAppend(completed, batches);
        ItemsJoin(completed, batches);
        CompleteAll(batches, carried);
      }
    }

    /** The exit path after a failure: a carried batch is released unseen. */
    method ReleaseCarried(carried: Option<Batch>) returns (ghost unseen: seq<Batch>)
      requires Tracked([], carried) && Flatten(inputs) == Events(completed)
      modifies this`unfinished, this`pending, this`trackingError, this`completed
      ensures Tracked([], None) && Flatten(inputs) + Events(unseen) == Events(completed) + Events([])
      ensures |unseen| <= 1
    {
      hide Works, Sound, Fits, Events, Flatten;
      unseen := [];
      EventsOfNone();
      if carried.Some? {
        unseen := [carried.value];
        EventsAppend(completed, unseen);
        assert Tracked([carried.value] + [], None);
        Complete(carried.value, [], None);
      }
    }

    lemma CarriedIsFirst(b: Batch)
      requires Tracked([], Some(b))
      ensures Tracked([b], None)
    {
    }

    lemma OfferedStarts(inHand: seq<Batch>, carried: Option<Batch>)
      requires Tracked(inHand, carried)
      ensures completed <= offered
    {
    }

    /** `task_done` for a stop request. */
    method StopDone()
      requires unfinished > 0 && TrackedButFor(1)
      modifies this`unfinished
      ensures Tracked([], None)
    {
      unfinished := unfinished - 1;
    }

    lemma StopsLog()
      requires Logged(Items(completed) + [Stop])
      ensures Items(completed) + [Stop] <= log
    {
    }

    /** `_run_stage_worker`. When it ends, on any path, nothing it took is left unmarked and
        the handler has been given exactly the completed batches, in order; only a batch
        carried past a failure is released unseen. It returns only at a stop request, with exactly
        the batches put before the first one completed; it raises only when the handler does or it
        is cancelled; and it waits with empty hands only for an empty queue. */
    method Run() returns (exit: Exit, ghost inHand: seq<Batch>, ghost carry: Option<Batch>, ghost unseen: seq<Batch>)
      requires Tracked([], None) && inputs == [] && completed == [] && Logged([]) && used == []
      modifies this
      ensures Tracked(inHand, carry) && completed <= offered
      ensures !exit.Waiting? ==> inHand == [] && carry == None
      ensures Flatten(inputs) + Events(unseen) == Events(completed) + Events(inHand)
      ensures |unseen| <= 1 && (unseen != [] ==> exit.Raised?)
      ensures used + script == old(script)
      ensures exit.Returned? ==> Items(completed) + [Stop] <= log
      ensures exit.Waiting? ==> script == [] && (inHand == [] ==> queue == [])
      ensures exit.Raised? ==> used != [] && used[|used| - 1] in {HandlerRaises, CancelWorker}
    {
      hide Works, Sound, Fits, Events, Flatten, Items, Tracked, Logged, TrackedButFor;
      var carried: Option<Batch> := None;
      var stopping := false;
      inHand, carry, unseen := [], None, [];
      EventsOfNone();
      ItemsOne(Batch(0, 0, []));
      OfferedStarts([], None);
      assert Items(completed) + Items(Optional(carried)) == [];
      while true
        invariant Tracked([], carried)
        invariant Flatten(inputs) == Events(completed)
        invariant !stopping && Logged(Items(completed) + Items(Optional(carried)))
        invariant used + script == old(script)
        decreases |script|
      {
        var first;
        if carried.Some? {
          first := carried.value;
          ItemsOne(first);
          CarriedIsFirst(first);
        } else {
          ghost var front := Items(completed);
          assert front + [] == front;
          var received := Get(carried, front);
          if received.Got? && received.item.Stop? {
            StopsLog();
            StopDone();
            OfferedStarts([], None);
            return Returned, [], None, [];
          }
          if !received.Got? {
            OfferedStarts([], None);
            exit := if received.Cancelled? then Raised else Waiting;
            return exit, [], None, [];
          }
          first := received.item.batch;
        }
        var ended;
        ended, inHand, carried, stopping := Turn(first);
        if ended.Waiting? {
          OfferedStarts(inHand, carried);
          return Waiting, inHand, carried, [];
        }
        if ended.Raised? {
          unseen := ReleaseCarried(carried);
          OfferedStarts([], None);
          return Raised, [], None, unseen;
        }
        ghost var done := Items(completed) + Items(Optional(carried));
        assert done + [] == done;
        if stopping && carried.None? {
          assert done == Items(completed);
          StopsLog();
          OfferedStarts([], None);
          return Returned, [], None, [];
        }
      }
    }
  }

  /** `deque.remove`: drop the first batch of the same value. */
  function Remove(bs: seq<Batch>, b: Batch): seq<Batch> {
    if bs == [] then [] else if SameValue(bs[0], b) then bs[1..] else [bs[0]] + Remove(bs[1..], b)
  }

  lemma {:induction false} RemoveLast(bs: seq<Batch>)
    requires bs != [] && Sound(bs)
    ensures Remove(bs, bs[|bs| - 1]) == bs[..|bs| - 1]
  {
    RemoveLastIff(bs);
  }

  /** Removing the newest batch by value takes away that very batch exactly when no earlier one
      has the same value; otherwise an earlier one goes in its place. */
  lemma {:induction false} RemoveLastIff(bs: seq<Batch>)
    requires bs != [] && forall i, j :: 0 <= i < j < |bs| ==> bs[i] != bs[j]
    ensures Remove(bs, bs[|bs| - 1]) == bs[..|bs| - 1] <==> forall i :: 0 <= i < |bs| - 1 ==> !SameValue(bs[i], bs[|bs| - 1])
  {
    var last := bs[|bs| - 1];
    if |bs| > 1 {
      var rest := bs[1..];
      assert rest[|rest| - 1] == last;
      if SameValue(bs[0], last) {
        assert bs[1..][|bs| - 2] == last;
        assert bs[..|bs| - 1][|bs| - 2] == bs[|bs| - 2];
      } else {
        RemoveLastIff(rest);
        assert bs[..|bs| - 1] == [bs[0]] + rest[..|rest| - 1];
        assert ([bs[0]] + Remove(rest, last))[1..] == Remove(rest, last);
        assert ([bs[0]] + rest[..|rest| - 1])[1..] == rest[..|rest| - 1];
        assert forall i :: 0 <= i < |bs| - 1 && i > 0 ==> bs[i] == rest[i - 1];
        assert forall i :: 0 <= i < |rest| - 1 ==> rest[i] == bs[i + 1];
      }
    }
  }
}
