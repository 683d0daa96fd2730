/** Per-protocol stream checkpoints written by the durable and the state worker: they only
    grow, and the state checkpoint never overtakes the durable one. */
module StreamCheckpoints {
  import opened Options
  import opened StringOrder

  datatype Stage = Durable | State

  datatype Event = Event(protocol: string, sequence: Option<nat>, signature: string, slot: nat)

  /** A checkpoint: a sequence number and the event it came from. */
  datatype Mark = Mark(sequence: nat, signature: Option<string>, slot: nat)

  datatype Row = Row(durable: Mark, state: Mark)

  type Table = map<string, Row>

  predicate Sequenced(events: seq<Event>) {
    forall i :: 0 <= i < |events| ==> events[i].sequence.Some?
  }

  function NumberOf(e: Event): nat {
    if e.sequence.Some? then e.sequence.value else 0
  }

  /** The event with the largest sequence per protocol in a batch, the first of them. */
  function Latest(events: seq<Event>): map<string, Event>
    requires Sequenced(events)
  {
    if events == [] then map[]
    else
      var rest, e := Latest(events[..|events| - 1]), events[|events| - 1];
      if e.protocol in rest && NumberOf(e) <= NumberOf(rest[e.protocol])
      then rest else rest[e.protocol := e]
  }

  const Unset := Mark(0, None, 0)

  function RowOf(t: Table, protocol: string): Row {
    if protocol in t then t[protocol] else Row(Unset, Unset)
  }

  function Newer(m: Mark, e: Event): Mark {
    if e.sequence.Some? && e.sequence.value > m.sequence then Mark(e.sequence.value, Some(e.signature), e.slot) else m
  }

  function Advance(r: Row, stage: Stage, e: Event): Row {
    match stage
    case Durable => r.(durable := Newer(r.durable, e))
    case State => r.(state := Newer(r.state, e))
  }

  function Saved(t: Table, events: seq<Event>, stage: Stage): Table
    requires Sequenced(events)
  {
    var latest := Latest(events);
    map protocol | protocol in t.Keys + latest.Keys ::
      if protocol in latest then Advance(RowOf(t, protocol), stage, latest[protocol]) else t[protocol]
  }

  /** `Latest` holds, per protocol, an event of the batch with the largest sequence. */
  lemma {:induction false} LatestIsMaximum(events: seq<Event>)
    requires Sequenced(events)
    ensures forall p :: p in Latest(events) ==>
              Latest(events)[p] in events && Latest(events)[p].protocol == p && Latest(events)[p].sequence.Some?
    ensures forall e :: e in events ==>
              e.protocol in Latest(events) && e.sequence.Some? && Latest(events)[e.protocol].sequence.Some?
              && e.sequence.value <= Latest(events)[e.protocol].sequence.value
  {
    if events != [] {
      var front := events[..|events| - 1];
      LatestIsMaximum(front);
      assert events == front + [events[|events| - 1]];
    }
  }

  /** Of several events with that sequence it holds the first. */
  lemma {:induction false} LatestIsFirst(events: seq<Event>, p: string) returns (i: nat)
    requires Sequenced(events) && p in Latest(events)
    ensures i < |events| && events[i] == Latest(events)[p] && events[i].protocol == p
    ensures forall j :: 0 <= j < i && events[j].protocol == p ==> events[j].sequence != events[i].sequence
  {
    var front, e := events[..|events| - 1], events[|events| - 1];
    if p in Latest(front) && Latest(events)[p] == Latest(front)[p] {
      i := LatestIsFirst(front, p);
    } else {
      i := |events| - 1;
      LatestIsMaximum(front);
      assert e.protocol == p;
      forall j | 0 <= j < i && events[j].protocol == p ensures events[j].sequence != e.sequence {
        assert events[j] in front;
      }
    }
  }

  /** After a save every checkpoint of the stage is the old one, or that of the first newest event of
      the batch, with its signature and slot; the other stage's is untouched. */
  lemma SavedIsOldOrNewest(t: Table, events: seq<Event>, stage: Stage, p: string)
    requires Sequenced(events) && p in Saved(t, events, stage)
    ensures var before, after := RowOf(t, p), Saved(t, events, stage)[p];
            var old', new' := if stage == Durable then before.durable else before.state,
                              if stage == Durable then after.durable else after.state;
            (if stage == Durable then after.state == before.state else after.durable == before.durable)
            && (new' == old'
                || exists i :: 0 <= i < |events| && events[i].protocol == p && events[i].sequence == Some(new'.sequence)
                               && (forall j :: 0 <= j < i && events[j].protocol == p ==> events[j].sequence != Some(new'.sequence))
                               && new' == Mark(new'.sequence, Some(events[i].signature), events[i].slot)
                               && new'.sequence > old'.sequence)
            && forall e :: e in events && e.protocol == p ==> e.sequence.value <= new'.sequence
  {
    hide Latest;
    LatestIsMaximum(events);
    if p in Latest(events) {
      var i := LatestIsFirst(events, p);
      assert events[i].protocol == p;
    }
  }

  class CheckpointTable {
    var rows: Table

    constructor ()
      ensures rows == map[]
    {
      rows := map[];
    }

    /** `save_stream_protocol_checkpoints`; an event without a sequence is refused before
        anything is written. */
    method Save(events: seq<Event>, stage: Stage) returns (ok: bool)
      modifies this
      ensures ok <==> Sequenced(events)
      ensures rows == if ok then Saved(old(rows), events, stage) else old(rows)
    {
      hide Latest, Sorted, Less, Advance, StrictlySorted;
      var latest;
      ok, latest := CollectLatest(events);
      if !ok { return; }
      var protocols := Sorted(latest.Keys);
      ghost var done: set<string> := {};
      for i := 0 to |protocols|
        invariant forall j :: 0 <= j < |protocols| ==> (protocols[j] in done <==> j < i)
        invariant done <= latest.Keys
        invariant forall p :: p in rows <==> p in old(rows) || p in done
        invariant forall p :: p in rows ==>
          rows[p] == if p in done then Advance(RowOf(old(rows), p), stage, latest[p]) else old(rows)[p]
      {
        var p := protocols[i];
        assert p in protocols;
        var row := AdvanceRow(RowOf(rows, p), stage, latest[p]);
        assert forall j :: 0 <= j < |protocols| && j != i ==> protocols[j] != p by { Distinct(protocols); }
        rows := rows[p := row];
        done := done + {p};
      }
      assert forall p :: p in latest ==> p in protocols && p in done;
    }
  }

  lemma Distinct(s: seq<string>)
    requires StrictlySorted(s)
    ensures forall i, j :: 0 <= i < |s| && 0 <= j < |s| && i != j ==> s[i] != s[j]
  {
    forall i, j | 0 <= i < |s| && 0 <= j < |s| && i != j ensures s[i] != s[j] {
      Irreflexive(s[i]);
      assert if i < j then Less(s[i], s[j]) else Less(s[j], s[i]);
    }
  }

  method CollectLatest(events: seq<Event>) returns (ok: bool, latest: map<string, Event>)
    ensures ok <==> Sequenced(events)
    ensures ok ==> latest == Latest(events)
  {
    latest := map[];
    for i := 0 to |events|
      invariant Sequenced(events[..i]) && latest == Latest(events[..i])
    {
      assert events[..i + 1][..i] == events[..i];
      var e := events[i];
      if e.sequence.None? { return false, latest; }
      if e.protocol !in latest || NumberOf(e) > NumberOf(latest[e.protocol]) {
        latest := latest[e.protocol := e];
      }
    }
    assert events[..|events|] == events;
    ok := true;
  }

  method AdvanceRow(before: Row, stage: Stage, e: Event) returns (row: Row)
    ensures row == Advance(before, stage, e)
  {
    row := before;
    var sequence := NumberOf(e);
    if stage == Durable && sequence > row.durable.sequence {
      row := row.(durable := Mark(sequence, Some(e.signature), e.slot));
    }
    if stage == State && sequence > row.state.sequence {
      row := row.(state := Mark(sequence, Some(e.signature), e.slot));
    }
  }

  // ---------------------------------------------------------------------------
  // The two workers.

  /** The table and the batches handed to the state worker but not yet applied. */
  datatype World = World(table: Table, queue: seq<seq<Event>>)

  datatype Action =
    | DurableBatch(events: seq<Event>, enqueued: bool)
    | StateBatch(count: nat, committed: bool)

  function Join(batches: seq<seq<Event>>): seq<Event> {
    if batches == [] then [] else Join(batches[..|batches| - 1]) + batches[|batches| - 1]
  }

  /** The durable worker saves its checkpoint before it enqueues the batch and may fail in
      between; the state worker coalesces queued batches and saves with its transaction, or
      drops them when that fails. */
  ghost predicate Step(w: World, a: Action, w': World) {
    match a
    case DurableBatch(events, enqueued) =>
      Sequenced(events)
      && w' == World(Saved(w.table, events, Durable), if enqueued then w.queue + [events] else w.queue)
    case StateBatch(count, committed) =>
      0 < count <= |w.queue| && Sequenced(Join(w.queue[..count]))
      && w' == World(if committed then Saved(w.table, Join(w.queue[..count]), State) else w.table, w.queue[count..])
  }

  ghost predicate Covered(t: Table, events: seq<Event>) {
    forall i :: 0 <= i < |events| ==>
      events[i].sequence.Some? ==> events[i].protocol in t && events[i].sequence.value <= t[events[i].protocol].durable.sequence
  }

  ghost predicate StateBehind(t: Table) {
    forall p {:trigger t[p]} :: p in t ==> t[p].state.sequence <= t[p].durable.sequence
  }

  ghost predicate Inv(w: World) {
    StateBehind(w.table) && forall i :: 0 <= i < |w.queue| ==> Covered(w.table, w.queue[i])
  }

  /** Rows stay and their checkpoints never move back. */
  ghost predicate Grows(t: Table, t': Table) {
    forall p {:trigger t[p]} :: p in t ==> p in t' && t[p].durable.sequence <= t'[p].durable.sequence && t[p].state.sequence <= t'[p].state.sequence
  }

  lemma SavedGrows(t: Table, events: seq<Event>, stage: Stage)
    requires Sequenced(events)
    ensures Grows(t, Saved(t, events, stage))
  {
    hide Latest;
  }

  lemma DurableCovers(t: Table, events: seq<Event>)
    requires Sequenced(events)
    ensures Covered(Saved(t, events, Durable), events)
  {
    hide Latest;
    LatestIsMaximum(events);
  }

  lemma StaysCovered(t: Table, t': Table, events: seq<Event>)
    requires Covered(t, events) && Grows(t, t')
    ensures Covered(t', events)
  {
    forall i | 0 <= i < |events| && events[i].sequence.Some?
      ensures events[i].protocol in t' && events[i].sequence.value <= t'[events[i].protocol].durable.sequence
    {
      var p := events[i].protocol;
      assert t[p].durable.sequence <= t'[p].durable.sequence;
    }
  }

  lemma {:induction false} JoinCovered(t: Table, batches: seq<seq<Event>>)
    requires forall i :: 0 <= i < |batches| ==> Covered(t, batches[i])
    ensures Covered(t, Join(batches))
  {
    if batches != [] {
      JoinCovered(t, batches[..|batches| - 1]);
      assert Covered(t, batches[|batches| - 1]);
    }
  }

  lemma StateSaveStaysBehind(t: Table, events: seq<Event>)
    requires Sequenced(events) && Covered(t, events) && StateBehind(t)
    ensures StateBehind(Saved(t, events, State))
  {
    hide Latest;
    LatestIsMaximum(events);
    var t' := Saved(t, events, State);
    forall p | p in t' ensures t'[p].state.sequence <= t'[p].durable.sequence {
      if p in Latest(events) {
        var i :| 0 <= i < |events| && events[i] == Latest(events)[p];
        assert t[p].state.sequence <= t[p].durable.sequence;
      } else {
        assert t[p].state.sequence <= t[p].durable.sequence;
      }
    }
  }

  lemma DurableSaveStaysBehind(t: Table, events: seq<Event>)
    requires Sequenced(events) && StateBehind(t)
    ensures StateBehind(Saved(t, events, Durable))
  {
    hide Latest;
    var t' := Saved(t, events, Durable);
    forall p | p in t' ensures t'[p].state.sequence <= t'[p].durable.sequence {
      if p in t { assert t[p].state.sequence <= t[p].durable.sequence; }
    }
  }

  lemma StepKeepsInv(w: World, a: Action, w': World)
    requires Inv(w) && Step(w, a, w')
    ensures Inv(w') && Grows(w.table, w'.table)
  {
    hide Saved, Covered, StateBehind, Join, Sequenced;
    if a.DurableBatch? {
      SavedGrows(w.table, a.events, Durable);
      DurableCovers(w.table, a.events);
      DurableSaveStaysBehind(w.table, a.events);
    } else {
      var batch := Join(w.queue[..a.count]);
      assert forall i :: 0 <= i < a.count ==> w.queue[..a.count][i] == w.queue[i];
      JoinCovered(w.table, w.queue[..a.count]);
      SavedGrows(w.table, batch, State);
      StateSaveStaysBehind(w.table, batch);
    }
    forall i | 0 <= i < |w'.queue| ensures Covered(w'.table, w'.queue[i]) {
      var j := if a.DurableBatch? then i else i + a.count;
      if j < |w.queue| {
        assert w'.queue[i] == w.queue[j];
        StaysCovered(w.table, w'.table, w.queue[j]);
      }
    }
  }

  ghost predicate IsRun(ws: seq<World>, acts: seq<Action>) {
    |ws| == |acts| + 1 && ws[0] == World(map[], [])
    && forall i :: 0 <= i < |acts| ==> Step(ws[i], acts[i], ws[i + 1])
  }

  /** Over every run the state checkpoint of a protocol is at most its durable checkpoint. */
  lemma {:induction false} StateNeverAhead(ws: seq<World>, acts: seq<Action>, k: nat)
    requires IsRun(ws, acts) && k < |ws|
    ensures Inv(ws[k])
    ensures forall p :: p in ws[k].table ==> ws[k].table[p].state.sequence <= ws[k].table[p].durable.sequence
  {
    hide Step;
    if k > 0 {
      StateNeverAhead(ws, acts, k - 1);
      StepKeepsInv(ws[k - 1], acts[k - 1], ws[k]);
    }
  }

  /** Over every run no checkpoint moves backwards. */
  lemma {:induction false} CheckpointsNeverMoveBack(ws: seq<World>, acts: seq<Action>, i: nat, j: nat)
    requires IsRun(ws, acts) && i <= j < |ws|
    ensures Grows(ws[i].table, ws[j].table)
    decreases j
  {
    hide Step, Inv;
    if i < j {
      CheckpointsNeverMoveBack(ws, acts, i, j - 1);
      StateNeverAhead(ws, acts, j - 1);
      StepKeepsInv(ws[j - 1], acts[j - 1], ws[j]);
      var t, u, v := ws[i].table, ws[j - 1].table, ws[j].table;
      forall p | p in t ensures p in v && t[p].durable.sequence <= v[p].durable.sequence && t[p].state.sequence <= v[p].state.sequence {
        assert t[p].durable.sequence <= u[p].durable.sequence;
        assert u[p].durable.sequence <= v[p].durable.sequence;
      }
    }
  }
}
