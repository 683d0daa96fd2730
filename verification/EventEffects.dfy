/** The state an event leaves behind and the completion of its claim are one transaction. Over any
    number of processes, take-overs, crashes and commits of unknown outcome, the state tables hold
    the writes of exactly the PROCESSED events, each once. */
module EventEffects {
  import opened Options
  import E = EventClaims
  import P = ClaimProtocol
  import S = StateBatch

  /** What handling an event writes; a write outside event handling has no event. */
  datatype Work = Work(event: Option<E.EventId>, writes: seq<S.Write>)

  /** `open` holds what a process has staged in its open batch, next to the completions that
      `claims` holds for it; `log` remembers what has landed. */
  datatype World = World(claims: P.World, tables: S.Db, open: map<P.ProcessId, seq<Work>>, log: seq<Work>)

  /** A protocol step is a claim, a failure, a release or a crash. */
  datatype Action =
    | Protocol(step: P.Action)
    | Handle(who: P.ProcessId, event: E.EventId, writes: seq<S.Write>)
    | CommitBatch(who: P.ProcessId, at: int, flush: seq<S.Write>, fate: E.Fate)
    | WriteAlone(write: S.Write, landed: bool)

  function Writes(works: seq<Work>): seq<S.Write> {
    if works == [] then [] else Writes(works[..|works| - 1]) + works[|works| - 1].writes
  }

  /** The transaction of one event writes in call order, that of a batch coalesces. */
  ghost predicate Executes(rank: S.Rank, ws: seq<S.Write>, fs: seq<S.Write>) {
    fs == ws || S.IsFlush(rank, ws, fs)
  }

  /** A violated foreign key fails the body like any other raise. */
  function Ending(tables: S.Db, flush: seq<S.Write>, fate: E.Fate): E.Fate {
    if S.ApplyAll(tables, flush).Applied? then fate else E.BodyFailed(true)
  }

  /** The batch lands: its upserts go through, every claim is still owned, and so does the commit. */
  ghost predicate BatchLands(w: World, a: Action)
    requires a.CommitBatch?
  {
    a.who in w.claims.local && P.Lands(Ending(w.tables, a.flush, a.fate))
    && E.AllOwned(w.claims.store, w.claims.local[a.who].staged)
  }

  /** The completions are written after the upserts, in the same transaction. An accepted event is
      handled once in a batch. */
  ghost predicate Step(rank: S.Rank, w: World, a: Action, w': World) {
    match a
    case Protocol(p) =>
      !p.Stage? && !p.FlushBatch? && !p.MarkProcessed?
      && P.Step(w.claims, p, w'.claims) && w'.tables == w.tables && w'.log == w.log
      && w'.open == if p.Crash? then w.open[p.who := []] else w.open
    case Handle(who, e, writes) =>
      who in w.open && P.Step(w.claims, P.Stage(who, e), w'.claims) && e !in w.claims.local[who].staged
      && w'.tables == w.tables && w'.log == w.log
      && w'.open == w.open[who := w.open[who] + [Work(Some(e), writes)]]
    case CommitBatch(who, at, flush, fate) =>
      who in w.open && Executes(rank, Writes(w.open[who]), flush)
      && P.Step(w.claims, P.FlushBatch(who, at, Ending(w.tables, flush, fate)), w'.claims)
      && w'.tables == (if BatchLands(w, a) then S.ApplyAll(w.tables, flush).db else w.tables)
      && w'.log == (if BatchLands(w, a) then w.log + w.open[who] else w.log)
      && w'.open == w.open[who := []]
    case WriteAlone(write, landed) =>
      var applied := S.ApplyAll(w.tables, [write]);
      w' == if landed && applied.Applied? then w.(tables := applied.db, log := w.log + [Work(None, [write])]) else w
  }

  ghost predicate Init(w: World) {
    P.Init(w.claims) && w.open.Keys == w.claims.local.Keys && w.log == []
    && forall p :: p in w.open ==> w.open[p] == []
  }

  ghost predicate IsRun(rank: S.Rank, ws: seq<World>, acts: seq<Action>) {
    |ws| == |acts| + 1 && Init(ws[0])
    && forall i :: 0 <= i < |acts| ==> Step(rank, ws[i], acts[i], ws[i + 1])
  }

  // ---------------------------------------------------------------------------
  // One batch.

  /** Either everything of a batch is there or nothing is. */
  lemma BatchIsAtomic(rank: S.Rank, w: World, a: Action, w': World)
    requires Step(rank, w, a, w') && a.CommitBatch?
    ensures a.who in w.claims.local
    ensures BatchLands(w, a) ==>
              S.ApplyAll(w.tables, a.flush) == S.Applied(w'.tables)
              && forall e :: e in w.claims.local[a.who].staged ==> P.IsProcessed(w'.claims, e)
    ensures !BatchLands(w, a) ==> w'.tables == w.tables && w'.claims.store == w.claims.store
  {
    hide S.ApplyAll, Executes;
  }

  /** A batch with one claim that another process now holds leaves the state tables as they were,
      as it does the claims. */
  lemma SupersededBatchLeavesState(rank: S.Rank, w: World, a: Action, w': World, e: E.EventId)
    requires P.Inv(w.claims) && Step(rank, w, a, w') && a.CommitBatch? && a.who in w.claims.local
    requires e in w.claims.local[a.who].staged && exists q :: q != a.who && P.HoldsClaim(w.claims, q, e)
    ensures w'.tables == w.tables && w'.claims.store == w.claims.store && w'.log == w.log
  {
    hide S.ApplyAll, Executes, P.Inv;
    if BatchLands(w, a) {
      assert P.HoldsClaim(w.claims, a.who, e);
      var q :| q != a.who && P.HoldsClaim(w.claims, q, e);
      P.OneHolder(w.claims, a.who, q, e);
      assert false;
    }
  }

  // ---------------------------------------------------------------------------
  // Each event once.

  ghost predicate Names(works: seq<Work>, e: E.EventId) {
    exists i :: 0 <= i < |works| && works[i].event == Some(e)
  }

  ghost predicate Distinct(works: seq<Work>) {
    forall i, j :: 0 <= i < j < |works| && works[i].event.Some? ==> works[i].event != works[j].event
  }

  /** The open work of a process is that of the events whose completion it has staged. */
  ghost predicate OpenInv(w: World) {
    w.open.Keys == w.claims.local.Keys
    && forall p {:trigger w.open[p]} :: p in w.open ==>
         Distinct(w.open[p]) && forall e :: e in w.claims.local[p].staged <==> Names(w.open[p], e)
  }

  ghost predicate LogInv(w: World) {
    Distinct(w.log) && forall e :: P.IsProcessed(w.claims, e) <==> Names(w.log, e)
  }

  ghost predicate Inv(w: World) {
    P.Inv(w.claims) && OpenInv(w) && LogInv(w)
  }

  lemma NamesAppend(works: seq<Work>, more: seq<Work>, e: E.EventId)
    ensures Names(works + more, e) <==> Names(works, e) || Names(more, e)
  {
    if Names(works, e) {
      var i :| 0 <= i < |works| && works[i].event == Some(e);
      assert (works + more)[i].event == Some(e);
    }
    if Names(more, e) {
      var i :| 0 <= i < |more| && more[i].event == Some(e);
      assert (works + more)[|works| + i].event == Some(e);
    }
  }

  lemma DistinctAppend(works: seq<Work>, more: seq<Work>)
    requires Distinct(works) && Distinct(more) && forall e :: !(Names(works, e) && Names(more, e))
    ensures Distinct(works + more)
  {
    var all := works + more;
    forall i, j | 0 <= i < j < |all| && all[i].event.Some? ensures all[i].event != all[j].event {
      if i < |works| <= j && all[i].event == all[j].event {
        var e := all[i].event.value;
        assert works[i].event == Some(e) && more[j - |works|].event == Some(e);
        assert Names(works, e) && Names(more, e);
      }
    }
  }

  /** Claims, failures, releases and crashes complete nothing. */
  lemma ProtocolCompletesNothing(w: P.World, p: P.Action, w': P.World, e: E.EventId)
    requires P.Inv(w) && P.Step(w, p, w') && !p.FlushBatch? && !p.MarkProcessed?
    ensures P.IsProcessed(w', e) <==> P.IsProcessed(w, e)
  {
    hide P.Inv, P.Step, P.HoldsClaim, E.Stale;
    if e in w.store.rows {
      P.RowChangeIsFenced(w, p, w', e);
    } else if e in w'.store.rows {
      P.NewRowIsClaimed(w, p, w', e);
    }
  }

  lemma ProtocolKeepsStaged(w: P.World, p: P.Action, w': P.World)
    requires P.Step(w, p, w') && !p.FlushBatch? && !p.Stage?
    ensures w'.local.Keys == w.local.Keys && p.who in w.local
    ensures forall q :: q in w.local ==>
              w'.local[q].staged == if p.Crash? && q == p.who then map[] else w.local[q].staged
  {
    hide E.Record, P.FreshDraw, P.Finished;
  }

  lemma CommitOnClaims(rank: S.Rank, w: World, a: Action, w': World, e: E.EventId)
    requires Step(rank, w, a, w') && a.CommitBatch?
    ensures a.who in w.claims.local
    ensures P.IsProcessed(w'.claims, e)
            <==> P.IsProcessed(w.claims, e) || (BatchLands(w, a) && e in w.claims.local[a.who].staged)
    ensures BatchLands(w, a) && e in w.claims.local[a.who].staged ==> !P.IsProcessed(w.claims, e)
    ensures w'.claims.local == w.claims.local[a.who := w.claims.local[a.who].(staged := map[])]
  {
    hide S.ApplyAll, Executes;
  }

  lemma StepKeepsLog(rank: S.Rank, w: World, a: Action, w': World)
    requires Inv(w) && Step(rank, w, a, w')
    ensures LogInv(w')
  {
    hide P.Inv, P.Step, P.IsProcessed, S.ApplyAll, Executes, Distinct, Names, BatchLands;
    match a
    case Protocol(p) =>
      forall e ensures P.IsProcessed(w'.claims, e) <==> Names(w'.log, e) {
        ProtocolCompletesNothing(w.claims, p, w'.claims, e);
      }
    case Handle(who, event, _) =>
      forall e ensures P.IsProcessed(w'.claims, e) <==> Names(w'.log, e) {
        ProtocolCompletesNothing(w.claims, P.Stage(who, event), w'.claims, e);
      }
    case CommitBatch(who, _, _, _) =>
      forall e ensures P.IsProcessed(w'.claims, e) <==> Names(w'.log, e) {
        CommitOnClaims(rank, w, a, w', e);
        NamesAppend(w.log, w.open[who], e);
      }
      if BatchLands(w, a) {
        forall e ensures !(Names(w.log, e) && Names(w.open[who], e)) {
          CommitOnClaims(rank, w, a, w', e);
        }
        DistinctAppend(w.log, w.open[who]);
      }
    case WriteAlone(write, _) => AloneKeepsLog(w, w', write);
  }

  lemma AloneKeepsLog(w: World, w': World, write: S.Write)
    requires LogInv(w) && w'.claims == w.claims
    requires w'.log == w.log || w'.log == w.log + [Work(None, [write])]
    ensures LogInv(w')
  {
    hide P.IsProcessed, Distinct, Names;
    if w'.log != w.log {
      var alone := [Work(None, [write])];
      forall e ensures Names(w'.log, e) <==> Names(w.log, e) {
        NamesAppend(w.log, alone, e);
        assert !Names(alone, e) by { NamesNothing(write, e); }
      }
      forall e ensures !(Names(w.log, e) && Names(alone, e)) { NamesNothing(write, e); }
      assert Distinct(alone) by { OneIsDistinct(alone[0]); }
      DistinctAppend(w.log, alone);
    }
  }

  lemma NamesNothing(write: S.Write, e: E.EventId)
    ensures !Names([Work(None, [write])], e)
  {
  }

  lemma OneIsDistinct(work: Work)
    ensures Distinct([work])
  {
  }

  lemma StepKeepsOpen(rank: S.Rank, w: World, a: Action, w': World)
    requires Inv(w) && Step(rank, w, a, w')
    ensures OpenInv(w')
  {
    hide P.Inv, S.ApplyAll, Executes, Distinct, Names, BatchLands, P.Step;
    match a
    case Protocol(p) =>
      ProtocolKeepsStaged(w.claims, p, w'.claims);
      EmptyIsDistinct();
    case Handle(who, event, writes) =>
      HandleStages(w, who, event, w');
      OneIsDistinct(Work(Some(event), writes));
      forall e ensures Names(w'.open[who], e) <==> Names(w.open[who], e) || e == event {
        NamesAppend(w.open[who], [Work(Some(event), writes)], e);
        NamesOne(event, writes, e);
      }
      forall e ensures !(Names(w.open[who], e) && Names([Work(Some(event), writes)], e)) {
        NamesOne(event, writes, e);
      }
      DistinctAppend(w.open[who], [Work(Some(event), writes)]);
    case CommitBatch(who, _, _, _) =>
      CommitOnClaims(rank, w, a, w', "");
      EmptyIsDistinct();
    case WriteAlone(_, _) =>
  }

  lemma EmptyIsDistinct()
    ensures Distinct([]) && forall e :: !Names([], e)
  {
  }

  lemma NamesOne(event: E.EventId, writes: seq<S.Write>, e: E.EventId)
    ensures Names([Work(Some(event), writes)], e) <==> e == event
  {
    assert [Work(Some(event), writes)][0].event == Some(event);
  }

  lemma HandleStages(w: World, who: P.ProcessId, e: E.EventId, w': World)
    requires P.Step(w.claims, P.Stage(who, e), w'.claims)
    ensures who in w.claims.local && e in w.claims.local[who].tokens
    ensures var me := w.claims.local[who];
            w'.claims.local == w.claims.local[who := me.(staged := me.staged[e := me.tokens[e]])]
  {
  }

  lemma StepKeepsClaims(rank: S.Rank, w: World, a: Action, w': World)
    requires P.Inv(w.claims) && Step(rank, w, a, w')
    ensures P.Inv(w'.claims)
  {
    hide P.Inv, P.Step, S.ApplyAll, Executes, BatchLands;
    match a
    case Protocol(p) => P.StepKeepsInv(w.claims, p, w'.claims);
    case Handle(who, e, _) => P.StepKeepsInv(w.claims, P.Stage(who, e), w'.claims);
    case CommitBatch(who, at, flush, fate) =>
      P.StepKeepsInv(w.claims, P.FlushBatch(who, at, Ending(w.tables, flush, fate)), w'.claims);
    case WriteAlone(_, _) =>
  }

  lemma InitInv(w: World)
    requires Init(w)
    ensures Inv(w)
  {
  }

  /** Over every run the events whose work has landed are exactly the PROCESSED ones, and the work
      of no event has landed twice. */
  lemma {:induction false} EventsLandOnce(rank: S.Rank, ws: seq<World>, acts: seq<Action>, k: nat)
    requires IsRun(rank, ws, acts) && k < |ws|
    ensures Inv(ws[k])
  {
    hide Step, Inv;
    if k == 0 {
      InitInv(ws[0]);
    } else {
      EventsLandOnce(rank, ws, acts, k - 1);
      assert Step(rank, ws[k - 1], acts[k - 1], ws[k - 1 + 1]);
      KeepsInv(rank, ws[k - 1], acts[k - 1], ws[k]);
    }
  }

  lemma KeepsInv(rank: S.Rank, w: World, a: Action, w': World)
    requires Inv(w) && Step(rank, w, a, w')
    ensures Inv(w')
  {
    hide Step, P.Inv, OpenInv, LogInv;
    StepKeepsClaims(rank, w, a, w');
    StepKeepsOpen(rank, w, a, w');
    StepKeepsLog(rank, w, a, w');
  }

  // ---------------------------------------------------------------------------
  // What the tables hold.

  /** Row by row, what was there to begin with and the merge of all landed writes. */
  ghost predicate Holds(base: S.Db, tables: S.Db, ws: seq<S.Write>) {
    forall ref {:trigger ref in tables} ::
      (ref in tables <==> ref in base || S.Last(ws, ref).Some?)
      && (ref in tables ==> tables[ref] == S.Base(base, ref) + S.Merge(ws, ref))
  }

  /** No batch drops a column that an earlier write of the same row in it has set. */
  ghost predicate KeepsColumns(w: World, a: Action) {
    a.CommitBatch? && a.who in w.open && a.flush != Writes(w.open[a.who]) ==> S.Covered(Writes(w.open[a.who]))
  }

  lemma {:induction false} MergeAppend(ws: seq<S.Write>, vs: seq<S.Write>, ref: S.Ref)
    ensures S.Merge(ws + vs, ref) == S.Merge(ws, ref) + S.Merge(vs, ref)
  {
    if vs == [] {
      assert ws + vs == ws;
    } else {
      hide S.Merge;
      var front, last := vs[..|vs| - 1], vs[|vs| - 1];
      var values: S.Row := if last.ref == ref then last.values else map[];
      assert (ws + vs)[..|ws + vs| - 1] == ws + front && (ws + vs)[|ws + vs| - 1] == last;
      MergeAppend(ws, front, ref);
      S.LastColumns(S.Merge(ws, ref), S.Merge(front, ref), values);
      MergeOne(vs, ref, values);
      MergeOne(ws + vs, ref, values);
    }
  }

  lemma MergeOne(ws: seq<S.Write>, ref: S.Ref, values: S.Row)
    requires ws != [] && values == if ws[|ws| - 1].ref == ref then ws[|ws| - 1].values else map[]
    ensures S.Merge(ws, ref) == S.Merge(ws[..|ws| - 1], ref) + values
  {
  }

  lemma {:induction false} LastAppend(ws: seq<S.Write>, vs: seq<S.Write>, ref: S.Ref)
    ensures S.Last(ws + vs, ref).Some? <==> S.Last(ws, ref).Some? || S.Last(vs, ref).Some?
  {
    if vs == [] {
      assert ws + vs == ws;
    } else {
      assert (ws + vs)[..|ws + vs| - 1] == ws + vs[..|vs| - 1];
      LastAppend(ws, vs[..|vs| - 1], ref);
    }
  }

  lemma {:induction false} WritesAppend(works: seq<Work>, more: seq<Work>)
    ensures Writes(works + more) == Writes(works) + Writes(more)
  {
    if more == [] {
      assert works + more == works;
    } else {
      assert (works + more)[..|works + more| - 1] == works + more[..|more| - 1];
      WritesAppend(works, more[..|more| - 1]);
    }
  }

  lemma Extends(base: S.Db, tables: S.Db, ws: seq<S.Write>, vs: seq<S.Write>, fs: seq<S.Write>)
    requires Holds(base, tables, ws) && S.ApplyAll(tables, fs).Applied?
    requires forall ref :: S.Merge(fs, ref) == S.Merge(vs, ref) && (S.Last(fs, ref).Some? <==> S.Last(vs, ref).Some?)
    ensures Holds(base, S.ApplyAll(tables, fs).db, ws + vs)
  {
    hide S.ApplyAll, S.Merge, S.Last;
    var after := S.ApplyAll(tables, fs).db;
    forall ref
      ensures (ref in after <==> ref in base || S.Last(ws + vs, ref).Some?)
              && (ref in after ==> after[ref] == S.Base(base, ref) + S.Merge(ws + vs, ref))
    {
      assert S.Merge(fs, ref) == S.Merge(vs, ref);
      S.AppliedRows(tables, fs, ref);
      MergeAppend(ws, vs, ref);
      LastAppend(ws, vs, ref);
      assert ref in tables <==> ref in base || S.Last(ws, ref).Some?;
      if ref !in tables { S.UntouchedMerge(ws, ref); }
      assert S.Base(tables, ref) == S.Base(base, ref) + S.Merge(ws, ref);
      S.LastColumns(S.Base(base, ref), S.Merge(ws, ref), S.Merge(vs, ref));
    }
  }

  lemma FlushWritesAll(rank: S.Rank, vs: seq<S.Write>, fs: seq<S.Write>, ref: S.Ref)
    requires Executes(rank, vs, fs) && (fs == vs || S.Covered(vs))
    ensures S.Merge(fs, ref) == S.Merge(vs, ref) && (S.Last(fs, ref).Some? <==> S.Last(vs, ref).Some?)
  {
    hide S.Merge, S.Last, S.Covered;
    if fs != vs {
      S.FlushedColumns(rank, vs, fs, ref);
      S.CoveredMerge(vs, ref);
      S.LastIsWritten(fs, ref);
      S.LastIsWritten(vs, ref);
    }
  }

  lemma StepKeepsTables(rank: S.Rank, base: S.Db, w: World, a: Action, w': World)
    requires Step(rank, w, a, w') && Holds(base, w.tables, Writes(w.log)) && KeepsColumns(w, a)
    ensures Holds(base, w'.tables, Writes(w'.log))
  {
    hide S.ApplyAll, S.Merge, S.Last, Writes, Holds, P.Step, Executes, S.Covered;
    match a
    case CommitBatch(who, _, flush, _) =>
      if BatchLands(w, a) {
        WritesAppend(w.log, w.open[who]);
        forall ref ensures S.Merge(flush, ref) == S.Merge(Writes(w.open[who]), ref)
                           && (S.Last(flush, ref).Some? <==> S.Last(Writes(w.open[who]), ref).Some?)
        {
          FlushWritesAll(rank, Writes(w.open[who]), flush, ref);
        }
        Extends(base, w.tables, Writes(w.log), Writes(w.open[who]), flush);
      }
    case WriteAlone(write, _) =>
      if w' != w {
        WritesAppend(w.log, [Work(None, [write])]);
        assert Writes([Work(None, [write])]) == [write] by { WritesOfOne(write); }
        Extends(base, w.tables, Writes(w.log), [write], [write]);
      }
    case _ =>
  }

  lemma WritesOfOne(write: S.Write)
    ensures Writes([Work(None, [write])]) == [write]
  {
  }

  /** Over every run in which no batch drops a column, each row of the state tables is what it was
      to begin with, merged with the writes of the PROCESSED events and the single writes, each
      once and in the order in which they landed. */
  lemma {:induction false} TablesHoldProcessedEvents(rank: S.Rank, ws: seq<World>, acts: seq<Action>, k: nat)
    requires IsRun(rank, ws, acts) && k < |ws| && forall i :: 0 <= i < |acts| ==> KeepsColumns(ws[i], acts[i])
    ensures Holds(ws[0].tables, ws[k].tables, Writes(ws[k].log))
    ensures Distinct(ws[k].log) && forall e :: P.IsProcessed(ws[k].claims, e) <==> Names(ws[k].log, e)
  {
    hide Step, Holds, KeepsColumns, Distinct, Names, P.IsProcessed, P.Inv, OpenInv, Writes;
    EventsLandOnce(rank, ws, acts, k);
    if k == 0 {
      NothingWritten(ws[0].tables);
    } else {
      TablesHoldProcessedEvents(rank, ws, acts, k - 1);
      assert Step(rank, ws[k - 1], acts[k - 1], ws[k - 1 + 1]);
      StepKeepsTables(rank, ws[0].tables, ws[k - 1], acts[k - 1], ws[k]);
    }
  }

  lemma NothingWritten(tables: S.Db)
    ensures Writes([]) == [] && Holds(tables, tables, [])
  {
  }
}
