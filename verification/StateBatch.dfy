/** Secondary state of an event batch: upserts are staged per row, the last one wins, and the
    batch is flushed table by table, parents first, in bounded statements. The outcome is that
    of applying every upsert when it was issued. */
module StateBatch {
  import opened Options
  import opened StringOrder

  /** A row is addressed by its table and the text of its key columns. */
  datatype Ref = Ref(table: string, key: string)

  type Row = map<string, string>
  type Db = map<Ref, Row>

  /** One upsert: the columns it sets and the rows its foreign keys point to. */
  datatype Write = Write(ref: Ref, values: Row, parents: set<Ref>)

  datatype Outcome = Applied(db: Db) | ForeignKeyViolated

  function Base(db: Db, ref: Ref): Row {
    if ref in db then db[ref] else map[]
  }

  /** Insert, or on conflict overwrite the given columns. */
  function Upsert(db: Db, w: Write): Db {
    db[w.ref := Base(db, w.ref) + w.values]
  }

  function ApplyAll(db: Db, ws: seq<Write>): Outcome {
    if ws == [] then Applied(db)
    else
      var before, w := ApplyAll(db, ws[..|ws| - 1]), ws[|ws| - 1];
      if before.Applied? && w.parents <= before.db.Keys then Applied(Upsert(before.db, w))
      else ForeignKeyViolated
  }

  // ---------------------------------------------------------------------------
  // Closed form of a sequence of upserts.

  /** All columns the writes to `ref` leave, in order. */
  function Merge(ws: seq<Write>, ref: Ref): Row {
    if ws == [] then map[]
    else Merge(ws[..|ws| - 1], ref) + if ws[|ws| - 1].ref == ref then ws[|ws| - 1].values else map[]
  }

  /** The staged write of a row: the last one issued. */
  function Last(ws: seq<Write>, ref: Ref): Option<Write> {
    if ws == [] then None
    else if ws[|ws| - 1].ref == ref then Some(ws[|ws| - 1]) else Last(ws[..|ws| - 1], ref)
  }

  lemma {:induction false} LastIsWritten(ws: seq<Write>, ref: Ref)
    ensures Last(ws, ref).Some? <==> exists i :: 0 <= i < |ws| && ws[i].ref == ref
    ensures Last(ws, ref).Some? ==> Last(ws, ref).value in ws && Last(ws, ref).value.ref == ref
  {
    if ws != [] {
      var front := ws[..|ws| - 1];
      LastIsWritten(front, ref);
      assert forall i :: 0 <= i < |front| ==> ws[i] == front[i];
      if ws[|ws| - 1].ref != ref && Last(front, ref).Some? {
        var i :| 0 <= i < |front| && front[i].ref == ref;
        assert ws[i].ref == ref;
      }
    }
  }

  lemma {:induction false} AppliedRows(db: Db, ws: seq<Write>, ref: Ref)
    requires ApplyAll(db, ws).Applied?
    ensures ref in ApplyAll(db, ws).db <==> ref in db || Last(ws, ref).Some?
    ensures ref in ApplyAll(db, ws).db ==> ApplyAll(db, ws).db[ref] == Base(db, ref) + Merge(ws, ref)
  {
    if ws != [] {
      var front, w := ws[..|ws| - 1], ws[|ws| - 1];
      AppliedRows(db, front, ref);
      if Last(front, ref).None? {
        UntouchedMerge(front, ref);
      }
      LastColumns(Base(db, ref), Merge(front, ref), w.values);
    }
  }

  lemma LastColumns(base: Row, merged: Row, values: Row)
    ensures (base + merged) + values == base + (merged + values)
    ensures base + map[] == base && map[] + values == values && merged + map[] == merged
  {
  }

  lemma {:induction false} UntouchedMerge(ws: seq<Write>, ref: Ref)
    requires Last(ws, ref).None?
    ensures Merge(ws, ref) == map[]
  {
    if ws != [] {
      UntouchedMerge(ws[..|ws| - 1], ref);
    }
  }

  // ---------------------------------------------------------------------------
  // When coalescing loses nothing.

  /** The last write of a row sets every column an earlier write of that row set. */
  ghost predicate Covered(ws: seq<Write>) {
    forall i {:trigger ws[i]} :: 0 <= i < |ws| ==>
      Last(ws, ws[i].ref).Some? && ws[i].values.Keys <= Last(ws, ws[i].ref).value.values.Keys
  }

  lemma {:induction false} MergeColumns(ws: seq<Write>, ref: Ref)
    ensures forall c :: c in Merge(ws, ref) <==> exists i :: 0 <= i < |ws| && ws[i].ref == ref && c in ws[i].values
    ensures Last(ws, ref).Some? ==>
              forall c :: c in Last(ws, ref).value.values ==>
                c in Merge(ws, ref) && Merge(ws, ref)[c] == Last(ws, ref).value.values[c]
  {
    if ws != [] {
      var front := ws[..|ws| - 1];
      MergeColumns(front, ref);
      assert forall i :: 0 <= i < |front| ==> ws[i] == front[i];
      forall c ensures c in Merge(ws, ref) <==> exists i :: 0 <= i < |ws| && ws[i].ref == ref && c in ws[i].values {
        if c in Merge(front, ref) {
          var i :| 0 <= i < |front| && front[i].ref == ref && c in front[i].values;
          assert ws[i].ref == ref && c in ws[i].values;
        } else if ws[|ws| - 1].ref == ref && c in ws[|ws| - 1].values {
          assert ws[|ws| - 1].ref == ref;
        }
      }
    }
  }

  /** What coalescing writes for a row. */
  function Kept(ws: seq<Write>, ref: Ref): Row {
    if Last(ws, ref).Some? then Last(ws, ref).value.values else map[]
  }

  lemma CoalescingIsExactIff(ws: seq<Write>)
    ensures (forall ref :: Merge(ws, ref) == Kept(ws, ref)) <==> Covered(ws)
  {
    hide Merge, Last;
    if Covered(ws) {
      forall ref ensures Merge(ws, ref) == Kept(ws, ref) {
        CoveredMerge(ws, ref);
      }
    }
    if forall ref :: Merge(ws, ref) == Kept(ws, ref) {
      forall i | 0 <= i < |ws|
        ensures Last(ws, ws[i].ref).Some? && ws[i].values.Keys <= Last(ws, ws[i].ref).value.values.Keys
      {
        var ref := ws[i].ref;
        LastIsWritten(ws, ref);
        MergeColumns(ws, ref);
        assert Merge(ws, ref) == Kept(ws, ref);
        forall c | c in ws[i].values ensures c in Last(ws, ref).value.values {
          assert c in Merge(ws, ref);
        }
      }
    }
  }

  /** Writes to one table that all set the same columns cover each other. */
  lemma FixedColumnsCover(ws: seq<Write>)
    requires forall i, j :: 0 <= i < |ws| && 0 <= j < |ws| && ws[i].ref.table == ws[j].ref.table ==>
               ws[i].values.Keys == ws[j].values.Keys
    ensures Covered(ws)
  {
    hide Last;
    forall i {:trigger ws[i]} | 0 <= i < |ws|
      ensures Last(ws, ws[i].ref).Some? && ws[i].values.Keys <= Last(ws, ws[i].ref).value.values.Keys
    {
      LastIsWritten(ws, ws[i].ref);
      var j :| 0 <= j < |ws| && ws[j] == Last(ws, ws[i].ref).value;
    }
  }

  lemma CoveredMerge(ws: seq<Write>, ref: Ref)
    requires Covered(ws)
    ensures Merge(ws, ref) == Kept(ws, ref)
  {
    hide Merge, Last;
    LastIsWritten(ws, ref);
    MergeColumns(ws, ref);
    if Last(ws, ref).Some? {
      forall c | c in Merge(ws, ref) ensures c in Last(ws, ref).value.values {
        var i :| 0 <= i < |ws| && ws[i].ref == ref && c in ws[i].values;
        assert Last(ws, ws[i].ref) == Last(ws, ref);
      }
    } else {
      assert Merge(ws, ref) == map[] by {
        assert forall c :: c !in Merge(ws, ref);
      }
    }
  }

  // ---------------------------------------------------------------------------
  // Flushing.

  /** The dependency order of the tables, parents before children. */
  type Rank = string -> nat

  ghost predicate ParentsRankLower(rank: Rank, ws: seq<Write>) {
    forall i, p :: 0 <= i < |ws| && p in ws[i].parents ==> rank(p.table) < rank(ws[i].ref.table)
  }

  /** A flush writes every staged row once, with its last values, in dependency order. */
  ghost predicate IsFlush(rank: Rank, ws: seq<Write>, fs: seq<Write>) {
    (forall i, j :: 0 <= i < j < |fs| ==> fs[i].ref != fs[j].ref && rank(fs[i].ref.table) <= rank(fs[j].ref.table))
    && (forall i :: 0 <= i < |fs| ==> Last(ws, fs[i].ref) == Some(fs[i]))
    && (forall ref :: Last(ws, ref).Some? ==> exists i :: 0 <= i < |fs| && fs[i].ref == ref)
  }

  /** Every parent a sequential run found is in the table or was written by the run. */
  lemma {:induction false} ParentsWereThere(db: Db, ws: seq<Write>, i: nat, p: Ref)
    requires ApplyAll(db, ws).Applied? && i < |ws| && p in ws[i].parents
    ensures p in db || Last(ws, p).Some?
  {
    if i == |ws| - 1 {
      AppliedRows(db, ws[..|ws| - 1], p);
    } else {
      ParentsWereThere(db, ws[..|ws| - 1], i, p);
    }
  }

  /** No prefix of the flush writes a child before its staged parent. */
  lemma {:induction false} FlushSucceeds(rank: Rank, db: Db, ws: seq<Write>, fs: seq<Write>, n: nat)
    requires IsFlush(rank, ws, fs) && ParentsRankLower(rank, ws) && ApplyAll(db, ws).Applied? && n <= |fs|
    ensures ApplyAll(db, fs[..n]).Applied?
  {
    hide Last, Merge;
    if n > 0 {
      FlushSucceeds(rank, db, ws, fs, n - 1);
      var w := fs[n - 1];
      assert fs[..n][..n - 1] == fs[..n - 1];
      forall p | p in w.parents ensures p in ApplyAll(db, fs[..n - 1]).db {
        ParentIsWritten(rank, db, ws, fs, n - 1, p);
      }
    }
  }

  lemma ParentIsWritten(rank: Rank, db: Db, ws: seq<Write>, fs: seq<Write>, n: nat, p: Ref)
    requires IsFlush(rank, ws, fs) && ParentsRankLower(rank, ws) && ApplyAll(db, ws).Applied? && n < |fs|
    requires ApplyAll(db, fs[..n]).Applied? && p in fs[n].parents
    ensures p in ApplyAll(db, fs[..n]).db
  {
    hide Last, Merge, ApplyAll;
    var w := fs[n];
    LastIsWritten(ws, w.ref);
    var i :| 0 <= i < |ws| && ws[i] == w;
    ParentsWereThere(db, ws, i, p);
    AppliedRows(db, fs[..n], p);
    if p !in db {
      var j :| 0 <= j < |fs| && fs[j].ref == p;
      assert rank(p.table) < rank(ws[i].ref.table);
      assert j < n;
      LastIsWritten(fs[..n], p);
      assert fs[..n][j].ref == p;
    }
  }

  lemma {:induction false} FlushedRow(fs: seq<Write>, ref: Ref)
    requires forall i, j :: 0 <= i < j < |fs| ==> fs[i].ref != fs[j].ref
    ensures Merge(fs, ref) == Kept(fs, ref)
    ensures forall i :: 0 <= i < |fs| && fs[i].ref == ref ==> Last(fs, ref) == Some(fs[i])
  {
    if fs != [] {
      FlushedRow(fs[..|fs| - 1], ref);
      if fs[|fs| - 1].ref == ref {
        LastIsWritten(fs[..|fs| - 1], ref);
        UntouchedMerge(fs[..|fs| - 1], ref);
      }
    }
  }

  /** Flushing the coalesced batch leaves the same tables as applying every upsert in call
      order, and violates no foreign key. */
  lemma FlushEqualsSequential(rank: Rank, db: Db, ws: seq<Write>, fs: seq<Write>)
    requires IsFlush(rank, ws, fs) && ParentsRankLower(rank, ws) && Covered(ws)
    requires ApplyAll(db, ws).Applied?
    ensures ApplyAll(db, fs) == ApplyAll(db, ws)
  {
    hide Last, Merge, ApplyAll, Covered;
    FlushSucceeds(rank, db, ws, fs, |fs|);
    assert fs[..|fs|] == fs;
    var left, right := ApplyAll(db, fs).db, ApplyAll(db, ws).db;
    forall ref ensures (ref in left <==> ref in right) && (ref in left ==> left[ref] == right[ref]) {
      AppliedRows(db, fs, ref);
      AppliedRows(db, ws, ref);
      FlushedRow(fs, ref);
      CoveredMerge(ws, ref);
      LastIsWritten(fs, ref);
    }
    assert left == right;
  }

  /** From the given tables, if the sequential run violates no foreign key, the flush leaves
      what it leaves. */
  ghost predicate ExactFrom(db: Db, ws: seq<Write>, fs: seq<Write>) {
    ApplyAll(db, ws).Applied? ==> ApplyAll(db, fs) == ApplyAll(db, ws)
  }

  /** Whatever the tables hold to begin with, the flush leaves what the upserts in call order
      leave; this is so exactly when each row's last write sets every column its earlier
      writes set. */
  lemma FlushIsExactIff(rank: Rank, ws: seq<Write>, fs: seq<Write>)
    requires IsFlush(rank, ws, fs) && ParentsRankLower(rank, ws)
    ensures (forall db :: ExactFrom(db, ws, fs)) <==> Covered(ws)
  {
    hide ApplyAll, Merge, Last, Covered;
    if Covered(ws) {
      forall db: Db ensures ExactFrom(db, ws, fs) {
        if ApplyAll(db, ws).Applied? { FlushEqualsSequential(rank, db, ws, fs); }
      }
    }
    if forall db: Db :: ExactFrom(db, ws, fs) {
      var db := BlankRows(ws);
      assert ExactFrom(db, ws, fs);
      forall i, p | 0 <= i < |ws| && p in ws[i].parents ensures p in db { ParentsAreNamed(ws, i); }
      ParentsSuffice(db, ws);
      forall ref ensures Merge(ws, ref) == Kept(ws, ref) {
        AppliedRows(db, ws, ref);
        AppliedRows(db, fs, ref);
        FlushedColumns(rank, ws, fs, ref);
        LastIsWritten(ws, ref);
        NothingUnder(Merge(ws, ref));
        NothingUnder(Kept(ws, ref));
        if Last(ws, ref).None? { UntouchedMerge(ws, ref); }
      }
      CoalescingIsExactIff(ws);
    }
  }

  /** Tables in which every row a batch names is present and empty. */
  ghost function BlankRows(ws: seq<Write>): Db {
    map ref | ref in Names(ws) :: map[]
  }

  function Names(ws: seq<Write>): set<Ref> {
    if ws == [] then {} else Names(ws[..|ws| - 1]) + {ws[|ws| - 1].ref} + ws[|ws| - 1].parents
  }

  lemma {:induction false} ParentsAreNamed(ws: seq<Write>, i: nat)
    requires i < |ws|
    ensures ws[i].parents <= Names(ws)
  {
    if i < |ws| - 1 {
      ParentsAreNamed(ws[..|ws| - 1], i);
    }
  }

  lemma {:induction false} ParentsSuffice(db: Db, ws: seq<Write>)
    requires forall i, p :: 0 <= i < |ws| && p in ws[i].parents ==> p in db
    ensures ApplyAll(db, ws).Applied? && db.Keys <= ApplyAll(db, ws).db.Keys
  {
    if ws != [] {
      ParentsSuffice(db, ws[..|ws| - 1]);
    }
  }

  lemma FlushedColumns(rank: Rank, ws: seq<Write>, fs: seq<Write>, ref: Ref)
    requires IsFlush(rank, ws, fs)
    ensures Merge(fs, ref) == Kept(ws, ref)
  {
    hide Merge, Last;
    FlushedRow(fs, ref);
    LastIsWritten(fs, ref);
    LastIsWritten(ws, ref);
  }

  lemma NothingUnder(values: Row)
    ensures map[] + values == values
  {
  }

  // ---------------------------------------------------------------------------
  // Bounded statements.

  /** `_bulk_insert_chunks` for rows of `width` columns. */
  function Chunks<T>(rows: seq<T>, size: nat): (cs: seq<seq<T>>)
    requires size > 0
    ensures forall i :: 0 <= i < |cs| ==> 0 < |cs[i]| <= size
    decreases |rows|
  {
    if rows == [] then []
    else if |rows| <= size then [rows]
    else [rows[..size]] + Chunks(rows[size..], size)
  }

  function ChunkSize(budget: nat, width: nat): (size: nat)
    requires width > 0
    ensures size >= 1 && (width <= budget ==> size * width <= budget)
  {
    if budget / width > 1 then budget / width else 1
  }

  /** No statement of a bulk write binds more parameters than the budget, provided a single row
      does not. */
  lemma StatementsFit<T>(rows: seq<T>, budget: nat, width: nat, i: nat)
    requires 0 < width <= budget && i < |Chunks(rows, ChunkSize(budget, width))|
    ensures |Chunks(rows, ChunkSize(budget, width))[i]| * width <= budget
  {
    hide ChunkSize, Chunks;
    var size := ChunkSize(budget, width);
    SmallerProduct(|Chunks(rows, size)[i]|, size, width);
  }

  lemma SmallerProduct(n: nat, m: nat, width: nat)
    requires n <= m
    ensures n * width <= m * width
  {
  }

  function Join<T>(cs: seq<seq<T>>): seq<T> {
    if cs == [] then [] else cs[0] + Join(cs[1..])
  }

  /** Chunking drops, repeats and reorders nothing. */
  lemma {:induction false} ChunksJoin<T>(rows: seq<T>, size: nat)
    requires size > 0
    ensures Join(Chunks(rows, size)) == rows
    decreases |rows|
  {
    if |rows| > size {
      ChunksJoin(rows[size..], size);
      var cs := Chunks(rows[size..], size);
      assert ([rows[..size]] + cs)[1..] == cs;
      assert rows == rows[..size] + rows[size..];
    } else if rows != [] {
      assert [rows][1..] == [];
      assert Join([rows]) == rows + Join([]);
    }
  }

  // ---------------------------------------------------------------------------
  // The mutable batch.

  class EventStateBatch {
    /** Staged rows per table, keyed by identity. */
    var groups: map<string, map<string, Write>>
    /** The upserts issued so far. */
    ghost var issued: seq<Write>

    ghost predicate Valid()
      reads this
    {
      (forall t, k :: t in groups && k in groups[t] ==> Last(issued, Ref(t, k)) == Some(groups[t][k]))
      && (forall ref :: Last(issued, ref).Some? ==> ref.table in groups && ref.key in groups[ref.table])
    }

    constructor ()
      ensures Valid() && issued == []
    {
      groups, issued := map[], [];
    }

    /** `_stage_upsert`. */
    method StageUpsert(w: Write)
      requires Valid()
      modifies this
      ensures Valid() && issued == old(issued) + [w]
    {
      var group := if w.ref.table in groups then groups[w.ref.table] else map[];
      group := group[w.ref.key := w];
      groups := groups[w.ref.table := group];
      forall ref ensures Last(issued + [w], ref) == if ref == w.ref then Some(w) else Last(issued, ref) {
        assert (issued + [w])[..|issued|] == issued;
      }
      assert Ref(w.ref.table, w.ref.key) == w.ref;
      issued := issued + [w];
    }

    /** The order in which `_flush_event_state_batch` writes: tables in dependency order, rows
        by key. */
    method FlushList(order: seq<string>, rank: Rank) returns (fs: seq<Write>)
      requires Valid()
      requires forall t :: t in groups ==> t in order
      requires forall i, j :: 0 <= i < j < |order| ==> order[i] != order[j] && rank(order[i]) <= rank(order[j])
      ensures IsFlush(rank, issued, fs)
    {
      hide Last, Present, InOrder;
      fs := [];
      assert InOrder(rank, fs) by { NothingInOrder(rank); }
      for n := 0 to |order|
        invariant forall i :: 0 <= i < |fs| ==> fs[i].ref.table in order[..n] && Last(issued, fs[i].ref) == Some(fs[i])
        invariant InOrder(rank, fs)
        invariant forall t, k :: t in order[..n] && t in groups && k in groups[t] ==> Present(fs, Ref(t, k))
      {
        var t := order[n];
        assert order[..n + 1] == order[..n] + [t];
        var rows := GroupRows(t);
        AppendGroup(fs, rows, order, n, rank, t);
        fs := fs + rows;
      }
      assert order[..|order|] == order;
      FlushIsComplete(rank, issued, fs, groups);
    }

    /** The staged rows of one table, sorted by key. */
    method GroupRows(t: string) returns (rows: seq<Write>)
      requires Valid()
      ensures forall i :: 0 <= i < |rows| ==> rows[i].ref.table == t && Last(issued, rows[i].ref) == Some(rows[i])
      ensures DistinctRefs(rows)
      ensures t in groups ==> forall k :: k in groups[t] ==> Present(rows, Ref(t, k))
    {
      hide Last, Less, Sorted;
      rows := [];
      if t !in groups { return; }
      var keys := Sorted(groups[t].Keys);
      for n := 0 to |keys|
        invariant |rows| == n
        invariant forall i :: 0 <= i < n ==>
          keys[i] in groups[t] && rows[i] == groups[t][keys[i]] && rows[i].ref == Ref(t, keys[i])
      {
        assert keys[n] in keys;
        LastIsWritten(issued, Ref(t, keys[n]));
        assert Last(issued, Ref(t, keys[n])) == Some(groups[t][keys[n]]);
        rows := rows + [groups[t][keys[n]]];
      }
      forall i, j | 0 <= i < j < |rows| ensures rows[i].ref != rows[j].ref {
        Irreflexive(keys[i]);
      }
      forall k | k in groups[t] ensures Present(rows, Ref(t, k)) {
        assert k in keys;
        var i :| 0 <= i < |keys| && keys[i] == k;
        assert rows[i].ref == Ref(t, k);
      }
    }
  }

  ghost predicate Present(fs: seq<Write>, ref: Ref) {
    exists i :: 0 <= i < |fs| && fs[i].ref == ref
  }

  ghost predicate DistinctRefs(fs: seq<Write>) {
    forall i, j :: 0 <= i < j < |fs| ==> fs[i].ref != fs[j].ref
  }

  ghost predicate InOrder(rank: Rank, fs: seq<Write>) {
    forall i, j :: 0 <= i < j < |fs| ==> fs[i].ref != fs[j].ref && rank(fs[i].ref.table) <= rank(fs[j].ref.table)
  }

  lemma NothingInOrder(rank: Rank)
    ensures InOrder(rank, [])
  {
  }

  lemma FlushIsComplete(rank: Rank, ws: seq<Write>, fs: seq<Write>, groups: map<string, map<string, Write>>)
    requires InOrder(rank, fs) && forall i :: 0 <= i < |fs| ==> Last(ws, fs[i].ref) == Some(fs[i])
    requires forall t, k :: t in groups && k in groups[t] ==> Present(fs, Ref(t, k))
    requires forall ref :: Last(ws, ref).Some? ==> ref.table in groups && ref.key in groups[ref.table]
    ensures IsFlush(rank, ws, fs)
  {
    hide Last;
    forall ref | Last(ws, ref).Some? ensures exists i :: 0 <= i < |fs| && fs[i].ref == ref {
      assert Present(fs, Ref(ref.table, ref.key));
    }
  }

  lemma AppendGroup(before: seq<Write>, rows: seq<Write>, order: seq<string>, n: nat, rank: Rank, t: string)
    requires n < |order| && t == order[n]
    requires forall i, j :: 0 <= i < j < |order| ==> order[i] != order[j] && rank(order[i]) <= rank(order[j])
    requires forall i :: 0 <= i < |before| ==> before[i].ref.table in order[..n]
    requires InOrder(rank, before) && DistinctRefs(rows)
    requires forall i :: 0 <= i < |rows| ==> rows[i].ref.table == t
    ensures InOrder(rank, before + rows)
    ensures forall ref :: Present(before, ref) || Present(rows, ref) ==> Present(before + rows, ref)
  {
    var fs := before + rows;
    forall i, j | 0 <= i < j < |fs|
      ensures fs[i].ref != fs[j].ref && rank(fs[i].ref.table) <= rank(fs[j].ref.table)
    {
      if i < |before| <= j {
        assert before[i].ref.table in order[..n];
        var a :| 0 <= a < n && order[a] == before[i].ref.table;
      }
    }
    forall ref | Present(before, ref) || Present(rows, ref) ensures Present(fs, ref) {
      if Present(before, ref) {
        var i :| 0 <= i < |before| && before[i].ref == ref;
        assert fs[i].ref == ref;
      } else {
        var i :| 0 <= i < |rows| && rows[i].ref == ref;
        assert fs[|before| + i].ref == ref;
      }
    }
  }
}
