/** With several ingest writers a sequence number drawn early may be committed late. Exactly
    which claims take the stream checkpoint back, and a run of two processes that does. */
module CheckpointLoss {
  import opened Options
  import opened EventClaims
  import opened ClaimProtocol
  import opened ProcessedFrontier

  /** A claim that commits and holds an event the table does not know. */
  ghost predicate Inserts(w: World, a: Action) {
    a.Claim? && Lands(a.fate) && |a.call.events| <= MAX_EVENT_BATCH_SIZE
    && exists e :: e in a.call.events && e !in w.store.rows
  }

  /** The first number a call draws, which is the least. */
  function FirstNumber(c: Call): nat {
    NumberAt(c.numbers, 0)
  }

  /** The step inserts nothing, or only numbers above that of `e`. */
  ghost predicate InsertsAbove(w: World, a: Action, e: EventId) {
    Inserts(w, a) ==> e in w.store.sequence && w.store.sequence[e] < FirstNumber(a.call)
  }

  // ---------------------------------------------------------------------------
  // One step.

  lemma LandedStore(s: Store, memory: Tokens, c: Call, fate: Fate)
    requires Drawn(memory, c) && SequenceInv(s) && Unused(s.sequence, c)
    ensures var landed := Lands(fate) && c.events != [] && |c.events| <= MAX_EVENT_BATCH_SIZE;
            Record(s, memory, c, fate).store == if landed then StoreAfter(s, ClaimTokens(memory, c), c) else s
  {
    hide StoreAfter, Accepts, Results, Unused, SequenceInv, Sequenced;
    ClaimKeepsSequences(s, ClaimTokens(memory, c), c);
  }

  ghost predicate HasNew(s: Store, c: Call) {
    exists e :: e in c.events && e !in s.rows
  }

  /** The first new event of a batch gets the first number of the call. */
  lemma StoreNumbers(s: Store, toks: Tokens, c: Call) returns (first: EventId)
    requires SequenceInv(s)
    ensures var after := StoreAfter(s, toks, c).sequence;
            if HasNew(s, c) then first in after && first !in s.sequence && after[first] == FirstNumber(c)
            else after == s.sequence
  {
    hide Unique, NewIds, Number, RowsAfter;
    var ids := NewIds(s.rows, Unique(c.events));
    UniqueIsDistinct(c.events);
    NewIdsAreNew(s.rows, Unique(c.events));
    NumberGives(s.sequence, ids, c.numbers);
    first := "";
    if ids == [] {
      NothingNumbered(s.sequence, c.numbers);
      assert forall e :: e in ids <==> e in c.events && e !in s.rows;
    } else {
      first := ids[0];
      assert first in ids && first in c.events && first !in s.rows;
    }
  }

  lemma NothingNumbered(sequence: map<EventId, nat>, numbers: seq<nat>)
    ensures Number(sequence, [], numbers) == sequence
  {
  }

  /** A claim that inserts gives its first number to an event that was not stored; any other
      step stores no new number. */
  lemma NewNumbers(w: World, a: Action, w': World) returns (first: EventId)
    requires Inv(w) && Step(w, a, w')
    ensures if Inserts(w, a)
            then first in w'.store.sequence && first !in w.store.sequence && w'.store.sequence[first] == FirstNumber(a.call)
            else w'.store.sequence == w.store.sequence
  {
    hide Record, StoreAfter, RowsInv, LocalsInv, SequenceInv, Unused, Drawn, ClaimTokens;
    first := "";
    if a.Claim? {
      var s, c, memory := w.store, a.call, w.local[a.who].tokens;
      LandedStore(s, memory, c, a.fate);
      first := StoreNumbers(s, ClaimTokens(memory, c), c);
      if Inserts(w, a) {
        var e :| e in c.events && e !in s.rows;
        assert HasNew(s, c);
      }
    }
  }

  /** What any step leaves of the rows and numbers. */
  lemma StepKeepsNumbers(w: World, a: Action, w': World)
    requires Inv(w) && Step(w, a, w')
    ensures SequenceInv(w'.store)
    ensures forall e :: e in w.store.sequence ==> e in w'.store.sequence && w'.store.sequence[e] == w.store.sequence[e]
    ensures forall e :: e in w'.store.sequence && e !in w.store.sequence ==>
              Inserts(w, a) && FirstNumber(a.call) <= w'.store.sequence[e]
    ensures forall e :: e in w.store.rows && w.store.rows[e].status == Processed ==>
              e in w'.store.rows && w'.store.rows[e] == w.store.rows[e]
    ensures forall e :: e in w'.store.rows && e !in w.store.rows ==> w'.store.rows[e].status == Processing
  {
    hide Step, Inv, HoldsClaim, Inserts;
    ClaimProtocol.StepKeepsInv(w, a, w');
    StepSequences(w, a, w');
    var _ := NewNumbers(w, a, w');
    FirstIsLeast(w, a, w');
    InvParts(w');
    forall e | e in w.store.rows ensures w.store.rows[e].status == Processed ==>
                                           e in w'.store.rows && w'.store.rows[e] == w.store.rows[e] {
      RowChangeIsFenced(w, a, w', e);
    }
    forall e | e in w'.store.rows && e !in w.store.rows ensures w'.store.rows[e].status == Processing {
      NewRowIsClaimed(w, a, w', e);
    }
  }

  lemma FirstIsLeast(w: World, a: Action, w': World)
    requires Step(w, a, w')
    ensures a.Claim? ==> forall n :: n in a.call.numbers ==> FirstNumber(a.call) <= n
  {
    hide Record;
  }

  lemma InvParts(w: World)
    requires Inv(w)
    ensures SequenceInv(w.store)
  {
  }

  /** An event of the processed prefix stays in it exactly when the step inserts nothing, or
      only above it. */
  lemma PrefixSurvivesIff(w: World, a: Action, w': World, e: EventId)
    requires Inv(w) && Step(w, a, w') && InPrefix(w.store, e)
    ensures InPrefix(w'.store, e) <==> InsertsAbove(w, a, e)
    ensures InPrefix(w'.store, e) ==> w'.store.sequence[e] == w.store.sequence[e]
  {
    hide Step, Inv, Inserts;
    InvParts(w);
    StepKeepsNumbers(w, a, w');
    var first := NewNumbers(w, a, w');
    if InsertsAbove(w, a, e) {
      forall f | Unresolved(w'.store, f) ensures w'.store.sequence[e] < w'.store.sequence[f] {
        if f in w.store.sequence { assert Unresolved(w.store, f); }
      }
    } else {
      assert Unresolved(w'.store, first);
    }
  }

  /** Some checkpoint at or above the number `n`. */
  ghost predicate CheckpointAt(s: Store, wanted: Filter, n: nat) {
    exists f :: IsCheckpoint(s, wanted, f) && s.sequence[f] >= n
  }

  /** A step leaves the checkpoint at or above where it was exactly when it inserts nothing, or
      only above the checkpoint: below it, no row at or above the old checkpoint qualifies. */
  lemma CheckpointSurvivesIff(w: World, a: Action, w': World, wanted: Filter, e: EventId)
    requires Inv(w) && Step(w, a, w') && InPrefix(w.store, e) && wanted(e)
    ensures CheckpointAt(w'.store, wanted, w.store.sequence[e]) <==> InsertsAbove(w, a, e)
  {
    hide Step, Inv, Inserts;
    PrefixSurvivesIff(w, a, w', e);
    if InsertsAbove(w, a, e) {
      CheckpointExists(w'.store, wanted, e);
    } else {
      InvParts(w);
      StepKeepsNumbers(w, a, w');
      var first := NewNumbers(w, a, w');
      assert Unresolved(w'.store, first);
    }
  }

  // ---------------------------------------------------------------------------
  // Whole runs.

  lemma {:induction false} PrefixOverRun(ws: seq<World>, acts: seq<Action>, i: nat, j: nat, e: EventId)
    requires IsRun(ws, acts) && i <= j < |ws| && InPrefix(ws[i].store, e)
    requires forall k :: i <= k < j ==> InsertsAbove(ws[k], acts[k], e)
    ensures InPrefix(ws[j].store, e) && ws[j].store.sequence[e] == ws[i].store.sequence[e]
    decreases j
  {
    hide Step, Inv, InsertsAbove, InPrefix;
    if i < j {
      PrefixOverRun(ws, acts, i, j - 1, e);
      RunKeepsInv(ws, acts, j - 1);
      assert Step(ws[j - 1], acts[j - 1], ws[j - 1 + 1]);
      PrefixSurvivesIff(ws[j - 1], acts[j - 1], ws[j], e);
    }
  }

  /** Over any run of any number of writers, the checkpoint stays at or above where it was at
      every moment exactly when every claim in between inserts nothing or only above it. */
  lemma {:induction false} CheckpointHoldsOverRunIff(ws: seq<World>, acts: seq<Action>, i: nat, j: nat, wanted: Filter, e: EventId)
    requires IsRun(ws, acts) && i <= j < |ws| && IsCheckpoint(ws[i].store, wanted, e)
    ensures (forall k :: i <= k <= j ==> CheckpointAt(ws[k].store, wanted, ws[i].store.sequence[e]))
            <==> forall k :: i <= k < j ==> InsertsAbove(ws[k], acts[k], e)
    decreases j
  {
    hide Step, Inv, InsertsAbove, CheckpointAt;
    var n := ws[i].store.sequence[e];
    if i == j {
      assert CheckpointAt(ws[i].store, wanted, n) by { IsAtItself(ws[i].store, wanted, e); }
    } else {
      CheckpointHoldsOverRunIff(ws, acts, i, j - 1, wanted, e);
      if forall k :: i <= k < j - 1 ==> InsertsAbove(ws[k], acts[k], e) {
        PrefixOverRun(ws, acts, i, j - 1, e);
        RunKeepsInv(ws, acts, j - 1);
        assert Step(ws[j - 1], acts[j - 1], ws[j - 1 + 1]);
        CheckpointSurvivesIff(ws[j - 1], acts[j - 1], ws[j], wanted, e);
      }
    }
  }

  lemma IsAtItself(s: Store, wanted: Filter, e: EventId)
    requires IsCheckpoint(s, wanted, e)
    ensures CheckpointAt(s, wanted, s.sequence[e])
  {
  }

  // ---------------------------------------------------------------------------
  // A run that loses its checkpoint.

  const Late: EventId := "late"
  const Early: EventId := "early"

  function Single(e: EventId, token: Token, number: nat): Call {
    Call([e], map[e := token], 0, false, true, [number])
  }

  lemma OneNumbered(s: Store, e: EventId, number: nat)
    requires e !in s.rows
    ensures Number(s.sequence, NewIds(s.rows, Unique([e])), [number]) == s.sequence[e := number]
  {
    assert [e][..0] == [];
    assert Unique([e]) == [e];
    assert NewIds(s.rows, [e]) == [e];
    NothingNumbered(s.sequence, [number]);
  }

  lemma OneToken(s: Store, memory: Tokens, e: EventId, token: Token, number: nat)
    requires e !in s.rows && e !in memory
    ensures var c := Single(e, token, number);
            Drawn(memory, c) && ClaimTokens(memory, c) == map[e := token]
            && Accepts(s, map[e := token], c, e)
            && RowsAfter(s, map[e := token], c) == s.rows[e := Row(Processing, 1, Some(0), Some(token))]
            && TokensAfter(memory, s, map[e := token], c) == memory[e := token]
  {
    assert e in Single(e, token, number).events;
  }

  /** What a call for one new event leaves. */
  lemma OneInserted(s: Store, memory: Tokens, e: EventId, token: Token, number: nat)
    requires e !in s.rows && e !in memory
    ensures Drawn(memory, Single(e, token, number))
    ensures Record(s, memory, Single(e, token, number), Committed).store
            == Store(s.rows[e := Row(Processing, 1, Some(0), Some(token))], s.sequence[e := number])
    ensures Record(s, memory, Single(e, token, number), Committed).memory == memory[e := token]
  {
    hide Number, NewIds, Unique, RowsAfter, TokensAfter, ClaimTokens, Accepts, Results;
    OneNumbered(s, e, number);
    OneToken(s, memory, e, token, number);
  }

  lemma ClaimStep(w: World, who: ProcessId, e: EventId, token: Token, number: nat, w': World)
    requires who in w.local && w.local[who] == Local(map[], map[]) && e !in w.store.rows && token !in w.issued
    requires Unused(w.store.sequence, Single(e, token, number))
    requires w'.store == Store(w.store.rows[e := Row(Processing, 1, Some(0), Some(token))], w.store.sequence[e := number])
    requires w'.local == w.local[who := Local(map[e := token], map[])]
    requires w'.issued == w.issued[token := Owner(who, e)]
    ensures Step(w, Claim(who, Single(e, token, number), Committed), w')
  {
    hide Record, Unused;
    OneInserted(w.store, map[], e, token, number);
    assert Issue(w.issued, who, map[e := token]) == w'.issued;
  }

  lemma Completed(w: World, w': World)
    requires 0 in w.local && w.local[0] == Local(map[Late := 7], map[])
    requires w.store == Store(map[Late := Row(Processing, 1, Some(0), Some(7))], map[Late := 5])
    requires w'.store == Store(map[Late := Row(Processed, 1, Some(1), None)], map[Late := 5])
    requires w'.local == w.local[0 := Local(map[], map[])] && w'.issued == w.issued
    ensures Step(w, MarkProcessed(0, {Late}, 1, Committed), w')
  {
    var claims := Presented(w, 0, {Late});
    assert claims == map[Late := 7];
    assert Finish(w.store, claims, Processed, 1) == w'.store;
    assert map[Late := 7] - {Late} == map[];
  }

  const Idle := Local(map[], map[])
  const Done := Row(Processed, 1, Some(1), None)

  function Start(): World {
    World(Store(map[], map[]), map[0 := Idle, 1 := Idle], map[])
  }

  function LateClaimed(): World {
    World(Store(map[Late := Row(Processing, 1, Some(0), Some(7))], map[Late := 5]),
          map[0 := Local(map[Late := 7], map[]), 1 := Idle], map[7 := Owner(0, Late)])
  }

  function LateCompleted(): World {
    World(Store(map[Late := Done], map[Late := 5]), map[0 := Idle, 1 := Idle], map[7 := Owner(0, Late)])
  }

  function EarlyClaimed(): World {
    World(Store(map[Late := Done, Early := Row(Processing, 1, Some(0), Some(8))], map[Late := 5, Early := 3]),
          map[0 := Idle, 1 := Local(map[Early := 8], map[])], map[7 := Owner(0, Late), 8 := Owner(1, Early)])
  }

  lemma LosesCheckpoint(wanted: Filter)
    requires wanted(Late)
    ensures IsCheckpoint(LateCompleted().store, wanted, Late)
    ensures forall e :: !IsCheckpoint(EarlyClaimed().store, wanted, e)
  {
    assert Unresolved(EarlyClaimed().store, Early);
    assert Late != Early;
  }

  /** One process is handed number 3 for an event and another number 5; the other's commits first
      and is completed, which makes its event the checkpoint; the late commit of number 3 then
      leaves no checkpoint at all. */
  lemma SecondWriterMovesCheckpointBack() returns (ws: seq<World>, acts: seq<Action>, wanted: Filter)
    ensures IsRun(ws, acts) && |acts| == 3 && acts[0].who != acts[2].who
    ensures IsCheckpoint(ws[2].store, wanted, Late)
    ensures forall e :: !IsCheckpoint(ws[3].store, wanted, e)
    ensures !InsertsAbove(ws[2], acts[2], Late)
  {
    hide Step, IsCheckpoint;
    wanted := _ => true;
    var first := Claim(0, Single(Late, 7, 5), Committed);
    var mark := MarkProcessed(0, {Late}, 1, Committed);
    var second := Claim(1, Single(Early, 8, 3), Committed);
    ClaimStep(Start(), 0, Late, 7, 5, LateClaimed());
    Completed(LateClaimed(), LateCompleted());
    ClaimStep(LateCompleted(), 1, Early, 8, 3, EarlyClaimed());
    ws, acts := [Start(), LateClaimed(), LateCompleted(), EarlyClaimed()], [first, mark, second];
    LosesCheckpoint(wanted);
    assert Early in second.call.events && Early !in LateCompleted().store.rows;
  }
}
