/** Order identifiers over runs of the ledger: an exit identifier is answered once and for all;
    an entry identifier only from the moment it opened a position. */
module LedgerOrders {
  import opened Ledger

  ghost predicate Priced(e: Entry) {
    e.usd > 0.0 && e.tokens > 0.0
  }

  ghost predicate Sized(x: Exit) {
    x.usd >= 0.0 && x.tokens > 0.0
  }

  // ---------------------------------------------------------------------------
  // One call.

  /** An entry changes nothing exactly when its identifier is recorded or its token is open. */
  lemma EntryIsAnsweredIff(s: State, e: Entry)
    requires Priced(e)
    ensures Enter(s, e).0 == s <==> e.order in s.entryOrders || e.mint in s.byToken
  {
    if e.order !in s.entryOrders && e.mint !in s.byToken {
      assert |Enter(s, e).0.fills| == |s.fills| + 1;
    }
  }

  /** An answered entry records its identifier exactly when it opened a position or had done so
      before: the answer by an open token leaves none. */
  lemma EntryIsRecordedIff(s: State, e: Entry)
    requires Enter(s, e).1.Done?
    ensures e.order in Enter(s, e).0.entryOrders <==> e.order in s.entryOrders || e.mint !in s.byToken
    ensures e.order in Enter(s, e).0.entryOrders ==> Enter(s, e).0.entryOrders[e.order] == Enter(s, e).1.position
  {
  }

  /** An answered exit always records its identifier. */
  lemma ExitIsRecorded(s: State, start: real, x: Exit)
    requires Inv(s, start) && Leave(s, x).1.Done?
    ensures x.order in Leave(s, x).0.exitOrders && Leave(s, x).0.exitOrders[x.order] == Leave(s, x).1.position
  {
    hide Balanced, PositionsInv, Listed, ClosedPosition;
  }

  lemma StepKeepsOrders(s: State, a: Action, o: OrderId)
    ensures o in s.entryOrders ==> o in Apply(s, a).entryOrders && Apply(s, a).entryOrders[o] == s.entryOrders[o]
    ensures o in s.exitOrders ==> o in Apply(s, a).exitOrders && Apply(s, a).exitOrders[o] == s.exitOrders[o]
  {
    hide Mark, ClosedPosition;
    if a.Revalue? { MarkKeepsOrders(s, a.marks); }
  }

  lemma MarkKeepsOrders(s: State, m: Marks)
    ensures Mark(s, m).entryOrders == s.entryOrders && Mark(s, m).exitOrders == s.exitOrders
  {
  }

  // ---------------------------------------------------------------------------
  // Whole runs.

  lemma {:induction false} RecordedStays(ss: seq<State>, acts: seq<Action>, start: real, i: nat, j: nat, o: OrderId)
    requires IsRun(ss, acts, start) && i <= j < |ss|
    ensures o in ss[i].entryOrders ==> o in ss[j].entryOrders && ss[j].entryOrders[o] == ss[i].entryOrders[o]
    ensures o in ss[i].exitOrders ==> o in ss[j].exitOrders && ss[j].exitOrders[o] == ss[i].exitOrders[o]
    decreases j
  {
    hide Apply, Admissible;
    if i < j {
      RecordedStays(ss, acts, start, i, j - 1, o);
      StepKeepsOrders(ss[j - 1], acts[j - 1], o);
      assert Apply(ss[j - 1], acts[j - 1]) == ss[j - 1 + 1];
    }
  }

  /** Once an entry identifier has opened a position, every later entry under it, whatever its
      other fields, changes nothing and is answered by that position, for the rest of the run. */
  lemma OpenedEntryIsIdempotent(ss: seq<State>, acts: seq<Action>, start: real, i: nat, k: nat, again: Entry)
    requires IsRun(ss, acts, start) && i < k < |ss| && acts[i].Buy? && Priced(again)
    requires again.order == acts[i].entry.order && Enter(ss[i], acts[i].entry).1.Done?
    requires again.order in ss[i].entryOrders || acts[i].entry.mint !in ss[i].byToken
    ensures Enter(ss[k], again) == (ss[k], Enter(ss[i], acts[i].entry).1)
  {
    hide Enter;
    assert Apply(ss[i], acts[i]) == ss[i + 1];
    EntryIsRecordedIff(ss[i], acts[i].entry);
    RecordedStays(ss, acts, start, i + 1, k, again.order);
    Answers(ss[k], again);
  }

  lemma Answers(s: State, e: Entry)
    requires Priced(e) && e.order in s.entryOrders
    ensures Enter(s, e) == (s, Done(s.entryOrders[e.order]))
  {
  }

  /** Once an exit has been answered at all, every later exit under its identifier changes
      nothing and gets the same answer, for the rest of the run. */
  lemma ExitIsIdempotent(ss: seq<State>, acts: seq<Action>, start: real, i: nat, k: nat, again: Exit)
    requires IsRun(ss, acts, start) && i < k < |ss| && acts[i].Sell? && Sized(again)
    requires again.order == acts[i].exit.order && Leave(ss[i], acts[i].exit).1.Done?
    ensures Leave(ss[k], again) == (ss[k], Leave(ss[i], acts[i].exit).1)
  {
    hide Leave, Inv, Admissible;
    assert Apply(ss[i], acts[i]) == ss[i + 1];
    RunKeepsInv(ss, acts, start, i);
    ExitIsRecorded(ss[i], start, acts[i].exit);
    RecordedStays(ss, acts, start, i + 1, k, again.order);
    AnswersExit(ss[k], again);
  }

  lemma AnswersExit(s: State, x: Exit)
    requires Sized(x) && x.order in s.exitOrders
    ensures Leave(s, x) == (s, Done(s.exitOrders[x.order]))
  {
  }

  // ---------------------------------------------------------------------------
  // An entry identifier that was answered and opens a position later.

  const First := Entry("mint", 1.0, 1.0, "a", "p", 0.0, 0, 0)
  const Second := Entry("mint", 1.0, 1.0, "b", "q", 0.0, 1, 0)
  const Sale := Exit("mint", 1.0, 1.0, "c", 0.0, OtherReason, 2, 0)

  function Opened(): State { Enter(Initial(10.0), First).0 }

  function Emptied(): State { Leave(Opened(), Sale).0 }

  function Reopened(): State { Enter(Emptied(), Second).0 }

  lemma OpenedStates()
    ensures Opened() == OpenPosition(Initial(10.0), First)
    ensures Enter(Opened(), Second) == (Opened(), Done("p"))
    ensures FreshEntry(Initial(10.0), First) && FreshEntry(Opened(), Second)
  {
  }

  lemma EmptiedStates()
    ensures Emptied().byToken == map[] && Emptied().entryOrders == map["a" := "p"] && Emptied().positions.Keys == {"p"}
  {
    var s := Opened();
    assert s.positions["p"].tokens == 1.0;
    assert ClosePosition(s, Sale, "p").positions["p"].status == Closed;
  }

  lemma ReopenedStates()
    ensures Enter(Emptied(), Second) == (Reopened(), Done("q"))
    ensures FreshEntry(Emptied(), Second) && "q" in Reopened().positions
  {
    hide Opened, Emptied, Enter, OpenPosition;
    EmptiedStates();
    OpensWhenFree(Emptied(), Second);
  }

  lemma OpensWhenFree(s: State, e: Entry)
    requires Priced(e) && e.order !in s.entryOrders && e.mint !in s.byToken
    ensures Enter(s, e) == (OpenPosition(s, e), Done(e.position)) && e.position in OpenPosition(s, e).positions
  {
  }

  /** An entry under "b" is answered by the position open in its token; once that is sold, the
      same entry under "b" opens a second position. */
  lemma AnsweredEntryOpensLater() returns (ss: seq<State>, acts: seq<Action>)
    ensures |acts| == 4 && IsRun(ss, acts, 10.0) && acts[1] == Buy(Second) == acts[3]
    ensures Enter(ss[1], Second) == (ss[1], Done("p"))
    ensures Enter(ss[3], Second) == (ss[4], Done("q"))
    ensures "q" !in ss[3].positions && "q" in ss[4].positions
  {
    hide Enter, Leave, FreshEntry, Opened, Emptied, Reopened;
    OpenedStates();
    EmptiedStates();
    ReopenedStates();
    OfRun();
    ss := [Initial(10.0), Opened(), Opened(), Emptied(), Reopened()];
    acts := [Buy(First), Buy(Second), Sell(Sale), Buy(Second)];
  }

  lemma OfRun()
    ensures Opened() == Enter(Initial(10.0), First).0 && Emptied() == Leave(Opened(), Sale).0
    ensures Reopened() == Enter(Emptied(), Second).0
  {
  }
}
