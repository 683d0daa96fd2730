/** The list of positions that were open at a past moment, rebuilt from the fills. */
module Reports {
  import opened StringOrder
  import opened Ledger
  import opened LedgerReports
  import opened PositionHistory

  datatype OpenRow = OpenRow(position: PositionId, mint: Mint, tokens: real, cost: real, openedAt: int)

  ghost predicate HasEntry(fills: seq<Fill>, id: PositionId) {
    exists f :: f in fills && f.isEntry && f.positionId == id
  }

  /** A position is listed when it was opened before `end`, has an entry fill before `end`, and
      the fills before `end` leave an amount. */
  ghost predicate IsListed(s: State, fills: seq<Fill>, end: int, id: PositionId) {
    id in s.positions && s.positions[id].openedAt < end
    && HasEntry(Before(fills, end), id) && RemainingTokens(Before(fills, end), id) > 0.0
  }

  ghost function RowOf(s: State, fills: seq<Fill>, end: int, id: PositionId): OpenRow
    requires id in s.positions
  {
    OpenRow(id, s.positions[id].mint, RemainingTokens(Before(fills, end), id), RemainingCost(Before(fills, end), id),
            s.positions[id].openedAt)
  }

  /** The listed positions, each once, by identifier. */
  ghost predicate IsReport(s: State, fills: seq<Fill>, end: int, rows: seq<OpenRow>) {
    (forall i, j :: 0 <= i < j < |rows| ==> Less(rows[i].position, rows[j].position))
    && (forall i :: 0 <= i < |rows| ==>
          IsListed(s, fills, end, rows[i].position) && rows[i] == RowOf(s, fills, end, rows[i].position))
    && (forall id :: IsListed(s, fills, end, id) ==> exists i :: 0 <= i < |rows| && rows[i].position == id)
  }

  // ---------------------------------------------------------------------------
  // Building the list.

  /** The sums over the fills of one position before `end`. */
  method SumFills(fills: seq<Fill>, end: int, id: PositionId) returns (entered: bool, tokens: real, cost: real)
    ensures entered <==> HasEntry(Before(fills, end), id)
    ensures tokens == RemainingTokens(Before(fills, end), id) && cost == RemainingCost(Before(fills, end), id)
  {
    hide Before, Recount, Weigh;
    var acquired, sold, spent, gone := 0.0, 0.0, 0.0, 0.0;
    entered := false;
    NoFills(end, id);
    for i := 0 to |fills|
      invariant entered <==> HasEntry(Before(fills[..i], end), id)
      invariant acquired == Recount(Before(fills[..i], end), Bought(id))
      invariant sold == Recount(Before(fills[..i], end), Sold(id))
      invariant spent == Recount(Before(fills[..i], end), Spent(id))
      invariant gone == Recount(Before(fills[..i], end), CostSold(id))
    {
      var f := fills[i];
      assert fills[..i + 1] == fills[..i] + [f];
      BeforeAppend(fills[..i], f, end);
      FillCounts(Before(fills[..i], end), f, id);
      if f.at < end && f.positionId == id {
        if f.isEntry {
          entered, acquired, spent := true, acquired + f.tokens, spent + f.usd;
        } else {
          sold, gone := sold + f.tokens, gone + f.costBasis * f.tokens;
        }
      }
    }
    assert fills[..|fills|] == fills;
    tokens, cost := acquired - sold, spent - gone;
  }

  lemma NoFills(end: int, id: PositionId)
    ensures Before([], end) == [] && !HasEntry([], id)
    ensures Recount([], Bought(id)) == 0.0 == Recount([], Sold(id))
    ensures Recount([], Spent(id)) == 0.0 == Recount([], CostSold(id))
  {
  }

  lemma FillCounts(fills: seq<Fill>, f: Fill, id: PositionId)
    ensures fills + [] == fills
    ensures HasEntry(fills + [f], id) <==> HasEntry(fills, id) || (f.isEntry && f.positionId == id)
    ensures var own := f.positionId == id;
            Recount(fills + [f], Bought(id)) == Recount(fills, Bought(id)) + (if own && f.isEntry then f.tokens else 0.0)
            && Recount(fills + [f], Sold(id)) == Recount(fills, Sold(id)) + (if own && !f.isEntry then f.tokens else 0.0)
            && Recount(fills + [f], Spent(id)) == Recount(fills, Spent(id)) + (if own && f.isEntry then f.usd else 0.0)
            && Recount(fills + [f], CostSold(id))
               == Recount(fills, CostSold(id)) + (if own && !f.isEntry then f.costBasis * f.tokens else 0.0)
  {
    hide Recount;
    RecountAppend(fills, f, Bought(id));
    RecountAppend(fills, f, Sold(id));
    RecountAppend(fills, f, Spent(id));
    RecountAppend(fills, f, CostSold(id));
    assert forall x :: x in fills + [f] <==> x in fills || x == f;
  }

  /** `_open_positions_as_of`. */
  method OpenPositionsAsOf(s: State, fills: seq<Fill>, end: int) returns (rows: seq<OpenRow>)
    requires Listed(s)
    ensures IsReport(s, fills, end, rows)
    ensures forall i :: 0 <= i < |rows| ==> rows[i].openedAt < end && rows[i].tokens > 0.0
  {
    hide Before, Recount, HasEntry, Less, RemainingTokens, RemainingCost, Sorted, StrictlySorted;
    var kept: map<PositionId, OpenRow> := map[];
    for i := 0 to |s.order|
      invariant forall id :: id in kept <==> id in s.order[..i] && IsListed(s, fills, end, id)
      invariant forall id :: id in kept ==> kept[id] == RowOf(s, fills, end, id)
    {
      var id := s.order[i];
      var p := s.positions[id];
      assert s.order[..i + 1] == s.order[..i] + [id];
      if p.openedAt < end {
        var entered, tokens, cost := SumFills(fills, end, id);
        if entered && tokens > 0.0 {
          kept := kept[id := OpenRow(id, p.mint, tokens, cost, p.openedAt)];
        }
      }
    }
    assert s.order[..|s.order|] == s.order;
    assert forall id :: IsListed(s, fills, end, id) ==> id in s.order;
    rows := SortRows(kept);
  }

  /** `sorted` by position. */
  method SortRows(kept: map<PositionId, OpenRow>) returns (rows: seq<OpenRow>)
    requires forall id :: id in kept ==> kept[id].position == id
    ensures forall i, j :: 0 <= i < j < |rows| ==> Less(rows[i].position, rows[j].position)
    ensures forall i :: 0 <= i < |rows| ==> rows[i].position in kept && rows[i] == kept[rows[i].position]
    ensures forall id :: id in kept ==> exists i :: 0 <= i < |rows| && rows[i].position == id
  {
    hide Less;
    var ids := Sorted(kept.Keys);
    assert forall i :: 0 <= i < |ids| ==> ids[i] in ids;
    rows := seq(|ids|, i requires 0 <= i < |ids| && forall j :: 0 <= j < |ids| ==> ids[j] in kept => kept[ids[i]]);
    forall id | id in kept ensures exists i :: 0 <= i < |rows| && rows[i].position == id {
      assert id in ids;
      var i :| 0 <= i < |ids| && ids[i] == id;
      assert rows[i].position == id;
    }
  }

  // ---------------------------------------------------------------------------
  // Against the past.

  lemma StepKeepsEntry(s: State, start: real, a: Action, id: PositionId)
    requires Inv(s, start) && Admissible(s, a) && id in Apply(s, a).positions
    requires id in s.positions ==> HasEntry(s.fills, id)
    ensures HasEntry(Apply(s, a).fills, id)
    ensures id !in s.positions ==> a.Buy? && Apply(s, a).positions[id].openedAt == At(a)
    ensures id in s.positions ==> Apply(s, a).positions[id].openedAt == s.positions[id].openedAt
                                  && Apply(s, a).positions[id].mint == s.positions[id].mint
  {
    hide Balanced, Recount, PositionsInv;
    if id in s.positions {
      StepMoves(s, start, a, id);
      StepAddsFill(s, a);
    } else {
      StepOpens(s, a, id);
    }
  }

  lemma StepOpens(s: State, a: Action, id: PositionId)
    requires id !in s.positions && id in Apply(s, a).positions
    ensures a.Buy? && HasEntry(Apply(s, a).fills, id) && Apply(s, a).positions[id].openedAt == At(a)
  {
    hide MarkPosition, Contributions, ClosedPosition;
    if a.Buy? {
      var fills := Apply(s, a).fills;
      assert fills[|fills| - 1].isEntry && fills[|fills| - 1].positionId == id;
    }
  }

  /** Every position has an entry fill and was opened at the time of some step. */
  lemma {:induction false} EntryOf(ss: seq<State>, acts: seq<Action>, start: real, k: nat, id: PositionId) returns (i: nat)
    requires IsRun(ss, acts, start) && k < |ss| && id in ss[k].positions
    ensures HasEntry(ss[k].fills, id) && i < k && ss[k].positions[id].openedAt == At(acts[i])
  {
    hide Apply, Inv, Admissible, HasEntry, At;
    RunKeepsInv(ss, acts, start, k - 1);
    assert Apply(ss[k - 1], acts[k - 1]) == ss[k - 1 + 1];
    i := k - 1;
    if id in ss[k - 1].positions {
      i := EntryOf(ss, acts, start, k - 1, id);
    }
    StepKeepsEntry(ss[k - 1], start, acts[k - 1], id);
  }

  lemma {:induction false} NameStays(ss: seq<State>, acts: seq<Action>, start: real, k: nat, j: nat, id: PositionId)
    requires IsRun(ss, acts, start) && k <= j < |ss| && id in ss[k].positions
    ensures id in ss[j].positions && ss[j].positions[id].mint == ss[k].positions[id].mint
            && ss[j].positions[id].openedAt == ss[k].positions[id].openedAt
    decreases j
  {
    hide Apply, Inv, Admissible, HasEntry;
    if k < j {
      NameStays(ss, acts, start, k, j - 1, id);
      RunKeepsInv(ss, acts, start, j - 1);
      assert Apply(ss[j - 1], acts[j - 1]) == ss[j - 1 + 1];
      StepMoves(ss[j - 1], start, acts[j - 1], id);
      var _ := EntryOf(ss, acts, start, j - 1, id);
      StepKeepsEntry(ss[j - 1], start, acts[j - 1], id);
    }
  }

  /** A report as of `end`, made at any later point of a run from the ledger as it is then, has
      exactly one row for every position that was open at `end`, with the token, the opening
      time, and the amount and cost it then had, and no other row. */
  lemma ReportListsPast(ss: seq<State>, acts: seq<Action>, start: real, k: nat, end: int, rows: seq<OpenRow>)
    requires IsRun(ss, acts, start) && SplitsAt(acts, k, end)
    requires IsReport(ss[|acts|], ss[|acts|].fills, end, rows)
    ensures forall id :: (exists i :: 0 <= i < |rows| && rows[i].position == id)
                         <==> id in ss[k].positions && ss[k].positions[id].status == Open
    ensures forall i :: 0 <= i < |rows| ==>
              var id := rows[i].position;
              id in ss[k].positions
              && rows[i] == OpenRow(id, ss[k].positions[id].mint, ss[k].positions[id].tokens, ss[k].positions[id].cost,
                                    ss[k].positions[id].openedAt)
  {
    hide Apply, Admissible, Before, HasEntry, RemainingTokens, RemainingCost, Less;
    var last := ss[|acts|];
    forall id ensures IsListed(last, last.fills, end, id) <==> id in ss[k].positions && ss[k].positions[id].status == Open {
      ListedIffOpen(ss, acts, start, k, end, id);
    }
    forall i | 0 <= i < |rows|
      ensures var id := rows[i].position;
              id in ss[k].positions
              && rows[i] == OpenRow(id, ss[k].positions[id].mint, ss[k].positions[id].tokens, ss[k].positions[id].cost,
                                    ss[k].positions[id].openedAt)
    {
      var id := rows[i].position;
      assert IsListed(last, last.fills, end, id);
      ReportMatchesPast(ss, acts, start, k, end, id);
      NameStays(ss, acts, start, k, |acts|, id);
    }
  }

  lemma ListedIffOpen(ss: seq<State>, acts: seq<Action>, start: real, k: nat, end: int, id: PositionId)
    requires IsRun(ss, acts, start) && SplitsAt(acts, k, end)
    ensures IsListed(ss[|acts|], ss[|acts|].fills, end, id) <==> id in ss[k].positions && ss[k].positions[id].status == Open
  {
    hide Apply, Admissible, Before, HasEntry, RemainingTokens, At;
    ReportMatchesPast(ss, acts, start, k, end, id);
    FillsBefore(ss, acts, start, k, |acts|, end);
    FillsBefore(ss, acts, start, k, k, end);
    if id in ss[k].positions {
      var i := EntryOf(ss, acts, start, k, id);
      assert At(acts[i]) < end;
      NameStays(ss, acts, start, k, |acts|, id);
    }
  }
}
