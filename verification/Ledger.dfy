/** The in-memory paper ledger: what each operation does to its state, what every run of
    operations keeps, and how the same numbers are recomputed from the fills alone. */
module Ledger {
  import opened Options
  import opened Sums

  type PositionId = string
  type OrderId = string
  type Mint = string
  type Day = int

  datatype Status = Open | Closed

  datatype Position = Position(
    mint: Mint, status: Status, entryTokens: real, entryCost: real, tokens: real, cost: real, realized: real,
    lastValue: real, highValue: real, lowValue: Option<real>, peakUnrealized: real, best: real, worst: real,
    tp1Taken: bool, tp2Taken: bool, openedAt: int, lastNewHighAt: Option<int>)

  datatype Fill = Fill(positionId: PositionId, order: OrderId, isEntry: bool, tokens: real, usd: real, costBasis: real,
                       at: int, day: Day)

  datatype State = State(
    equity: real, peak: real, realized: real, unrealized: real, locked: real,
    order: seq<PositionId>, positions: map<PositionId, Position>, fills: seq<Fill>, daily: map<Day, real>,
    baseline: map<Day, real>,
    entryOrders: map<OrderId, PositionId>, exitOrders: map<OrderId, PositionId>, byToken: map<Mint, PositionId>)

  /** The exit reasons that mark a profit target as taken, and all others. */
  datatype Reason = Tp1 | Tp2 | OtherReason

  datatype Entry = Entry(mint: Mint, usd: real, tokens: real, order: OrderId, position: PositionId, fee: real, at: int,
                         day: Day)

  datatype Exit = Exit(mint: Mint, usd: real, tokens: real, order: OrderId, fee: real, reason: Reason, at: int, day: Day)

  datatype Marks = Marks(prices: map<Mint, real>, at: int, day: Day)

  datatype Reply = Done(position: PositionId) | Refused

  function Max(a: real, b: real): real { if a >= b then a else b }
  function Min(a: real, b: real): real { if a <= b then a else b }

  function Initial(start: real): State {
    State(start, start, 0.0, 0.0, 0.0, [], map[], [], map[], map[], map[], map[], map[])
  }

  // ---------------------------------------------------------------------------
  // open_position

  /** The position an entry order is already answered by, if any: its own earlier result, or
      the open position in the same token. */
  function EntryAnsweredBy(s: State, e: Entry): Option<PositionId> {
    if e.order in s.entryOrders then Some(s.entryOrders[e.order])
    else Get(s.byToken, e.mint)
  }

  function EntryCost(e: Entry): real {
    e.usd + e.fee
  }

  function OpenPosition(s: State, e: Entry): State
    requires e.tokens > 0.0
  {
    var cost := EntryCost(e);
    var p := Position(e.mint, Open, e.tokens, cost, e.tokens, cost, 0.0, 0.0, 0.0, None, 0.0, 0.0, 0.0, false, false,
                      e.at, None);
    s.(fills := s.fills + [Fill(e.position, e.order, true, e.tokens, cost, cost / e.tokens, e.at, e.day)],
       positions := s.positions[e.position := p],
       order := s.order + [e.position],
       entryOrders := s.entryOrders[e.order := e.position],
       byToken := s.byToken[e.mint := e.position],
       locked := s.locked + cost)
  }

  /** `open_position`: non-positive amounts are refused, a repeated order or an open token
      changes nothing. */
  function Enter(s: State, e: Entry): (State, Reply) {
    if e.usd <= 0.0 || e.tokens <= 0.0 then (s, Refused)
    else if EntryAnsweredBy(s, e).Some? then (s, Done(EntryAnsweredBy(s, e).value))
    else (OpenPosition(s, e), Done(e.position))
  }

  // ---------------------------------------------------------------------------
  // close_position

  function NetReceived(x: Exit): real {
    Max(0.0, x.usd - x.fee)
  }

  function MarkedUnrealized(p: Position): real {
    if p.lastValue > 0.0 then p.lastValue - p.cost else 0.0
  }

  function Scaled(value: real, factor: real): real {
    value * factor
  }

  function ScaledIfAny(value: Option<real>, factor: real): Option<real> {
    if value.Some? then Some(Scaled(value.value, factor)) else None
  }

  /** The share of a position an exit closes. */
  function ClosedShare(p: Position, x: Exit): real
    requires p.tokens > 0.0
  {
    x.tokens / p.tokens
  }

  function KeptShare(p: Position, x: Exit): real
    requires p.tokens > 0.0
  {
    1.0 - ClosedShare(p, x)
  }

  /** The cost it releases. */
  function Released(p: Position, x: Exit): real
    requires p.tokens > 0.0
  {
    p.cost * ClosedShare(p, x)
  }

  /** The marked gain it takes out of the unrealized total. */
  function Gone(p: Position, x: Exit): real
    requires p.tokens > 0.0
  {
    MarkedUnrealized(p) * ClosedShare(p, x)
  }

  function ClosedPosition(p: Position, x: Exit): Position
    requires p.tokens > 0.0
  {
    var kept := KeptShare(p, x);
    p.(cost := p.cost - Released(p, x),
       tokens := p.tokens - x.tokens,
       realized := p.realized + (NetReceived(x) - Released(p, x)),
       lastValue := Scaled(p.lastValue, kept),
       highValue := Scaled(p.highValue, kept),
       lowValue := ScaledIfAny(p.lowValue, kept),
       peakUnrealized := Scaled(p.peakUnrealized, kept),
       tp1Taken := p.tp1Taken || x.reason == Tp1,
       tp2Taken := p.tp2Taken || x.reason == Tp2,
       status := if p.tokens - x.tokens <= 0.0 then Closed else p.status)
  }

  function ExitFill(p: Position, x: Exit, id: PositionId): Fill
    requires p.tokens > 0.0
  {
    Fill(id, x.order, false, x.tokens, NetReceived(x), p.cost / p.tokens, x.at, x.day)
  }

  function Credited(daily: map<Day, real>, day: Day, gain: real): map<Day, real> {
    daily[day := (if day in daily then daily[day] else 0.0) + gain]
  }

  function ClosePosition(s: State, x: Exit, id: PositionId): State
    requires id in s.positions && s.positions[id].tokens > 0.0
  {
    var p := s.positions[id];
    var p' := ClosedPosition(p, x);
    var gain := NetReceived(x) - Released(p, x);
    var gone := Gone(p, x);
    var equity := s.equity + (gain - gone);
    s.(fills := s.fills + [ExitFill(p, x, id)],
       positions := s.positions[id := p'],
       realized := s.realized + gain,
       unrealized := s.unrealized - gone,
       locked := s.locked - Released(p, x),
       byToken := if p'.status == Closed then s.byToken - {x.mint} else s.byToken,
       equity := equity,
       daily := Credited(s.daily, x.day, gain),
       peak := Max(s.peak, equity),
       exitOrders := s.exitOrders[x.order := id])
  }

  /** `close_position`: a repeated order changes nothing, an unknown token or too large an
      amount is refused. */
  function Leave(s: State, x: Exit): (State, Reply) {
    if x.usd < 0.0 || x.tokens <= 0.0 then (s, Refused)
    else if x.order in s.exitOrders then (s, Done(s.exitOrders[x.order]))
    else if x.mint !in s.byToken || s.byToken[x.mint] !in s.positions then (s, Refused)
    else
      var id := s.byToken[x.mint];
      var p := s.positions[id];
      if p.status != Open then (s, Done(id))
      else if x.tokens > p.tokens then (s, Refused)
      else (ClosePosition(s, x, id), Done(id))
  }

  // ---------------------------------------------------------------------------
  // mark_to_market

  predicate Marked(p: Position, m: Marks) {
    p.status == Open && p.mint in m.prices
  }

  /** The gain of a value over its cost, per unit of cost. */
  function Return(value: real, cost: real): real
    requires cost > 0.0
  {
    (value - cost) / cost
  }

  function MarkPosition(p: Position, m: Marks): Position {
    if !Marked(p, m) then p
    else
      var value := p.tokens * m.prices[p.mint];
      p.(lastValue := value,
         peakUnrealized := Max(p.peakUnrealized, value - p.cost),
         highValue := if value > p.highValue then value else p.highValue,
         lastNewHighAt := if value > p.highValue then Some(m.at) else p.lastNewHighAt,
         lowValue := Some(if p.lowValue.None? then value else Min(p.lowValue.value, value)),
         best := if p.cost > 0.0 then Max(p.best, Return(value, p.cost)) else p.best,
         worst := if p.cost > 0.0 then Min(p.worst, Return(value, p.cost)) else p.worst)
  }

  /** What each position adds to the marked unrealized total. */
  function Contributions(positions: map<PositionId, Position>, m: Marks): map<PositionId, real> {
    map id | id in positions ::
      if Marked(positions[id], m) then positions[id].tokens * m.prices[positions[id].mint] - positions[id].cost else 0.0
  }

  function MarkAll(positions: map<PositionId, Position>, m: Marks): map<PositionId, Position> {
    map id | id in positions :: MarkPosition(positions[id], m)
  }

  ghost function Mark(s: State, m: Marks): State {
    var unrealized := Total(Contributions(s.positions, m));
    var equity := s.equity - s.unrealized + unrealized;
    s.(positions := MarkAll(s.positions, m), unrealized := unrealized, equity := equity, peak := Max(s.peak, equity),
       baseline := if m.day in s.baseline then s.baseline else s.baseline[m.day := equity])
  }

  // ---------------------------------------------------------------------------
  // Recomputation from fills.

  datatype Measure =
    | Bought(of: PositionId)
    | Sold(of: PositionId)
    | Spent(of: PositionId)
    | CostSold(of: PositionId)
    | Gained(of: PositionId)
    | GainedInAll
    | SpentInAll
    | CostSoldInAll

  function Gain(f: Fill): real {
    f.usd - f.costBasis * f.tokens
  }

  function Weigh(f: Fill, m: Measure): real {
    match m
    case Bought(id) => if f.isEntry && f.positionId == id then f.tokens else 0.0
    case Sold(id) => if !f.isEntry && f.positionId == id then f.tokens else 0.0
    case Spent(id) => if f.isEntry && f.positionId == id then f.usd else 0.0
    case CostSold(id) => if !f.isEntry && f.positionId == id then f.costBasis * f.tokens else 0.0
    case Gained(id) => if !f.isEntry && f.positionId == id then Gain(f) else 0.0
    case GainedInAll => if !f.isEntry then Gain(f) else 0.0
    case SpentInAll => if f.isEntry then f.usd else 0.0
    case CostSoldInAll => if !f.isEntry then f.costBasis * f.tokens else 0.0
  }

  function Recount(fills: seq<Fill>, m: Measure): real {
    if fills == [] then 0.0 else Recount(fills[..|fills| - 1], m) + Weigh(fills[|fills| - 1], m)
  }

  lemma RecountAppend(fills: seq<Fill>, f: Fill, m: Measure)
    ensures Recount(fills + [f], m) == Recount(fills, m) + Weigh(f, m)
  {
    assert (fills + [f])[..|fills|] == fills;
  }

  /** The rows of `_open_positions_as_of` for the given fills. */
  function RemainingTokens(fills: seq<Fill>, id: PositionId): real {
    Recount(fills, Bought(id)) - Recount(fills, Sold(id))
  }

  function RemainingCost(fills: seq<Fill>, id: PositionId): real {
    Recount(fills, Spent(id)) - Recount(fills, CostSold(id))
  }

  // ---------------------------------------------------------------------------
  // The invariant.

  function OpenCosts(positions: map<PositionId, Position>): map<PositionId, real> {
    map id | id in positions :: if positions[id].status == Open then positions[id].cost else 0.0
  }

  function OpenGains(positions: map<PositionId, Position>): map<PositionId, real> {
    map id | id in positions :: if positions[id].status == Open then MarkedUnrealized(positions[id]) else 0.0
  }

  ghost predicate PositionInv(p: Position, id: PositionId, fills: seq<Fill>) {
    p.tokens == RemainingTokens(fills, id)
    && p.cost == RemainingCost(fills, id)
    && p.realized == Recount(fills, Gained(id))
    && p.tokens >= 0.0
    && (p.status == Open <==> p.tokens > 0.0)
    && (p.status == Closed ==> p.cost == 0.0)
  }

  ghost predicate Indexed(s: State) {
    (forall m :: m in s.byToken ==>
      s.byToken[m] in s.positions && s.positions[s.byToken[m]].status == Open
      && s.positions[s.byToken[m]].mint == m)
    && (forall id :: id in s.positions && s.positions[id].status == Open ==>
          s.positions[id].mint in s.byToken && s.byToken[s.positions[id].mint] == id)
  }

  ghost predicate Listed(s: State) {
    (forall id :: id in s.order <==> id in s.positions)
    && (forall i, j :: 0 <= i < j < |s.order| ==> s.order[i] != s.order[j])
    && (forall i :: 0 <= i < |s.fills| ==> s.fills[i].positionId in s.positions)
    && (forall o :: o in s.entryOrders ==> s.entryOrders[o] in s.positions)
    && (forall o :: o in s.exitOrders ==> s.exitOrders[o] in s.positions)
  }

  ghost predicate Balanced(s: State, start: real) {
    s.equity - s.unrealized == start + s.realized
    && s.locked == Total(OpenCosts(s.positions))
    && s.realized == Recount(s.fills, GainedInAll)
    && s.realized == Total(s.daily)
    && s.locked == Recount(s.fills, SpentInAll) - Recount(s.fills, CostSoldInAll)
    && s.peak >= s.equity
  }

  ghost predicate PositionsInv(s: State) {
    forall id {:trigger s.positions[id]} :: id in s.positions ==> PositionInv(s.positions[id], id, s.fills)
  }

  ghost predicate Inv(s: State, start: real) {
    Balanced(s, start) && PositionsInv(s) && Indexed(s) && Listed(s)
  }

  lemma InitialInv(start: real)
    ensures Inv(Initial(start), start)
  {
  }

  lemma {:induction false} RecountNone(fills: seq<Fill>, id: PositionId)
    requires forall i :: 0 <= i < |fills| ==> fills[i].positionId != id
    ensures Recount(fills, Bought(id)) == 0.0 == Recount(fills, Sold(id))
    ensures Recount(fills, Spent(id)) == 0.0 == Recount(fills, CostSold(id))
    ensures Recount(fills, Gained(id)) == 0.0
  {
    if fills != [] {
      RecountNone(fills[..|fills| - 1], id);
    }
  }

  lemma FillOfAnother(p: Position, id: PositionId, fills: seq<Fill>, f: Fill)
    requires PositionInv(p, id, fills) && f.positionId != id
    ensures PositionInv(p, id, fills + [f])
  {
    RecountAppend(fills, f, Bought(id));
    RecountAppend(fills, f, Sold(id));
    RecountAppend(fills, f, Spent(id));
    RecountAppend(fills, f, CostSold(id));
    RecountAppend(fills, f, Gained(id));
  }

  // ---------------------------------------------------------------------------
  // Opening keeps the invariant.

  ghost predicate FreshEntry(s: State, e: Entry) {
    e.position !in s.positions
  }

  lemma OpenKeepsInv(s: State, start: real, e: Entry)
    requires Inv(s, start) && FreshEntry(s, e) && e.tokens > 0.0 && e.mint !in s.byToken
    ensures Inv(OpenPosition(s, e), start)
  {
    hide Recount, Balanced, Indexed, Listed, PositionInv;
    var s' := OpenPosition(s, e);
    var f := s'.fills[|s.fills|];
    OpenKeepsBalance(s, start, e);
    OpenKeepsTables(s, e);
    forall id | id in s'.positions ensures PositionInv(s'.positions[id], id, s'.fills) {
      if id == e.position {
        NewPositionInv(s, e);
      } else {
        FillOfAnother(s.positions[id], id, s.fills, f);
      }
    }
  }

  lemma OpenKeepsTables(s: State, e: Entry)
    requires Indexed(s) && Listed(s) && FreshEntry(s, e) && e.tokens > 0.0 && e.mint !in s.byToken
    ensures Indexed(OpenPosition(s, e)) && Listed(OpenPosition(s, e))
  {
    hide Indexed, Listed;
    OpenKeepsIndex(s, e);
    OpenKeepsLists(s, e);
  }

  lemma OpenKeepsIndex(s: State, e: Entry)
    requires Indexed(s) && FreshEntry(s, e) && e.tokens > 0.0 && e.mint !in s.byToken
    ensures Indexed(OpenPosition(s, e))
  {
  }

  lemma OpenKeepsLists(s: State, e: Entry)
    requires Listed(s) && FreshEntry(s, e) && e.tokens > 0.0
    ensures Listed(OpenPosition(s, e))
  {
  }

  lemma NewPositionInv(s: State, e: Entry)
    requires Listed(s) && FreshEntry(s, e) && e.tokens > 0.0
    ensures PositionInv(OpenPosition(s, e).positions[e.position], e.position, OpenPosition(s, e).fills)
  {
    hide Recount;
    var s', id := OpenPosition(s, e), e.position;
    var f := s'.fills[|s.fills|];
    RecountNone(s.fills, id);
    RecountAppend(s.fills, f, Bought(id));
    RecountAppend(s.fills, f, Sold(id));
    RecountAppend(s.fills, f, Spent(id));
    RecountAppend(s.fills, f, CostSold(id));
    RecountAppend(s.fills, f, Gained(id));
  }

  lemma OpenKeepsBalance(s: State, start: real, e: Entry)
    requires Balanced(s, start) && FreshEntry(s, e) && e.tokens > 0.0
    ensures Balanced(OpenPosition(s, e), start)
  {
    hide Recount;
    var s' := OpenPosition(s, e);
    var f := s'.fills[|s.fills|];
    RecountAppend(s.fills, f, GainedInAll);
    RecountAppend(s.fills, f, SpentInAll);
    RecountAppend(s.fills, f, CostSoldInAll);
    TotalUpdate(OpenCosts(s.positions), e.position, EntryCost(e));
    assert OpenCosts(s'.positions) == OpenCosts(s.positions)[e.position := EntryCost(e)];
  }

  // ---------------------------------------------------------------------------
  // Closing keeps the invariant.

  lemma CloseKeepsInv(s: State, start: real, x: Exit, id: PositionId)
    requires Inv(s, start) && x.mint in s.byToken && id == s.byToken[x.mint]
    requires 0.0 < x.tokens <= s.positions[id].tokens
    ensures Inv(ClosePosition(s, x, id), start)
  {
    hide Recount, Balanced, Listed, PositionInv;
    var s' := ClosePosition(s, x, id);
    var f := s'.fills[|s.fills|];
    assert PositionInv(s.positions[id], id, s.fills);
    CloseKeepsBalance(s, start, x, id);
    CloseKeepsLists(s, x, id);
    forall j | j in s'.positions ensures PositionInv(s'.positions[j], j, s'.fills) {
      if j == id {
        ClosedPositionInv(s, x, id);
      } else {
        FillOfAnother(s.positions[j], j, s.fills, f);
      }
    }
    CloseKeepsIndex(s, x, id);
  }

  lemma CloseKeepsIndex(s: State, x: Exit, id: PositionId)
    requires Indexed(s) && x.mint in s.byToken && id == s.byToken[x.mint]
    requires s.positions[id].tokens > 0.0
    ensures Indexed(ClosePosition(s, x, id))
  {
  }

  lemma CloseKeepsLists(s: State, x: Exit, id: PositionId)
    requires Listed(s) && id in s.positions && s.positions[id].tokens > 0.0
    ensures Listed(ClosePosition(s, x, id))
  {
  }

  lemma ClosedPositionInv(s: State, x: Exit, id: PositionId)
    requires id in s.positions && PositionInv(s.positions[id], id, s.fills)
    requires 0.0 < x.tokens <= s.positions[id].tokens
    ensures PositionInv(ClosePosition(s, x, id).positions[id], id, ClosePosition(s, x, id).fills)
  {
    hide Recount;
    var p, s' := s.positions[id], ClosePosition(s, x, id);
    var f := s'.fills[|s.fills|];
    ProportionalShare(p.cost, p.tokens, x.tokens);
    RecountAppend(s.fills, f, Bought(id));
    RecountAppend(s.fills, f, Sold(id));
    RecountAppend(s.fills, f, Spent(id));
    RecountAppend(s.fills, f, CostSold(id));
    RecountAppend(s.fills, f, Gained(id));
  }

  /** Locked capital drops by the cost of what was closed. */
  lemma CloseReleasesCost(s: State, x: Exit, id: PositionId)
    requires id in s.positions && s.positions[id].status == Open
    requires 0.0 < x.tokens <= s.positions[id].tokens
    ensures Total(OpenCosts(ClosePosition(s, x, id).positions))
            == Total(OpenCosts(s.positions)) - Released(s.positions[id], x)
  {
    hide Total;
    var p, s' := s.positions[id], ClosePosition(s, x, id);
    var left := p.cost - Released(p, x);
    assert OpenCosts(s'.positions)[id] == left by {
      if x.tokens == p.tokens { assert x.tokens / p.tokens == 1.0; }
    }
    TotalUpdate(OpenCosts(s.positions), id, left);
    assert OpenCosts(s'.positions) == OpenCosts(s.positions)[id := left];
  }

  lemma CloseKeepsBalance(s: State, start: real, x: Exit, id: PositionId)
    requires Balanced(s, start) && id in s.positions && s.positions[id].status == Open
    requires 0.0 < x.tokens <= s.positions[id].tokens
    ensures Balanced(ClosePosition(s, x, id), start)
  {
    hide Recount, Total, OpenCosts, ClosedPosition;
    var p, s' := s.positions[id], ClosePosition(s, x, id);
    var f := s'.fills[|s.fills|];
    ProportionalShare(p.cost, p.tokens, x.tokens);
    RecountAppend(s.fills, f, GainedInAll);
    RecountAppend(s.fills, f, SpentInAll);
    RecountAppend(s.fills, f, CostSoldInAll);
    TotalUpdate(s.daily, x.day, s'.daily[x.day]);
    CloseReleasesCost(s, x, id);
  }

  // ---------------------------------------------------------------------------
  // Marking keeps the invariant.

  lemma MarkKeepsInv(s: State, start: real, m: Marks)
    requires Inv(s, start)
    ensures Inv(Mark(s, m), start)
  {
    hide Recount, Total, Contributions;
    var s' := Mark(s, m);
    assert Indexed(s') && Listed(s') && OpenCosts(s'.positions) == OpenCosts(s.positions) by {
      MarkMovesNothing(s.positions, m);
      IndexIgnoresValues(s, s');
    }
    hide Indexed, Listed;
    forall id | id in s'.positions ensures PositionInv(s'.positions[id], id, s'.fills) {
      assert PositionInv(s.positions[id], id, s.fills);
    }
  }

  ghost predicate SameHoldings(ps: map<PositionId, Position>, qs: map<PositionId, Position>) {
    qs.Keys == ps.Keys
    && forall id :: id in ps ==> qs[id].mint == ps[id].mint && qs[id].status == ps[id].status && qs[id].cost == ps[id].cost
  }

  lemma MarkMovesNothing(ps: map<PositionId, Position>, m: Marks)
    ensures SameHoldings(ps, MarkAll(ps, m))
  {
  }

  lemma IndexIgnoresValues(s: State, s': State)
    requires Indexed(s) && Listed(s) && SameHoldings(s.positions, s'.positions)
    requires s'.byToken == s.byToken && s'.order == s.order && s'.fills == s.fills
    requires s'.entryOrders == s.entryOrders && s'.exitOrders == s.exitOrders
    ensures Indexed(s') && Listed(s') && OpenCosts(s'.positions) == OpenCosts(s.positions)
  {
  }

  // ---------------------------------------------------------------------------
  // Whole runs.

  datatype Action = Buy(entry: Entry) | Sell(exit: Exit) | Revalue(marks: Marks)

  ghost function Apply(s: State, a: Action): State {
    match a
    case Buy(e) => Enter(s, e).0
    case Sell(x) => Leave(s, x).0
    case Revalue(m) => Mark(s, m)
  }

  /** New positions are given identifiers never used before. */
  ghost predicate Admissible(s: State, a: Action) {
    a.Buy? ==> FreshEntry(s, a.entry)
  }

  lemma StepKeepsInv(s: State, start: real, a: Action)
    requires Inv(s, start) && Admissible(s, a)
    ensures Inv(Apply(s, a), start)
    ensures Apply(s, a).peak == Max(s.peak, Apply(s, a).equity)
  {
    hide Recount, Total, PositionsInv, Listed;
    match a
    case Buy(e) =>
      if e.usd > 0.0 && e.tokens > 0.0 && EntryAnsweredBy(s, e).None? {
        OpenKeepsInv(s, start, e);
      }
    case Sell(x) =>
      if Leave(s, x).0 != s {
        CloseKeepsInv(s, start, x, s.byToken[x.mint]);
      }
    case Revalue(m) => MarkKeepsInv(s, start, m);
  }

  ghost predicate IsRun(ss: seq<State>, acts: seq<Action>, start: real) {
    |ss| == |acts| + 1 && ss[0] == Initial(start)
    && forall i :: 0 <= i < |acts| ==> Admissible(ss[i], acts[i]) && ss[i + 1] == Apply(ss[i], acts[i])
  }

  /** Over every run: equity less unrealized gains is the starting equity plus realized gains,
      locked capital is the sum of the open costs, and realized gains, the daily totals and
      every position's amounts are the ones recomputed from the fills. */
  lemma {:induction false} RunKeepsInv(ss: seq<State>, acts: seq<Action>, start: real, k: nat)
    requires IsRun(ss, acts, start) && k < |ss|
    ensures Inv(ss[k], start)
  {
    hide Apply, Inv, Admissible;
    if k == 0 {
      InitialInv(start);
    } else {
      RunKeepsInv(ss, acts, start, k - 1);
      StepKeepsInv(ss[k - 1], start, acts[k - 1]);
    }
  }

  /** The recorded peak is the largest equity the run has reached. */
  lemma {:induction false} PeakIsMaximum(ss: seq<State>, acts: seq<Action>, start: real, k: nat)
    requires IsRun(ss, acts, start) && k < |ss|
    ensures forall j :: 0 <= j <= k ==> ss[j].equity <= ss[k].peak
    ensures exists j :: 0 <= j <= k && ss[j].equity == ss[k].peak
  {
    hide Apply, Inv, Admissible;
    if k == 0 {
      assert ss[0].equity == ss[0].peak;
    } else {
      PeakIsMaximum(ss, acts, start, k - 1);
      RunKeepsInv(ss, acts, start, k - 1);
      StepKeepsInv(ss[k - 1], start, acts[k - 1]);
      assert ss[k].peak == Max(ss[k - 1].peak, ss[k].equity);
      if ss[k].peak != ss[k].equity {
        var j :| 0 <= j <= k - 1 && ss[j].equity == ss[k - 1].peak;
        assert 0 <= j <= k && ss[j].equity == ss[k].peak;
      }
    }
  }
}
