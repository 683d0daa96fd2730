/** The candidate life cycle: one evaluation step, and what every run of evaluations that
    reaches an entry signal has gone through. */
module Candidates {
  import opened Options

  /** Times are in microseconds. */
  const SECOND := 1_000_000

  datatype State =
    | Discovered | Collecting | SecurityCheck | Eligible | WaitingPullback | Armed | EntryPending
    | PositionOpen | PositionPartial | ExitPending | RetryingExit | Closed | Rejected

  /** `_ALLOWED`. */
  function Allowed(s: State): set<State> {
    match s
    case Discovered => {Collecting, Rejected}
    case Collecting => {SecurityCheck, Rejected}
    case SecurityCheck => {Eligible, Rejected}
    case Eligible => {WaitingPullback, Rejected}
    case WaitingPullback => {Armed, Rejected}
    case Armed => {EntryPending, Rejected}
    case EntryPending => {PositionOpen, Rejected}
    case PositionOpen => {PositionPartial, ExitPending}
    case PositionPartial => {ExitPending}
    case ExitPending => {PositionPartial, RetryingExit, Closed}
    case RetryingExit => {ExitPending, Closed}
    case Closed => {}
    case Rejected => {}
  }

  datatype Reason = EntryWindowExpired | DevSold | SecurityReason(code: string)

  datatype Candidate = Candidate(
    state: State, detectedAt: int, updatedAt: int, eligibleAt: Option<int>, armedAt: Option<int>,
    rejectedAt: Option<int>, rejectReason: Option<Reason>, confirmations: seq<int>, signalEmitted: bool,
    previousPrice: Option<real>, previousVwap: Option<real>, pullbackHigh: Option<real>)

  datatype Security = Security(hardReject: bool, reasons: seq<Reason>)

  datatype Input = Input(
    at: int, price: real, vwap: real, localHigh: real, drawdown: real, liquidityChange: real, acceleration: real,
    security: Option<Security>, score: Option<real>, sellRoute: bool, devSold: bool)

  datatype Config = Config(
    collectSeconds: int, expirySeconds: int, minimumScore: real, required: nat, windowSeconds: int,
    minimumPullback: real, maximumPullback: real, maximumLiquidityDrop: real, minimumAcceleration: real)

  datatype Outcome = Next(candidate: Candidate) | Raised

  // ---------------------------------------------------------------------------
  // One evaluation.

  function Transition(c: Candidate, target: State, at: int, reason: Option<Reason>): Outcome {
    if target !in Allowed(c.state) || (target == Rejected && reason.None?) then Raised
    else
      var d := c.(state := target, updatedAt := at);
      Next(match target
           case Eligible => d.(eligibleAt := Some(at))
           case Armed => d.(armedAt := Some(at))
           case Rejected => d.(rejectedAt := Some(at), rejectReason := reason)
           case _ => d)
  }

  predicate Good(cfg: Config, score: Option<real>) {
    score.Some? && score.value >= cfg.minimumScore
  }

  predicate Spaced(cfg: Config, earlier: int, later: int) {
    var least := if cfg.windowSeconds - 1 > 0 then cfg.windowSeconds - 1 else 0;
    least * SECOND <= later - earlier <= (cfg.windowSeconds + 1) * SECOND
  }

  /** The last `n` entries, all of them when `n` is zero. */
  function LastOf(s: seq<int>, n: nat): seq<int> {
    if n == 0 || |s| <= n then s else s[|s| - n..]
  }

  /** The confirmations after `_record_score`. */
  function Recorded(cfg: Config, confirmations: seq<int>, score: Option<real>, at: int): seq<int> {
    if !Good(cfg, score) then []
    else if confirmations == [] then [at]
    else
      var last := confirmations[|confirmations| - 1];
      if Spaced(cfg, last, at) then LastOf(confirmations + [at], cfg.required)
      else if at - last > (cfg.windowSeconds + 1) * SECOND then [at]
      else confirmations
  }

  function Remember(c: Candidate, i: Input): Candidate {
    c.(previousPrice := Some(i.price), previousVwap := Some(i.vwap), updatedAt := i.at)
  }

  predicate Expires(s: State) {
    s !in {PositionOpen, PositionPartial, ExitPending, RetryingExit, Closed}
  }

  predicate Watched(s: State) {
    s in {Eligible, WaitingPullback, Armed, EntryPending}
  }

  predicate Vetoed(i: Input) {
    i.security.Some? && i.security.value.hardReject
  }

  function RejectForSecurity(c: Candidate, i: Input): Outcome
    requires Vetoed(i)
  {
    if i.security.value.reasons == [] then Raised
    else Transition(c, Rejected, i.at, Some(i.security.value.reasons[0]))
  }

  predicate ReadyToArm(cfg: Config, confirmations: seq<int>, i: Input) {
    |confirmations| >= cfg.required
    && cfg.minimumPullback <= i.drawdown <= cfg.maximumPullback
    && i.liquidityChange >= -cfg.maximumLiquidityDrop
    && i.acceleration >= cfg.minimumAcceleration
    && i.sellRoute
  }

  function EvaluateWaiting(cfg: Config, c: Candidate, i: Input): Outcome {
    var d := c.(confirmations := Recorded(cfg, c.confirmations, i.score, i.at), updatedAt := i.at);
    if i.devSold then Transition(d, Rejected, i.at, Some(DevSold))
    else if ReadyToArm(cfg, d.confirmations, i)
    then Transition(d.(pullbackHigh := Some(i.localHigh)), Armed, i.at, None)
    else Next(Remember(d, i))
  }

  function EvaluateArmed(c: Candidate, i: Input): Outcome {
    var crossed := c.previousPrice.Some? && c.previousVwap.Some?
                   && c.previousPrice.value <= c.previousVwap.value && i.price > i.vwap;
    var broke := c.pullbackHigh.Some? && i.price > c.pullbackHigh.value;
    if (crossed || broke) && !c.signalEmitted
    then Transition(c.(signalEmitted := true), EntryPending, i.at, None)
    else Next(Remember(c, i))
  }

  function Evaluate(cfg: Config, c: Candidate, i: Input): Outcome {
    var age := i.at - c.detectedAt;
    if Expires(c.state) && age > cfg.expirySeconds * SECOND
    then Transition(c, Rejected, i.at, Some(EntryWindowExpired))
    else if Vetoed(i) && Watched(c.state) then RejectForSecurity(c, i)
    else
      match c.state
      case Discovered => Transition(c, Collecting, i.at, None)
      case Collecting =>
        if age >= cfg.collectSeconds * SECOND then Transition(c, SecurityCheck, i.at, None)
        else Next(Remember(c, i))
      case SecurityCheck =>
        if i.security.None? then Next(c)
        else if Vetoed(i) then RejectForSecurity(c, i)
        else Transition(c, Eligible, i.at, None)
      case Eligible => Transition(c, WaitingPullback, i.at, None)
      case WaitingPullback => EvaluateWaiting(cfg, c, i)
      case Armed => EvaluateArmed(c, i)
      case _ => Next(c)
  }

  // ---------------------------------------------------------------------------
  // Runs.

  ghost predicate IsNew(c: Candidate) {
    c.state == Discovered && c.confirmations == [] && !c.signalEmitted
    && c.previousPrice.None? && c.previousVwap.None? && c.pullbackHigh.None?
    && c.eligibleAt.None? && c.armedAt.None? && c.rejectedAt.None?
  }

  /** Consecutive successful evaluations of one candidate, in time order. */
  ghost predicate IsRun(cfg: Config, cs: seq<Candidate>, ins: seq<Input>) {
    |cs| == |ins| + 1 && IsNew(cs[0])
    && (forall k :: 0 <= k < |ins| ==> Evaluate(cfg, cs[k], ins[k]) == Next(cs[k + 1]))
    && (forall j, k :: 0 <= j <= k < |ins| ==> ins[j].at <= ins[k].at)
  }

  /** How far along the path to entry a state is. */
  function Rank(s: State): nat {
    match s
    case Discovered => 0
    case Collecting => 1
    case SecurityCheck => 2
    case Eligible => 3
    case WaitingPullback => 4
    case Armed => 5
    case EntryPending => 6
    case Rejected => 7
    case _ => 8
  }

  /** A step stays put or follows one allowed edge, one rank up or into rejection. */
  lemma StepFollowsEdge(cfg: Config, c: Candidate, i: Input)
    requires Evaluate(cfg, c, i).Next?
    ensures var d := Evaluate(cfg, c, i).candidate;
            d.detectedAt == c.detectedAt
            && (d.state == c.state
                || (d.state in Allowed(c.state)
                    && (d.state == Rejected || Rank(d.state) == Rank(c.state) + 1)))
  {
    hide Recorded, ReadyToArm;
  }

  lemma {:induction false} RankNeverFalls(cfg: Config, cs: seq<Candidate>, ins: seq<Input>, j: nat, k: nat)
    requires IsRun(cfg, cs, ins) && j <= k < |cs|
    ensures Rank(cs[j].state) <= Rank(cs[k].state) <= 7 && cs[k].detectedAt == cs[0].detectedAt
    decreases k
  {
    hide Evaluate;
    if k > 0 {
      RankNeverFalls(cfg, cs, ins, if j == k then k - 1 else j, k - 1);
      StepFollowsEdge(cfg, cs[k - 1], ins[k - 1]);
    }
  }

  /** The step at which a run enters a state. */
  ghost predicate Enters(cs: seq<Candidate>, k: nat, s: State) {
    k + 1 < |cs| && cs[k].state != s && cs[k + 1].state == s
  }

  /** No state on the way to entry, and in particular the entry signal, is entered twice. */
  lemma EnteredOnce(cfg: Config, cs: seq<Candidate>, ins: seq<Input>, j: nat, k: nat, s: State)
    requires IsRun(cfg, cs, ins) && Enters(cs, j, s) && Enters(cs, k, s)
    ensures j == k
  {
    hide Evaluate;
    if j < k {
      NoWayBack(cfg, cs, ins, j, k, s);
    }
    if k < j {
      NoWayBack(cfg, cs, ins, k, j, s);
    }
  }

  lemma NoWayBack(cfg: Config, cs: seq<Candidate>, ins: seq<Input>, j: nat, k: nat, s: State)
    requires IsRun(cfg, cs, ins) && j < k && Enters(cs, j, s)
    ensures !Enters(cs, k, s)
  {
    hide Evaluate;
    if k + 1 < |cs| {
      RankNeverFalls(cfg, cs, ins, j + 1, k);
      RankNeverFalls(cfg, cs, ins, k, k + 1);
    }
  }

  /** Reaching a state of rank at least `r` means having entered the state of rank `r`. */
  lemma {:induction false} FindEntry(cfg: Config, cs: seq<Candidate>, ins: seq<Input>, k: nat, s: State) returns (j: nat)
    requires IsRun(cfg, cs, ins) && k < |cs| && Rank(cs[k].state) < 7 && 0 < Rank(s) <= Rank(cs[k].state)
    ensures j < k && Enters(cs, j, s) && Rank(cs[j].state) == Rank(s) - 1
  {
    hide Evaluate;
    RankNeverFalls(cfg, cs, ins, k - 1, k);
    StepFollowsEdge(cfg, cs[k - 1], ins[k - 1]);
    if Rank(cs[k - 1].state) >= Rank(s) {
      j := FindEntry(cfg, cs, ins, k - 1, s);
    } else {
      j := k - 1;
    }
  }

  /** The time stored for entering a state. */
  function Stamp(c: Candidate, s: State): Option<int>
    requires s in {Eligible, Armed, Rejected}
  {
    if s == Eligible then c.eligibleAt else if s == Armed then c.armedAt else c.rejectedAt
  }

  lemma TransitionStamps(c: Candidate, target: State, at: int, reason: Option<Reason>, s: State)
    requires s in {Eligible, Armed, Rejected} && Transition(c, target, at, reason).Next?
    ensures var d := Transition(c, target, at, reason).candidate;
            target != c.state && d.state == target && Stamp(d, s) == if target == s then Some(at) else Stamp(c, s)
  {
  }

  lemma WaitingStamps(cfg: Config, c: Candidate, i: Input, s: State)
    requires c.state == WaitingPullback && EvaluateWaiting(cfg, c, i).Next? && s in {Eligible, Armed, Rejected}
    ensures var d := EvaluateWaiting(cfg, c, i).candidate;
            Stamp(d, s) == if d.state == s && c.state != s then Some(i.at) else Stamp(c, s)
  {
    hide Transition, Recorded, ReadyToArm;
    var e := c.(confirmations := Recorded(cfg, c.confirmations, i.score, i.at), updatedAt := i.at);
    var f := e.(pullbackHigh := Some(i.localHigh));
    if i.devSold {
      TransitionStamps(e, Rejected, i.at, Some(DevSold), s);
    } else if ReadyToArm(cfg, e.confirmations, i) {
      TransitionStamps(f, Armed, i.at, None, s);
    }
  }

  lemma ArmedStamps(c: Candidate, i: Input, s: State)
    requires c.state == Armed && EvaluateArmed(c, i).Next? && s in {Eligible, Armed, Rejected}
    ensures var d := EvaluateArmed(c, i).candidate;
            Stamp(d, s) == if d.state == s && c.state != s then Some(i.at) else Stamp(c, s)
  {
    hide Transition;
    var e := c.(signalEmitted := true);
    if EvaluateArmed(c, i) == Transition(e, EntryPending, i.at, None) {
      TransitionStamps(e, EntryPending, i.at, None, s);
    }
  }

  lemma StepStamps(cfg: Config, c: Candidate, i: Input, s: State)
    requires Evaluate(cfg, c, i).Next? && s in {Eligible, Armed, Rejected}
    ensures var d := Evaluate(cfg, c, i).candidate;
            Stamp(d, s) == if d.state == s && c.state != s then Some(i.at) else Stamp(c, s)
  {
    hide Transition, EvaluateWaiting, EvaluateArmed;
    forall target, reason | Transition(c, target, i.at, reason).Next?
      ensures var d := Transition(c, target, i.at, reason).candidate;
              target != c.state && d.state == target && Stamp(d, s) == if target == s then Some(i.at) else Stamp(c, s)
    {
      TransitionStamps(c, target, i.at, reason, s);
    }
    if c.state == WaitingPullback && EvaluateWaiting(cfg, c, i).Next? { WaitingStamps(cfg, c, i, s); }
    if c.state == Armed && EvaluateArmed(c, i).Next? { ArmedStamps(c, i, s); }
  }

  /** A stored time is that of the step that entered the state, and every entered state has one. */
  lemma {:induction false} StampedOnEntry(cfg: Config, cs: seq<Candidate>, ins: seq<Input>, k: nat, s: State)
    requires IsRun(cfg, cs, ins) && k < |cs| && s in {Eligible, Armed, Rejected}
    ensures Stamp(cs[k], s).Some? <==> exists j :: 0 <= j < k && Enters(cs, j, s)
    ensures forall j :: 0 <= j < k && Enters(cs, j, s) ==> Stamp(cs[k], s) == Some(ins[j].at)
  {
    hide Evaluate, Stamp;
    if k == 0 {
      assert Stamp(cs[0], s).None? by { NoStamp(cs[0], s); }
    } else {
      StampedOnEntry(cfg, cs, ins, k - 1, s);
      assert Evaluate(cfg, cs[k - 1], ins[k - 1]) == Next(cs[k - 1 + 1]);
      StepStamps(cfg, cs[k - 1], ins[k - 1], s);
      if Enters(cs, k - 1, s) {
        forall j | 0 <= j < k && Enters(cs, j, s) ensures j == k - 1 {
          EnteredOnce(cfg, cs, ins, j, k - 1, s);
        }
      } else {
        assert forall j :: 0 <= j < k && Enters(cs, j, s) ==> j < k - 1;
      }
    }
  }

  lemma NoStamp(c: Candidate, s: State)
    requires IsNew(c) && s in {Eligible, Armed, Rejected}
    ensures Stamp(c, s).None?
  {
  }

  // ---------------------------------------------------------------------------
  // Confirmations.

  /** One window, give or take a second; a window of no length is met at once. */
  predicate OneWindowApart(cfg: Config, earlier: int, later: int) {
    later >= earlier && later - earlier >= cfg.windowSeconds * 1_000_000 - 1_000_000
    && later - earlier <= cfg.windowSeconds * 1_000_000 + 1_000_000
  }

  lemma SpacedIs(cfg: Config, earlier: int, later: int)
    ensures Spaced(cfg, earlier, later) <==> OneWindowApart(cfg, earlier, later)
  {
  }

  /** Each listed time is that of an evaluation with a good score, neighbours are one window
      apart, and since the first of them no evaluation had a low score. */
  ghost predicate Backed(cfg: Config, ins: seq<Input>, times: seq<int>, steps: seq<nat>, until: nat) {
    |steps| == |times| && until <= |ins|
    && (forall t :: 0 <= t < |steps| ==> steps[t] < until && ins[steps[t]].at == times[t])
    && (forall t, u :: 0 <= t < u < |steps| ==> steps[t] < steps[u])
    && (forall t :: 0 <= t < |times| - 1 ==> OneWindowApart(cfg, times[t], times[t + 1]))
    && (steps != [] ==> forall s :: steps[0] <= s < until ==> ins[s].score.Some? && ins[s].score.value >= cfg.minimumScore)
  }

  /** One more evaluation extends the backing of the recorded list. */
  lemma RecordedIsBacked(cfg: Config, ins: seq<Input>, times: seq<int>, steps: seq<nat>, k: nat) returns (next: seq<nat>)
    requires k < |ins| && Backed(cfg, ins, times, steps, k)
    ensures Backed(cfg, ins, Recorded(cfg, times, ins[k].score, ins[k].at), next, k + 1)
  {
    hide Spaced, OneWindowApart;
    var score, at := ins[k].score, ins[k].at;
    if !Good(cfg, score) {
      next := [];
    } else if times == [] {
      next := [k];
    } else {
      var last := times[|times| - 1];
      SpacedIs(cfg, last, at);
      if Spaced(cfg, last, at) {
        next := steps + [k];
        assert Backed(cfg, ins, times + [at], next, k + 1);
        if !(cfg.required == 0 || |times + [at]| <= cfg.required) {
          var cut := |times + [at]| - cfg.required;
          next := Suffix(cfg, ins, times + [at], next, k + 1, cut);
        }
      } else if at - last > (cfg.windowSeconds + 1) * SECOND {
        next := [k];
      } else {
        next := steps;
      }
    }
  }

  lemma Suffix(cfg: Config, ins: seq<Input>, times: seq<int>, steps: seq<nat>, until: nat, cut: nat) returns (next: seq<nat>)
    requires Backed(cfg, ins, times, steps, until) && cut <= |times|
    ensures Backed(cfg, ins, times[cut..], next, until)
  {
    hide OneWindowApart;
    next := steps[cut..];
    forall t | 0 <= t < |times[cut..]| - 1 ensures OneWindowApart(cfg, times[cut..][t], times[cut..][t + 1]) {
      assert OneWindowApart(cfg, times[cut + t], times[cut + t + 1]);
    }
  }

  /** Up to arming, the confirmations a candidate holds are backed by its own history. */
  lemma {:induction false} HistoryBacks(cfg: Config, cs: seq<Candidate>, ins: seq<Input>, k: nat) returns (steps: seq<nat>)
    requires IsRun(cfg, cs, ins) && k < |cs| && Rank(cs[k].state) <= 5
    ensures Rank(cs[k].state) <= 3 ==> cs[k].confirmations == []
    ensures Rank(cs[k].state) <= 4 ==> Backed(cfg, ins, cs[k].confirmations, steps, k)
    ensures k > 0 && Enters(cs, k - 1, Armed) ==> Backed(cfg, ins, cs[k].confirmations, steps, k)
  {
    hide Spaced, Good, Backed, Recorded;
    if k == 0 {
      steps := [];
      assert Backed(cfg, ins, [], [], 0) by { NothingBacked(cfg, ins, 0); }
    } else {
      RankNeverFalls(cfg, cs, ins, k - 1, k);
      steps := HistoryBacks(cfg, cs, ins, k - 1);
      assert Evaluate(cfg, cs[k - 1], ins[k - 1]) == Next(cs[k - 1 + 1]);
      if cs[k - 1].state == WaitingPullback {
        steps := RecordedIsBacked(cfg, ins, cs[k - 1].confirmations, steps, k - 1);
      } else {
        steps := [];
        NothingBacked(cfg, ins, k);
      }
    }
  }

  lemma NothingBacked(cfg: Config, ins: seq<Input>, until: nat)
    requires until <= |ins|
    ensures Backed(cfg, ins, [], [], until)
  {
  }

  // ---------------------------------------------------------------------------
  // What an entry signal stands on.

  /** When a run enters ENTRY_PENDING, at step `entry`, its age lies between the collection
      time and the expiry time; the security result was clean at step `cleared` and not
      vetoed since; and at step `armed` it held the required number of confirmations. */
  lemma EntrySignalIsEarned(cfg: Config, cs: seq<Candidate>, ins: seq<Input>, entry: nat)
    returns (cleared: nat, armed: nat, steps: seq<nat>)
    requires IsRun(cfg, cs, ins) && Enters(cs, entry, EntryPending)
    ensures cfg.collectSeconds * SECOND <= ins[entry].at - cs[0].detectedAt <= cfg.expirySeconds * SECOND
    ensures cleared < armed < entry
    ensures ins[cleared].security.Some? && !ins[cleared].security.value.hardReject
    ensures forall k :: cleared <= k <= entry ==> !Vetoed(ins[k])
    ensures Enters(cs, armed, Armed) && |cs[armed + 1].confirmations| >= cfg.required
    ensures Backed(cfg, ins, cs[armed + 1].confirmations, steps, armed + 1)
    ensures !cs[entry].signalEmitted && cs[entry + 1].signalEmitted
  {
    hide Evaluate, Backed;
    RankNeverFalls(cfg, cs, ins, 0, entry);
    EntryStep(cfg, cs[entry], ins[entry]);
    assert Evaluate(cfg, cs[entry], ins[entry]) == Next(cs[entry + 1]);
    var collected := FindEntry(cfg, cs, ins, entry, SecurityCheck);
    CollectStep(cfg, cs[collected], ins[collected]);
    assert Evaluate(cfg, cs[collected], ins[collected]) == Next(cs[collected + 1]);
    RankNeverFalls(cfg, cs, ins, 0, collected);
    cleared := FindEntry(cfg, cs, ins, entry, Eligible);
    ClearStep(cfg, cs[cleared], ins[cleared]);
    assert Evaluate(cfg, cs[cleared], ins[cleared]) == Next(cs[cleared + 1]);
    armed := FindEntry(cfg, cs, ins, entry, Armed);
    ArmStep(cfg, cs[armed], ins[armed]);
    assert Evaluate(cfg, cs[armed], ins[armed]) == Next(cs[armed + 1]);
    OrderOfEntries(cfg, cs, ins, cleared, armed, entry);
    steps := HistoryBacks(cfg, cs, ins, armed + 1);
    forall k | cleared <= k <= entry ensures !Vetoed(ins[k]) {
      if k > cleared {
        RankNeverFalls(cfg, cs, ins, cleared + 1, k);
        RankNeverFalls(cfg, cs, ins, k, entry);
        RankNeverFalls(cfg, cs, ins, k + 1, entry + 1);
        VetoRejects(cfg, cs[k], ins[k]);
        assert Evaluate(cfg, cs[k], ins[k]) == Next(cs[k + 1]);
      }
    }
  }

  lemma OrderOfEntries(cfg: Config, cs: seq<Candidate>, ins: seq<Input>, cleared: nat, armed: nat, entry: nat)
    requires IsRun(cfg, cs, ins) && cleared < entry < |ins| && armed < entry
    requires Enters(cs, cleared, Eligible) && Enters(cs, armed, Armed) && Rank(cs[armed].state) == 4
    ensures cleared < armed
  {
    hide Evaluate;
    if armed <= cleared {
      RankNeverFalls(cfg, cs, ins, armed + 1, cleared + 1);
    }
  }

  lemma EntryStep(cfg: Config, c: Candidate, i: Input)
    requires Evaluate(cfg, c, i).Next? && Evaluate(cfg, c, i).candidate.state == EntryPending && c.state != EntryPending
    ensures c.state == Armed && i.at - c.detectedAt <= cfg.expirySeconds * SECOND && !Vetoed(i)
    ensures !c.signalEmitted && Evaluate(cfg, c, i).candidate.signalEmitted
  {
    hide Recorded, ReadyToArm;
  }

  lemma CollectStep(cfg: Config, c: Candidate, i: Input)
    requires Evaluate(cfg, c, i).Next? && Evaluate(cfg, c, i).candidate.state == SecurityCheck && c.state != SecurityCheck
    ensures i.at - c.detectedAt >= cfg.collectSeconds * SECOND
  {
    hide Recorded, ReadyToArm;
  }

  lemma ClearStep(cfg: Config, c: Candidate, i: Input)
    requires Evaluate(cfg, c, i).Next? && Evaluate(cfg, c, i).candidate.state == Eligible && c.state != Eligible
    ensures i.security.Some? && !i.security.value.hardReject
  {
    hide Recorded, ReadyToArm;
  }

  lemma ArmStep(cfg: Config, c: Candidate, i: Input)
    requires Evaluate(cfg, c, i).Next? && Evaluate(cfg, c, i).candidate.state == Armed && c.state != Armed
    ensures |Evaluate(cfg, c, i).candidate.confirmations| >= cfg.required
    ensures Evaluate(cfg, c, i).candidate.pullbackHigh == Some(i.localHigh)
    ensures Pullback(cfg, i)
  {
    hide Recorded;
  }

  /** The market at an arming step: a bounded pullback on steady liquidity with accelerating
      buyers and a way out. */
  predicate Pullback(cfg: Config, i: Input) {
    !i.devSold && i.sellRoute
    && cfg.minimumPullback <= i.drawdown <= cfg.maximumPullback
    && i.liquidityChange >= -cfg.maximumLiquidityDrop && i.acceleration >= cfg.minimumAcceleration
  }

  /** While armed, the high recorded at arming is kept. */
  lemma {:induction false} ArmedKeepsHigh(cfg: Config, cs: seq<Candidate>, ins: seq<Input>, armed: nat, k: nat)
    requires IsRun(cfg, cs, ins) && Enters(cs, armed, Armed) && armed < k < |cs| && cs[k].state == Armed
    ensures cs[k].pullbackHigh == Some(ins[armed].localHigh)
    decreases k
  {
    hide Evaluate;
    assert Evaluate(cfg, cs[k - 1], ins[k - 1]) == Next(cs[k - 1 + 1]);
    if k == armed + 1 {
      ArmStep(cfg, cs[armed], ins[armed]);
    } else {
      RankNeverFalls(cfg, cs, ins, armed + 1, k - 1);
      RankNeverFalls(cfg, cs, ins, k - 1, k);
      ArmedKeepsHigh(cfg, cs, ins, armed, k - 1);
      StayArmed(cfg, cs[k - 1], ins[k - 1]);
    }
  }

  lemma StayArmed(cfg: Config, c: Candidate, i: Input)
    requires c.state == Armed && Evaluate(cfg, c, i).Next? && Evaluate(cfg, c, i).candidate.state == Armed
    ensures Evaluate(cfg, c, i).candidate.pullbackHigh == c.pullbackHigh
  {
  }

  /** A remembered price and its average come from one earlier evaluation that stayed put. */
  lemma {:induction false} RememberedFrom(cfg: Config, cs: seq<Candidate>, ins: seq<Input>, k: nat) returns (j: nat)
    requires IsRun(cfg, cs, ins) && k < |cs| && cs[k].previousPrice.Some?
    ensures j < k && cs[j + 1].state == cs[j].state
    ensures cs[k].previousPrice == Some(ins[j].price) && cs[k].previousVwap == Some(ins[j].vwap)
  {
    hide Evaluate;
    assert k > 0;
    assert Evaluate(cfg, cs[k - 1], ins[k - 1]) == Next(cs[k - 1 + 1]);
    StepRemembers(cfg, cs[k - 1], ins[k - 1]);
    if cs[k].previousPrice == cs[k - 1].previousPrice && cs[k].previousVwap == cs[k - 1].previousVwap {
      j := RememberedFrom(cfg, cs, ins, k - 1);
    } else {
      j := k - 1;
    }
  }

  lemma StepRemembers(cfg: Config, c: Candidate, i: Input)
    requires Evaluate(cfg, c, i).Next?
    ensures var d := Evaluate(cfg, c, i).candidate;
            (d.previousPrice == c.previousPrice && d.previousVwap == c.previousVwap)
            || (d.state == c.state && d.previousPrice == Some(i.price) && d.previousVwap == Some(i.vwap))
  {
    hide Recorded, ReadyToArm;
  }

  /** The price that triggers the entry signal either breaks the high seen at arming, or crosses
      the average from below since an earlier evaluation. */
  lemma EntryPriceBreaksOut(cfg: Config, cs: seq<Candidate>, ins: seq<Input>, entry: nat) returns (armed: nat, before: nat)
    requires IsRun(cfg, cs, ins) && Enters(cs, entry, EntryPending)
    ensures armed < entry && Enters(cs, armed, Armed) && Pullback(cfg, ins[armed])
    ensures before < entry && before != armed
    ensures ins[entry].price > ins[armed].localHigh
            || (ins[entry].price > ins[entry].vwap && ins[before].price <= ins[before].vwap)
  {
    hide Evaluate;
    RankNeverFalls(cfg, cs, ins, 0, entry);
    assert Evaluate(cfg, cs[entry], ins[entry]) == Next(cs[entry + 1]);
    EntryStep(cfg, cs[entry], ins[entry]);
    TriggerStep(cfg, cs[entry], ins[entry]);
    armed := FindEntry(cfg, cs, ins, entry, Armed);
    assert Evaluate(cfg, cs[armed], ins[armed]) == Next(cs[armed + 1]);
    ArmStep(cfg, cs[armed], ins[armed]);
    ArmedKeepsHigh(cfg, cs, ins, armed, entry);
    var first := FindEntry(cfg, cs, ins, entry, Collecting);
    before := first;
    if ins[entry].price <= ins[armed].localHigh {
      before := RememberedFrom(cfg, cs, ins, entry);
    }
  }

  lemma TriggerStep(cfg: Config, c: Candidate, i: Input)
    requires Evaluate(cfg, c, i).Next? && Evaluate(cfg, c, i).candidate.state == EntryPending && c.state == Armed
    ensures (c.pullbackHigh.Some? && i.price > c.pullbackHigh.value)
            || (c.previousPrice.Some? && c.previousVwap.Some? && c.previousPrice.value <= c.previousVwap.value
                && i.price > i.vwap)
  {
    hide Recorded, ReadyToArm;
  }

  lemma VetoRejects(cfg: Config, c: Candidate, i: Input)
    requires Watched(c.state) && Evaluate(cfg, c, i).Next?
    ensures Vetoed(i) ==> Evaluate(cfg, c, i).candidate.state == Rejected
  {
  }

  /** An evaluation raises exactly when a rejected candidate is past its expiry, or when a
      veto that applies carries no reason. */
  lemma RaisesIff(cfg: Config, c: Candidate, i: Input)
    ensures var expired := Expires(c.state) && i.at - c.detectedAt > cfg.expirySeconds * SECOND;
            Evaluate(cfg, c, i).Raised? <==>
              (expired && c.state == Rejected)
              || (!expired && Vetoed(i) && i.security.value.reasons == []
                  && (Watched(c.state) || c.state == SecurityCheck))
  {
    hide Recorded, ReadyToArm;
  }
}
