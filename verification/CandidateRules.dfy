/** When an evaluation moves a candidate, state by state, and over runs exactly when an armed
    candidate gives its entry signal. */
module CandidateRules {
  import opened Options
  import opened Candidates

  // ---------------------------------------------------------------------------
  // One evaluation.

  /** The states in which nothing has been bought. */
  predicate BeforeEntry(s: State) {
    s == Discovered || s == Collecting || s == SecurityCheck || s == Eligible || s == WaitingPullback || s == Armed
    || s == EntryPending || s == Rejected
  }

  /** Past its time, or vetoed while it matters. */
  predicate TooOld(cfg: Config, c: Candidate, i: Input) {
    BeforeEntry(c.state) && i.at > c.detectedAt + cfg.expirySeconds * 1_000_000
  }

  predicate Stopped(c: Candidate, i: Input) {
    i.security.Some? && i.security.value.hardReject
    && (c.state == SecurityCheck || c.state == Eligible || c.state == WaitingPullback || c.state == Armed
        || c.state == EntryPending)
  }

  ghost predicate RejectedFor(c: Candidate, o: Outcome, at: int, reason: Reason) {
    o.Next? && o.candidate.state == Rejected && o.candidate.rejectReason == Some(reason)
    && o.candidate.rejectedAt == Some(at) && o.candidate.detectedAt == c.detectedAt
    && o.candidate.signalEmitted == c.signalEmitted
  }

  /** The candidate moves on to a state and is otherwise as before, but for the time and the stamp of
      that state. */
  ghost predicate MovesTo(c: Candidate, o: Outcome, at: int, s: State) {
    o == Next(c.(state := s, updatedAt := at,
                 eligibleAt := if s == Eligible then Some(at) else c.eligibleAt,
                 armedAt := if s == Armed then Some(at) else c.armedAt))
  }

  ghost predicate StaysAndRemembers(c: Candidate, o: Outcome, i: Input) {
    o == Next(c.(updatedAt := i.at, previousPrice := Some(i.price), previousVwap := Some(i.vwap)))
  }

  /** A candidate past its time is rejected for it, unless it already is, in which case the
      evaluation raises; then a veto rejects for its first reason, or raises for want of one. */
  lemma RejectionRule(cfg: Config, c: Candidate, i: Input)
    ensures var o := Evaluate(cfg, c, i);
            if TooOld(cfg, c, i) then
              if c.state == Rejected then o.Raised? else RejectedFor(c, o, i.at, EntryWindowExpired)
            else if Stopped(c, i) then
              if i.security.value.reasons == [] then o.Raised? else RejectedFor(c, o, i.at, i.security.value.reasons[0])
            else o.Next? && (c.state != WaitingPullback && c.state != Rejected ==> o.candidate.state != Rejected)
  {
    hide Recorded, ReadyToArm;
  }

  /** The way to the pullback: discovery leads at once to collection, collection after its time to
      the security check, a clean result to eligibility, and this at once to the pullback. */
  lemma EarlyRule(cfg: Config, c: Candidate, i: Input)
    requires !TooOld(cfg, c, i) && !Stopped(c, i)
    ensures var o := Evaluate(cfg, c, i);
            (c.state == Discovered ==> MovesTo(c, o, i.at, Collecting))
            && (c.state == Collecting ==>
                  if i.at >= c.detectedAt + cfg.collectSeconds * 1_000_000 then MovesTo(c, o, i.at, SecurityCheck)
                  else StaysAndRemembers(c, o, i))
            && (c.state == SecurityCheck ==> if i.security.Some? then MovesTo(c, o, i.at, Eligible) else o == Next(c))
            && (c.state == Eligible ==> MovesTo(c, o, i.at, WaitingPullback))
            && (c.state !in {Discovered, Collecting, SecurityCheck, Eligible, WaitingPullback, Armed} ==> o == Next(c))
  {
    hide Recorded, ReadyToArm;
  }

  /** What is confirmed after a score: nothing after a low or missing one; a first good one starts
      anew, and so does one that comes more than a window and a second after the last; one a window
      after it, give or take a second, is added, and of more than are required the oldest go; one
      that comes too early is not counted. */
  lemma ConfirmationRule(cfg: Config, had: seq<int>, score: Option<real>, at: int)
    ensures var now := Recorded(cfg, had, score, at);
            if score.None? || score.value < cfg.minimumScore then now == []
            else if had == [] then now == [at]
            else
              var last, window := had[|had| - 1], cfg.windowSeconds * 1_000_000;
              if at - last > window + 1_000_000 then now == [at]
              else if OneWindowApart(cfg, last, at) then
                now == if cfg.required == 0 || |had| < cfg.required then had + [at] else (had + [at])[|had| + 1 - cfg.required..]
              else now == had
  {
    if had != [] { SpacedIs(cfg, had[|had| - 1], at); }
  }

  /** Waiting: a sale by the developer rejects; enough confirmations on a bounded pullback, with
      steady liquidity, accelerating buyers and a way out, arm the candidate and keep the high;
      otherwise it waits on, and the score is recorded in any case. */
  lemma WaitingRule(cfg: Config, c: Candidate, i: Input)
    requires c.state == WaitingPullback && !TooOld(cfg, c, i) && !Stopped(c, i)
    ensures var o, confirmed := Evaluate(cfg, c, i), Recorded(cfg, c.confirmations, i.score, i.at);
            if i.devSold then RejectedFor(c, o, i.at, DevSold) && o.candidate.confirmations == confirmed
            else if |confirmed| >= cfg.required
                    && i.drawdown >= cfg.minimumPullback && i.drawdown <= cfg.maximumPullback
                    && i.liquidityChange + cfg.maximumLiquidityDrop >= 0.0 && i.acceleration >= cfg.minimumAcceleration
                    && i.sellRoute
            then MovesTo(c.(confirmations := confirmed, pullbackHigh := Some(i.localHigh)), o, i.at, Armed)
            else StaysAndRemembers(c.(confirmations := confirmed), o, i)
  {
    hide Recorded;
  }

  /** Crossing the average from below, as remembered. */
  predicate Crosses(c: Candidate, i: Input) {
    c.previousPrice.Some? && c.previousVwap.Some? && c.previousPrice.value <= c.previousVwap.value && i.price > i.vwap
  }

  predicate BreaksHigh(c: Candidate, i: Input) {
    c.pullbackHigh.Some? && i.price > c.pullbackHigh.value
  }

  /** Armed: either signal, the first time, sends the entry; otherwise the candidate stays armed. */
  lemma ArmedRule(cfg: Config, c: Candidate, i: Input)
    requires c.state == Armed && !TooOld(cfg, c, i) && !Stopped(c, i)
    ensures var o := Evaluate(cfg, c, i);
            if !c.signalEmitted && (Crosses(c, i) || BreaksHigh(c, i))
            then MovesTo(c.(signalEmitted := true), o, i.at, EntryPending)
            else StaysAndRemembers(c, o, i)
  {
    hide Recorded, ReadyToArm;
  }

  // ---------------------------------------------------------------------------
  // Whole runs.

  /** No signal has been sent while a candidate is on its way. */
  lemma {:induction false} NoSignalYet(cfg: Config, cs: seq<Candidate>, ins: seq<Input>, k: nat)
    requires IsRun(cfg, cs, ins) && k < |cs| && Rank(cs[k].state) <= 5
    ensures !cs[k].signalEmitted
  {
    hide Evaluate;
    if k > 0 {
      RankNeverFalls(cfg, cs, ins, k - 1, k);
      NoSignalYet(cfg, cs, ins, k - 1);
      assert Evaluate(cfg, cs[k - 1], ins[k - 1]) == Next(cs[k - 1 + 1]);
      SignalStays(cfg, cs[k - 1], ins[k - 1]);
    }
  }

  lemma SignalStays(cfg: Config, c: Candidate, i: Input)
    requires Evaluate(cfg, c, i).Next? && Rank(Evaluate(cfg, c, i).candidate.state) <= 5
    ensures Evaluate(cfg, c, i).candidate.signalEmitted == c.signalEmitted
  {
    hide Recorded, ReadyToArm;
  }

  /** An evaluation after which a collecting or waiting candidate is where it was, or an armed one
      still armed, is the one its next evaluation remembers. */
  lemma RemembersLast(cfg: Config, c: Candidate, i: Input)
    requires Evaluate(cfg, c, i).Next? && Evaluate(cfg, c, i).candidate.state == c.state
    requires c.state == Collecting || c.state == WaitingPullback || c.state == Armed
    ensures Evaluate(cfg, c, i).candidate.previousPrice == Some(i.price)
    ensures Evaluate(cfg, c, i).candidate.previousVwap == Some(i.vwap)
  {
    hide Recorded, ReadyToArm;
  }

  lemma MovesKeepPrices(cfg: Config, c: Candidate, i: Input)
    requires Evaluate(cfg, c, i).Next? && Evaluate(cfg, c, i).candidate.state != c.state
    ensures Evaluate(cfg, c, i).candidate.previousPrice == c.previousPrice
    ensures Evaluate(cfg, c, i).candidate.previousVwap == c.previousVwap
  {
    hide Recorded, ReadyToArm;
  }

  /** Over every run, an armed candidate that is evaluated in time and without a veto sends its
      entry at this very evaluation exactly when the price is above the high seen at arming, or
      above the average while the price of the evaluation before was not. Directly after arming the
      evaluation before is the last one spent waiting. */
  lemma SignalIff(cfg: Config, cs: seq<Candidate>, ins: seq<Input>, armed: nat, k: nat)
    requires IsRun(cfg, cs, ins) && Enters(cs, armed, Armed) && armed < k < |ins| && cs[k].state == Armed
    requires !TooOld(cfg, cs[k], ins[k]) && !Stopped(cs[k], ins[k])
    ensures cs[k + 1].state == EntryPending || cs[k + 1].state == Armed
    ensures k > armed + 1 ==>
              (cs[k + 1].state == EntryPending <==>
                 ins[k].price > ins[armed].localHigh
                 || (ins[k].price > ins[k].vwap && ins[k - 1].price <= ins[k - 1].vwap))
    ensures k == armed + 1 && armed > 0 && cs[armed - 1].state == WaitingPullback ==>
              (cs[k + 1].state == EntryPending <==>
                 ins[k].price > ins[armed].localHigh
                 || (ins[k].price > ins[k].vwap && ins[armed - 1].price <= ins[armed - 1].vwap))
  {
    hide Evaluate, TooOld, Stopped;
    assert Evaluate(cfg, cs[k], ins[k]) == Next(cs[k + 1]);
    NoSignalYet(cfg, cs, ins, k);
    ArmedKeepsHigh(cfg, cs, ins, armed, k);
    ArmedRule(cfg, cs[k], ins[k]);
    assert Evaluate(cfg, cs[k - 1], ins[k - 1]) == Next(cs[k - 1 + 1]);
    if k > armed + 1 {
      RankNeverFalls(cfg, cs, ins, armed + 1, k - 1);
      RankNeverFalls(cfg, cs, ins, k - 1, k);
      RemembersLast(cfg, cs[k - 1], ins[k - 1]);
    } else {
      MovesKeepPrices(cfg, cs[armed], ins[armed]);
      if armed > 0 && cs[armed - 1].state == WaitingPullback {
        assert Evaluate(cfg, cs[armed - 1], ins[armed - 1]) == Next(cs[armed - 1 + 1]);
        StepFollowsEdge(cfg, cs[armed], ins[armed]);
        RemembersLast(cfg, cs[armed - 1], ins[armed - 1]);
      }
    }
  }
}
