/** Runtime runs: when a process starts one, what ends one, and how long a silent run is left
    alone. */
module RunRules {
  import opened Options
  import opened PaperAccount
  import M = BrokerMirror
  import R = Recovery
  import opened Admission

  /** The run was silent for longer than the bound, or the process holds the database lease. */
  predicate MayTakeOver(w: World, now: int, staleAfter: int, leaseFences: bool) {
    leaseFences || forall r :: r in w.runs && w.runs[r].active ==> now > w.runs[r].heartbeat + staleAfter
  }

  /** A start by a process without a run, of which every active run has been silent for longer than
      the bound or is fenced by the lease, ends those runs and begins the new one; any other start
      changes nothing. */
  lemma StartRule(w: World, lim: Limits, a: Action, w': World)
    requires Step(w, lim, a, w') && a.StartRun?
    ensures if w.owned[a.who].None? && MayTakeOver(w, a.now, a.staleAfter, a.leaseFences)
               && (a.commit == Known || a.commit == Unknown(true))
            then
              w'.db == w.db && w'.ledgers == w.ledgers && w'.runs.Keys == w.runs.Keys + {a.run}
              && w'.runs[a.run] == Run(true, a.now)
              && (forall r :: r in w.runs ==>
                    !w'.runs[r].active && w'.runs[r].heartbeat == if w.runs[r].active then a.now else w.runs[r].heartbeat)
              && w'.owned == (if a.commit == Known then w.owned[a.who := Some(a.run)] else w.owned)
            else w' == w
  {
  }

  /** A heartbeat renews only the run its process owns, and only while it is active. */
  lemma HeartbeatRule(w: World, lim: Limits, a: Action, w': World)
    requires Step(w, lim, a, w') && a.Heartbeat?
    ensures if w.owned[a.who] == Some(a.run) && a.run in w.runs && w.runs[a.run].active
               && (a.commit == Known || a.commit == Unknown(true))
            then w' == w.(runs := w.runs[a.run := Run(true, a.now)]) else w' == w
  {
  }

  /** A stop ends the run it names, whoever asks; the owner that is told of it has no run and no
      ledger after it. A crash ends no run. */
  lemma StopRule(w: World, lim: Limits, a: Action, w': World)
    requires Step(w, lim, a, w') && (a.StopRun? || a.Crash?)
    ensures w'.db == w.db && w'.runs.Keys == w.runs.Keys
    ensures forall r :: r in w.runs ==>
              w'.runs[r] == if a.StopRun? && r == a.run && (a.commit == Known || a.commit == Unknown(true))
                            then Run(false, a.now) else w.runs[r]
    ensures var loses := a.Crash? || (a.commit == Known && w.owned[a.who] == Some(a.run));
            w'.owned == (if loses then w.owned[a.who := None] else w.owned)
            && w'.ledgers == (if loses then w.ledgers - {a.who} else w.ledgers)
  {
  }

  /** Every other step leaves runs and ownership alone. */
  lemma OthersKeepRuns(w: World, lim: Limits, a: Action, w': World)
    requires Step(w, lim, a, w') && !a.StartRun? && !a.Heartbeat? && !a.StopRun? && !a.Crash?
    ensures w'.runs == w.runs && w'.owned == w.owned
  {
    hide M.BrokerOpen, M.BrokerClose, M.BrokerRevalue, R.Restored, OnePerMint, CommitEntry, CommitExit, SoundEntry, SoundExit;
  }

  /** A landed start of the run, or a landed heartbeat of its owner. */
  predicate Beats(a: Action, r: RunId) {
    (a.StartRun? || a.Heartbeat?) && a.run == r && (a.commit == Known || a.commit == Unknown(true))
  }

  lemma RunChanges(w: World, lim: Limits, a: Action, w': World, r: RunId)
    requires Step(w, lim, a, w') && r in w'.runs && w'.runs[r].active
    ensures (r in w.runs && w'.runs[r] == w.runs[r]) || (Beats(a, r) && w'.runs[r] == Run(true, a.now))
  {
    hide Step, MayTakeOver;
    if a.StartRun? { StartRule(w, lim, a, w'); }
    else if a.Heartbeat? { HeartbeatRule(w, lim, a, w'); }
    else if a.StopRun? || a.Crash? { StopRule(w, lim, a, w'); }
    else { OthersKeepRuns(w, lim, a, w'); }
  }

  /** Over every run of the processes, the heartbeat stored with an active run is the time of its
      start or of a heartbeat of its owner. */
  lemma {:induction false} WhoBeat(ws: seq<World>, lim: Limits, acts: seq<Action>, j: nat, r: RunId) returns (i: nat)
    requires IsRun(ws, lim, acts) && j < |ws| && r in ws[j].runs && ws[j].runs[r].active
    ensures i < j && Beats(acts[i], r) && acts[i].now == ws[j].runs[r].heartbeat
    decreases j
  {
    hide Step;
    if j == 0 {
      assert false;
    } else {
      assert Step(ws[j - 1], lim, acts[j - 1], ws[j]);
      RunChanges(ws[j - 1], lim, acts[j - 1], ws[j], r);
      if r in ws[j - 1].runs && ws[j].runs[r] == ws[j - 1].runs[r] {
        i := WhoBeat(ws, lim, acts, j - 1, r);
      } else {
        i := j - 1;
      }
    }
  }

  /** Over every run of the processes, a start that ends another active run without the lease comes
      later than the bound after that run was started or last beat. */
  lemma TakeOverWaits(ws: seq<World>, lim: Limits, acts: seq<Action>, j: nat, r: RunId) returns (i: nat)
    requires IsRun(ws, lim, acts) && j < |acts| && acts[j].StartRun? && !acts[j].leaseFences
    requires r in ws[j].runs && ws[j].runs[r].active && (r !in ws[j + 1].runs || !ws[j + 1].runs[r].active)
    ensures i < j && Beats(acts[i], r) && acts[j].now > acts[i].now + acts[j].staleAfter
  {
    hide Step;
    assert Step(ws[j], lim, acts[j], ws[j + 1]);
    StartRule(ws[j], lim, acts[j], ws[j + 1]);
    i := WhoBeat(ws, lim, acts, j, r);
  }
}
