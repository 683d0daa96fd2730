/** The figures of a statistical report in terms of the trades and receipts themselves, and which
    reports are produced, passed and accepted. */
module AcceptanceRules {
  import opened Options
  import opened Sums
  import opened Acceptance

  // ---------------------------------------------------------------------------
  // The out-of-sample trades, by their places in the list.

  /** Those among the first `k`. */
  ghost function Counted(trades: seq<Trade>, p: Protocol, k: nat): set<nat>
    requires k <= |trades|
  {
    set i: nat | i < k && trades[i].entryTime >= p.oosStart
  }

  ghost function OnDay(trades: seq<Trade>, p: Protocol, k: nat, day: Day): set<nat>
    requires k <= |trades|
  {
    set i: nat | i < k && trades[i].entryTime >= p.oosStart && trades[i].closedDay == day
  }

  ghost function InCluster(trades: seq<Trade>, p: Protocol, k: nat, cluster: string): set<nat>
    requires k <= |trades|
  {
    set i: nat | i < k && trades[i].entryTime >= p.oosStart && trades[i].cluster == Some(cluster)
  }

  function Above(x: real): real { if x > 0.0 then x else 0.0 }

  /** What a trade earns after its share of the costs. */
  function Earned(trades: seq<Trade>, share: real, i: nat): real {
    if i < |trades| then trades[i].pnl - share else 0.0
  }

  ghost function NetOf(s: set<nat>, trades: seq<Trade>, share: real): real {
    Total(map i | i in s :: Earned(trades, share, i))
  }

  ghost function ProfitOf(s: set<nat>, trades: seq<Trade>, share: real): real {
    Total(map i | i in s :: Above(Earned(trades, share, i)))
  }

  ghost function LossOf(s: set<nat>, trades: seq<Trade>, share: real): real {
    Total(map i | i in s :: Above(-Earned(trades, share, i)))
  }

  lemma SumsAdd(s: set<nat>, trades: seq<Trade>, share: real, k: nat)
    requires k !in s
    ensures NetOf(s + {k}, trades, share) == NetOf(s, trades, share) + Earned(trades, share, k)
    ensures ProfitOf(s + {k}, trades, share) == ProfitOf(s, trades, share) + Above(Earned(trades, share, k))
    ensures LossOf(s + {k}, trades, share) == LossOf(s, trades, share) + Above(-Earned(trades, share, k))
  {
    hide Earned, Above;
    AddsOne(map i | i in s :: Earned(trades, share, i), map i | i in s + {k} :: Earned(trades, share, i), k);
    AddsOne(map i | i in s :: Above(Earned(trades, share, i)), map i | i in s + {k} :: Above(Earned(trades, share, i)), k);
    AddsOne(map i | i in s :: Above(-Earned(trades, share, i)), map i | i in s + {k} :: Above(-Earned(trades, share, i)), k);
  }

  lemma AddsOne(m: map<nat, real>, n: map<nat, real>, k: nat)
    requires k !in m && n.Keys == m.Keys + {k} && forall i :: i in m ==> n[i] == m[i]
    ensures Total(n) == Total(m) + n[k]
  {
    hide Total;
    TotalUpdate(m, k, n[k]);
    assert n == m[k := n[k]];
  }

  lemma NothingSums(trades: seq<Trade>, share: real)
    ensures NetOf({}, trades, share) == 0.0 && ProfitOf({}, trades, share) == 0.0 && LossOf({}, trades, share) == 0.0
  {
  }

  /** One more trade in the evaluator's lists. */
  lemma NextTrade(trades: seq<Trade>, p: Protocol, share: real, k: nat)
    requires k < |trades|
    ensures var before, after := OutOfSample(trades[..k], p), OutOfSample(trades[..k + 1], p);
            if trades[k].entryTime >= p.oosStart then
              after == before + [trades[k]] && Economic(after, share) == Economic(before, share) + [trades[k].pnl - share]
              && Days(after) == Days(before) + [Some(trades[k].closedDay)]
              && Clusters(after) == Clusters(before) + [trades[k].cluster]
              && MissingClusters(after) == MissingClusters(before) + (if trades[k].cluster.None? then 1 else 0)
            else after == before
  {
    assert trades[..k + 1][..k] == trades[..k];
    var before := OutOfSample(trades[..k], p);
    if trades[k].entryTime >= p.oosStart {
      assert (before + [trades[k]])[..|before|] == before;
    }
  }

  lemma ListsAppend(s: seq<real>, x: real)
    ensures Sum(s + [x]) == Sum(s) + x && Gains(s + [x]) == Gains(s) + Above(x) && Losses(s + [x]) == Losses(s) + Above(-x)
    ensures Largest(s + [x]) == if x > Largest(s) then x else Largest(s)
  {
    assert (s + [x])[..|s|] == s;
  }

  lemma CountedStep(trades: seq<Trade>, p: Protocol, k: nat)
    requires k < |trades|
    ensures Counted(trades, p, k + 1)
            == if trades[k].entryTime >= p.oosStart then Counted(trades, p, k) + {k} else Counted(trades, p, k)
    ensures k !in Counted(trades, p, k)
  {
  }

  lemma {:induction false} SumsOfList(trades: seq<Trade>, p: Protocol, share: real, k: nat)
    requires k <= |trades|
    ensures var oos, s := OutOfSample(trades[..k], p), Counted(trades, p, k);
            var pnls := Economic(oos, share);
            |oos| == |s| && Sum(pnls) == NetOf(s, trades, share) && Gains(pnls) == ProfitOf(s, trades, share)
            && Losses(pnls) == LossOf(s, trades, share)
  {
    hide OutOfSample, Economic, Gains, Losses, Sum, NetOf, ProfitOf, LossOf, MissingClusters, Largest, Days, Clusters, Counted, Above;
    NoneCounted(trades, p, share);
    if k > 0 {
      SumsOfList(trades, p, share, k - 1);
      NextTrade(trades, p, share, k - 1);
      CountedStep(trades, p, k - 1);
      if trades[k - 1].entryTime >= p.oosStart {
        ListsAppend(Economic(OutOfSample(trades[..k - 1], p), share), trades[k - 1].pnl - share);
        SumsAdd(Counted(trades, p, k - 1), trades, share, k - 1);
      }
    }
  }

  /** The trades of `s` that have no cluster. */
  ghost function Unassigned(s: set<nat>, trades: seq<Trade>): set<nat> {
    set i | i in s && i < |trades| && trades[i].cluster.None?
  }

  lemma UnassignedStep(s: set<nat>, trades: seq<Trade>, k: nat)
    requires k < |trades| && k !in s
    ensures |Unassigned(s + {k}, trades)| == |Unassigned(s, trades)| + if trades[k].cluster.None? then 1 else 0
  {
    if trades[k].cluster.None? {
      assert Unassigned(s + {k}, trades) == Unassigned(s, trades) + {k};
    } else {
      assert Unassigned(s + {k}, trades) == Unassigned(s, trades);
    }
  }

  lemma {:induction false} MissingInList(trades: seq<Trade>, p: Protocol, k: nat)
    requires k <= |trades|
    ensures MissingClusters(OutOfSample(trades[..k], p)) == |Unassigned(Counted(trades, p, k), trades)|
  {
    if k > 0 {
      hide *;
      MissingInList(trades, p, k - 1);
      NextTrade(trades, p, 0.0, k - 1);
      CountedStep(trades, p, k - 1);
      UnassignedStep(Counted(trades, p, k - 1), trades, k - 1);
    } else {
      assert Unassigned(Counted(trades, p, 0), trades) == {};
    }
  }

  /** The largest profit, if there is one, is that of some trade, and none earns more. */
  lemma {:induction false} LargestInList(trades: seq<Trade>, p: Protocol, share: real, k: nat)
    requires k <= |trades|
    ensures var top := Largest(Economic(OutOfSample(trades[..k], p), share));
            top >= 0.0 && (forall i :: i in Counted(trades, p, k) ==> trades[i].pnl - share <= top)
            && (top > 0.0 ==> exists i :: i in Counted(trades, p, k) && trades[i].pnl - share == top)
  {
    hide OutOfSample, Economic, Largest, MissingClusters, Days, Clusters, Gains, Losses, Sum;
    NoneCounted(trades, p, share);
    if k > 0 {
      LargestInList(trades, p, share, k - 1);
      NextTrade(trades, p, share, k - 1);
      CountedStep(trades, p, k - 1);
      var before := OutOfSample(trades[..k - 1], p);
      var old' := Largest(Economic(before, share));
      if trades[k - 1].entryTime >= p.oosStart {
        ListsAppend(Economic(before, share), trades[k - 1].pnl - share);
        if trades[k - 1].pnl - share > old' {
          assert k - 1 in Counted(trades, p, k);
        } else if old' > 0.0 {
          var i :| i in Counted(trades, p, k - 1) && trades[i].pnl - share == old';
          assert i in Counted(trades, p, k);
        }
      }
    }
  }

  lemma NoneCounted(trades: seq<Trade>, p: Protocol, share: real)
    ensures Counted(trades, p, 0) == {} && OutOfSample(trades[..0], p) == [] && Economic([], share) == []
    ensures Sum([]) == Gains([]) == Losses([]) == Largest([]) == 0.0 && MissingClusters([]) == 0
    ensures NetOf({}, trades, share) == ProfitOf({}, trades, share) == LossOf({}, trades, share) == 0.0
    ensures Buckets(Days([]), []) == map[] && Buckets(Clusters([]), []) == map[]
  {
    NothingSums(trades, share);
  }

  // ---------------------------------------------------------------------------
  // Days and clusters.

  /** `totals` are the earnings by day. */
  ghost predicate DayTotals(totals: map<Day, real>, trades: seq<Trade>, p: Protocol, share: real, k: nat)
    requires k <= |trades|
  {
    forall d {:trigger OnDay(trades, p, k, d)} ::
      (d in totals <==> OnDay(trades, p, k, d) != {})
      && (d in totals ==> totals[d] == NetOf(OnDay(trades, p, k, d), trades, share))
  }

  ghost predicate ClusterTotals(totals: map<string, real>, trades: seq<Trade>, p: Protocol, share: real, k: nat)
    requires k <= |trades|
  {
    forall c {:trigger InCluster(trades, p, k, c)} ::
      (c in totals <==> InCluster(trades, p, k, c) != {})
      && (c in totals ==> totals[c] == NetOf(InCluster(trades, p, k, c), trades, share))
  }

  lemma {:induction false} BucketsByDay(trades: seq<Trade>, p: Protocol, share: real, k: nat)
    requires k <= |trades|
    ensures var oos := OutOfSample(trades[..k], p);
            DayTotals(Buckets(Days(oos), Economic(oos, share)), trades, p, share, k)
            && ClusterTotals(Buckets(Clusters(oos), Economic(oos, share)), trades, p, share, k)
  {
    hide OutOfSample, Economic, NetOf, Days, Clusters, Buckets, MissingClusters;
    NoneCounted(trades, p, share);
    if k > 0 {
      BucketsByDay(trades, p, share, k - 1);
      NextTrade(trades, p, share, k - 1);
      var t, before := trades[k - 1], OutOfSample(trades[..k - 1], p);
      SameLengths(before, share);
      var pnls := Economic(before, share);
      if t.entryTime >= p.oosStart {
        NextBucket(Days(before), pnls, Some(t.closedDay), t.pnl - share);
        NextBucket(Clusters(before), pnls, t.cluster, t.pnl - share);
        DayBooked(Buckets(Days(before), pnls), trades, p, share, k - 1);
        ClusterBooked(Buckets(Clusters(before), pnls), trades, p, share, k - 1);
      } else {
        assert forall d :: OnDay(trades, p, k, d) == OnDay(trades, p, k - 1, d);
        assert forall c :: InCluster(trades, p, k, c) == InCluster(trades, p, k - 1, c);
      }
    }
  }

  lemma SameLengths(oos: seq<Trade>, share: real)
    ensures |Days(oos)| == |Clusters(oos)| == |Economic(oos, share)| == |oos|
  {
  }

  lemma DayBooked(totals: map<Day, real>, trades: seq<Trade>, p: Protocol, share: real, k: nat)
    requires k < |trades| && DayTotals(totals, trades, p, share, k) && trades[k].entryTime >= p.oosStart
    ensures DayTotals(Booked(totals, Some(trades[k].closedDay), trades[k].pnl - share), trades, p, share, k + 1)
  {
    hide NetOf;
    var after := Booked(totals, Some(trades[k].closedDay), trades[k].pnl - share);
    forall d
      ensures (d in after <==> OnDay(trades, p, k + 1, d) != {})
              && (d in after ==> after[d] == NetOf(OnDay(trades, p, k + 1, d), trades, share))
    {
      var s := OnDay(trades, p, k, d);
      if d == trades[k].closedDay {
        assert OnDay(trades, p, k + 1, d) == s + {k};
        SumsAdd(s, trades, share, k);
        NothingSums(trades, share);
      } else {
        assert OnDay(trades, p, k + 1, d) == s;
      }
    }
  }

  lemma ClusterBooked(totals: map<string, real>, trades: seq<Trade>, p: Protocol, share: real, k: nat)
    requires k < |trades| && ClusterTotals(totals, trades, p, share, k) && trades[k].entryTime >= p.oosStart
    ensures ClusterTotals(Booked(totals, trades[k].cluster, trades[k].pnl - share), trades, p, share, k + 1)
  {
    hide NetOf;
    var after := Booked(totals, trades[k].cluster, trades[k].pnl - share);
    forall c
      ensures (c in after <==> InCluster(trades, p, k + 1, c) != {})
              && (c in after ==> after[c] == NetOf(InCluster(trades, p, k + 1, c), trades, share))
    {
      var s := InCluster(trades, p, k, c);
      if trades[k].cluster == Some(c) {
        assert InCluster(trades, p, k + 1, c) == s + {k};
        SumsAdd(s, trades, share, k);
        NothingSums(trades, share);
      } else {
        assert InCluster(trades, p, k + 1, c) == s;
      }
    }
  }

  /** The net without its best part, when there are two parts at least, and zero otherwise. */
  ghost predicate LessBest<K(!new)>(figure: real, net: real, totals: map<K, real>) {
    if |totals| >= 2 then
      exists k :: k in totals && figure == net - totals[k] && forall j :: j in totals ==> totals[j] <= totals[k]
    else figure == 0.0
  }

  lemma WithoutBestIs<K(!new)>(net: real, totals: map<K, real>)
    ensures LessBest(WithoutBest(net, totals), net, totals)
  {
    if |totals| >= 2 {
      var k := BestExists(totals, totals.Keys);
      assert IsBest(totals, totals[k]);
    }
  }

  // ---------------------------------------------------------------------------
  // The report.

  /** The larger of the planned and the recorded cost. */
  function Cost(inp: Inputs, p: Protocol): real {
    if p.dailyCost * p.oosDays as real >= inp.recordedCost then p.dailyCost * p.oosDays as real else inp.recordedCost
  }

  ghost function ShareOf(inp: Inputs, p: Protocol): real {
    var n := |Counted(inp.trades, p, |inp.trades|)|;
    if n == 0 then 0.0 else Cost(inp, p) / n as real
  }

  lemma EvaluatorsLists(inp: Inputs, p: Protocol)
    ensures OutOfSample(inp.trades, p) == OutOfSample(inp.trades[..|inp.trades|], p)
    ensures OperationalCost(inp, p) == Cost(inp, p)
  {
    assert inp.trades[..|inp.trades|] == inp.trades;
  }

  /** The counts, sums and shares of a report: of the trades entered out of sample, each after an
      equal share of the larger of planned and recorded cost. */
  lemma ReportFigures(inp: Inputs, p: Protocol)
    requires Evaluate(inp, p).Evaluated?
    ensures var m, s, c := Evaluate(inp, p).report.metrics, Counted(inp.trades, p, |inp.trades|), Cost(inp, p);
            var share := ShareOf(inp, p);
            m.oosTrades == |s| && m.closedTrades == |inp.trades| && m.inSampleTrades == |inp.trades| - |s|
            && m.operationalCost == c && m.recordedCost == inp.recordedCost
            && m.netPnl == (if s == {} then -c else NetOf(s, inp.trades, share))
            && m.grossProfit == ProfitOf(s, inp.trades, share)
            && m.grossLoss == (if s == {} && c > 0.0 then c else LossOf(s, inp.trades, share))
            && m.missingClusters == |Unassigned(s, inp.trades)|
            && (s == {} ==> m.expectancy == 0.0) && (s != {} ==> m.expectancy == m.netPnl / |s| as real)
            && (m.grossProfit <= 0.0 ==> m.largestSharePct == 100.0)
            && (m.grossProfit > 0.0 ==>
                  exists i :: i in s && m.largestSharePct == (inp.trades[i].pnl - share) / m.grossProfit * 100.0
                              && forall j :: j in s ==> inp.trades[j].pnl <= inp.trades[i].pnl)
  {
    hide OutOfSample, Economic, Gains, Losses, Sum, NetOf, ProfitOf, LossOf, MissingClusters, Largest, Buckets, WithoutBest,
      Reconciled, InSampleCount, Counted, SoundReceipts, Passes, OperationalCost, Cost;
    var s := Counted(inp.trades, p, |inp.trades|);
    EvaluatorsLists(inp, p);
    SumsOfList(inp.trades, p, ShareOf(inp, p), |inp.trades|);
    MissingInList(inp.trades, p, |inp.trades|);
    LargestInList(inp.trades, p, ShareOf(inp, p), |inp.trades|);
    TradesSplit(inp.trades, p);
    var oos := OutOfSample(inp.trades, p);
    var pnls := Economic(oos, ShareOf(inp, p));
    assert oos == [] <==> s == {};
    if Gains(pnls) > 0.0 {
      SomeoneWins(pnls);
      assert forall i :: i in s ==> i < |inp.trades| by { PlacesAreThere(inp.trades, p); }
      var i :| i in s && inp.trades[i].pnl - ShareOf(inp, p) == Largest(pnls);
    }
  }

  lemma PlacesAreThere(trades: seq<Trade>, p: Protocol)
    ensures forall i :: i in Counted(trades, p, |trades|) ==> i < |trades|
  {
  }

  lemma {:induction false} SomeoneWins(pnls: seq<real>)
    requires Gains(pnls) > 0.0
    ensures Largest(pnls) > 0.0
  {
    if pnls != [] && pnls[|pnls| - 1] <= 0.0 { SomeoneWins(pnls[..|pnls| - 1]); }
  }

  /** The profit factor is unbounded with profits and no losses, zero without either, and otherwise
      profit by loss. The net without the best day, and without the best cluster, is taken over the
      earnings by day and by cluster. */
  lemma ReportRatios(inp: Inputs, p: Protocol) returns (days: map<Day, real>, clusters: map<string, real>)
    requires Evaluate(inp, p).Evaluated?
    ensures var m, n := Evaluate(inp, p).report.metrics, |inp.trades|;
            DayTotals(days, inp.trades, p, ShareOf(inp, p), n) && ClusterTotals(clusters, inp.trades, p, ShareOf(inp, p), n)
            && LessBest(m.withoutBestDay, m.netPnl, days) && LessBest(m.withoutBestCluster, m.netPnl, clusters)
            && (m.grossLoss == 0.0 && m.grossProfit > 0.0 ==> m.profitFactor == Infinite)
            && (m.grossLoss == 0.0 && m.grossProfit <= 0.0 ==> m.profitFactor == Finite(0.0))
            && (m.grossLoss != 0.0 ==> m.profitFactor == Finite(m.grossProfit / m.grossLoss))
  {
    hide OutOfSample, Economic, Gains, Losses, Sum, MissingClusters, Largest, Buckets, WithoutBest, Reconciled, InSampleCount, Counted,
      SoundReceipts, Passes, OperationalCost, Cost, DayTotals, ClusterTotals, LessBest, Days, Clusters;
    EvaluatorsLists(inp, p);
    SumsOfList(inp.trades, p, ShareOf(inp, p), |inp.trades|);
    BucketsByDay(inp.trades, p, ShareOf(inp, p), |inp.trades|);
    var oos := OutOfSample(inp.trades, p);
    var pnls := Economic(oos, ShareOf(inp, p));
    SameLengths(oos, ShareOf(inp, p));
    days, clusters := Buckets(Days(oos), pnls), Buckets(Clusters(oos), pnls);
    var net := Evaluate(inp, p).report.metrics.netPnl;
    WithoutBestIs(net, days);
    WithoutBestIs(net, clusters);
  }

  // ---------------------------------------------------------------------------
  // Rounding.

  /** Rounding goes to the nearest millionth, and from the middle to the even one. */
  lemma QuantizeRounds(x: real) returns (n: int)
    ensures Quantize(x) * 1_000_000.0 == n as real && Quantize(x) == n as real / 1_000_000.0
    ensures -0.5 <= x * 1_000_000.0 - n as real <= 0.5
    ensures (x * 1_000_000.0 - n as real == 0.5 || x * 1_000_000.0 - n as real == -0.5) ==> n % 2 == 0
  {
    var scaled := x * 1000000.0;
    var low := scaled.Floor;
    var part := scaled - low as real;
    n := if part < 0.5 || (part == 0.5 && low % 2 == 0) then low else low + 1;
  }

  // ---------------------------------------------------------------------------
  // Which reports there are.

  /** Two receipts of one source, or one from outside the out-of-sample interval. */
  ghost predicate BadReceipts(costs: seq<Acceptance.Cost>, p: Protocol) {
    (exists i, j :: 0 <= i < j < |costs| && costs[i].source == costs[j].source)
    || exists c :: c in costs && (c.incurredAt < p.oosStart || c.incurredAt > p.collectionEnd)
  }

  lemma SoundIffNotBad(costs: seq<Acceptance.Cost>, p: Protocol)
    ensures SoundReceipts(costs, p) <==> !BadReceipts(costs, p)
  {
    if !BadReceipts(costs, p) {
      forall i | 0 <= i < |costs| ensures p.oosStart <= costs[i].incurredAt <= p.collectionEnd { assert costs[i] in costs; }
    }
  }

  /** A report is produced exactly when every trade was entered and closed within the collection
      interval, in this order, the receipts are distinct and from the out-of-sample interval, and
      the recorded cost is not negative. */
  lemma ReportIsProducedIff(inp: Inputs, p: Protocol)
    ensures Evaluate(inp, p).Evaluated? <==>
              (forall t :: t in inp.trades ==>
                 t.entryTime >= p.collectionStart && t.closedAt >= t.entryTime && t.closedAt <= p.collectionEnd)
              && !BadReceipts(inp.costs, p) && inp.recordedCost >= 0.0
    ensures Evaluate(inp, p).Evaluated? ==> Evaluate(inp, p).report.costs == inp.costs
  {
    hide MetricsOf, Passes, SoundReceipts, BadReceipts;
    SoundIffNotBad(inp.costs, p);
    forall t | t in inp.trades && Evaluate(inp, p).Evaluated?
      ensures t.entryTime >= p.collectionStart && t.closedAt >= t.entryTime && t.closedAt <= p.collectionEnd
    {
      var i :| 0 <= i < |inp.trades| && inp.trades[i] == t;
      assert InInterval(inp.trades[i], p);
    }
  }

  /** Costs count as reconciled exactly when there are receipts, they add up to the recorded cost,
      rounded, and this covers the planned one. */
  lemma ReconciledIff(inp: Inputs, p: Protocol)
    requires Evaluate(inp, p).Evaluated?
    ensures Evaluate(inp, p).report.metrics.costsReconciled <==>
              inp.costs != [] && Quantize(Sum(seq(|inp.costs|, i requires 0 <= i < |inp.costs| => inp.costs[i].amount))) == inp.recordedCost
              && inp.recordedCost >= p.dailyCost * p.oosDays as real
  {
    hide Sum, Quantize, OutOfSample, Economic, Gains, Losses, MissingClusters, Largest, Buckets, WithoutBest, InSampleCount, Passes,
      SoundReceipts;
    assert Amounts(inp.costs) == seq(|inp.costs|, i requires 0 <= i < |inp.costs| => inp.costs[i].amount);
  }

  /** The criteria of a passed report. */
  lemma PassedIff(inp: Inputs, p: Protocol)
    requires Evaluate(inp, p).Evaluated?
    ensures var r := Evaluate(inp, p).report;
            var m := r.metrics;
            r.passed <==>
              inp.fixedCohort && inp.startingEquities == [500.0]
              && inp.missingPools == 0 && inp.missingOutcomes == 0 && inp.discovered >= 3000 && inp.censored == 0
              && inp.negativeLaunches >= p.minimumNegativeLaunches && inp.equityCoverage && inp.maxDrawdownPct <= 10.0
              && |inp.trades| >= 300 && m.oosTrades >= p.minimumOosTrades && 0 < m.oosTrades < |inp.trades|
              && m.costsReconciled && m.netPnl > 0.0 && m.expectancy > 0.0
              && (m.profitFactor == Infinite || (m.profitFactor.Finite? && m.profitFactor.value >= 1.15))
              && m.largestSharePct <= 20.0 && m.missingClusters == 0
              && m.withoutBestDay > 0.0 && m.withoutBestCluster > 0.0
  {
    hide Sum, Quantize, OutOfSample, Economic, Gains, Losses, MissingClusters, Largest, Buckets, WithoutBest, InSampleCount, Reconciled,
      SoundReceipts;
    TradesSplit(inp.trades, p);
  }

  /** The verifier accepts a report exactly when its receipts add up to its recorded cost, rounded,
      its costs, net, expectancy, profit factor and counts follow from one another, and it passes. */
  lemma AcceptedIff(r: Report, p: Protocol)
    ensures var m, planned := r.metrics, p.dailyCost * p.oosDays as real;
            Accepts(r, p) <==>
              r.passed && r.passed == Passes(m, p)
              && Quantize(Sum(seq(|r.costs|, i requires 0 <= i < |r.costs| => r.costs[i].amount))) == m.recordedCost
              && (m.costsReconciled <==> m.recordedCost >= planned)
              && m.operationalCost == (if planned >= m.recordedCost then planned else m.recordedCost)
              && m.grossProfit == m.netPnl + m.grossLoss
              && (m.oosTrades == 0 ==> m.expectancy == 0.0)
              && (m.oosTrades > 0 ==> m.expectancy * m.oosTrades as real == m.grossProfit - m.grossLoss)
              && (m.grossLoss == 0.0 ==> m.profitFactor == if m.grossProfit > 0.0 then Infinite else Finite(0.0))
              && (m.grossLoss != 0.0 ==> m.profitFactor == Finite(m.grossProfit / m.grossLoss))
              && m.closedTrades == m.inSampleTrades + m.oosTrades
  {
    hide Sum, Quantize, Passes;
    var m := r.metrics;
    assert Amounts(r.costs) == seq(|r.costs|, i requires 0 <= i < |r.costs| => r.costs[i].amount);
    if m.oosTrades > 0 {
      QuotientIff(m.grossProfit - m.grossLoss, m.oosTrades as real, m.expectancy);
    }
  }

  lemma QuotientIff(a: real, b: real, q: real)
    requires b > 0.0
    ensures q == a / b <==> q * b == a
  {
    var c := a / b;
    assert c * b == a;
    if q * b == a { assert (q - c) * b == 0.0; }
  }

  /** The same criteria for any metrics. */
  lemma PassesIff(m: Metrics, p: Protocol)
    ensures Passes(m, p) <==>
              m.fixedCohort && m.accountCount == 1 && m.startingEquity == Some(500.0)
              && m.missingPools == 0 && m.missingOutcomes == 0 && m.discovered >= 3000 && m.censored == 0
              && m.negativeLaunches >= p.minimumNegativeLaunches && m.equityCoverage && m.maxDrawdownPct <= 10.0
              && m.closedTrades >= 300 && m.oosTrades >= p.minimumOosTrades && m.inSampleTrades > 0 && m.oosTrades > 0
              && m.costsReconciled && m.netPnl > 0.0 && m.expectancy > 0.0
              && (m.profitFactor == Infinite || (m.profitFactor.Finite? && m.profitFactor.value >= 1.15))
              && m.largestSharePct <= 20.0 && m.missingClusters == 0
              && m.withoutBestDay > 0.0 && m.withoutBestCluster > 0.0
  {
  }
}
