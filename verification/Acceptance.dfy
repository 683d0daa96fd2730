/** The statistical evaluator and the verifier that later re-checks its report. */
module Acceptance {
  import opened Options
  import opened Sums

  type Day = int

  datatype Trade = Trade(entryTime: int, closedAt: int, closedDay: Day, pnl: real, cluster: Option<string>)

  datatype Cost = Cost(source: string, amount: real, incurredAt: int)

  datatype Protocol = Protocol(
    collectionStart: int, oosStart: int, collectionEnd: int, oosDays: int, dailyCost: real,
    minimumNegativeLaunches: int, minimumOosTrades: int)

  datatype Inputs = Inputs(
    trades: seq<Trade>, costs: seq<Cost>, recordedCost: real, startingEquities: seq<real>,
    fixedCohort: bool, discovered: int, missingPools: int, missingOutcomes: int, negativeLaunches: int,
    censored: int, equityCoverage: bool, maxDrawdownPct: real)

  datatype ProfitFactor = Infinite | Finite(value: real)

  datatype Metrics = Metrics(
    fixedCohort: bool, accountCount: nat, startingEquity: Option<real>, discovered: int, missingPools: int,
    missingOutcomes: int, negativeLaunches: int, closedTrades: nat, inSampleTrades: nat, oosTrades: nat,
    censored: int, equityCoverage: bool, operationalCost: real, recordedCost: real, costsReconciled: bool,
    netPnl: real, grossProfit: real, grossLoss: real, profitFactor: ProfitFactor, maxDrawdownPct: real,
    expectancy: real, largestSharePct: real, withoutBestDay: real, withoutBestCluster: real, missingClusters: nat)

  datatype Report = Report(metrics: Metrics, costs: seq<Cost>, passed: bool)

  datatype Outcome = Evaluated(report: Report) | Refused

  function Max(a: real, b: real): real { if a >= b then a else b }

  /** Rounding to six decimal places, halves to even. */
  function Quantize(x: real): real {
    var scaled := x * 1000000.0;
    var low := scaled.Floor;
    var part := scaled - low as real;
    var n := if part < 0.5 || (part == 0.5 && low % 2 == 0) then low else low + 1;
    n as real / 1000000.0
  }

  // ---------------------------------------------------------------------------
  // The evaluator.

  predicate InInterval(t: Trade, p: Protocol) {
    p.collectionStart <= t.entryTime <= p.collectionEnd && t.entryTime <= t.closedAt <= p.collectionEnd
  }

  function OutOfSample(trades: seq<Trade>, p: Protocol): seq<Trade> {
    if trades == [] then []
    else
      var last := trades[|trades| - 1];
      OutOfSample(trades[..|trades| - 1], p) + if last.entryTime >= p.oosStart then [last] else []
  }

  function InSampleCount(trades: seq<Trade>, p: Protocol): nat {
    if trades == [] then 0
    else InSampleCount(trades[..|trades| - 1], p) + if trades[|trades| - 1].entryTime < p.oosStart then 1 else 0
  }

  function Amounts(costs: seq<Cost>): seq<real> {
    seq(|costs|, i requires 0 <= i < |costs| => costs[i].amount)
  }

  function ReceiptTotal(costs: seq<Cost>): real {
    Quantize(Sum(Amounts(costs)))
  }

  function CostFloor(p: Protocol): real {
    p.dailyCost * p.oosDays as real
  }

  /** The receipts are distinct and fall into the out-of-sample interval; a report with
      others cannot be built. */
  predicate SoundReceipts(costs: seq<Cost>, p: Protocol) {
    (forall i, j :: 0 <= i < j < |costs| ==> costs[i].source != costs[j].source)
    && (forall i :: 0 <= i < |costs| ==> p.oosStart <= costs[i].incurredAt <= p.collectionEnd)
  }

  predicate Reconciled(inp: Inputs, p: Protocol) {
    inp.costs != [] && SoundReceipts(inp.costs, p)
    && ReceiptTotal(inp.costs) == inp.recordedCost && inp.recordedCost >= CostFloor(p)
  }

  /** What a frozen protocol guarantees: a positive daily cost over at least one day. */
  predicate ValidProtocol(p: Protocol) {
    p.dailyCost > 0.0 && p.oosDays >= 1
  }

  function OperationalCost(inp: Inputs, p: Protocol): real {
    Max(CostFloor(p), inp.recordedCost)
  }

  /** Profits of the out-of-sample trades, each less its share of the operational cost. */
  function Economic(oos: seq<Trade>, share: real): seq<real> {
    seq(|oos|, i requires 0 <= i < |oos| => oos[i].pnl - share)
  }

  function Share(cost: real, n: nat): real {
    if n == 0 then 0.0 else cost / n as real
  }

  function Gains(s: seq<real>): real {
    if s == [] then 0.0 else Gains(s[..|s| - 1]) + Max(0.0, s[|s| - 1])
  }

  function Losses(s: seq<real>): real {
    if s == [] then 0.0 else Losses(s[..|s| - 1]) + Max(0.0, -s[|s| - 1])
  }

  function Largest(s: seq<real>): real {
    if s == [] then 0.0 else Max(Largest(s[..|s| - 1]), s[|s| - 1])
  }

  /** Totals per bucket; trades without a bucket are left out. */
  function Buckets<K>(keys: seq<Option<K>>, pnls: seq<real>): map<K, real>
    requires |keys| == |pnls|
  {
    if keys == [] then map[]
    else
      var n := |keys| - 1;
      Booked(Buckets(keys[..n], pnls[..n]), keys[n], pnls[n])
  }

  function Booked<K>(totals: map<K, real>, key: Option<K>, pnl: real): map<K, real> {
    if key.None? then totals
    else totals[key.value := (if key.value in totals then totals[key.value] else 0.0) + pnl]
  }

  function Days(oos: seq<Trade>): seq<Option<Day>> {
    seq(|oos|, i requires 0 <= i < |oos| => Some(oos[i].closedDay))
  }

  function Clusters(oos: seq<Trade>): seq<Option<string>> {
    seq(|oos|, i requires 0 <= i < |oos| => oos[i].cluster)
  }

  ghost predicate IsBest<K>(m: map<K, real>, best: real) {
    (exists k :: k in m && m[k] == best) && forall k :: k in m ==> m[k] <= best
  }

  lemma {:induction false} BestExists<K>(m: map<K, real>, keys: set<K>) returns (k: K)
    requires keys != {} && keys <= m.Keys
    ensures k in keys && forall j :: j in keys ==> m[j] <= m[k]
    decreases |keys|
  {
    k :| k in keys;
    if keys != {k} {
      var rest := keys - {k};
      assert keys == rest + {k};
      var j := BestExists(m, rest);
      if m[j] > m[k] { k := j; }
    }
  }

  ghost function WithoutBest<K>(net: real, m: map<K, real>): real {
    if |m| < 2 then 0.0
    else
      assert exists best :: IsBest(m, best) by {
        var k := BestExists(m, m.Keys);
        assert IsBest(m, m[k]);
      }
      var best :| IsBest(m, best);
      net - best
  }

  function MissingClusters(oos: seq<Trade>): nat {
    if oos == [] then 0
    else MissingClusters(oos[..|oos| - 1]) + if oos[|oos| - 1].cluster.None? then 1 else 0
  }

  function Factor(profit: real, loss: real): ProfitFactor {
    if loss == 0.0 && profit > 0.0 then Infinite
    else if loss == 0.0 then Finite(0.0) else Finite(profit / loss)
  }

  ghost function MetricsOf(inp: Inputs, p: Protocol): Metrics {
    var oos := OutOfSample(inp.trades, p);
    var cost := OperationalCost(inp, p);
    var pnls := Economic(oos, Share(cost, |oos|));
    var net := if oos == [] then -cost else Sum(pnls);
    var profit := Gains(pnls);
    var loss := if oos == [] && cost > 0.0 then cost else Losses(pnls);
    Metrics(
      inp.fixedCohort, |inp.startingEquities|,
      if |inp.startingEquities| == 1 then Some(inp.startingEquities[0]) else None,
      inp.discovered, inp.missingPools, inp.missingOutcomes, inp.negativeLaunches,
      |inp.trades|, InSampleCount(inp.trades, p), |oos|, inp.censored, inp.equityCoverage,
      cost, inp.recordedCost, Reconciled(inp, p),
      net, profit, loss, Factor(profit, loss), inp.maxDrawdownPct,
      if oos == [] then 0.0 else net / |oos| as real,
      if profit <= 0.0 then 100.0 else Largest(pnls) / profit * 100.0,
      WithoutBest(net, Buckets(Days(oos), pnls)), WithoutBest(net, Buckets(Clusters(oos), pnls)),
      MissingClusters(oos))
  }

  predicate AtLeast(f: ProfitFactor, bound: real) {
    f.Infinite? || f.value >= bound
  }

  /** `_statistical_pass_map`, all criteria together. */
  predicate Passes(m: Metrics, p: Protocol) {
    m.fixedCohort && m.accountCount == 1 && m.startingEquity == Some(500.0)
    && m.missingPools == 0 && m.missingOutcomes == 0 && m.discovered >= 3000
    && m.closedTrades >= 300 && m.negativeLaunches >= p.minimumNegativeLaunches
    && m.oosTrades >= p.minimumOosTrades && m.censored == 0
    && m.inSampleTrades > 0 && m.oosTrades > 0
    && m.equityCoverage && m.costsReconciled
    && m.netPnl > 0.0 && AtLeast(m.profitFactor, 1.15) && m.maxDrawdownPct <= 10.0
    && m.expectancy > 0.0 && m.largestSharePct <= 20.0
    && m.withoutBestDay > 0.0 && m.missingClusters == 0 && m.withoutBestCluster > 0.0
  }

  ghost function Evaluate(inp: Inputs, p: Protocol): Outcome {
    if exists i :: 0 <= i < |inp.trades| && !InInterval(inp.trades[i], p) then Refused
    else if !SoundReceipts(inp.costs, p) || inp.recordedCost < 0.0 then Refused
    else
      var m := MetricsOf(inp, p);
      Evaluated(Report(m, inp.costs, Passes(m, p)))
  }

  // ---------------------------------------------------------------------------
  // The verifier.

  /** The arithmetic cross-checks, in the verifier's own terms. */
  predicate CrossChecks(r: Report, p: Protocol) {
    var total := Quantize(Sum(Amounts(r.costs)));
    var m := r.metrics;
    total == m.recordedCost
    && m.costsReconciled == (total >= CostFloor(p))
    && m.operationalCost == Max(CostFloor(p), total)
    && m.netPnl == m.grossProfit - m.grossLoss
    && m.expectancy == (if m.oosTrades == 0 then 0.0 else (m.grossProfit - m.grossLoss) / m.oosTrades as real)
    && m.profitFactor == Factor(m.grossProfit, m.grossLoss)
    && m.closedTrades == m.inSampleTrades + m.oosTrades
  }

  predicate Accepts(r: Report, p: Protocol) {
    CrossChecks(r, p) && r.passed == Passes(r.metrics, p) && r.passed
  }

  // ---------------------------------------------------------------------------
  // Sums.

  lemma {:induction false} GainsLessLosses(s: seq<real>)
    ensures Sum(s) == Gains(s) - Losses(s) && Gains(s) >= 0.0 && Losses(s) >= 0.0
  {
    if s != [] { GainsLessLosses(s[..|s| - 1]); }
  }

  lemma {:induction false} TradesSplit(trades: seq<Trade>, p: Protocol)
    ensures |trades| == InSampleCount(trades, p) + |OutOfSample(trades, p)|
  {
    if trades != [] { TradesSplit(trades[..|trades| - 1], p); }
  }

  function Profits(oos: seq<Trade>): seq<real> {
    seq(|oos|, i requires 0 <= i < |oos| => oos[i].pnl)
  }

  lemma {:induction false} EconomicSum(oos: seq<Trade>, share: real)
    ensures Sum(Economic(oos, share)) == Sum(Profits(oos)) - share * |oos| as real
  {
    if oos != [] {
      var front := oos[..|oos| - 1];
      EconomicSum(front, share);
      assert Economic(oos, share)[..|oos| - 1] == Economic(front, share);
      assert Profits(oos)[..|oos| - 1] == Profits(front);
      assert share * |oos| as real == share * |front| as real + share;
    }
  }

  /** The allocated shares add up to the operational cost. */
  lemma AllocationConserves(inp: Inputs, p: Protocol)
    requires OutOfSample(inp.trades, p) != []
    ensures MetricsOf(inp, p).netPnl == Sum(Profits(OutOfSample(inp.trades, p))) - OperationalCost(inp, p)
  {
    hide Sum, Buckets, Gains, Losses, Largest, OutOfSample, InSampleCount, Reconciled, WithoutBest, MissingClusters,
      Economic, Profits, OperationalCost;
    var oos := OutOfSample(inp.trades, p);
    EconomicSum(oos, Share(OperationalCost(inp, p), |oos|));
    SharesAddUp(OperationalCost(inp, p), |oos|);
  }

  lemma SharesAddUp(cost: real, n: nat)
    requires n > 0
    ensures Share(cost, n) * n as real == cost
  {
  }

  /** Bucket totals add up to the whole when every trade has a bucket. */
  lemma {:induction false} BucketsConserve<K>(keys: seq<Option<K>>, pnls: seq<real>)
    requires |keys| == |pnls| && forall i :: 0 <= i < |keys| ==> keys[i].Some?
    ensures Total(Buckets(keys, pnls)) == Sum(pnls)
  {
    if keys != [] {
      var n := |keys| - 1;
      BucketsConserve(keys[..n], pnls[..n]);
      var rest := Buckets(keys[..n], pnls[..n]);
      TotalUpdate(rest, keys[n].value, Buckets(keys, pnls)[keys[n].value]);
    }
  }

  /** Net profit is the sum of the day totals. */
  lemma NetPnlIsSumOfDays(inp: Inputs, p: Protocol)
    requires OutOfSample(inp.trades, p) != []
    ensures var oos := OutOfSample(inp.trades, p);
            var pnls := Economic(oos, Share(OperationalCost(inp, p), |oos|));
            MetricsOf(inp, p).netPnl == Total(Buckets(Days(oos), pnls))
  {
    hide Sum, Total, Buckets, Gains, Losses, Largest, OutOfSample, InSampleCount, Reconciled, WithoutBest, MissingClusters;
    var oos := OutOfSample(inp.trades, p);
    BucketsConserve(Days(oos), Economic(oos, Share(OperationalCost(inp, p), |oos|)));
  }

  /** What is left when the trades of one bucket are taken out. */
  function Outside<K(==)>(keys: seq<Option<K>>, pnls: seq<real>, k: K): real
    requires |keys| == |pnls|
  {
    if keys == [] then 0.0
    else
      var n := |keys| - 1;
      Outside(keys[..n], pnls[..n], k) + if keys[n] == Some(k) then 0.0 else pnls[n]
  }

  lemma {:induction false} OutsideIsRest<K>(keys: seq<Option<K>>, pnls: seq<real>, k: K)
    requires |keys| == |pnls|
    ensures Outside(keys, pnls, k)
            == Sum(pnls) - if k in Buckets(keys, pnls) then Buckets(keys, pnls)[k] else 0.0
  {
    if keys != [] {
      var n := |keys| - 1;
      OutsideIsRest(keys[..n], pnls[..n], k);
    }
  }

  lemma {:induction false} LargestBounds(s: seq<real>)
    ensures Largest(s) >= 0.0 && forall i :: 0 <= i < |s| ==> s[i] <= Largest(s)
  {
    if s != [] {
      LargestBounds(s[..|s| - 1]);
      forall i | 0 <= i < |s| ensures s[i] <= Largest(s) {
        if i < |s| - 1 { assert s[..|s| - 1][i] == s[i]; }
      }
    }
  }

  function Winners(s: seq<real>): nat {
    if s == [] then 0 else Winners(s[..|s| - 1]) + if s[|s| - 1] > 0.0 then 1 else 0
  }

  lemma {:induction false} GainsAtMost(s: seq<real>, top: real)
    requires top >= 0.0 && forall i :: 0 <= i < |s| ==> s[i] <= top
    ensures Gains(s) <= Winners(s) as real * top
  {
    if s != [] {
      var front := s[..|s| - 1];
      assert forall i :: 0 <= i < |front| ==> front[i] == s[i];
      GainsAtMost(front, top);
      assert (Winners(front) + 1) as real * top == Winners(front) as real * top + top;
    }
  }

  // ---------------------------------------------------------------------------
  // Agreement.

  /** For every report the evaluator produces, the verifier's arithmetic holds exactly when the
      receipts add up to the recorded cost; the profit arithmetic never fails. */
  lemma CrossChecksIff(inp: Inputs, p: Protocol)
    requires ValidProtocol(p) && Evaluate(inp, p).Evaluated?
    ensures CrossChecks(Evaluate(inp, p).report, p) <==> ReceiptTotal(inp.costs) == inp.recordedCost
  {
    hide Sum, Amounts, Quantize, Buckets, Largest, Gains, Losses, OutOfSample, InSampleCount, SoundReceipts, WithoutBest;
    var oos := OutOfSample(inp.trades, p);
    var pnls := Economic(oos, Share(OperationalCost(inp, p), |oos|));
    GainsLessLosses(pnls);
    TradesSplit(inp.trades, p);
    FloorIsPositive(p);
    NoReceipts(inp.costs);
    if oos == [] {
      assert pnls == [];
      NoTrades();
    }
  }

  lemma FloorIsPositive(p: Protocol)
    requires ValidProtocol(p)
    ensures CostFloor(p) > 0.0
  {
    assert p.dailyCost * (p.oosDays as real - 1.0) >= 0.0;
  }

  lemma NoReceipts(costs: seq<Cost>)
    ensures costs == [] ==> ReceiptTotal(costs) == 0.0
  {
    if costs == [] {
      assert Amounts(costs) == [];
      assert Sum([]) == 0.0;
      assert (0.0 * 1000000.0).Floor == 0;
    }
  }

  lemma NoTrades()
    ensures Gains([]) == 0.0 && Losses([]) == 0.0
  {
  }

  /** A recorded cost without a receipt is such a case: the evaluator reports it, the
      cross-checks refuse it. */
  lemma CostWithoutReceiptFails() returns (inp: Inputs, p: Protocol)
    ensures ValidProtocol(p) && Evaluate(inp, p).Evaluated? && !CrossChecks(Evaluate(inp, p).report, p)
  {
    p := Protocol(0, 1, 2, 1, 1.0, 0, 0);
    inp := Inputs([], [], 1.0, [500.0], true, 3000, 0, 0, 0, 0, true, 0.0);
    NoReceipts(inp.costs);
    CrossChecksIff(inp, p);
  }

  /** The verifier accepts a report of the evaluator exactly when the evaluator passed it. */
  lemma VerifierAgrees(inp: Inputs, p: Protocol)
    requires ValidProtocol(p) && Evaluate(inp, p).Evaluated?
    ensures Accepts(Evaluate(inp, p).report, p) <==> Evaluate(inp, p).report.passed
  {
    hide MetricsOf, CrossChecks, Sum, Amounts, Quantize, SoundReceipts;
    CrossChecksIff(inp, p);
    ReconciledFlag(inp, p);
  }

  lemma ReconciledFlag(inp: Inputs, p: Protocol)
    ensures MetricsOf(inp, p).costsReconciled == Reconciled(inp, p)
  {
    hide Sum, Amounts, Quantize, Buckets, Largest, Gains, Losses, OutOfSample, InSampleCount;
  }

  // ---------------------------------------------------------------------------
  // What a passed report means.

  lemma BestBucketBound<K>(net: real, keys: seq<Option<K>>, pnls: seq<real>, k: K)
    requires |keys| == |pnls| && net == Sum(pnls)
    requires WithoutBest(net, Buckets(keys, pnls)) > 0.0 && net > 0.0
    ensures Outside(keys, pnls, k) > 0.0
  {
    hide Sum, Buckets, Outside;
    OutsideIsRest(keys, pnls, k);
  }

  /** A passed report stays profitable without the trades of any one day, and without those
      of any one developer cluster. */
  lemma PassedIsIndependent(inp: Inputs, p: Protocol, day: Day, cluster: string)
    requires Evaluate(inp, p).Evaluated? && Evaluate(inp, p).report.passed
    ensures var oos := OutOfSample(inp.trades, p);
            var pnls := Economic(oos, Share(OperationalCost(inp, p), |oos|));
            Outside(Days(oos), pnls, day) > 0.0 && Outside(Clusters(oos), pnls, cluster) > 0.0
  {
    hide Sum, Buckets, Outside, Largest, Gains, Losses, OutOfSample, InSampleCount, Reconciled, WithoutBest;
    var oos := OutOfSample(inp.trades, p);
    var pnls := Economic(oos, Share(OperationalCost(inp, p), |oos|));
    var net := MetricsOf(inp, p).netPnl;
    BestBucketBound(net, Days(oos), pnls, day);
    BestBucketBound(net, Clusters(oos), pnls, cluster);
  }

  /** No trade of a passed report earns more than a fifth of the gross profit, so at least
      five trades were profitable. */
  lemma PassedIsDiversified(inp: Inputs, p: Protocol)
    requires Evaluate(inp, p).Evaluated? && Evaluate(inp, p).report.passed
    ensures var oos := OutOfSample(inp.trades, p);
            var pnls := Economic(oos, Share(OperationalCost(inp, p), |oos|));
            Winners(pnls) >= 5 && forall i :: 0 <= i < |pnls| ==> 5.0 * pnls[i] <= Gains(pnls)
  {
    hide Sum, Buckets, Outside, Largest, Gains, Losses, OutOfSample, InSampleCount, Reconciled, WithoutBest, Winners;
    var oos := OutOfSample(inp.trades, p);
    var pnls := Economic(oos, Share(OperationalCost(inp, p), |oos|));
    var top, profit := Largest(pnls), Gains(pnls);
    GainsLessLosses(pnls);
    LargestBounds(pnls);
    assert profit > 0.0;
    FifthOfProfit(top, profit);
    GainsAtMost(pnls, top);
    EnoughWinners(Winners(pnls), top, profit);
  }

  lemma FifthOfProfit(top: real, profit: real)
    requires profit > 0.0 && top / profit * 100.0 <= 20.0
    ensures 5.0 * top <= profit
  {
    var q := top / profit;
    assert q * profit == top;
    assert q <= 0.2;
    ProductNotNegative(0.2 - q, profit);
    assert (0.2 - q) * profit == 0.2 * profit - top;
  }

  lemma EnoughWinners(n: nat, top: real, profit: real)
    requires profit > 0.0 && 5.0 * top <= profit <= n as real * top && top >= 0.0
    ensures n >= 5
  {
    assert (4.0 - n as real) * top == 4.0 * top - n as real * top;
    if n <= 4 {
      ProductNotNegative(4.0 - n as real, top);
    }
  }

  // ---------------------------------------------------------------------------
  // The accumulating loop.

  /** The loop over out-of-sample trades that fills the day and cluster totals. */
  method TotalsByBucket(oos: seq<Trade>, pnls: seq<real>)
    returns (byDay: map<Day, real>, byCluster: map<string, real>, missing: nat)
    requires |oos| == |pnls|
    ensures byDay == Buckets(Days(oos), pnls) && byCluster == Buckets(Clusters(oos), pnls)
    ensures missing == MissingClusters(oos)
  {
    hide Buckets;
    byDay, byCluster, missing := map[], map[], 0;
    EmptyBuckets(Days(oos[..0]), Clusters(oos[..0]));
    for n := 0 to |oos|
      invariant byDay == Buckets(Days(oos[..n]), pnls[..n])
      invariant byCluster == Buckets(Clusters(oos[..n]), pnls[..n])
      invariant missing == MissingClusters(oos[..n])
    {
      var t := oos[n];
      NextBucket(Days(oos[..n]), pnls[..n], Some(t.closedDay), pnls[n]);
      NextBucket(Clusters(oos[..n]), pnls[..n], t.cluster, pnls[n]);
      NextKeys(oos, n);
      assert pnls[..n + 1] == pnls[..n] + [pnls[n]];
      byDay := byDay[t.closedDay := (if t.closedDay in byDay then byDay[t.closedDay] else 0.0) + pnls[n]];
      if t.cluster.None? {
        missing := missing + 1;
      } else {
        var c := t.cluster.value;
        byCluster := byCluster[c := (if c in byCluster then byCluster[c] else 0.0) + pnls[n]];
      }
    }
    assert oos[..|oos|] == oos && pnls[..|pnls|] == pnls;
  }

  lemma EmptyBuckets(days: seq<Option<Day>>, clusters: seq<Option<string>>)
    requires days == [] && clusters == []
    ensures Buckets(days, []) == map[] && Buckets(clusters, []) == map[]
  {
  }

  lemma NextKeys(oos: seq<Trade>, n: nat)
    requires n < |oos|
    ensures Days(oos[..n + 1]) == Days(oos[..n]) + [Some(oos[n].closedDay)]
    ensures Clusters(oos[..n + 1]) == Clusters(oos[..n]) + [oos[n].cluster]
    ensures MissingClusters(oos[..n + 1]) == MissingClusters(oos[..n]) + if oos[n].cluster.None? then 1 else 0
  {
    assert oos[..n + 1][..n] == oos[..n];
  }

  lemma NextBucket<K>(keys: seq<Option<K>>, pnls: seq<real>, key: Option<K>, pnl: real)
    requires |keys| == |pnls|
    ensures Buckets(keys + [key], pnls + [pnl]) == Booked(Buckets(keys, pnls), key, pnl)
  {
    hide Booked;
    var n, keys', pnls' := |keys|, keys + [key], pnls + [pnl];
    assert keys'[..n] == keys && keys'[n] == key;
    assert pnls'[..n] == pnls && pnls'[n] == pnl;
  }
}
