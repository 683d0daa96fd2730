/** The feature snapshot of a pool at a moment: computed from nothing later than that moment,
    and consistent in itself. */
module Snapshots {
  import opened Features
  import opened Sums
  import C = Concentration

  // ---------------------------------------------------------------------------
  // Windows.

  /** The events later than `at - seconds` and not later than `at`. */
  function Window(s: seq<Event>, at: int, seconds: int): seq<Event> {
    if s == [] then []
    else
      var last := s[|s| - 1];
      Window(s[..|s| - 1], at, seconds) + if at - seconds * SECOND < last.time <= at then [last] else []
  }

  function Side(s: seq<Event>, isBuy: bool): seq<Event> {
    if s == [] then []
    else
      var last := s[|s| - 1];
      Side(s[..|s| - 1], isBuy) + if last.body.Trade? && last.body.isBuy == isBuy then [last] else []
  }

  /** The trades of the creator's funding cluster. */
  function Funded(s: seq<Event>): seq<Event> {
    if s == [] then []
    else
      var last := s[|s| - 1];
      Funded(s[..|s| - 1]) + if last.body.Trade? && last.body.sameFunder then [last] else []
  }

  function Outsiders(s: seq<Event>): set<string> {
    set e | e in s && e.body.Trade? && e.body.external :: e.body.wallet
  }

  function DealOf(e: Event): C.Trade
    requires e.body.Trade?
  {
    C.Trade(e.body.wallet, e.body.volume, e.body.price)
  }

  function Deals(s: seq<Event>): seq<C.Trade> {
    if s == [] then []
    else
      var last := s[|s| - 1];
      Deals(s[..|s| - 1]) + if last.body.Trade? then [DealOf(last)] else []
  }

  function VolumeOf(s: seq<Event>): real {
    C.Volume(Deals(s))
  }

  // ---------------------------------------------------------------------------
  // The snapshot.

  /** `current / previous - 1`, zero without a previous value. */
  function Change(current: real, previous: real): real {
    if previous > 0.0 then current / previous - 1.0 else 0.0
  }

  function Ratio(numerator: real, denominator: real): real {
    if denominator > 0.0 then numerator / denominator else 0.0
  }

  /** A count as a divisor. */
  function AtLeastOne(n: nat): real {
    if n > 1 then n as real else 1.0
  }

  function PriceOf(e: Event): real { if e.body.Trade? then e.body.price else 0.0 }

  function QuoteOf(e: Event): real { if e.body.Liquidity? then e.body.quote else 0.0 }

  function CapOf(e: Event): real { if e.body.Liquidity? && e.body.marketCap.Some? then e.body.marketCap.value else 0.0 }

  function CountOf(e: Event): int { if e.body.Holders? then e.body.count else 0 }

  /** The newest event at least `seconds` old, or the oldest one. */
  function Earlier(s: seq<Event>, at: int, seconds: int): Event
    requires s != []
  {
    var old' := UpTo(s, at - seconds * SECOND);
    if old' == [] then s[0] else old'[|old'| - 1]
  }

  function Highest(s: seq<Event>): real {
    if s == [] then 0.0
    else
      var rest, last := Highest(s[..|s| - 1]), PriceOf(s[|s| - 1]);
      if |s| == 1 || last > rest then last else rest
  }

  /** Transactions, distinct wallets and volume of one window. */
  datatype Flow = Flow(count: nat, wallets: nat, volume: real)

  function FlowOf(s: seq<Event>, at: int, seconds: int): Flow {
    var w := Window(s, at, seconds);
    Flow(|w|, |Wallets(w)|, VolumeOf(w))
  }

  /** How the buying of the last minute is spread over wallets. */
  datatype Spread = Spread(topShare: real, topFiveShare: real, index: real, sameFunderShare: real)

  function SpreadOf(buys: seq<Event>): Spread {
    var deals := Deals(buys);
    var total := C.Volume(deals);
    if total > 0.0 then
      var shares := C.Shares(C.Ranked(C.PerWallet(deals)), total);
      Spread(if shares == [] then 0.0 else shares[0], C.TopFive(shares), C.Squares(shares),
             VolumeOf(Funded(buys)) / total)
    else Spread(0.0, 0.0, 0.0, 0.0)
  }

  datatype Pace = Pace(newBuyers15: nat, newBuyers30: nat, externalSellers: nat, tradesPerTrader: real,
                       buyerRatio: real, acceleration: real)

  function PaceOf(trades: seq<Event>, buys: seq<Event>, sells: seq<Event>, at: int): Pace {
    var minute, buyers := Window(trades, at, 60), Window(buys, at, 60);
    var previous := Wallets(UpTo(buyers, at - 30 * SECOND));
    Pace(|NewBuyers(buys, at, 15)|, |NewBuyers(buys, at, 30)|, |Outsiders(sells)|,
         |minute| as real / AtLeastOne(|Wallets(minute)|),
         |Wallets(buyers)| as real / AtLeastOne(|buyers|),
         |Wallets(Window(buys, at, 30))| as real / AtLeastOne(|previous|))
  }

  datatype Depth = Depth(quote: real, change10: real, change30: real, changeSinceStart: real,
                         turnover30: real, turnover60: real, capToQuote: real)

  function LiquidityChange(s: seq<Event>, at: int, seconds: int): real {
    if s == [] then 0.0 else Change(QuoteOf(s[|s| - 1]), QuoteOf(Earlier(s, at, seconds)))
  }

  function DepthOf(liquidity: seq<Event>, volume30: real, volume60: real, at: int): Depth {
    var quote := if liquidity == [] then 0.0 else QuoteOf(liquidity[|liquidity| - 1]);
    var first := if liquidity == [] then 0.0 else QuoteOf(liquidity[0]);
    var cap := if liquidity == [] then 0.0 else CapOf(liquidity[|liquidity| - 1]);
    Depth(quote, LiquidityChange(liquidity, at, 10), LiquidityChange(liquidity, at, 30), Change(quote, first),
          Ratio(volume30, quote), Ratio(volume60, quote), Ratio(cap, quote))
  }

  datatype Prices = Prices(current: real, sinceStart: real, return15: real, return30: real, return60: real,
                           vwap30: real, vwap60: real, high: real, drawdown: real, fromVwap: real)

  function PriceReturn(s: seq<Event>, at: int, seconds: int): real {
    if s == [] then 0.0 else Change(PriceOf(s[|s| - 1]), PriceOf(Earlier(s, at, seconds)))
  }

  function PricesOf(trades: seq<Event>, at: int): Prices {
    var current := if trades == [] then 0.0 else PriceOf(trades[|trades| - 1]);
    var first := if trades == [] then 0.0 else PriceOf(trades[0]);
    var vwap30, high := C.Vwap(Deals(Window(trades, at, 30))), Highest(trades);
    Prices(current, Change(current, first),
           PriceReturn(trades, at, 15), PriceReturn(trades, at, 30), PriceReturn(trades, at, 60),
           vwap30, C.Vwap(Deals(Window(trades, at, 60))), high,
           if high > 0.0 then 1.0 - current / high else 0.0, Change(current, vwap30))
  }

  datatype Holding = Holding(count: int, growth30: int, growth60: int, topTen: real, devShare: real, clusterShare: real)

  function HolderGrowth(s: seq<Event>, at: int, seconds: int): int {
    if s == [] then 0 else CountOf(s[|s| - 1]) - CountOf(Earlier(s, at, seconds))
  }

  function HoldingOf(holders: seq<Event>, at: int): Holding {
    if holders == [] || !holders[|holders| - 1].body.Holders? then Holding(0, 0, 0, 0.0, 0.0, 0.0)
    else
      var last := holders[|holders| - 1].body;
      Holding(last.count, HolderGrowth(holders, at, 30), HolderGrowth(holders, at, 60),
              last.topTen, last.devShare, last.clusterShare)
  }

  datatype Snapshot = Snapshot(
    age: int, buys15: Flow, buys30: Flow, buys60: Flow, sells15: Flow, sells30: Flow, sells60: Flow,
    net30: real, net60: real, buySellRatio: real, spread: Spread, pace: Pace, depth: Depth, prices: Prices,
    holding: Holding)

  /** The snapshot as a function of what is visible at its time. */
  function Summarise(trades: seq<Event>, liquidity: seq<Event>, holders: seq<Event>, created: int, at: int): Snapshot {
    var buys, sells := Side(trades, true), Side(trades, false);
    var buys30, buys60 := FlowOf(buys, at, 30), FlowOf(buys, at, 60);
    var sells30, sells60 := FlowOf(sells, at, 30), FlowOf(sells, at, 60);
    Snapshot(
      if at - created > 0 then at - created else 0,
      FlowOf(buys, at, 15), buys30, buys60, FlowOf(sells, at, 15), sells30, sells60,
      buys30.volume - sells30.volume, buys60.volume - sells60.volume,
      buys60.volume / (if sells60.volume > 0.01 then sells60.volume else 0.01),
      SpreadOf(Window(buys, at, 60)), PaceOf(trades, buys, sells, at),
      DepthOf(liquidity, buys30.volume + sells30.volume, buys60.volume + sells60.volume, at),
      PricesOf(trades, at), HoldingOf(holders, at))
  }

  /** `snapshot`. */
  function SnapshotAt(lists: map<Channel, seq<Event>>, created: map<string, int>, pool: string, at: int): Snapshot {
    Summarise(Visible(lists, TradeKind, pool, at), Visible(lists, LiquidityKind, pool, at),
              Visible(lists, HolderKind, pool, at), if pool in created then created[pool] else at, at)
  }

  // ---------------------------------------------------------------------------
  // No look-ahead.

  /** Ingesting an event later than `at` changes no view at `at`, hence no snapshot at `at`. */
  lemma NoLookAhead(lists: map<Channel, seq<Event>>, created: map<string, int>, e: Event, k: nat, pool: string, at: int)
    requires e.time > at
    requires k <= |if ChannelOf(e) in lists then lists[ChannelOf(e)] else []|
    ensures var ch := ChannelOf(e);
            var after := lists[ch := Insert(if ch in lists then lists[ch] else [], e, k)];
            (forall kind :: Visible(after, kind, pool, at) == Visible(lists, kind, pool, at))
            && SnapshotAt(after, created, pool, at) == SnapshotAt(lists, created, pool, at)
  {
    hide UpTo, Insert, Summarise;
    var ch := ChannelOf(e);
    var current := if ch in lists then lists[ch] else [];
    LateInsertIsInvisible(current, e, k, at);
  }

  /** Two engines given the same events and the same registrations, each in its own order, give the
      same snapshot of every pool at every moment. */
  lemma SnapshotsIgnoreOrder(lists: map<Channel, seq<Event>>, seen: set<string>, events: seq<Event>,
                             created: map<string, int>, rs: seq<Registration>,
                             lists': map<Channel, seq<Event>>, seen': set<string>, events': seq<Event>,
                             created': map<string, int>, rs': seq<Registration>, pool: string, at: int)
    requires Represents(lists, seen, events) && Represents(lists', seen', events')
    requires Dates(created, rs) && Dates(created', rs')
    requires (forall e :: e in events <==> e in events') && forall r :: r in rs <==> r in rs'
    ensures SnapshotAt(lists, created, pool, at) == SnapshotAt(lists', created', pool, at)
  {
    hide Represents, Dates, Summarise, Visible;
    ArrivalOrderIsIrrelevant(lists, seen, events, lists', seen', events');
    RegistrationOrderIsIrrelevant(created, rs, created', rs');
  }

  // ---------------------------------------------------------------------------
  // What is in a window.

  /** Trades as their validation admits them. */
  ghost predicate SoundTrades(s: seq<Event>) {
    forall i :: 0 <= i < |s| ==> s[i].body.Trade? && s[i].body.volume >= 0.0 && s[i].body.price > 0.0
  }

  /** `t` holds some of the events of `s`. */
  ghost predicate Within(t: seq<Event>, s: seq<Event>) {
    forall e :: e in t ==> e in s
  }

  lemma SomeAreSound(t: seq<Event>, s: seq<Event>)
    requires SoundTrades(s) && Within(t, s)
    ensures SoundTrades(t)
  {
    forall i | 0 <= i < |t| ensures t[i].body.Trade? && t[i].body.volume >= 0.0 && t[i].body.price > 0.0 {
      assert t[i] in s;
    }
  }

  lemma {:induction false} WindowMembers(s: seq<Event>, at: int, seconds: int, e: Event)
    ensures e in Window(s, at, seconds) <==> e in s && at - seconds * SECOND < e.time <= at
  {
    if s != [] {
      WindowMembers(s[..|s| - 1], at, seconds, e);
      assert s == s[..|s| - 1] + [s[|s| - 1]];
    }
  }

  lemma {:induction false} SideMembers(s: seq<Event>, isBuy: bool, e: Event)
    ensures e in Side(s, isBuy) <==> e in s && e.body.Trade? && e.body.isBuy == isBuy
  {
    if s != [] {
      SideMembers(s[..|s| - 1], isBuy, e);
      assert s == s[..|s| - 1] + [s[|s| - 1]];
    }
  }

  /** Appending a trade adds its volume. */
  lemma VolumeAppends(s: seq<Event>)
    requires s != [] && SoundTrades(s)
    ensures VolumeOf(s) == VolumeOf(s[..|s| - 1]) + s[|s| - 1].body.volume
    ensures SoundTrades(s[..|s| - 1])
  {
    var deals := Deals(s);
    assert deals[..|deals| - 1] == Deals(s[..|s| - 1]);
  }

  lemma {:induction false} VolumeNotNegative(s: seq<Event>)
    requires SoundTrades(s)
    ensures VolumeOf(s) >= 0.0
  {
    hide VolumeOf;
    if s != [] {
      VolumeAppends(s);
      VolumeNotNegative(s[..|s| - 1]);
    } else {
      assert VolumeOf([]) == 0.0 by { NoVolume(); }
    }
  }

  lemma NoVolume()
    ensures VolumeOf([]) == 0.0
  {
    assert Deals([]) == [] && C.Volume([]) == 0.0;
  }

  lemma WindowIsSound(s: seq<Event>, at: int, seconds: int)
    requires SoundTrades(s)
    ensures SoundTrades(Window(s, at, seconds))
  {
    hide Window, SoundTrades;
    var w := Window(s, at, seconds);
    forall e | e in w ensures e in s { WindowMembers(s, at, seconds, e); }
    SomeAreSound(w, s);
  }

  lemma WindowStep(s: seq<Event>, at: int, seconds: int)
    requires s != [] && SoundTrades(s)
    ensures var front, last := Window(s[..|s| - 1], at, seconds), s[|s| - 1];
            if at - seconds * SECOND < last.time <= at
            then |Window(s, at, seconds)| == |front| + 1
                 && VolumeOf(Window(s, at, seconds)) == VolumeOf(front) + last.body.volume
            else Window(s, at, seconds) == front
  {
    hide VolumeOf, SoundTrades;
    var front, last := Window(s[..|s| - 1], at, seconds), s[|s| - 1];
    if at - seconds * SECOND < last.time <= at {
      var w := Window(s, at, seconds);
      WindowIsSound(s, at, seconds);
      assert w == front + [last];
      assert w[..|w| - 1] == front;
      VolumeAppends(w);
    }
  }

  /** A longer window holds no less. */
  lemma {:induction false} WindowGrows(s: seq<Event>, at: int, a: int, b: int)
    requires SoundTrades(s) && a <= b
    ensures |Window(s, at, a)| <= |Window(s, at, b)| <= |s|
    ensures VolumeOf(Window(s, at, a)) <= VolumeOf(Window(s, at, b))
  {
    hide VolumeOf, Window;
    if s == [] {
      assert Window(s, at, a) == [] == Window(s, at, b) by { EmptyWindow(at, a); EmptyWindow(at, b); }
    } else {
      WindowStep(s, at, a);
      WindowStep(s, at, b);
      WindowGrows(s[..|s| - 1], at, a, b);
    }
  }

  lemma EmptyWindow(at: int, seconds: int)
    ensures Window([], at, seconds) == []
  {
  }

  lemma {:induction false} FewerWallets(s: seq<Event>)
    ensures |Wallets(s)| <= |s|
  {
    if s != [] {
      var front, last := s[..|s| - 1], s[|s| - 1];
      FewerWallets(front);
      assert s == front + [last];
      assert Wallets(s) == Wallets(front) + if last.body.Trade? then {last.body.wallet} else {};
    }
  }

  // ---------------------------------------------------------------------------
  // Consistency.

  ghost predicate FlowsNest(a: Flow, b: Flow) {
    a.wallets <= a.count <= b.count && a.wallets <= b.wallets <= b.count && 0.0 <= a.volume <= b.volume
  }

  lemma FlowsGrow(s: seq<Event>, at: int, a: int, b: int)
    requires SoundTrades(s) && a <= b
    ensures FlowsNest(FlowOf(s, at, a), FlowOf(s, at, b))
  {
    hide VolumeOf, Window;
    var short, long := Window(s, at, a), Window(s, at, b);
    WindowGrows(s, at, a, b);
    WindowIsSound(s, at, a);
    FewerWallets(short);
    FewerWallets(long);
    VolumeNotNegative(short);
    forall e | e in short ensures e in long {
      WindowMembers(s, at, a, e);
      WindowMembers(s, at, b, e);
    }
    SubsetIsSmaller(Wallets(short), Wallets(long));
  }

  lemma {:induction false} DealsOf(s: seq<Event>)
    requires SoundTrades(s)
    ensures |Deals(s)| == |s| && C.Sound(Deals(s))
    ensures forall i :: 0 <= i < |s| ==> Deals(s)[i] == DealOf(s[i])
  {
    if s != [] {
      DealsOf(s[..|s| - 1]);
    }
  }

  lemma BuyersAreWallets(s: seq<Event>)
    requires SoundTrades(s)
    ensures C.PerWallet(Deals(s)).Keys == Wallets(s)
  {
    DealsOf(s);
    var deals := Deals(s);
    C.AggregationConserves(deals);
    forall w ensures w in C.PerWallet(deals) <==> w in Wallets(s) {
      if w in C.PerWallet(deals) {
        var i :| 0 <= i < |deals| && deals[i].wallet == w;
        assert s[i] in s && s[i].body.wallet == w;
      }
      if w in Wallets(s) {
        var e :| e in s && e.body.Trade? && e.body.wallet == w;
        var i :| 0 <= i < |s| && s[i] == e;
        assert deals[i].wallet == w;
      }
    }
  }

  lemma {:induction false} FundedIsPart(s: seq<Event>)
    requires SoundTrades(s)
    ensures 0.0 <= VolumeOf(Funded(s)) <= VolumeOf(s) && SoundTrades(Funded(s))
  {
    hide VolumeOf;
    if s == [] {
      assert Funded(s) == s;
      VolumeNotNegative(s);
    } else {
      var front, last := s[..|s| - 1], s[|s| - 1];
      VolumeAppends(s);
      FundedIsPart(front);
      if last.body.sameFunder {
        assert Funded(s)[..|Funded(s)| - 1] == Funded(front);
        VolumeAppends(Funded(s));
      } else {
        assert Funded(s) == Funded(front);
      }
    }
  }

  ghost predicate SpreadIsOrdered(p: Spread, buyers: Flow) {
    if buyers.volume > 0.0 then
      buyers.wallets > 0
      && 1.0 / buyers.wallets as real <= p.index <= p.topShare <= p.topFiveShare <= 1.0
      && 0.0 <= p.sameFunderShare <= 1.0
    else p == Spread(0.0, 0.0, 0.0, 0.0)
  }

  lemma SpreadInOrder(buys: seq<Event>)
    requires SoundTrades(buys)
    ensures SpreadIsOrdered(SpreadOf(buys), Flow(|buys|, |Wallets(buys)|, VolumeOf(buys)))
  {
    hide C.Volume, C.PerWallet, C.Ranked, C.Squares, C.TopFive, Deals, Funded;
    if VolumeOf(buys) > 0.0 {
      DealsOf(buys);
      BuyersAreWallets(buys);
      assert |C.PerWallet(Deals(buys))| == |C.PerWallet(Deals(buys)).Keys|;
      C.ConcentrationBounds(Deals(buys));
      FundedIsPart(buys);
      PartOfWhole(VolumeOf(Funded(buys)), VolumeOf(buys));
    }
  }

  lemma PartOfWhole(part: real, whole: real)
    requires 0.0 <= part <= whole && whole > 0.0
    ensures 0.0 <= part / whole <= 1.0
  {
  }

  lemma {:induction false} HighestBounds(trades: seq<Event>)
    requires SoundTrades(trades) && trades != []
    ensures Highest(trades) > 0.0
    ensures forall i :: 0 <= i < |trades| ==> PriceOf(trades[i]) <= Highest(trades)
  {
    if |trades| > 1 {
      var front := trades[..|trades| - 1];
      HighestBounds(front);
      forall i | 0 <= i < |trades| ensures PriceOf(trades[i]) <= Highest(trades) {
        if i < |front| { assert front[i] == trades[i]; }
      }
    }
  }

  lemma VwapBelowHigh(trades: seq<Event>, at: int, seconds: int)
    requires SoundTrades(trades) && trades != []
    ensures 0.0 <= C.Vwap(Deals(Window(trades, at, seconds))) <= Highest(trades)
  {
    hide C.Turnover, C.Volume, Highest;
    var w := Window(trades, at, seconds);
    forall e | e in w ensures e in trades { WindowMembers(trades, at, seconds, e); }
    SomeAreSound(w, trades);
    DealsOf(w);
    HighestBounds(trades);
    forall i | 0 <= i < |w| ensures 0.0 <= Deals(w)[i].price <= Highest(trades) {
      assert w[i] in trades;
      var j :| 0 <= j < |trades| && trades[j] == w[i];
      assert PriceOf(trades[j]) <= Highest(trades);
    }
    if C.Volume(Deals(w)) > 0.0 {
      C.VwapWithinPrices(Deals(w), 0.0, Highest(trades));
    }
  }

  ghost predicate PricesAreOrdered(p: Prices) {
    0.0 < p.current <= p.high && 0.0 <= p.drawdown < 1.0
    && 0.0 <= p.vwap30 <= p.high && 0.0 <= p.vwap60 <= p.high
  }

  lemma PricesInOrder(trades: seq<Event>, at: int)
    requires SoundTrades(trades) && trades != []
    ensures PricesAreOrdered(PricesOf(trades, at))
  {
    hide C.Vwap, Highest, Window, Deals;
    HighestBounds(trades);
    VwapBelowHigh(trades, at, 30);
    VwapBelowHigh(trades, at, 60);
    var current, high := PriceOf(trades[|trades| - 1]), Highest(trades);
    assert 0.0 < current / high <= 1.0 by { PositivePart(current, high); }
  }

  lemma PositivePart(part: real, whole: real)
    requires 0.0 < part <= whole
    ensures 0.0 < part / whole <= 1.0
  {
  }

  lemma NewBuyersNest(buys: seq<Event>, at: int)
    requires SoundTrades(buys) && forall i :: 0 <= i < |buys| ==> buys[i].time <= at
    ensures |NewBuyers(buys, at, 15)| <= |NewBuyers(buys, at, 30)| <= |Wallets(Window(buys, at, 30))|
  {
    hide UpTo, Window, SoundTrades;
    forall w | w in NewBuyers(buys, at, 15) ensures w in NewBuyers(buys, at, 30) {
      if w in Wallets(UpTo(buys, at - 30 * SECOND)) {
        var e :| e in UpTo(buys, at - 30 * SECOND) && e.body.Trade? && e.body.wallet == w;
        UpToMembers(buys, at - 30 * SECOND, e);
        UpToMembers(buys, at - 15 * SECOND, e);
      }
    }
    SubsetIsSmaller(NewBuyers(buys, at, 15), NewBuyers(buys, at, 30));
    forall w | w in NewBuyers(buys, at, 30) ensures w in Wallets(Window(buys, at, 30)) {
      var e :| e in buys && e.body.Trade? && e.body.wallet == w;
      UpToMembers(buys, at - 30 * SECOND, e);
      WindowMembers(buys, at, 30, e);
    }
    SubsetIsSmaller(NewBuyers(buys, at, 30), Wallets(Window(buys, at, 30)));
  }

  lemma PaceInOrder(trades: seq<Event>, buys: seq<Event>, sells: seq<Event>, at: int)
    requires SoundTrades(buys) && forall i :: 0 <= i < |buys| ==> buys[i].time <= at
    ensures var p := PaceOf(trades, buys, sells, at);
            p.newBuyers15 <= p.newBuyers30 <= FlowOf(buys, at, 30).wallets
  {
    hide NewBuyers, Window, VolumeOf, SoundTrades;
    NewBuyersNest(buys, at);
  }

  lemma MinuteInOrder(buys: seq<Event>, at: int)
    requires SoundTrades(buys)
    ensures SpreadIsOrdered(SpreadOf(Window(buys, at, 60)), FlowOf(buys, at, 60))
  {
    hide SpreadIsOrdered, SpreadOf, Window, SoundTrades;
    WindowIsSound(buys, at, 60);
    SpreadInOrder(Window(buys, at, 60));
  }

  /** How the figures of one snapshot relate. */
  ghost predicate Consistent(s: Snapshot) {
    FlowsNest(s.buys15, s.buys30) && FlowsNest(s.buys30, s.buys60)
    && FlowsNest(s.sells15, s.sells30) && FlowsNest(s.sells30, s.sells60)
    && s.pace.newBuyers15 <= s.pace.newBuyers30 <= s.buys30.wallets
    && SpreadIsOrdered(s.spread, s.buys60)
    && ((s.prices.high == 0.0 && s.buys60.count == 0 && s.sells60.count == 0) || PricesAreOrdered(s.prices))
  }

  lemma SidesAreSound(trades: seq<Event>, isBuy: bool, at: int)
    requires SoundTrades(trades) && forall i :: 0 <= i < |trades| ==> trades[i].time <= at
    ensures var side := Side(trades, isBuy); SoundTrades(side) && forall i :: 0 <= i < |side| ==> side[i].time <= at
  {
    var side := Side(trades, isBuy);
    forall e | e in side ensures e in trades { SideMembers(trades, isBuy, e); }
    SomeAreSound(side, trades);
    forall i | 0 <= i < |side| ensures side[i].time <= at { assert side[i] in trades; }
  }

  lemma SummaryIsConsistent(trades: seq<Event>, liquidity: seq<Event>, holders: seq<Event>, created: int, at: int)
    requires SoundTrades(trades) && forall i :: 0 <= i < |trades| ==> trades[i].time <= at
    ensures Consistent(Summarise(trades, liquidity, holders, created, at))
  {
    hide SoundTrades, FlowsNest, SpreadIsOrdered, PricesAreOrdered, PricesOf, SpreadOf, PaceOf, DepthOf, HoldingOf, FlowOf, Side;
    var buys, sells := Side(trades, true), Side(trades, false);
    SidesAreSound(trades, true, at);
    SidesAreSound(trades, false, at);
    if trades == [] {
      EmptySummary(at);
    } else {
      PricesInOrder(trades, at);
    }
    FlowsGrow(buys, at, 15, 30);
    FlowsGrow(buys, at, 30, 60);
    FlowsGrow(sells, at, 15, 30);
    FlowsGrow(sells, at, 30, 60);
    PaceInOrder(trades, buys, sells, at);
    MinuteInOrder(buys, at);
  }

  lemma EmptySummary(at: int)
    ensures PricesOf([], at).high == 0.0
    ensures forall isBuy :: FlowOf(Side([], isBuy), at, 60).count == 0
  {
  }

  lemma VisibleAreSound(lists: map<Channel, seq<Event>>, seen: set<string>, events: seq<Event>, pool: string, at: int)
    requires Represents(lists, seen, events)
    requires forall e :: e in events && e.body.Trade? ==> e.body.volume >= 0.0 && e.body.price > 0.0
    ensures var trades := Visible(lists, TradeKind, pool, at);
            SoundTrades(trades) && forall i :: 0 <= i < |trades| ==> trades[i].time <= at
  {
    hide Ordered;
    var ch := Channel(TradeKind, pool);
    var trades := Visible(lists, TradeKind, pool, at);
    forall i | 0 <= i < |trades|
      ensures trades[i].body.Trade? && trades[i].body.volume >= 0.0 && trades[i].body.price > 0.0 && trades[i].time <= at
    {
      assert trades[i] in trades;
      UpToMembers(if ch in lists then lists[ch] else [], at, trades[i]);
      assert Holds(lists[ch], events, ch);
    }
  }

  /** Every snapshot of an engine that ingested validated events is consistent: shorter windows
      hold no more than longer ones, new buyers are among the buyers, the spread figures keep
      their order with as many buyers as are counted, and prices stay below the high. */
  lemma SnapshotsAreConsistent(lists: map<Channel, seq<Event>>, seen: set<string>, events: seq<Event>,
                               created: map<string, int>, pool: string, at: int)
    requires Represents(lists, seen, events)
    requires forall e :: e in events && e.body.Trade? ==> e.body.volume >= 0.0 && e.body.price > 0.0
    ensures Consistent(SnapshotAt(lists, created, pool, at))
  {
    hide Represents, Consistent, Summarise, SoundTrades;
    VisibleAreSound(lists, seen, events, pool, at);
    SummaryIsConsistent(Visible(lists, TradeKind, pool, at), Visible(lists, LiquidityKind, pool, at),
                        Visible(lists, HolderKind, pool, at), if pool in created then created[pool] else at, at);
  }
}
