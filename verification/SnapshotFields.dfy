/** Every field of a feature snapshot, in terms of the events the engine has accepted and nothing
    else: which events it counts, adds up, or takes a figure from. */
module SnapshotFields {
  import opened Options
  import opened StringOrder
  import opened Sums
  import opened Features
  import opened Snapshots
  import C = Concentration

  // ---------------------------------------------------------------------------
  // Events, and figures of sets of events.

  /** The trades of a pool up to a moment. */
  ghost function Trades(events: seq<Event>, pool: string, at: int): set<Event> {
    set e | e in events && e.body.Trade? && e.pool == pool && e.time <= at
  }

  /** Those of one side within so many seconds of the moment. */
  ghost function Recent(events: seq<Event>, pool: string, at: int, isBuy: bool, seconds: int): set<Event> {
    set e | e in events && e.body.Trade? && e.pool == pool && e.body.isBuy == isBuy
            && at - seconds * 1_000_000 < e.time <= at
  }

  ghost function RecentBoth(events: seq<Event>, pool: string, at: int, seconds: int): set<Event> {
    set e | e in events && e.body.Trade? && e.pool == pool && at - seconds * 1_000_000 < e.time <= at
  }

  function VolumeAt(e: Event): real { if e.body.Trade? then e.body.volume else 0.0 }

  function TurnoverAt(e: Event): real { if e.body.Trade? then e.body.price * e.body.volume else 0.0 }

  ghost function Volumes(s: set<Event>): real {
    Total(map e | e in s :: VolumeAt(e))
  }

  ghost function Turnovers(s: set<Event>): real {
    Total(map e | e in s :: TurnoverAt(e))
  }

  ghost function Traders(s: set<Event>): set<string> {
    set e | e in s && e.body.Trade? :: e.body.wallet
  }

  /** The last of a set of events by time, ties by identifier. */
  ghost predicate IsLatest(s: set<Event>, last: Event) {
    last in s && forall e :: e in s ==> e == last || e.time < last.time || (e.time == last.time && Less(e.id, last.id))
  }

  ghost predicate IsFirst(s: set<Event>, first: Event) {
    first in s && forall e :: e in s ==> e == first || first.time < e.time || (first.time == e.time && Less(first.id, e.id))
  }

  /** The event a change over so many seconds is measured from: the last one at least so old, or
      the first of all. */
  ghost predicate IsReference(s: set<Event>, at: int, seconds: int, from: Event) {
    var old' := set e | e in s && e.time <= at - seconds * 1_000_000;
    if old' != {} then IsLatest(old', from) else IsFirst(s, from)
  }

  function Relative(current: real, previous: real): real {
    if previous > 0.0 then current / previous - 1.0 else 0.0
  }

  function PerUnit(amount: real, unit: real): real {
    if unit > 0.0 then amount / unit else 0.0
  }

  function OneOrMore(n: nat): real {
    if n == 0 then 1.0 else n as real
  }

  // ---------------------------------------------------------------------------
  // Lists and the sets they list.

  ghost predicate NoRepeats(s: seq<Event>) {
    forall i, j :: 0 <= i < j < |s| ==> s[i] != s[j]
  }

  ghost function SetOf(s: seq<Event>): set<Event> {
    set e | e in s
  }

  /** `t` lists the events of `s` that pass, in the same order. */
  ghost predicate Sublist(t: seq<Event>, s: seq<Event>) {
    forall e :: e in t ==> e in s
  }

  lemma LastIsNew(s: seq<Event>)
    requires s != [] && NoRepeats(s)
    ensures NoRepeats(s[..|s| - 1]) && s[|s| - 1] !in s[..|s| - 1] && SetOf(s) == SetOf(s[..|s| - 1]) + {s[|s| - 1]}
  {
    assert s == s[..|s| - 1] + [s[|s| - 1]];
  }

  lemma OrderedIsDistinct(s: seq<Event>)
    requires Ordered(s)
    ensures NoRepeats(s)
  {
    forall i, j | 0 <= i < j < |s| ensures s[i] != s[j] { NotItself(s[i]); }
  }

  lemma OrderedFront(s: seq<Event>)
    requires Ordered(s) && s != []
    ensures Ordered(s[..|s| - 1]) && forall i :: 0 <= i < |s| - 1 ==> Precedes(s[i], s[|s| - 1])
  {
    hide Precedes;
  }

  lemma OrderedAppend(s: seq<Event>, e: Event)
    requires Ordered(s) && forall x :: x in s ==> Precedes(x, e)
    ensures Ordered(s + [e])
  {
    hide Precedes;
  }

  lemma {:induction false} UpToOrdered(s: seq<Event>, at: int)
    requires Ordered(s)
    ensures Ordered(UpTo(s, at)) && forall e :: e in UpTo(s, at) <==> e in s && e.time <= at
  {
    hide Precedes, Ordered;
    if s == [] {
      NoneOrdered();
    } else {
      var front, last := s[..|s| - 1], s[|s| - 1];
      OrderedFront(s);
      UpToOrdered(front, at);
      assert s == front + [last];
      if last.time <= at { OrderedAppend(UpTo(front, at), last); } else { assert UpTo(front, at) + [] == UpTo(front, at); }
    }
  }

  lemma {:induction false} SideOrdered(s: seq<Event>, isBuy: bool)
    requires Ordered(s)
    ensures Ordered(Side(s, isBuy))
  {
    hide Precedes, Ordered;
    if s == [] {
      NoneOrdered();
    } else {
      var front, last := s[..|s| - 1], s[|s| - 1];
      OrderedFront(s);
      SideOrdered(front, isBuy);
      forall x | x in Side(front, isBuy) ensures Precedes(x, last) { SideMembers(front, isBuy, x); }
      if last.body.Trade? && last.body.isBuy == isBuy {
        OrderedAppend(Side(front, isBuy), last);
      } else {
        assert Side(front, isBuy) + [] == Side(front, isBuy);
      }
    }
  }

  lemma {:induction false} WindowOrdered(s: seq<Event>, at: int, seconds: int)
    requires Ordered(s)
    ensures Ordered(Window(s, at, seconds))
  {
    hide Precedes, Ordered;
    if s == [] {
      NoneOrdered();
    } else {
      var front, last := s[..|s| - 1], s[|s| - 1];
      OrderedFront(s);
      WindowOrdered(front, at, seconds);
      forall x | x in Window(front, at, seconds) ensures Precedes(x, last) { WindowMembers(front, at, seconds, x); }
      if at - seconds * SECOND < last.time <= at {
        OrderedAppend(Window(front, at, seconds), last);
      } else {
        assert Window(front, at, seconds) + [] == Window(front, at, seconds);
      }
    }
  }

  lemma {:induction false} FundedMembers(s: seq<Event>, e: Event)
    ensures e in Funded(s) <==> e in s && e.body.Trade? && e.body.sameFunder
  {
    if s != [] {
      FundedMembers(s[..|s| - 1], e);
      assert s == s[..|s| - 1] + [s[|s| - 1]];
    }
  }

  lemma {:induction false} FundedDistinct(s: seq<Event>)
    requires NoRepeats(s)
    ensures NoRepeats(Funded(s))
  {
    hide NoRepeats;
    if s == [] {
      OrderedIsDistinct([]);
    } else {
      var front, last := s[..|s| - 1], s[|s| - 1];
      LastIsNew(s);
      FundedDistinct(front);
      FundedMembers(front, last);
      DistinctAppend(Funded(front), last);
      assert Funded(front) + [] == Funded(front);
    }
  }

  lemma DistinctAppend(s: seq<Event>, e: Event)
    requires NoRepeats(s) && e !in s
    ensures NoRepeats(s + [e])
  {
  }

  lemma {:induction false} CountOfList(s: seq<Event>)
    requires NoRepeats(s)
    ensures |s| == |SetOf(s)|
  {
    hide NoRepeats;
    if s == [] {
      assert SetOf(s) == {};
    } else {
      LastIsNew(s);
      CountOfList(s[..|s| - 1]);
    }
  }

  lemma VolumesAdd(s: set<Event>, e: Event)
    requires e !in s
    ensures Volumes(s + {e}) == Volumes(s) + VolumeAt(e) && Turnovers(s + {e}) == Turnovers(s) + TurnoverAt(e)
  {
    hide Total;
    var v, t := map x | x in s :: VolumeAt(x), map x | x in s :: TurnoverAt(x);
    TotalUpdate(v, e, VolumeAt(e));
    TotalUpdate(t, e, TurnoverAt(e));
    assert v[e := VolumeAt(e)] == map x | x in s + {e} :: VolumeAt(x);
    assert t[e := TurnoverAt(e)] == map x | x in s + {e} :: TurnoverAt(x);
  }

  lemma NothingAdds()
    ensures Volumes({}) == 0.0 == Turnovers({})
  {
  }

  lemma {:induction false} SumsOfList(s: seq<Event>)
    requires NoRepeats(s) && forall i :: 0 <= i < |s| ==> s[i].body.Trade?
    ensures VolumeOf(s) == Volumes(SetOf(s)) && C.Turnover(Deals(s)) == Turnovers(SetOf(s))
  {
    hide NoRepeats, Volumes, Turnovers, VolumeOf, C.Turnover, Deals;
    if s == [] {
      assert SetOf(s) == {};
      NothingAdds();
      DealsStep(s);
    } else {
      var front, last := s[..|s| - 1], s[|s| - 1];
      LastIsNew(s);
      SumsOfList(front);
      DealsStep(s);
      VolumesAdd(SetOf(front), last);
    }
  }

  lemma DealsStep(s: seq<Event>)
    requires forall i :: 0 <= i < |s| ==> s[i].body.Trade?
    ensures s == [] ==> VolumeOf(s) == 0.0 == C.Turnover(Deals(s)) && C.PerWallet(Deals(s)) == map[]
    ensures s != [] ==>
              var front, last := s[..|s| - 1], s[|s| - 1];
              VolumeOf(s) == VolumeOf(front) + VolumeAt(last)
              && C.Turnover(Deals(s)) == C.Turnover(Deals(front)) + TurnoverAt(last)
              && C.PerWallet(Deals(s)) == C.Credited(C.PerWallet(Deals(front)), DealOf(last))
  {
    if s != [] {
      var deals := Deals(s);
      assert deals[..|deals| - 1] == Deals(s[..|s| - 1]);
    }
  }

  /** The buying volume of each wallet. */
  ghost function ByWallet(s: set<Event>): map<string, real> {
    map w | w in Traders(s) :: Volumes(set e | e in s && e.body.Trade? && e.body.wallet == w)
  }

  lemma {:induction false} WalletsOfList(s: seq<Event>)
    requires NoRepeats(s) && forall i :: 0 <= i < |s| ==> s[i].body.Trade?
    ensures C.PerWallet(Deals(s)) == ByWallet(SetOf(s))
  {
    hide NoRepeats, Volumes, VolumeOf, C.Turnover, Deals, C.PerWallet;
    DealsStep(s);
    if s == [] {
      assert SetOf(s) == {} && Traders({}) == {};
    } else {
      var front, last := s[..|s| - 1], s[|s| - 1];
      LastIsNew(s);
      WalletsOfList(front);
      CreditsOne(SetOf(front), last);
    }
  }

  lemma CreditsOne(s: set<Event>, last: Event)
    requires last !in s && last.body.Trade?
    ensures C.Credited(ByWallet(s), DealOf(last)) == ByWallet(s + {last})
  {
    hide Volumes;
    var w, more := last.body.wallet, s + {last};
    assert Traders(more) == Traders(s) + {w};
    forall x | x in Traders(more)
      ensures Volumes(set e | e in more && e.body.Trade? && e.body.wallet == x) == C.Credited(ByWallet(s), DealOf(last))[x]
    {
      var before, after := set e | e in s && e.body.Trade? && e.body.wallet == x, set e | e in more && e.body.Trade? && e.body.wallet == x;
      if x == w {
        assert after == before + {last};
        VolumesAdd(before, last);
        if x !in Traders(s) {
          assert before == {};
          NothingAdds();
        }
      } else {
        assert after == before;
      }
    }
  }

  // ---------------------------------------------------------------------------
  // What the engine shows of its events.

  lemma VisibleList(lists: map<Channel, seq<Event>>, seen: set<string>, events: seq<Event>, kind: Kind, pool: string, at: int)
    requires Represents(lists, seen, events)
    ensures var s := Visible(lists, kind, pool, at);
            Ordered(s) && forall e :: e in s <==> e in events && ChannelOf(e) == Channel(kind, pool) && e.time <= at
  {
    hide Precedes, Ordered, ChannelOf, UpTo;
    var ch := Channel(kind, pool);
    if ch in lists {
      assert Holds(lists[ch], events, ch);
      UpToOrdered(lists[ch], at);
    } else {
      NoneOrdered();
      UpToOrdered([], at);
      UnusedChannel(events, ch);
    }
  }

  lemma VisibleTrades(lists: map<Channel, seq<Event>>, seen: set<string>, events: seq<Event>, pool: string, at: int)
    requires Represents(lists, seen, events)
    ensures var s := Visible(lists, TradeKind, pool, at);
            Ordered(s) && SetOf(s) == Trades(events, pool, at)
  {
    hide Ordered, Represents, Visible;
    VisibleList(lists, seen, events, TradeKind, pool, at);
  }

  /** One side's window lists just the trades of that side in it. */
  lemma SideWindow(trades: seq<Event>, isBuy: bool, at: int, seconds: int)
    requires Ordered(trades)
    ensures var w := Window(Side(trades, isBuy), at, seconds);
            Ordered(w) && NoRepeats(w) && (forall i :: 0 <= i < |w| ==> w[i].body.Trade?)
            && SetOf(w) == set e | e in trades && e.body.Trade? && e.body.isBuy == isBuy && at - seconds * 1_000_000 < e.time <= at
  {
    hide Ordered, Side, Window, NoRepeats;
    var side := Side(trades, isBuy);
    var w := Window(side, at, seconds);
    SideOrdered(trades, isBuy);
    WindowOrdered(side, at, seconds);
    OrderedIsDistinct(w);
    forall e ensures e in w <==> e in trades && e.body.Trade? && e.body.isBuy == isBuy && at - seconds * 1_000_000 < e.time <= at {
      WindowMembers(side, at, seconds, e);
      SideMembers(trades, isBuy, e);
    }
    forall i | 0 <= i < |w| ensures w[i].body.Trade? { assert w[i] in w; }
  }

  // ---------------------------------------------------------------------------
  // Flows.

  ghost predicate FlowIs(f: Flow, s: set<Event>) {
    f.count == |s| && f.wallets == |Traders(s)| && f.volume == Volumes(s)
  }

  lemma FlowOfSide(events: seq<Event>, trades: seq<Event>, pool: string, at: int, isBuy: bool, seconds: int)
    requires Ordered(trades) && SetOf(trades) == Trades(events, pool, at)
    ensures FlowIs(FlowOf(Side(trades, isBuy), at, seconds), Recent(events, pool, at, isBuy, seconds))
  {
    hide Ordered, Side, Window, VolumeOf, Volumes, NoRepeats;
    var w := Window(Side(trades, isBuy), at, seconds);
    SideWindow(trades, isBuy, at, seconds);
    forall e ensures e in SetOf(w) <==> e in Recent(events, pool, at, isBuy, seconds) {
      assert e in trades <==> e in SetOf(trades);
    }
    assert SetOf(w) == Recent(events, pool, at, isBuy, seconds);
    CountOfList(w);
    SumsOfList(w);
    assert Wallets(w) == Traders(SetOf(w));
  }

  /** The flows of a snapshot count the buys, and the sells, of the last fifteen, thirty and sixty
      seconds, their wallets and their volume; the net flow is buying less selling. */
  lemma FlowFields(lists: map<Channel, seq<Event>>, seen: set<string>, events: seq<Event>, created: map<string, int>,
                   pool: string, at: int)
    requires Represents(lists, seen, events)
    ensures var s := SnapshotAt(lists, created, pool, at);
            var buys, sells := n => Recent(events, pool, at, true, n), n => Recent(events, pool, at, false, n);
            FlowIs(s.buys15, buys(15)) && FlowIs(s.buys30, buys(30)) && FlowIs(s.buys60, buys(60))
            && FlowIs(s.sells15, sells(15)) && FlowIs(s.sells30, sells(30)) && FlowIs(s.sells60, sells(60))
            && s.net30 == Volumes(buys(30)) - Volumes(sells(30)) && s.net60 == Volumes(buys(60)) - Volumes(sells(60))
            && s.buySellRatio == Volumes(buys(60)) / (if Volumes(sells(60)) > 0.01 then Volumes(sells(60)) else 0.01)
            && s.age == (if pool in created && created[pool] < at then at - created[pool] else 0)
  {
    hide Represents, Visible, Ordered, FlowOf, Side, SetOf, Volumes, Recent, Trades, SpreadOf, PaceOf, DepthOf, PricesOf, HoldingOf;
    VisibleTrades(lists, seen, events, pool, at);
    var trades := Visible(lists, TradeKind, pool, at);
    FlowOfSide(events, trades, pool, at, true, 15);
    FlowOfSide(events, trades, pool, at, true, 30);
    FlowOfSide(events, trades, pool, at, true, 60);
    FlowOfSide(events, trades, pool, at, false, 15);
    FlowOfSide(events, trades, pool, at, false, 30);
    FlowOfSide(events, trades, pool, at, false, 60);
  }

  // ---------------------------------------------------------------------------
  // The spread of the last minute's buying.

  function FrontSum(s: seq<real>, n: nat): real {
    if n == 0 || s == [] then 0.0 else s[0] + FrontSum(s[1..], n - 1)
  }

  function SquareSum(s: seq<real>): real {
    if s == [] then 0.0 else s[0] * s[0] + SquareSum(s[1..])
  }

  lemma {:induction false} SumsMatch(s: seq<real>, n: nat)
    ensures SquareSum(s) == C.Squares(s)
    ensures FrontSum(s, n) == C.SumFront(if |s| <= n then s else s[..n])
  {
    if s != [] && n > 0 {
      SumsMatch(s[1..], n - 1);
      if |s| > n { assert s[..n][1..] == s[1..][..n - 1]; }
    } else if s != [] {
      SumsMatch(s[1..], 0);
    }
  }

  /** `shares` are the buyers' parts of the volume, the largest first, one for each buyer. */
  ghost predicate BuyerShares(shares: seq<real>, order: seq<string>, s: set<Event>)
    requires Volumes(s) > 0.0
  {
    |shares| == |order| && (forall w :: w in order <==> w in Traders(s))
    && (forall i, j :: 0 <= i < j < |order| ==> order[i] != order[j] && shares[i] >= shares[j])
    && forall i :: 0 <= i < |order| ==> order[i] in ByWallet(s) && shares[i] == ByWallet(s)[order[i]] / Volumes(s)
  }

  lemma SharesOfBuyers(w: seq<Event>) returns (order: seq<string>)
    requires NoRepeats(w) && (forall i :: 0 <= i < |w| ==> w[i].body.Trade?) && VolumeOf(w) > 0.0
    ensures Volumes(SetOf(w)) == VolumeOf(w)
    ensures BuyerShares(C.Shares(C.Ranked(C.PerWallet(Deals(w))), VolumeOf(w)), order, SetOf(w))
  {
    hide NoRepeats, VolumeOf, Deals, C.PerWallet, C.Ranked, Volumes, SetOf, Traders;
    SumsOfList(w);
    WalletsOfList(w);
    var m, total := C.PerWallet(Deals(w)), VolumeOf(w);
    order := C.RankedNames(m);
    C.RankedIsOrdered(m);
    var ranked := C.Ranked(m);
    forall i, j | 0 <= i < j < |ranked| ensures ranked[i] / total >= ranked[j] / total { C.DivideOrder(ranked[i], ranked[j], total); }
  }

  /** The concentration figures are those of the buyers of the last minute: the largest part, the
      sum of the five largest, the sum of squares, and the part of the creator's funding cluster. */
  lemma SpreadFields(lists: map<Channel, seq<Event>>, seen: set<string>, events: seq<Event>, created: map<string, int>,
                     pool: string, at: int) returns (shares: seq<real>, order: seq<string>)
    requires Represents(lists, seen, events)
    ensures var p, buys := SnapshotAt(lists, created, pool, at).spread, Recent(events, pool, at, true, 60);
            if Volumes(buys) > 0.0 then
              BuyerShares(shares, order, buys)
              && p.topShare == FrontSum(shares, 1) && p.topFiveShare == FrontSum(shares, 5) && p.index == SquareSum(shares)
              && p.sameFunderShare == Volumes(set e | e in buys && e.body.Trade? && e.body.sameFunder) / Volumes(buys)
            else p == Spread(0.0, 0.0, 0.0, 0.0)
  {
    hide Represents, Visible, Ordered, FlowOf, Side, Window, SetOf, Volumes, Recent, Trades, PaceOf, DepthOf, PricesOf, HoldingOf,
      VolumeOf, Funded, Deals, C.Ranked, C.PerWallet, C.Shares, SpreadOf, BuyerShares, NoRepeats, SquareSum, FrontSum;
    VisibleTrades(lists, seen, events, pool, at);
    var trades := Visible(lists, TradeKind, pool, at);
    var w := Window(Side(trades, true), at, 60);
    MinuteBuys(events, trades, pool, at);
    SumsOfList(w);
    SpreadIs(w);
    shares, order := [], [];
    if VolumeOf(w) > 0.0 {
      order := SharesOfBuyers(w);
      shares := C.Shares(C.Ranked(C.PerWallet(Deals(w))), VolumeOf(w));
      FundedSet(w);
    }
  }

  lemma SpreadIs(w: seq<Event>)
    ensures if VolumeOf(w) > 0.0 then
              var shares := C.Shares(C.Ranked(C.PerWallet(Deals(w))), VolumeOf(w));
              SpreadOf(w) == Spread(FrontSum(shares, 1), FrontSum(shares, 5), SquareSum(shares), VolumeOf(Funded(w)) / VolumeOf(w))
            else SpreadOf(w) == Spread(0.0, 0.0, 0.0, 0.0)
  {
    hide C.Ranked, C.PerWallet, Deals, Funded, SquareSum, C.Squares, FrontSum;
    if VolumeOf(w) > 0.0 {
      var shares := C.Shares(C.Ranked(C.PerWallet(Deals(w))), VolumeOf(w));
      SumsMatch(shares, 5);
      TopIsFirst(shares);
    }
  }

  lemma TopIsFirst(shares: seq<real>)
    ensures FrontSum(shares, 1) == if shares == [] then 0.0 else shares[0]
  {
  }

  lemma MinuteBuys(events: seq<Event>, trades: seq<Event>, pool: string, at: int)
    requires Ordered(trades) && SetOf(trades) == Trades(events, pool, at)
    ensures var w := Window(Side(trades, true), at, 60);
            NoRepeats(w) && (forall i :: 0 <= i < |w| ==> w[i].body.Trade?) && SetOf(w) == Recent(events, pool, at, true, 60)
  {
    hide Ordered, Side, Window, NoRepeats;
    SideWindow(trades, true, at, 60);
    var w := Window(Side(trades, true), at, 60);
    forall e ensures e in SetOf(w) <==> e in Recent(events, pool, at, true, 60) { assert e in trades <==> e in SetOf(trades); }
  }

  lemma FundedSet(w: seq<Event>)
    requires NoRepeats(w) && forall i :: 0 <= i < |w| ==> w[i].body.Trade?
    ensures VolumeOf(Funded(w)) == Volumes(set e | e in SetOf(w) && e.body.Trade? && e.body.sameFunder)
  {
    hide NoRepeats, VolumeOf, Volumes, Funded;
    var f := Funded(w);
    FundedDistinct(w);
    forall e ensures e in f <==> e in w && e.body.Trade? && e.body.sameFunder { FundedMembers(w, e); }
    forall i | 0 <= i < |f| ensures f[i].body.Trade? { assert f[i] in f; }
    SumsOfList(f);
    assert SetOf(f) == set e | e in SetOf(w) && e.body.Trade? && e.body.sameFunder;
  }

  // ---------------------------------------------------------------------------
  // The pace of trading.

  ghost function AllOf(events: seq<Event>, pool: string, at: int, isBuy: bool): set<Event> {
    set e | e in events && e.body.Trade? && e.pool == pool && e.body.isBuy == isBuy && e.time <= at
  }

  /** The wallets with a buy in the last seconds and none before. */
  ghost function FirstTimers(buys: set<Event>, at: int, seconds: int): set<string> {
    Traders(buys) - Traders(set e | e in buys && e.time <= at - seconds * 1_000_000)
  }

  lemma SideSet(events: seq<Event>, trades: seq<Event>, pool: string, at: int, isBuy: bool)
    requires Ordered(trades) && SetOf(trades) == Trades(events, pool, at)
    ensures Ordered(Side(trades, isBuy)) && SetOf(Side(trades, isBuy)) == AllOf(events, pool, at, isBuy)
    ensures Wallets(Side(trades, isBuy)) == Traders(AllOf(events, pool, at, isBuy))
  {
    hide Ordered, Side;
    SideOrdered(trades, isBuy);
    forall e ensures e in Side(trades, isBuy) <==> e in AllOf(events, pool, at, isBuy) {
      SideMembers(trades, isBuy, e);
      assert e in trades <==> e in SetOf(trades);
    }
  }

  lemma NewIs(buys: seq<Event>, s: set<Event>, at: int, seconds: int)
    requires Ordered(buys) && SetOf(buys) == s
    ensures NewBuyers(buys, at, seconds) == FirstTimers(s, at, seconds)
  {
    hide Ordered, UpTo;
    var cutoff := at - seconds * 1_000_000;
    var early := set e | e in s && e.time <= cutoff;
    UpToOrdered(buys, cutoff);
    forall e ensures e in UpTo(buys, cutoff) <==> e in early { assert e in buys <==> e in SetOf(buys); }
    assert Wallets(UpTo(buys, cutoff)) == Traders(early);
    assert Wallets(buys) == Traders(s);
  }

  lemma BothWindow(events: seq<Event>, trades: seq<Event>, pool: string, at: int, seconds: int)
    requires Ordered(trades) && SetOf(trades) == Trades(events, pool, at)
    ensures var w := Window(trades, at, seconds);
            NoRepeats(w) && (forall i :: 0 <= i < |w| ==> w[i].body.Trade?) && SetOf(w) == RecentBoth(events, pool, at, seconds)
            && |w| == |RecentBoth(events, pool, at, seconds)| && Wallets(w) == Traders(RecentBoth(events, pool, at, seconds))
  {
    hide Ordered, Window, NoRepeats;
    var w := Window(trades, at, seconds);
    WindowOrdered(trades, at, seconds);
    OrderedIsDistinct(w);
    forall e ensures e in w <==> e in RecentBoth(events, pool, at, seconds) {
      WindowMembers(trades, at, seconds, e);
      assert e in trades <==> e in SetOf(trades);
    }
    forall i | 0 <= i < |w| ensures w[i].body.Trade? { assert w[i] in w; }
    CountOfList(w);
  }

  /** New buyers are the wallets whose first buy is in the window; the other figures relate trades,
      buys and buyers of the last minute, and the buyers of its two halves. */
  lemma PaceFields(lists: map<Channel, seq<Event>>, seen: set<string>, events: seq<Event>, created: map<string, int>,
                   pool: string, at: int)
    requires Represents(lists, seen, events)
    ensures var p := SnapshotAt(lists, created, pool, at).pace;
            var buys, sells := AllOf(events, pool, at, true), AllOf(events, pool, at, false);
            var buys30, buys60 := Recent(events, pool, at, true, 30), Recent(events, pool, at, true, 60);
            var minute := RecentBoth(events, pool, at, 60);
            var before := set e | e in buys60 && e.time <= at - 30_000_000;
            p.newBuyers15 == |FirstTimers(buys, at, 15)| && p.newBuyers30 == |FirstTimers(buys, at, 30)|
            && p.externalSellers == |set e | e in sells && e.body.Trade? && e.body.external :: e.body.wallet|
            && p.tradesPerTrader == |minute| as real / OneOrMore(|Traders(minute)|)
            && p.buyerRatio == |Traders(buys60)| as real / OneOrMore(|buys60|)
            && p.acceleration == |Traders(buys30)| as real / OneOrMore(|Traders(before)|)
  {
    hide Represents, Visible, Ordered, FlowOf, Side, Window, SetOf, Recent, Trades, SpreadOf, DepthOf, PricesOf, HoldingOf, RecentBoth,
      AllOf, FirstTimers, NewBuyers, UpTo, NoRepeats, Traders, Wallets;
    VisibleTrades(lists, seen, events, pool, at);
    var trades := Visible(lists, TradeKind, pool, at);
    SideSet(events, trades, pool, at, true);
    SideSet(events, trades, pool, at, false);
    NewIs(Side(trades, true), AllOf(events, pool, at, true), at, 15);
    NewIs(Side(trades, true), AllOf(events, pool, at, true), at, 30);
    BothWindow(events, trades, pool, at, 60);
    BuyWindow(events, trades, pool, at, 60);
    BuyWindow(events, trades, pool, at, 30);
    EarlierHalf(Window(Side(trades, true), at, 60), Recent(events, pool, at, true, 60), at - 30_000_000);
    OutsidersAre(Side(trades, false), AllOf(events, pool, at, false));
  }

  lemma OutsidersAre(sells: seq<Event>, s: set<Event>)
    requires SetOf(sells) == s
    ensures Outsiders(sells) == set e | e in s && e.body.Trade? && e.body.external :: e.body.wallet
  {
    assert forall e :: e in sells <==> e in s;
  }

  lemma BuyWindow(events: seq<Event>, trades: seq<Event>, pool: string, at: int, seconds: int)
    requires Ordered(trades) && SetOf(trades) == Trades(events, pool, at)
    ensures var w, s := Window(Side(trades, true), at, seconds), Recent(events, pool, at, true, seconds);
            Ordered(w) && SetOf(w) == s && |w| == |s| && Wallets(w) == Traders(s)
  {
    hide Ordered, Side, Window, NoRepeats;
    SideWindow(trades, true, at, seconds);
    var w := Window(Side(trades, true), at, seconds);
    forall e ensures e in SetOf(w) <==> e in Recent(events, pool, at, true, seconds) { assert e in trades <==> e in SetOf(trades); }
    assert SetOf(w) == Recent(events, pool, at, true, seconds);
    CountOfList(w);
  }

  lemma EarlierHalf(w: seq<Event>, s: set<Event>, cutoff: int)
    requires Ordered(w) && SetOf(w) == s
    ensures Wallets(UpTo(w, cutoff)) == Traders(set e | e in s && e.time <= cutoff)
  {
    hide Ordered, UpTo;
    UpToOrdered(w, cutoff);
    forall e ensures e in UpTo(w, cutoff) <==> e in (set e | e in s && e.time <= cutoff) { assert e in w <==> e in SetOf(w); }
  }

  // ---------------------------------------------------------------------------
  // Latest, first and reference events.

  lemma EndsOf(s: seq<Event>)
    requires Ordered(s) && s != []
    ensures IsLatest(SetOf(s), s[|s| - 1]) && IsFirst(SetOf(s), s[0])
  {
    hide Less;
    forall e | e in SetOf(s)
      ensures e == s[|s| - 1] || e.time < s[|s| - 1].time || (e.time == s[|s| - 1].time && Less(e.id, s[|s| - 1].id))
      ensures e == s[0] || s[0].time < e.time || (s[0].time == e.time && Less(s[0].id, e.id))
    {
      var i :| 0 <= i < |s| && s[i] == e;
      assert i < |s| - 1 ==> Precedes(s[i], s[|s| - 1]);
      assert 0 < i ==> Precedes(s[0], s[i]);
    }
  }

  lemma ReferenceOf(s: seq<Event>, at: int, seconds: int)
    requires Ordered(s) && s != []
    ensures IsReference(SetOf(s), at, seconds, Earlier(s, at, seconds))
  {
    hide Ordered, UpTo, IsLatest, IsFirst;
    var cutoff := at - seconds * 1_000_000;
    var early := UpTo(s, cutoff);
    UpToOrdered(s, cutoff);
    var old' := set e | e in SetOf(s) && e.time <= cutoff;
    assert SetOf(early) == old';
    if early == [] {
      assert old' == {};
      EndsOf(s);
    } else {
      assert early[0] in old';
      EndsOf(early);
    }
  }

  // ---------------------------------------------------------------------------
  // Liquidity.

  ghost function Pools(events: seq<Event>, pool: string, at: int): set<Event> {
    set e | e in events && e.body.Liquidity? && e.pool == pool && e.time <= at
  }

  lemma VisibleLiquidity(lists: map<Channel, seq<Event>>, seen: set<string>, events: seq<Event>, pool: string, at: int)
    requires Represents(lists, seen, events)
    ensures var s := Visible(lists, LiquidityKind, pool, at);
            Ordered(s) && SetOf(s) == Pools(events, pool, at)
  {
    hide Ordered, Represents, Visible;
    VisibleList(lists, seen, events, LiquidityKind, pool, at);
  }

  /** The liquidity figures come from the latest observation, compared with the ones ten and thirty
      seconds before and with the first, and relate volume and market capitalisation to it. */
  lemma DepthFields(lists: map<Channel, seq<Event>>, seen: set<string>, events: seq<Event>, created: map<string, int>,
                    pool: string, at: int) returns (latest: Event, first: Event, ten: Event, thirty: Event)
    requires Represents(lists, seen, events)
    ensures var d, s := SnapshotAt(lists, created, pool, at).depth, Pools(events, pool, at);
            if s == {} then d == Depth(0.0, 0.0, 0.0, 0.0, 0.0, 0.0, 0.0)
            else
              IsLatest(s, latest) && IsFirst(s, first) && IsReference(s, at, 10, ten) && IsReference(s, at, 30, thirty)
              && latest.body.Liquidity? && first.body.Liquidity? && ten.body.Liquidity? && thirty.body.Liquidity?
              && var quote := latest.body.quote;
                 var volume := n => Volumes(Recent(events, pool, at, true, n)) + Volumes(Recent(events, pool, at, false, n));
                 d.quote == quote && d.change10 == Relative(quote, ten.body.quote)
                 && d.change30 == Relative(quote, thirty.body.quote) && d.changeSinceStart == Relative(quote, first.body.quote)
                 && d.turnover30 == PerUnit(volume(30), quote) && d.turnover60 == PerUnit(volume(60), quote)
                 && d.capToQuote == PerUnit(if latest.body.marketCap.Some? then latest.body.marketCap.value else 0.0, quote)
  {
    hide Represents, Visible, Ordered, FlowOf, Side, Window, Recent, Trades, SpreadOf, PricesOf, HoldingOf, PaceOf, UpTo, Volumes,
      IsLatest, IsFirst, IsReference, Earlier, Less;
    VisibleTrades(lists, seen, events, pool, at);
    VisibleLiquidity(lists, seen, events, pool, at);
    var trades, s := Visible(lists, TradeKind, pool, at), Visible(lists, LiquidityKind, pool, at);
    FlowOfSide(events, trades, pool, at, true, 30);
    FlowOfSide(events, trades, pool, at, true, 60);
    FlowOfSide(events, trades, pool, at, false, 30);
    FlowOfSide(events, trades, pool, at, false, 60);
    if s != [] {
      assert s[0] in SetOf(s);
      latest, first, ten, thirty := s[|s| - 1], s[0], Earlier(s, at, 10), Earlier(s, at, 30);
      EndsOf(s);
      ReferenceOf(s, at, 10);
      ReferenceOf(s, at, 30);
      ReferenceIsThere(SetOf(s), at, 10, ten);
      ReferenceIsThere(SetOf(s), at, 30, thirty);
      assert latest in SetOf(s);
    } else {
      latest, first, ten, thirty := *, *, *, *;
    }
  }

  lemma ReferenceIsThere(s: set<Event>, at: int, seconds: int, from: Event)
    requires IsReference(s, at, seconds, from)
    ensures from in s
  {
  }

  // ---------------------------------------------------------------------------
  // Prices.

  lemma {:induction false} HighestIs(s: seq<Event>)
    requires s != []
    ensures (exists i :: 0 <= i < |s| && PriceOf(s[i]) == Highest(s)) && forall i :: 0 <= i < |s| ==> PriceOf(s[i]) <= Highest(s)
  {
    var front := s[..|s| - 1];
    if front == [] {
      assert PriceOf(s[0]) == Highest(s);
    } else {
      HighestIs(front);
      assert forall i :: 0 <= i < |front| ==> front[i] == s[i];
      if Highest(s) == PriceOf(s[|s| - 1]) {
      } else {
        var i :| 0 <= i < |front| && PriceOf(front[i]) == Highest(front);
        assert PriceOf(s[i]) == Highest(s);
      }
    }
  }

  lemma VwapIs(events: seq<Event>, trades: seq<Event>, pool: string, at: int, seconds: int)
    requires Ordered(trades) && SetOf(trades) == Trades(events, pool, at)
    ensures var s := RecentBoth(events, pool, at, seconds);
            C.Vwap(Deals(Window(trades, at, seconds))) == PerUnit(Turnovers(s), Volumes(s))
  {
    hide Ordered, Window, NoRepeats, Volumes, Turnovers, C.Turnover, Deals;
    BothWindow(events, trades, pool, at, seconds);
    SumsOfList(Window(trades, at, seconds));
  }

  ghost predicate IsHigh(s: set<Event>, high: real) {
    (exists e :: e in s && e.body.Trade? && e.body.price == high) && forall e :: e in s && e.body.Trade? ==> e.body.price <= high
  }

  /** The price figures come from the latest trade, compared with those fifteen, thirty and sixty
      seconds before, with the first, with the highest price and with the weighted one. */
  lemma PriceFields(lists: map<Channel, seq<Event>>, seen: set<string>, events: seq<Event>, created: map<string, int>,
                    pool: string, at: int) returns (latest: Event, first: Event, r15: Event, r30: Event, r60: Event)
    requires Represents(lists, seen, events)
    ensures var p, s := SnapshotAt(lists, created, pool, at).prices, Trades(events, pool, at);
            var vwap := n => PerUnit(Turnovers(RecentBoth(events, pool, at, n)), Volumes(RecentBoth(events, pool, at, n)));
            p.vwap30 == vwap(30) && p.vwap60 == vwap(60)
            && if s == {} then
                 p.current == p.sinceStart == p.return15 == p.return30 == p.return60 == p.high == p.drawdown == 0.0
                 && p.fromVwap == Relative(0.0, p.vwap30)
               else
                 IsLatest(s, latest) && IsFirst(s, first)
                 && IsReference(s, at, 15, r15) && IsReference(s, at, 30, r30) && IsReference(s, at, 60, r60)
                 && latest.body.Trade? && first.body.Trade? && r15.body.Trade? && r30.body.Trade? && r60.body.Trade?
                 && p.current == latest.body.price && p.sinceStart == Relative(p.current, first.body.price)
                 && p.return15 == Relative(p.current, r15.body.price) && p.return30 == Relative(p.current, r30.body.price)
                 && p.return60 == Relative(p.current, r60.body.price) && IsHigh(s, p.high)
                 && p.drawdown == (if p.high > 0.0 then 1.0 - p.current / p.high else 0.0)
                 && p.fromVwap == Relative(p.current, p.vwap30)
  {
    hide Represents, Visible, Ordered, FlowOf, Side, Window, Recent, RecentBoth, SpreadOf, DepthOf, HoldingOf, PaceOf, UpTo, Volumes,
      Turnovers, IsLatest, IsFirst, IsReference, Earlier, Less, Highest, IsHigh, Deals, C.Vwap;
    VisibleTrades(lists, seen, events, pool, at);
    var s := Visible(lists, TradeKind, pool, at);
    VwapIs(events, s, pool, at, 30);
    VwapIs(events, s, pool, at, 60);
    if s != [] {
      assert s[0] in SetOf(s);
      latest, first := s[|s| - 1], s[0];
      r15, r30, r60 := Earlier(s, at, 15), Earlier(s, at, 30), Earlier(s, at, 60);
      EndsOf(s);
      ReferenceOf(s, at, 15);
      ReferenceOf(s, at, 30);
      ReferenceOf(s, at, 60);
      ReferenceIsThere(SetOf(s), at, 15, r15);
      ReferenceIsThere(SetOf(s), at, 30, r30);
      ReferenceIsThere(SetOf(s), at, 60, r60);
      assert latest in SetOf(s);
      HighOfList(s);
    } else {
      latest, first, r15, r30, r60 := *, *, *, *, *;
      NoHigh();
    }
  }

  lemma NoHigh()
    ensures Highest([]) == 0.0
  {
  }

  lemma HighOfList(s: seq<Event>)
    requires s != [] && forall e :: e in SetOf(s) ==> e.body.Trade?
    ensures IsHigh(SetOf(s), Highest(s))
  {
    hide Highest;
    HighestIs(s);
    var i :| 0 <= i < |s| && PriceOf(s[i]) == Highest(s);
    assert s[i] in SetOf(s);
    forall e | e in SetOf(s) ensures e.body.price <= Highest(s) {
      var j :| 0 <= j < |s| && s[j] == e;
      assert PriceOf(s[j]) <= Highest(s);
    }
  }

  // ---------------------------------------------------------------------------
  // Holders.

  ghost function Counts(events: seq<Event>, pool: string, at: int): set<Event> {
    set e | e in events && e.body.Holders? && e.pool == pool && e.time <= at
  }

  lemma VisibleHolders(lists: map<Channel, seq<Event>>, seen: set<string>, events: seq<Event>, pool: string, at: int)
    requires Represents(lists, seen, events)
    ensures var s := Visible(lists, HolderKind, pool, at);
            Ordered(s) && SetOf(s) == Counts(events, pool, at)
  {
    hide Ordered, Represents, Visible;
    VisibleList(lists, seen, events, HolderKind, pool, at);
  }

  /** The holder figures come from the latest count, compared with those thirty and sixty seconds
      before. */
  lemma HolderFields(lists: map<Channel, seq<Event>>, seen: set<string>, events: seq<Event>, created: map<string, int>,
                     pool: string, at: int) returns (latest: Event, thirty: Event, sixty: Event)
    requires Represents(lists, seen, events)
    ensures var h, s := SnapshotAt(lists, created, pool, at).holding, Counts(events, pool, at);
            if s == {} then h == Holding(0, 0, 0, 0.0, 0.0, 0.0)
            else
              IsLatest(s, latest) && IsReference(s, at, 30, thirty) && IsReference(s, at, 60, sixty)
              && latest.body.Holders? && thirty.body.Holders? && sixty.body.Holders?
              && h == Holding(latest.body.count, latest.body.count - thirty.body.count, latest.body.count - sixty.body.count,
                              latest.body.topTen, latest.body.devShare, latest.body.clusterShare)
  {
    hide Represents, Visible, Ordered, FlowOf, Side, Window, SpreadOf, DepthOf, PricesOf, PaceOf, UpTo, IsLatest, IsReference, Earlier,
      Less, IsFirst;
    VisibleHolders(lists, seen, events, pool, at);
    var s := Visible(lists, HolderKind, pool, at);
    if s != [] {
      assert s[0] in SetOf(s);
      latest, thirty, sixty := s[|s| - 1], Earlier(s, at, 30), Earlier(s, at, 60);
      EndsOf(s);
      ReferenceOf(s, at, 30);
      ReferenceOf(s, at, 60);
      ReferenceIsThere(SetOf(s), at, 30, thirty);
      ReferenceIsThere(SetOf(s), at, 60, sixty);
      assert latest in SetOf(s);
    } else {
      latest, thirty, sixty := *, *, *;
    }
  }
}
