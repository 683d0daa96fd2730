/** Event-time feature lists: ordered ingestion that does not depend on arrival order, and the
    view of the lists at a moment. */
module Features {
  import opened Options
  import opened StringOrder

  datatype Kind = TradeKind | LiquidityKind | HolderKind

  datatype Body =
    | Trade(isBuy: bool, wallet: string, volume: real, price: real, external: bool, sameFunder: bool)
    | Liquidity(quote: real, marketCap: Option<real>)
    | Holders(count: int, topTen: real, devShare: real, clusterShare: real)

  /** Times are in microseconds. */
  datatype Event = Event(id: string, pool: string, time: int, body: Body)

  const SECOND := 1_000_000

  /** The list an event belongs to. */
  datatype Channel = Channel(kind: Kind, pool: string)

  function ChannelOf(e: Event): Channel {
    Channel(match e.body case Trade(_, _, _, _, _, _) => TradeKind case Liquidity(_, _) => LiquidityKind
            case Holders(_, _, _, _) => HolderKind, e.pool)
  }

  // ---------------------------------------------------------------------------
  // Ordered insertion.

  /** The order of (time, id) keys. */
  predicate Precedes(a: Event, b: Event) {
    a.time < b.time || (a.time == b.time && Less(a.id, b.id))
  }

  predicate AtOrBefore(a: Event, b: Event) {
    Precedes(a, b) || (a.time == b.time && a.id == b.id)
  }

  predicate Ordered(s: seq<Event>) {
    forall i, j :: 0 <= i < j < |s| ==> Precedes(s[i], s[j])
  }

  /** Where `e` goes: after every event at or before it, before every later one. */
  ghost predicate IsSlot(s: seq<Event>, e: Event, k: nat) {
    k <= |s|
    && (forall i :: 0 <= i < k ==> AtOrBefore(s[i], e))
    && (forall i :: k <= i < |s| ==> Precedes(e, s[i]))
  }

  lemma PrecedesTransitive(a: Event, b: Event, c: Event)
    requires AtOrBefore(a, b) && Precedes(b, c)
    ensures Precedes(a, c)
  {
    if a.time == b.time == c.time && a.id != b.id {
      StringOrder.Transitive(a.id, b.id, c.id);
    }
  }

  lemma PrecedesTotal(a: Event, b: Event)
    ensures AtOrBefore(a, b) || Precedes(b, a)
    ensures !(AtOrBefore(a, b) && Precedes(b, a))
  {
    Comparable(a.id, b.id);
    Irreflexive(a.id);
    if Less(a.id, b.id) { Asymmetric(a.id, b.id); }
  }

  /** `_insert_ordered`: append when the event is last, otherwise binary search. */
  method InsertionPoint(s: seq<Event>, e: Event) returns (k: nat)
    requires Ordered(s)
    ensures IsSlot(s, e, k)
  {
    hide Precedes, AtOrBefore;
    if s != [] { PrecedesTotal(s[|s| - 1], e); }
    if s == [] || !Precedes(e, s[|s| - 1]) {
      forall i | 0 <= i < |s| ensures AtOrBefore(s[i], e) { UpToLast(s, e, |s| - 1, i); }
      return |s|;
    }
    var lo, hi := 0, |s|;
    while lo < hi
      invariant 0 <= lo <= hi <= |s|
      invariant forall i :: 0 <= i < lo ==> AtOrBefore(s[i], e)
      invariant forall i :: hi <= i < |s| ==> Precedes(e, s[i])
    {
      var mid := (lo + hi) / 2;
      PrecedesTotal(s[mid], e);
      if Precedes(e, s[mid]) {
        forall i | mid <= i < |s| ensures Precedes(e, s[i]) { FromFirst(s, e, mid, i); }
        hi := mid;
      } else {
        forall i | 0 <= i <= mid ensures AtOrBefore(s[i], e) { UpToLast(s, e, mid, i); }
        lo := mid + 1;
      }
    }
    k := lo;
  }

  lemma UpToLast(s: seq<Event>, e: Event, last: nat, i: nat)
    requires Ordered(s) && i <= last < |s| && AtOrBefore(s[last], e)
    ensures AtOrBefore(s[i], e)
  {
    if i < last {
      if s[last].time == e.time && s[last].id == e.id {
        assert Precedes(s[i], s[last]);
      } else {
        assert AtOrBefore(s[i], s[last]);
        PrecedesTransitive(s[i], s[last], e);
      }
    }
  }

  lemma FromFirst(s: seq<Event>, e: Event, first: nat, i: nat)
    requires Ordered(s) && first <= i < |s| && Precedes(e, s[first])
    ensures Precedes(e, s[i])
  {
    if first < i {
      assert AtOrBefore(e, s[first]);
      PrecedesTransitive(e, s[first], s[i]);
    }
  }

  function Insert(s: seq<Event>, e: Event, k: nat): seq<Event>
    requires k <= |s|
  {
    s[..k] + [e] + s[k..]
  }

  /** An event with a new id keeps the list strictly ordered. */
  lemma InsertKeepsOrder(s: seq<Event>, e: Event, k: nat)
    requires Ordered(s) && IsSlot(s, e, k) && forall x :: x in s ==> x.id != e.id
    ensures Ordered(Insert(s, e, k))
    ensures forall x :: x in Insert(s, e, k) <==> x == e || x in s
  {
    hide Precedes;
    var t := Insert(s, e, k);
    forall x ensures x in t <==> x == e || x in s {
      assert s == s[..k] + s[k..];
    }
    forall i | 0 <= i < k ensures Precedes(s[i], e) {
      assert s[i] in s;
      NotSameId(s[i], e);
    }
    forall i, j | 0 <= i < j < |t| ensures Precedes(t[i], t[j]) {
      if i < k && j == k {
        assert t[i] == s[i] && t[j] == e;
      } else if i == k {
        assert t[i] == e && t[j] == s[j - 1];
      } else {
        var i', j' := if i < k then i else i - 1, if j < k then j else j - 1;
        assert t[i] == s[i'] && t[j] == s[j'];
      }
    }
  }

  lemma NotSameId(a: Event, b: Event)
    requires AtOrBefore(a, b) && a.id != b.id
    ensures Precedes(a, b)
  {
  }

  /** A strictly ordered list is determined by its events. */
  lemma {:induction false} OrderedIsUnique(s: seq<Event>, t: seq<Event>)
    requires Ordered(s) && Ordered(t) && forall e :: e in s <==> e in t
    ensures s == t
  {
    hide Precedes;
    if s == [] {
      assert forall i :: 0 <= i < |t| ==> t[i] in t;
    } else {
      assert s[0] in t && t[0] in s;
      var i :| 0 <= i < |t| && t[i] == s[0];
      var j :| 0 <= j < |s| && s[j] == t[0];
      NotBothWays(t[0], s[0]);
      assert s[0] == t[0];
      NotItself(s[0]);
      TailLacksHead(s);
      TailLacksHead(t);
      OrderedIsUnique(s[1..], t[1..]);
      assert s == [s[0]] + s[1..] && t == [t[0]] + t[1..];
    }
  }

  lemma TailLacksHead(s: seq<Event>)
    requires s != [] && Ordered(s)
    ensures forall e :: e in s[1..] <==> e in s && e != s[0]
  {
    hide Precedes;
    NotItself(s[0]);
    assert s == [s[0]] + s[1..];
  }

  lemma NotItself(a: Event)
    ensures !Precedes(a, a)
  {
    Irreflexive(a.id);
  }

  lemma NotBothWays(a: Event, b: Event)
    ensures !(Precedes(a, b) && Precedes(b, a))
  {
    Irreflexive(a.id);
    if Less(a.id, b.id) { Asymmetric(a.id, b.id); }
  }

  // ---------------------------------------------------------------------------
  // The engine.

  datatype Registration = Registration(pool: string, at: int)

  class FeatureEngine {
    var lists: map<Channel, seq<Event>>
    var seen: set<string>
    var created: map<string, int>
    /** The accepted events, in arrival order. */
    ghost var accepted: seq<Event>
    /** The calls that have named a pool's creation time. */
    ghost var registered: seq<Registration>

    ghost predicate Valid()
      reads this
    {
      Represents(lists, seen, accepted) && Dates(created, registered)
    }

    constructor ()
      ensures Valid() && accepted == [] && registered == [] && created == map[]
    {
      lists, seen, created, accepted, registered := map[], {}, map[], [], [];
    }

    /** `register_pool` keeps the earliest creation time. */
    method RegisterPool(pool: string, at: int)
      requires Valid()
      modifies this`created, this`registered
      ensures Valid() && registered == old(registered) + [Registration(pool, at)]
      ensures created == old(created)[pool := if pool in old(created) && old(created)[pool] <= at
                                              then old(created)[pool] else at]
    {
      RegisterKeeps(created, registered, pool, at);
      registered := registered + [Registration(pool, at)];
      if pool !in created || at < created[pool] {
        created := created[pool := at];
      } else {
        assert created == created[pool := created[pool]];
      }
    }

    /** `ingest_trade`, `ingest_liquidity` and `ingest_holders`. */
    method Ingest(e: Event) returns (fresh': bool)
      requires Valid()
      modifies this`lists, this`seen, this`accepted
      ensures Valid() && fresh' == (e.id !in old(seen))
      ensures accepted == if fresh' then old(accepted) + [e] else old(accepted)
      ensures !fresh' ==> lists == old(lists) && seen == old(seen)
    {
      if e.id in seen { return false; }
      seen := seen + {e.id};
      var ch := ChannelOf(e);
      var current := if ch in lists then lists[ch] else [];
      var k := InsertionPoint(current, e);
      IngestKeeps(lists, old(seen), accepted, e, k);
      lists := lists[ch := Insert(current, e, k)];
      accepted := accepted + [e];
      fresh' := true;
    }
  }

  /** The lists hold exactly the accepted events, each in its own list, strictly ordered. */
  ghost predicate Represents(lists: map<Channel, seq<Event>>, seen: set<string>, events: seq<Event>) {
    (forall i, j :: 0 <= i < j < |events| ==> events[i].id != events[j].id)
    && (forall id :: id in seen <==> SeenIn(events, id))
    && (forall ch :: ch in lists <==> UsedBy(events, ch))
    && (forall ch {:trigger lists[ch]} :: ch in lists ==> Holds(lists[ch], events, ch))
  }

  ghost predicate SeenIn(events: seq<Event>, id: string) {
    exists e :: e in events && e.id == id
  }

  ghost predicate UsedBy(events: seq<Event>, ch: Channel) {
    exists e :: e in events && ChannelOf(e) == ch
  }

  ghost predicate Holds(list: seq<Event>, events: seq<Event>, ch: Channel) {
    Ordered(list) && forall e :: e in list <==> e in events && ChannelOf(e) == ch
  }

  lemma IngestKeeps(lists: map<Channel, seq<Event>>, seen: set<string>, events: seq<Event>, e: Event, k: nat)
    requires Represents(lists, seen, events) && e.id !in seen
    requires var ch := ChannelOf(e); IsSlot(if ch in lists then lists[ch] else [], e, k)
    ensures var ch := ChannelOf(e);
            Represents(lists[ch := Insert(if ch in lists then lists[ch] else [], e, k)], seen + {e.id}, events + [e])
  {
    hide Precedes, AtOrBefore, Ordered, ChannelOf, SeenIn, UsedBy;
    var ch := ChannelOf(e);
    var current := if ch in lists then lists[ch] else [];
    assert Holds(current, events, ch) by {
      if ch !in lists { UnusedChannel(events, ch); }
      NoneOrdered();
    }
    forall x | x in current ensures x.id != e.id {
      IsSeen(events, x);
    }
    InsertKeepsOrder(current, e, k);
    var all := events + [e];
    var lists' := lists[ch := Insert(current, e, k)];
    EventsGrow(events, e);
    forall c | c in lists' ensures Holds(lists'[c], all, c) {
      if c != ch { assert Holds(lists[c], events, c); }
    }
    forall i, j | 0 <= i < j < |all| ensures all[i].id != all[j].id {
      if j == |events| { IsSeen(events, events[i]); }
    }
  }

  lemma EventsGrow(events: seq<Event>, e: Event)
    ensures forall x :: x in events + [e] <==> x in events || x == e
    ensures forall c :: UsedBy(events + [e], c) <==> UsedBy(events, c) || c == ChannelOf(e)
    ensures forall id :: SeenIn(events + [e], id) <==> SeenIn(events, id) || id == e.id
  {
    hide ChannelOf;
    var ch := ChannelOf(e);
    var all := events + [e];
    assert forall x :: x in all <==> x in events || x == e;
    forall c ensures UsedBy(all, c) <==> UsedBy(events, c) || c == ch {
      if c == ch { assert e in all; }
      if UsedBy(events, c) { var x :| x in events && ChannelOf(x) == c; assert x in all; }
    }
    forall id ensures SeenIn(all, id) <==> SeenIn(events, id) || id == e.id {
      if id == e.id { assert e in all; }
      if SeenIn(events, id) { var x :| x in events && x.id == id; assert x in all; }
    }
  }

  lemma UnusedChannel(events: seq<Event>, ch: Channel)
    requires !UsedBy(events, ch)
    ensures forall x :: x in events ==> ChannelOf(x) != ch
  {
  }

  lemma IsSeen(events: seq<Event>, x: Event)
    requires x in events
    ensures SeenIn(events, x.id)
  {
  }

  lemma NoneOrdered()
    ensures Ordered([])
  {
  }

  ghost predicate Earliest(rs: seq<Registration>, pool: string, at: int) {
    Registration(pool, at) in rs && forall r :: r in rs && r.pool == pool ==> at <= r.at
  }

  /** Every registered pool has the earliest time it was registered with. */
  ghost predicate Dates(created: map<string, int>, rs: seq<Registration>) {
    (forall r :: r in rs ==> r.pool in created)
    && forall pool {:trigger created[pool]} :: pool in created ==> Earliest(rs, pool, created[pool])
  }

  lemma RegisterKeeps(created: map<string, int>, rs: seq<Registration>, pool: string, at: int)
    requires Dates(created, rs)
    ensures Dates(created[pool := if pool in created && created[pool] <= at then created[pool] else at],
                  rs + [Registration(pool, at)])
  {
    var all := rs + [Registration(pool, at)];
    var created' := created[pool := if pool in created && created[pool] <= at then created[pool] else at];
    assert forall r :: r in all <==> r in rs || r == Registration(pool, at);
    forall p | p in created' ensures Earliest(all, p, created'[p]) {
      if p in created { assert Earliest(rs, p, created[p]); }
    }
  }

  /** Any two orders of the same registrations leave the same creation times. */
  lemma RegistrationOrderIsIrrelevant(created: map<string, int>, rs: seq<Registration>,
                                      created': map<string, int>, rs': seq<Registration>)
    requires Dates(created, rs) && Dates(created', rs') && forall r :: r in rs <==> r in rs'
    ensures created == created'
  {
    forall pool ensures (pool in created <==> pool in created') && (pool in created ==> created[pool] == created'[pool]) {
      if pool in created {
        assert Earliest(rs, pool, created[pool]);
        assert Registration(pool, created[pool]) in rs';
      }
      if pool in created' {
        assert Earliest(rs', pool, created'[pool]);
        assert Registration(pool, created'[pool]) in rs;
      }
    }
  }

  /** Any two arrival orders of the same events leave the same lists and the same set of
      seen identifiers. */
  lemma ArrivalOrderIsIrrelevant(lists: map<Channel, seq<Event>>, seen: set<string>, events: seq<Event>,
                                 lists': map<Channel, seq<Event>>, seen': set<string>, events': seq<Event>)
    requires Represents(lists, seen, events) && Represents(lists', seen', events')
    requires forall e :: e in events <==> e in events'
    ensures lists == lists' && seen == seen'
  {
    hide Ordered, ChannelOf;
    assert forall ch :: UsedBy(events, ch) <==> UsedBy(events', ch);
    assert forall id :: SeenIn(events, id) <==> SeenIn(events', id);
    assert lists.Keys == lists'.Keys;
    forall ch | ch in lists ensures lists[ch] == lists'[ch] {
      assert Holds(lists[ch], events, ch) && Holds(lists'[ch], events', ch);
      OrderedIsUnique(lists[ch], lists'[ch]);
    }
  }

  // ---------------------------------------------------------------------------
  // No look-ahead.

  /** The events of a list visible at time `at`. */
  function UpTo(s: seq<Event>, at: int): seq<Event> {
    if s == [] then []
    else UpTo(s[..|s| - 1], at) + if s[|s| - 1].time <= at then [s[|s| - 1]] else []
  }

  function Visible(lists: map<Channel, seq<Event>>, kind: Kind, pool: string, at: int): seq<Event> {
    var ch := Channel(kind, pool);
    UpTo(if ch in lists then lists[ch] else [], at)
  }

  lemma {:induction false} UpToConcat(s: seq<Event>, t: seq<Event>, at: int)
    ensures UpTo(s + t, at) == UpTo(s, at) + UpTo(t, at)
  {
    if t == [] {
      assert s + t == s;
    } else {
      var front := t[..|t| - 1];
      UpToConcat(s, front, at);
      assert (s + t)[..|s + t| - 1] == s + front;
    }
  }

  /** Inserting a later event leaves every earlier view unchanged. */
  lemma LateInsertIsInvisible(s: seq<Event>, e: Event, k: nat, at: int)
    requires k <= |s| && e.time > at
    ensures UpTo(Insert(s, e, k), at) == UpTo(s, at)
  {
    UpToConcat(s[..k], [e], at);
    UpToConcat(s[..k] + [e], s[k..], at);
    UpToConcat(s[..k], s[k..], at);
    assert s[..k] + s[k..] == s;
    assert [e][..0] == [];
    assert UpTo([e], at) == [];
  }

  // ---------------------------------------------------------------------------
  // First buys.

  function Wallets(s: seq<Event>): set<string> {
    set e | e in s && e.body.Trade? :: e.body.wallet
  }

  function NewBuyers(buys: seq<Event>, at: int, seconds: int): set<string> {
    Wallets(buys) - Wallets(UpTo(buys, at - seconds * SECOND))
  }

  /** The loop that dates each wallet's first buy, and the count of those inside the window. */
  method CountNewBuyers(buys: seq<Event>, at: int, seconds: int) returns (n: nat)
    requires Ordered(buys) && forall i :: 0 <= i < |buys| ==> buys[i].body.Trade? && buys[i].time <= at
    ensures n == |NewBuyers(buys, at, seconds)|
  {
    hide Ordered;
    var cutoff := at - seconds * SECOND;
    var first: map<string, int> := map[];
    for i := 0 to |buys|
      invariant forall w :: w in first <==> exists j :: 0 <= j < i && buys[j].body.wallet == w
      invariant forall w :: w in first ==> exists j :: 0 <= j < i && buys[j].body.wallet == w && buys[j].time == first[w]
      invariant forall j :: 0 <= j < i ==> first[buys[j].body.wallet] <= buys[j].time
    {
      var w := buys[i].body.wallet;
      if w !in first {
        first := first[w := buys[i].time];
      } else {
        var j :| 0 <= j < i && buys[j].body.wallet == w && buys[j].time == first[w];
        InTimeOrder(buys, j, i);
      }
      assert buys[i].body.wallet == w;
    }
    var fresh' := set w | w in first && cutoff < first[w] <= at;
    NewBuyersFromFirst(buys, at, seconds, first, fresh');
    n := |fresh'|;
  }

  lemma InTimeOrder(s: seq<Event>, i: nat, j: nat)
    requires Ordered(s) && i < j < |s|
    ensures s[i].time <= s[j].time
  {
  }

  lemma {:induction false} UpToMembers(s: seq<Event>, at: int, e: Event)
    ensures e in UpTo(s, at) <==> e in s && e.time <= at
  {
    if s != [] {
      UpToMembers(s[..|s| - 1], at, e);
      assert s == s[..|s| - 1] + [s[|s| - 1]];
    }
  }

  lemma NewBuyersFromFirst(buys: seq<Event>, at: int, seconds: int, first: map<string, int>, fresh': set<string>)
    requires forall i :: 0 <= i < |buys| ==> buys[i].body.Trade? && buys[i].time <= at
    requires forall w :: w in first <==> exists j :: 0 <= j < |buys| && buys[j].body.wallet == w
    requires forall w :: w in first ==>
               exists j :: 0 <= j < |buys| && buys[j].body.wallet == w && buys[j].time == first[w]
    requires forall j :: 0 <= j < |buys| ==> first[buys[j].body.wallet] <= buys[j].time
    requires fresh' == set w | w in first && at - seconds * SECOND < first[w] <= at
    ensures fresh' == NewBuyers(buys, at, seconds)
  {
    hide UpTo;
    var cutoff := at - seconds * SECOND;
    forall w ensures w in fresh' <==> w in NewBuyers(buys, at, seconds) {
      if w in first {
        var j :| 0 <= j < |buys| && buys[j].body.wallet == w && buys[j].time == first[w];
        assert buys[j] in buys;
        UpToMembers(buys, cutoff, buys[j]);
        if w in Wallets(UpTo(buys, cutoff)) {
          var e :| e in UpTo(buys, cutoff) && e.body.Trade? && e.body.wallet == w;
          UpToMembers(buys, cutoff, e);
          var i :| 0 <= i < |buys| && buys[i] == e;
        }
      }
    }
  }
}
