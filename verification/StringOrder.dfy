/** The ordering of strings used by `sorted`, `min` and `max` on wallet addresses,
    event ids and table names: lexicographic by code point. */
module StringOrder {

  /** `a` and `b` agree before position `k`, where `a` ends or has the smaller character. */
  predicate FirstSmallerAt(a: string, b: string, k: nat) {
    k <= |a| && k < |b| && a[..k] == b[..k] && (k == |a| || a[k] < b[k])
  }

  predicate Less(a: string, b: string) {
    exists k: nat :: k < |b| && FirstSmallerAt(a, b, k)
  }

  predicate AtMost(a: string, b: string) {
    a == b || Less(a, b)
  }

  predicate StrictlySorted(s: seq<string>) {
    forall i, j :: 0 <= i < j < |s| ==> Less(s[i], s[j])
  }

  lemma Irreflexive(a: string)
    ensures !Less(a, a)
  {
  }

  lemma Transitive(a: string, b: string, c: string)
    requires Less(a, b) && Less(b, c)
    ensures Less(a, c)
  {
    var i: nat :| i < |b| && FirstSmallerAt(a, b, i);
    var j: nat :| j < |c| && FirstSmallerAt(b, c, j);
    var k := if i < j then i else j;
    assert a[..k] == a[..i][..k] == b[..i][..k] == b[..k] == b[..j][..k] == c[..k];
    assert i < j ==> b[i] == b[..j][i] == c[..j][i] == c[i];
    assert j < i ==> a[j] == a[..i][j] == b[..i][j] == b[j];
    assert FirstSmallerAt(a, c, k);
  }

  lemma Comparable(a: string, b: string)
    ensures Less(a, b) || a == b || Less(b, a)
  {
    var k := 0;
    while k < |a| && k < |b| && a[k] == b[k]
      invariant k <= |a| && k <= |b| && a[..k] == b[..k]
    {
      k := k + 1;
    }
    if k < |b| && (k == |a| || a[k] < b[k]) {
      assert FirstSmallerAt(a, b, k);
    } else if k < |a| {
      assert FirstSmallerAt(b, a, k);
    } else {
      assert a == a[..k] == b[..k] == b;
    }
  }

  lemma Asymmetric(a: string, b: string)
    requires Less(a, b)
    ensures !Less(b, a) && a != b
  {
    Irreflexive(a);
    if Less(b, a) {
      Transitive(a, b, a);
    }
  }

  predicate IsLeast(m: string, s: set<string>) {
    m in s && forall x :: x in s ==> AtMost(m, x)
  }

  /** Every nonempty finite set of strings has a least member. */
  lemma {:induction false} LeastExists(s: set<string>)
    requires s != {}
    ensures exists m :: m in s && IsLeast(m, s)
  {
    var w :| w in s;
    if s != {w} {
      var rest := s - {w};
      assert s == rest + {w};
      LeastExists(rest);
      var m :| m in rest && IsLeast(m, rest);
      Comparable(m, w);
      var least := if Less(m, w) then m else w;
      forall x | x in s ensures AtMost(least, x) {
        if x != w && least == w {
          assert AtMost(m, x);
          if m != x && Less(w, m) { Transitive(w, m, x); }
        }
      }
      assert IsLeast(least, s);
    } else {
      assert IsLeast(w, s);
    }
  }

  function Least(s: set<string>): (m: string)
    requires s != {}
    ensures IsLeast(m, s)
  {
    LeastExists(s);
    LeastUnique(s);
    var m :| m in s && IsLeast(m, s);
    m
  }

  lemma LeastUnique(s: set<string>)
    ensures forall m, n :: IsLeast(m, s) && IsLeast(n, s) ==> m == n
  {
    forall m, n | IsLeast(m, s) && IsLeast(n, s)
      ensures m == n
    {
      if m != n {
        Asymmetric(m, n);
      }
    }
  }

  /** `sorted(s)` for a set: its members in increasing order. */
  function Sorted(s: set<string>): (r: seq<string>)
    ensures StrictlySorted(r)
    ensures forall x :: x in r <==> x in s
    decreases |s|
  {
    if s == {} then [] else
      var m := Least(s);
      var rest := Sorted(s - {m});
      assert forall j :: 0 <= j < |rest| ==> rest[j] in rest;
      [m] + rest
  }

  /** A strictly sorted sequence is determined by its members. */
  lemma {:induction false} SortedIsUnique(s: seq<string>, t: seq<string>)
    requires StrictlySorted(s) && StrictlySorted(t)
    requires forall x :: x in s <==> x in t
    ensures s == t
  {
    if s == [] {
      assert forall i :: 0 <= i < |t| ==> t[i] in t;
    } else {
      assert s[0] in t;
      assert t[0] in s;
      if s[0] != t[0] {
        var i :| 0 <= i < |t| && t[i] == s[0];
        var j :| 0 <= j < |s| && s[j] == t[0];
        Asymmetric(s[0], t[0]);
        assert false;
      }
      var s', t' := s[1..], t[1..];
      forall x ensures x in s' <==> x in t' {
        Irreflexive(s[0]);
        if x in s' {
          assert x in s;
          assert Less(s[0], x);
          assert x in t;
        }
        if x in t' {
          assert x in t;
          assert Less(t[0], x);
          assert x in s;
        }
      }
      SortedIsUnique(s', t');
      assert s == [s[0]] + s' == t;
    }
  }
}
