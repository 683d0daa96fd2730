/** Totals of exact amounts over dictionaries and lists. */
module Sums {

  ghost function SumOver<K>(keys: set<K>, m: map<K, real>): real
    requires keys <= m.Keys
  {
    if keys == {} then 0.0
    else
      var k :| k in keys;
      m[k] + SumOver(keys - {k}, m)
  }

  /** `sum(m.values())`. */
  ghost function Total<K>(m: map<K, real>): real {
    SumOver(m.Keys, m)
  }

  lemma {:induction false} SumRemove<K>(keys: set<K>, m: map<K, real>, k: K)
    requires keys <= m.Keys && k in keys
    ensures SumOver(keys, m) == m[k] + SumOver(keys - {k}, m)
    decreases |keys|
  {
    var j :| j in keys && SumOver(keys, m) == m[j] + SumOver(keys - {j}, m);
    if j != k {
      SumRemove(keys - {j}, m, k);
      SumRemove(keys - {k}, m, j);
      assert keys - {j} - {k} == keys - {k} - {j};
    }
  }

  lemma {:induction false} SumSame<K>(keys: set<K>, m: map<K, real>, n: map<K, real>)
    requires keys <= m.Keys && keys <= n.Keys && forall k :: k in keys ==> m[k] == n[k]
    ensures SumOver(keys, m) == SumOver(keys, n)
    decreases |keys|
  {
    if keys != {} {
      var k :| k in keys;
      SumRemove(keys, m, k);
      SumRemove(keys, n, k);
      SumSame(keys - {k}, m, n);
    }
  }

  /** Writing one entry changes the total by that entry's change. */
  lemma TotalUpdate<K>(m: map<K, real>, k: K, v: real)
    ensures Total(m[k := v]) == Total(m) - (if k in m then m[k] else 0.0) + v
  {
    var n := m[k := v];
    SumRemove(n.Keys, n, k);
    SumSame(n.Keys - {k}, m, n);
    if k in m {
      SumRemove(m.Keys, m, k);
      assert n.Keys - {k} == m.Keys - {k};
    } else {
      assert n.Keys - {k} == m.Keys;
    }
  }

  lemma {:induction false} SumOfSums<K>(keys: set<K>, m: map<K, real>, a: map<K, real>, b: map<K, real>)
    requires keys <= m.Keys && keys <= a.Keys && keys <= b.Keys && forall k :: k in keys ==> m[k] == a[k] + b[k]
    ensures SumOver(keys, m) == SumOver(keys, a) + SumOver(keys, b)
    decreases |keys|
  {
    if keys != {} {
      var k :| k in keys;
      SumRemove(keys, m, k);
      SumRemove(keys, a, k);
      SumRemove(keys, b, k);
      SumOfSums(keys - {k}, m, a, b);
    }
  }

  /** Disjoint keys add up. */
  lemma {:induction false} SumOfUnion<K>(a: set<K>, b: set<K>, m: map<K, real>)
    requires a + b <= m.Keys && a !! b
    ensures SumOver(a + b, m) == SumOver(a, m) + SumOver(b, m)
    decreases |b|
  {
    if b == {} {
      assert a + b == a;
    } else {
      var k :| k in b;
      SumRemove(a + b, m, k);
      SumRemove(b, m, k);
      assert (a + b) - {k} == a + (b - {k});
      SumOfUnion(a, b - {k}, m);
    }
  }

  lemma {:induction false} SumOfZeros<K>(keys: set<K>, m: map<K, real>)
    requires keys <= m.Keys && forall k :: k in keys ==> m[k] == 0.0
    ensures SumOver(keys, m) == 0.0
    decreases |keys|
  {
    if keys != {} {
      var k :| k in keys;
      SumRemove(keys, m, k);
      SumOfZeros(keys - {k}, m);
    }
  }

  /** `sum(list)`. */
  function Sum(s: seq<real>): real {
    if s == [] then 0.0 else Sum(s[..|s| - 1]) + s[|s| - 1]
  }

  lemma ProductNotNegative(a: real, b: real)
    requires a >= 0.0 && b >= 0.0
    ensures a * b >= 0.0
  {
  }

  lemma FractionIsProper(t: real, r: real)
    requires 0.0 < t < r
    ensures 0.0 < t / r < 1.0
  {
    var q := t / r;
    assert (q - 1.0) * r == t - r;
    if q >= 1.0 { ProductNotNegative(q - 1.0, r); }
  }

  lemma WholeShare(r: real)
    requires r > 0.0
    ensures r / r == 1.0
  {
  }

  /** A share of `c` computed per unit equals the share computed by fraction. */
  lemma ProportionalShare(c: real, r: real, t: real)
    requires r != 0.0
    ensures c / r * t == c * (t / r)
  {
    var x, y := c / r, t / r;
    assert x * r == c && y * r == t;
    assert x * t == x * (y * r) == (x * r) * y == c * y;
  }

  lemma SubsetIsSmaller<T>(a: set<T>, b: set<T>)
    requires a <= b
    ensures |a| <= |b|
  {
    var rest := b - a;
    assert b == a + rest;
  }
}
