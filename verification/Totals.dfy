/** Sums of a weight over the values of a finite map. */
module Totals {

  /** The sum of `w` over all values of `m`, whichever order they are taken in. */
  ghost function Total<K(!new), V>(m: map<K, V>, w: V -> int): int
    decreases |m|
  {
    if m == map[] then 0 else
    var k :| k in m;
    w(m[k]) + Total(m - {k}, w)
  }

  lemma {:induction false} TotalRemove<K(!new), V>(m: map<K, V>, k: K, w: V -> int)
    requires k in m
    ensures Total(m, w) == w(m[k]) + Total(m - {k}, w)
    decreases |m|
  {
    var first :| first in m && Total(m, w) == w(m[first]) + Total(m - {first}, w);
    if first != k {
      TotalRemove(m - {first}, k, w);
      TotalRemove(m - {k}, first, w);
      assert m - {first} - {k} == m - {k} - {first};
    }
  }

  lemma TotalUpdate<K(!new), V>(m: map<K, V>, k: K, v: V, w: V -> int)
    ensures Total(m[k := v], w) == Total(m, w) + w(v) - if k in m then w(m[k]) else 0
  {
    TotalRemove(m[k := v], k, w);
    assert m[k := v] - {k} == m - {k};
    if k in m {
      TotalRemove(m, k, w);
    } else {
      assert m - {k} == m;
    }
  }

  lemma TotalOfTwo<K(!new), V>(k: K, v: V, l: K, u: V, w: V -> int)
    requires k != l
    ensures Total(map[k := v, l := u], w) == w(v) + w(u)
  {
    var m := map[k := v, l := u];
    TotalRemove(m, k, w);
    TotalRemove(m - {k}, l, w);
    assert m - {k} - {l} == map[];
  }

  /** A map weighs as much as a larger one that weighs the same on its keys and nothing elsewhere. */
  lemma {:induction false} TotalSubset<K(!new), V, U>(m: map<K, V>, w: V -> int, n: map<K, U>, u: U -> int)
    requires m.Keys <= n.Keys
    requires forall k :: k in n ==> u(n[k]) == if k in m then w(m[k]) else 0
    ensures Total(m, w) == Total(n, u)
    decreases |n|
  {
    if n == map[] {
      assert m == map[];
    } else {
      var k :| k in n;
      TotalRemove(n, k, u);
      if k in m { TotalRemove(m, k, w); } else { assert m - {k} == m; }
      TotalSubset(m - {k}, w, n - {k}, u);
    }
  }

  /** Part of a map of non-negative weights weighs no more than the whole. */
  lemma {:induction false} TotalPart<K(!new), V>(m: map<K, V>, n: map<K, V>, w: V -> int)
    requires m.Keys <= n.Keys && forall k :: k in n ==> w(n[k]) >= 0 && (k in m ==> m[k] == n[k])
    ensures Total(m, w) <= Total(n, w)
    decreases |n|
  {
    if n == map[] {
      assert m == map[];
    } else {
      var k :| k in n;
      TotalRemove(n, k, w);
      if k in m { TotalRemove(m, k, w); } else { assert m - {k} == m; }
      TotalPart(m - {k}, n - {k}, w);
    }
  }

  lemma {:induction false} TotalNonNegative<K(!new), V>(m: map<K, V>, w: V -> int)
    requires forall k :: k in m ==> w(m[k]) >= 0
    ensures Total(m, w) >= 0
    ensures forall k :: k in m ==> w(m[k]) <= Total(m, w)
    decreases |m|
  {
    forall k | k in m ensures 0 <= w(m[k]) <= Total(m, w) {
      TotalRemove(m, k, w);
      TotalNonNegative(m - {k}, w);
    }
  }

  /** Weights that add up pointwise add up in total. */
  lemma {:induction false} TotalPlus<K(!new), V>(m: map<K, V>, w: V -> int, u: V -> int, both: V -> int)
    requires forall k :: k in m ==> both(m[k]) == w(m[k]) + u(m[k])
    ensures Total(m, both) == Total(m, w) + Total(m, u)
    decreases |m|
  {
    if m != map[] {
      var k :| k in m;
      TotalRemove(m, k, w);
      TotalRemove(m, k, u);
      TotalRemove(m, k, both);
      TotalPlus(m - {k}, w, u, both);
    }
  }

  lemma Distribute(q: int, a: int, b: int)
    ensures q * (a + b) == q * a + q * b
  {}

  /** A weight that is `q` times another has `q` times its total. */
  lemma {:induction false} TotalScaled<K(!new), V>(m: map<K, V>, w: V -> int, u: V -> int, q: int)
    requires forall k :: k in m ==> w(m[k]) == q * u(m[k])
    ensures Total(m, w) == q * Total(m, u)
    decreases |m|
  {
    if m != map[] {
      var k :| k in m;
      TotalRemove(m, k, w);
      TotalRemove(m, k, u);
      TotalScaled(m - {k}, w, u, q);
      Distribute(q, u(m[k]), Total(m - {k}, u));
    }
  }

  function One<V>(v: V): int { 1 }

  lemma {:induction false} TotalOne<K(!new), V>(m: map<K, V>)
    ensures Total(m, One) == |m|
    decreases |m|
  {
    if m != map[] {
      var k :| k in m;
      TotalRemove(m, k, One);
      TotalOne(m - {k});
      assert |m - {k}| == |m| - 1 by { assert (m - {k}).Keys == m.Keys - {k}; }
    }
  }

  lemma TotalZero<K(!new), V>(m: map<K, V>, w: V -> int)
    requires forall k :: k in m ==> w(m[k]) == 0
    ensures Total(m, w) == 0
  {
    TotalScaled(m, w, w, 0);
  }
}
