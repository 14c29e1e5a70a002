/** Sums of a weight over all values of a finite table. */
module Sums {

  predicate Swaps<T(==)>(add: (T, T) -> T, a: T, b: T, c: T) {
    add(a, add(b, c)) == add(b, add(a, c))
  }

  /** Adding in either order comes to the same. */
  ghost predicate Swappable<T(!new)>(add: (T, T) -> T) {
    forall a, b, c :: Swaps(add, a, b, c)
  }

  /** The sum of a weight over a table, for any kind of amount. */
  ghost function SumOf<K, V, T>(m: map<K, V>, w: V -> T, zero: T, add: (T, T) -> T): T
    decreases |m|
  {
    if m == map[] then zero
    else
      var k :| k in m;
      add(w(m[k]), SumOf(m - {k}, w, zero, add))
  }

  /** The sum does not depend on the order in which rows are taken. */
  lemma {:induction false} SumSplit<K, V, T(!new)>(m: map<K, V>, w: V -> T, zero: T, add: (T, T) -> T, k: K)
    requires k in m && Swappable(add)
    ensures SumOf(m, w, zero, add) == add(w(m[k]), SumOf(m - {k}, w, zero, add))
    decreases |m|
  {
    var j :| j in m && SumOf(m, w, zero, add) == add(w(m[j]), SumOf(m - {j}, w, zero, add));
    if j != k {
      SumSplit(m - {j}, w, zero, add, k);
      SumSplit(m - {k}, w, zero, add, j);
      assert m - {j} - {k} == m - {k} - {j};
      assert Swaps(add, w(m[j]), w(m[k]), SumOf(m - {j} - {k}, w, zero, add));
    }
  }

  /** Tables with the same weights row by row have the same sum. */
  lemma {:induction false} SumSame<K, V, W, T(!new)>(m: map<K, V>, w: V -> T, n: map<K, W>, v: W -> T, zero: T, add: (T, T) -> T)
    requires m.Keys == n.Keys && Swappable(add) && forall k :: k in m ==> w(m[k]) == v(n[k])
    ensures SumOf(m, w, zero, add) == SumOf(n, v, zero, add)
    decreases |m|
  {
    if m == map[] {
      assert n == map[];
    } else {
      var k :| k in m;
      SumSplit(m, w, zero, add, k);
      SumSplit(n, v, zero, add, k);
      SumSame(m - {k}, w, n - {k}, v, zero, add);
    }
  }

  function Plus(a: int, b: int): int {
    a + b
  }

  ghost function Total<K, V>(m: map<K, V>, w: V -> int): int {
    SumOf(m, w, 0, Plus)
  }

  lemma TotalSplit<K, V>(m: map<K, V>, w: V -> int, k: K)
    requires k in m
    ensures Total(m, w) == w(m[k]) + Total(m - {k}, w)
  {
    SumSplit(m, w, 0, Plus, k);
  }

  /** Writing one row moves the sum by exactly that row's change of weight. */
  lemma TotalPut<K, V>(m: map<K, V>, w: V -> int, k: K, v: V)
    ensures Total(m[k := v], w) == Total(m, w) + w(v) - (if k in m then w(m[k]) else 0)
  {
    TotalSplit(m[k := v], w, k);
    assert m[k := v] - {k} == m - {k};
    if k in m {
      TotalSplit(m, w, k);
    } else {
      assert m - {k} == m;
    }
  }

  lemma {:induction false} TotalNonNegative<K, V>(m: map<K, V>, w: V -> int)
    requires forall k :: k in m ==> w(m[k]) >= 0
    ensures Total(m, w) >= 0
    decreases |m|
  {
    if m != map[] {
      var k :| k in m;
      TotalSplit(m, w, k);
      TotalNonNegative(m - {k}, w);
    }
  }

  /** A single weight is no larger than a sum of non-negative weights. */
  lemma TotalAtLeast<K, V>(m: map<K, V>, w: V -> int, k: K)
    requires k in m
    requires forall j :: j in m ==> w(m[j]) >= 0
    ensures Total(m, w) >= w(m[k])
  {
    TotalSplit(m, w, k);
    TotalNonNegative(m - {k}, w);
  }

  lemma {:induction false} TotalMonotone<K, V>(m: map<K, V>, n: map<K, V>, w: V -> int)
    requires m.Keys == n.Keys
    requires forall k :: k in m ==> w(n[k]) <= w(m[k])
    ensures Total(n, w) <= Total(m, w)
    decreases |m|
  {
    if m == map[] {
      assert n == map[];
    } else {
      var k :| k in m;
      TotalSplit(m, w, k);
      TotalSplit(n, w, k);
      TotalMonotone(m - {k}, n - {k}, w);
    }
  }
}
