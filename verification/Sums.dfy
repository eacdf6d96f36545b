/** Sums over the values of a map, independent of the order they are added in. */
module Sums {
  import opened Arithmetic

  ghost function Sum<K, V>(m: map<K, V>, f: V -> int): int
    decreases |m|
  {
    if m == map[] then 0
    else
      var k :| k in m;
      f(m[k]) + Sum(m - {k}, f)
  }

  /** Any key can be taken out first. */
  lemma {:induction false} SumRemove<K, V>(m: map<K, V>, f: V -> int, k: K)
    requires k in m
    ensures Sum(m, f) == f(m[k]) + Sum(m - {k}, f)
    decreases |m|
  {
    var j :| j in m && Sum(m, f) == f(m[j]) + Sum(m - {j}, f);
    if j != k {
      var both := m - {j} - {k};
      assert both == m - {k} - {j};
      SumRemove(m - {j}, f, k);
      SumRemove(m - {k}, f, j);
    }
  }

  lemma {:induction false} SumNonNegative<K, V>(m: map<K, V>, f: V -> int)
    requires forall k | k in m :: f(m[k]) >= 0
    ensures Sum(m, f) >= 0
    decreases |m|
  {
    if m != map[] {
      var k :| k in m;
      SumRemove(m, f, k);
      SumNonNegative(m - {k}, f);
    }
  }

  lemma SumAtLeast<K, V>(m: map<K, V>, f: V -> int, k: K)
    requires k in m && forall j | j in m :: f(m[j]) >= 0
    ensures f(m[k]) <= Sum(m, f)
  {
    SumRemove(m, f, k);
    SumNonNegative(m - {k}, f);
  }

  lemma SumInsert<K, V>(m: map<K, V>, f: V -> int, k: K, v: V)
    requires k !in m
    ensures Sum(m[k := v], f) == Sum(m, f) + f(v)
  {
    SumRemove(m[k := v], f, k);
    assert m[k := v] - {k} == m;
  }

  lemma SumReplace<K, V>(m: map<K, V>, f: V -> int, k: K, v: V)
    requires k in m
    ensures Sum(m[k := v], f) + f(m[k]) == Sum(m, f) + f(v)
  {
    SumRemove(m, f, k);
    SumRemove(m[k := v], f, k);
    assert m[k := v] - {k} == m - {k};
  }

  /** Values may change where their weight does not. */
  lemma {:induction false} SumSame<K, V>(m: map<K, V>, n: map<K, V>, f: V -> int)
    requires m.Keys == n.Keys && forall k | k in m :: f(m[k]) == f(n[k])
    ensures Sum(m, f) == Sum(n, f)
    decreases |m|
  {
    if m == map[] {
      assert n == map[];
    } else {
      var k :| k in m;
      SumRemove(m, f, k);
      SumRemove(n, f, k);
      SumSame(m - {k}, n - {k}, f);
    }
  }

  lemma {:induction false} SumMonotone<K, V>(m: map<K, V>, n: map<K, V>, f: V -> int)
    requires m.Keys == n.Keys && forall k | k in m :: f(m[k]) <= f(n[k])
    ensures Sum(m, f) <= Sum(n, f)
    decreases |m|
  {
    if m == map[] {
      assert n == map[];
    } else {
      var k :| k in m;
      SumRemove(m, f, k);
      SumRemove(n, f, k);
      SumMonotone(m - {k}, n - {k}, f);
    }
  }

  /** Taking values away that weigh something leaves no more. */
  lemma {:induction false} SumSubset<K, V>(m: map<K, V>, n: map<K, V>, f: V -> int)
    requires m.Keys <= n.Keys && (forall k | k in m :: m[k] == n[k]) && forall k | k in n :: f(n[k]) >= 0
    ensures Sum(m, f) <= Sum(n, f)
    decreases |n|
  {
    if k :| k in n && k !in m {
      SumRemove(n, f, k);
      SumSubset(m, n - {k}, f);
    } else {
      assert m == n;
    }
  }

  /** Values that weigh nothing add nothing. */
  lemma {:induction false} SumZero<K, V>(m: map<K, V>, f: V -> int)
    requires forall k | k in m :: f(m[k]) == 0
    ensures Sum(m, f) == 0
    decreases |m|
  {
    if m != map[] {
      var k :| k in m;
      SumRemove(m, f, k);
      SumZero(m - {k}, f);
    }
  }

  /** Bounds that hold for every value, with slack h, hold for the sums. */
  lemma {:induction false} SumBetween<K, V>(m: map<K, V>, f: V -> int, g: V -> int, h: V -> int, p: nat)
    requires forall k | k in m :: f(m[k]) * p <= g(m[k]) <= f(m[k]) * p + h(m[k]) * p
    ensures Sum(m, f) * p <= Sum(m, g) <= Sum(m, f) * p + Sum(m, h) * p
    decreases |m|
  {
    if m != map[] {
      var k :| k in m;
      SumRemove(m, f, k);
      SumRemove(m, g, k);
      SumRemove(m, h, k);
      SumBetween(m - {k}, f, g, h, p);
      DistributeSum(f(m[k]), Sum(m - {k}, f), p);
      DistributeSum(h(m[k]), Sum(m - {k}, h), p);
    }
  }

  /** Two maps add up alike when their common keys weigh the same and the rest weighs nothing. */
  lemma {:induction false} SumMatch<K, V, W>(m: map<K, V>, f: V -> int, n: map<K, W>, g: W -> int)
    requires m.Keys <= n.Keys && forall k | k in n :: g(n[k]) == if k in m then f(m[k]) else 0
    ensures Sum(m, f) == Sum(n, g)
    decreases |n|
  {
    if n == map[] {
      assert m == map[];
    } else {
      hide Sum;
      var k :| k in n;
      SumRemove(n, g, k);
      if k in m { SumRemove(m, f, k); } else { assert m - {k} == m; }
      SumMatch(m - {k}, f, n - {k}, g);
    }
  }
}
