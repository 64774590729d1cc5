/** Sums over finite maps: the meaning of the aggregate counters the pool keeps. */
module MapSum {

  ghost function Pick<K, V>(m: map<K, V>): (k: K)
    requires m != map[]
    ensures k in m
  {
    var k :| k in m; k
  }

  /** The sum of `f` over the entries of `m`. */
  ghost function SumBy<K, V>(m: map<K, V>, f: (K, V) -> int): int
    decreases |m.Keys|
  {
    if m == map[] then 0
    else
      var k := Pick(m);
      assert (m - {k}).Keys == m.Keys - {k};
      f(k, m[k]) + SumBy(m - {k}, f)
  }

  /** Any entry may be taken out first: the sum does not depend on an order. */
  lemma {:induction false} SumRemove<K, V>(m: map<K, V>, f: (K, V) -> int, k: K)
    requires k in m
    ensures SumBy(m, f) == f(k, m[k]) + SumBy(m - {k}, f)
    decreases |m.Keys|
  {
    var p := Pick(m);
    if p != k {
      assert (m - {p}).Keys == m.Keys - {p};
      assert (m - {k}).Keys == m.Keys - {k};
      SumRemove(m - {p}, f, k);
      SumRemove(m - {k}, f, p);
      assert m - {p} - {k} == m - {k} - {p};
    }
  }

  lemma SumUpdate<K, V>(m: map<K, V>, f: (K, V) -> int, k: K, v: V)
    ensures SumBy(m[k := v], f) == SumBy(m, f) - (if k in m then f(k, m[k]) else 0) + f(k, v)
  {
    SumRemove(m[k := v], f, k);
    if k in m {
      SumRemove(m, f, k);
      assert m[k := v] - {k} == m - {k};
    } else {
      assert m[k := v] - {k} == m;
    }
  }

  lemma {:induction false} SumNonNegative<K, V>(m: map<K, V>, f: (K, V) -> int)
    requires forall k :: k in m ==> 0 <= f(k, m[k])
    ensures 0 <= SumBy(m, f)
    decreases |m.Keys|
  {
    if m != map[] {
      var k := Pick(m);
      assert (m - {k}).Keys == m.Keys - {k};
      SumNonNegative(m - {k}, f);
    }
  }

  /** One entry is at most the whole sum when nothing is negative. */
  lemma SumAtLeast<K, V>(m: map<K, V>, f: (K, V) -> int, k: K)
    requires k in m
    requires forall j :: j in m ==> 0 <= f(j, m[j])
    ensures f(k, m[k]) <= SumBy(m, f)
  {
    SumRemove(m, f, k);
    SumNonNegative(m - {k}, f);
  }
}
