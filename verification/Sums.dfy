/** Sums over finite maps, independent of the order of iteration. */
module Sums {

  ghost function SumBy<K(!new), V(!new)>(m: map<K, V>, f: V -> int): int
    decreases |m|
  {
    if m == map[] then 0
    else
      var k :| k in m;
      f(m[k]) + SumBy(m - {k}, f)
  }

  /** Any key can be taken out first. */
  lemma {:induction false} SumByAt<K(!new), V(!new)>(m: map<K, V>, f: V -> int, k: K)
    requires k in m
    ensures SumBy(m, f) == f(m[k]) + SumBy(m - {k}, f)
    decreases |m|
  {
    var c :| c in m && SumBy(m, f) == f(m[c]) + SumBy(m - {c}, f);
    if c != k {
      SumByAt(m - {c}, f, k);
      SumByAt(m - {k}, f, c);
      assert m - {c} - {k} == m - {k} - {c};
    }
  }

  /** Writing one key changes the sum by the difference at that key. */
  lemma SumByPut<K(!new), V(!new)>(m: map<K, V>, f: V -> int, k: K, v: V)
    ensures SumBy(m[k := v], f) == SumBy(m, f) - (if k in m then f(m[k]) else 0) + f(v)
  {
    SumByAt(m[k := v], f, k);
    assert m[k := v] - {k} == m - {k};
    if k in m {
      SumByAt(m, f, k);
    } else {
      assert m - {k} == m;
    }
  }

  /** Removing one key takes its share out of the sum. */
  lemma SumByDrop<K(!new), V(!new)>(m: map<K, V>, f: V -> int, k: K)
    ensures SumBy(m - {k}, f) == SumBy(m, f) - (if k in m then f(m[k]) else 0)
  {
    if k in m {
      SumByAt(m, f, k);
    } else {
      assert m - {k} == m;
    }
  }

  lemma {:induction false} SumByNonNegative<K(!new), V(!new)>(m: map<K, V>, f: V -> int)
    requires forall k | k in m :: f(m[k]) >= 0
    ensures SumBy(m, f) >= 0
    ensures forall k | k in m :: f(m[k]) <= SumBy(m, f)
    decreases |m|
  {
    forall k | k in m ensures 0 <= f(m[k]) <= SumBy(m, f) {
      SumByAt(m, f, k);
      SumByNonNegative(m - {k}, f);
    }
    if m != map[] {
      var k :| k in m;
      assert f(m[k]) <= SumBy(m, f);
    }
  }

  /** Only what is summed matters. */
  lemma {:induction false} SumBySame<K(!new), V(!new)>(m: map<K, V>, m': map<K, V>, f: V -> int)
    requires m'.Keys == m.Keys && forall k | k in m :: f(m'[k]) == f(m[k])
    ensures SumBy(m', f) == SumBy(m, f)
    decreases |m|
  {
    if m == map[] {
      assert m' == map[];
    } else {
      var k :| k in m;
      SumByAt(m, f, k);
      SumByAt(m', f, k);
      assert (m' - {k}).Keys == (m - {k}).Keys;
      SumBySame(m - {k}, m' - {k}, f);
    }
  }
}
