/** Sums over the values of a map. */
module MapSums {

  ghost function SumOf<K, V>(m: map<K, V>, f: V -> int): int
  {
    if m == map[] then 0
    else
      var k :| k in m;
      f(m[k]) + SumOf(m - {k}, f)
  }

  lemma {:induction false} SumRemove<K, V>(m: map<K, V>, f: V -> int, k: K)
    requires k in m
    ensures SumOf(m, f) == f(m[k]) + SumOf(m - {k}, f)
    decreases |m|
  {
    var first :| first in m && SumOf(m, f) == f(m[first]) + SumOf(m - {first}, f);
    if first != k {
      SumRemove(m - {first}, f, k);
      SumRemove(m - {k}, f, first);
      assert m - {first} - {k} == m - {k} - {first};
    }
  }

  lemma SumUpdate<K, V>(m: map<K, V>, f: V -> int, k: K, v: V)
    ensures SumOf(m[k := v], f) == SumOf(m, f) - (if k in m then f(m[k]) else 0) + f(v)
  {
    SumRemove(m[k := v], f, k);
    assert m[k := v] - {k} == m - {k};
    if k in m {
      SumRemove(m, f, k);
    } else {
      assert m - {k} == m;
    }
  }

  lemma SumAtLeast<K, V>(m: map<K, V>, f: V -> int, k: K)
    requires k in m && forall v :: f(v) >= 0
    ensures SumOf(m, f) >= f(m[k])
  {
    SumNonNegative(m - {k}, f);
    SumRemove(m, f, k);
  }

  lemma {:induction false} SumNonNegative<K, V>(m: map<K, V>, f: V -> int)
    requires forall v :: f(v) >= 0
    ensures SumOf(m, f) >= 0
    decreases |m|
  {
    if m != map[] {
      var first :| first in m && SumOf(m, f) == f(m[first]) + SumOf(m - {first}, f);
      SumNonNegative(m - {first}, f);
    }
  }
}
