/** Sums over the values of a finite map, independent of any iteration order. */
module MapSums {

  ghost function Sum<K, V>(m: map<K, V>, f: V -> real): (r: real)
    decreases |m|
  {
    if m == map[] then 0.0
    else
      var k :| k in m;
      assert |m - {k}| < |m| by { Smaller(m, k); }
      f(m[k]) + Sum(m - {k}, f)
  }

  lemma Smaller<K, V>(m: map<K, V>, k: K)
    requires k in m
    ensures |m - {k}| < |m|
  {
    assert (m - {k}).Keys == m.Keys - {k};
    assert m.Keys == (m.Keys - {k}) + {k};
  }

  /** Any key may be split off. */
  lemma {:induction false} SumRemove<K, V>(m: map<K, V>, f: V -> real, k: K)
    requires k in m
    ensures Sum(m, f) == f(m[k]) + Sum(m - {k}, f)
    decreases |m|
  {
    var j :| j in m && Sum(m, f) == f(m[j]) + Sum(m - {j}, f);
    if j != k {
      Smaller(m, j);
      Smaller(m, k);
      SumRemove(m - {j}, f, k);
      SumRemove(m - {k}, f, j);
      assert m - {j} - {k} == m - {k} - {j};
    }
  }

  lemma {:induction false} SumUpdate<K, V>(m: map<K, V>, f: V -> real, k: K, v: V)
    ensures Sum(m[k := v], f) == Sum(m, f) + f(v) - (if k in m then f(m[k]) else 0.0)
  {
    SumRemove(m[k := v], f, k);
    if k in m {
      SumRemove(m, f, k);
      assert m[k := v] - {k} == m - {k};
    } else {
      assert m[k := v] - {k} == m;
    }
  }

  lemma {:induction false} SumNonNegative<K, V>(m: map<K, V>, f: V -> real)
    requires forall k :: k in m ==> f(m[k]) >= 0.0
    ensures Sum(m, f) >= 0.0
    decreases |m|
  {
    if m != map[] {
      var k :| k in m && Sum(m, f) == f(m[k]) + Sum(m - {k}, f);
      Smaller(m, k);
      SumNonNegative(m - {k}, f);
    }
  }

  /** Maps over the same keys with equal images have equal sums. */
  lemma {:induction false} SumSame<K, V>(m: map<K, V>, n: map<K, V>, f: V -> real, g: V -> real)
    requires m.Keys == n.Keys && forall k :: k in m ==> f(m[k]) == g(n[k])
    ensures Sum(m, f) == Sum(n, g)
    decreases |m|
  {
    if m == map[] {
      assert n == map[];
    } else {
      var k :| k in m && Sum(m, f) == f(m[k]) + Sum(m - {k}, f);
      Smaller(m, k);
      SumRemove(n, g, k);
      SumSame(m - {k}, n - {k}, f, g);
    }
  }
}
