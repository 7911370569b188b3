/**
  Totals over the maps and sequences that hold the ledger's records.
 */
module MapSums {

  /** The sum of `weight` over the values of a map. */
  ghost function Sum<K(!new), V(!new)>(m: map<K, V>, weight: V -> int): int
    decreases |m|
  {
    if m == map[] then 0
    else
      var k :| k in m;
      weight(m[k]) + Sum(m - {k}, weight)
  }

  lemma {:induction false} SumRemove<K(!new), V(!new)>(m: map<K, V>, k: K, weight: V -> int)
    requires k in m
    ensures Sum(m, weight) == weight(m[k]) + Sum(m - {k}, weight)
    decreases |m|
  {
    var j :| j in m && Sum(m, weight) == weight(m[j]) + Sum(m - {j}, weight);
    if j != k {
      SumRemove(m - {j}, k, weight);
      SumRemove(m - {k}, j, weight);
      assert m - {j} - {k} == m - {k} - {j};
    }
  }

  /** Writing one key changes the sum by the difference of the two weights. */
  lemma SumUpdate<K(!new), V(!new)>(m: map<K, V>, k: K, v: V, weight: V -> int)
    ensures Sum(m[k := v], weight) == Sum(m, weight) - (if k in m then weight(m[k]) else 0) + weight(v)
  {
    SumRemove(m[k := v], k, weight);
    assert m[k := v] - {k} == m - {k};
    if k in m {
      SumRemove(m, k, weight);
    } else {
      assert m - {k} == m;
    }
  }

  /** Maps with the same keys and pointwise equal weights have equal sums. */
  lemma {:induction false} SumCongruent<K(!new), V(!new)>(m: map<K, V>, n: map<K, V>, f: V -> int, g: V -> int)
    requires m.Keys == n.Keys
    requires forall k :: k in m ==> f(m[k]) == g(n[k])
    ensures Sum(m, f) == Sum(n, g)
    decreases |m|
  {
    if m == map[] {
      assert n == map[];
    } else {
      var k :| k in m;
      SumRemove(m, k, f);
      SumRemove(n, k, g);
      assert (m - {k}).Keys == (n - {k}).Keys;
      SumCongruent(m - {k}, n - {k}, f, g);
    }
  }

  lemma {:induction false} SumZero<K(!new), V(!new)>(m: map<K, V>, weight: V -> int)
    requires forall k :: k in m ==> weight(m[k]) == 0
    ensures Sum(m, weight) == 0
    decreases |m|
  {
    if m != map[] {
      var k :| k in m;
      SumRemove(m, k, weight);
      SumZero(m - {k}, weight);
    }
  }

  lemma {:induction false} SumNonNegative<K(!new), V(!new)>(m: map<K, V>, weight: V -> int)
    requires forall k :: k in m ==> weight(m[k]) >= 0
    ensures Sum(m, weight) >= 0
    decreases |m|
  {
    if m != map[] {
      var k :| k in m;
      SumRemove(m, k, weight);
      SumNonNegative(m - {k}, weight);
    }
  }

  /** With non-negative weights, the sum is at least the weight of any one key. */
  lemma SumAtLeast<K(!new), V(!new)>(m: map<K, V>, k: K, weight: V -> int)
    requires forall j :: j in m ==> weight(m[j]) >= 0
    requires k in m
    ensures weight(m[k]) <= Sum(m, weight)
  {
    SumRemove(m, k, weight);
    SumNonNegative(m - {k}, weight);
  }

  /** A pointwise smaller weight has a smaller sum. */
  lemma {:induction false} SumMono<K(!new), V(!new)>(m: map<K, V>, f: V -> int, g: V -> int)
    requires forall k :: k in m ==> f(m[k]) <= g(m[k])
    ensures Sum(m, f) <= Sum(m, g)
    decreases |m|
  {
    if m != map[] {
      var k :| k in m;
      SumRemove(m, k, f);
      SumRemove(m, k, g);
      SumMono(m - {k}, f, g);
    }
  }
}
