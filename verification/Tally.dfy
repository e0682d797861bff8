/** Sums over finite maps: the bookkeeping behind "the global counter is the sum of the parts". */
module Tally {

  /** The sum of `weight` over the values of `m`. */
  ghost function Total<K, V>(m: map<K, V>, weight: V -> int): int
  {
    if m == map[] then 0
    else
      var k :| k in m;
      weight(m[k]) + Total(m - {k}, weight)
  }

  /** The key that Total picks first does not matter. */
  lemma {:induction false} TotalRemove<K, V>(m: map<K, V>, k: K, weight: V -> int)
    requires k in m
    ensures Total(m, weight) == weight(m[k]) + Total(m - {k}, weight)
    decreases |m|
  {
    var j :| j in m && Total(m, weight) == weight(m[j]) + Total(m - {j}, weight);
    if j != k {
      TotalRemove(m - {j}, k, weight);
      TotalRemove(m - {k}, j, weight);
      assert m - {j} - {k} == m - {k} - {j};
    }
  }

  /** Writing one entry changes the total by exactly the difference of the two weights. */
  lemma TotalUpdate<K, V>(m: map<K, V>, k: K, v: V, weight: V -> int)
    ensures Total(m[k := v], weight)
         == Total(m, weight) + weight(v) - (if k in m then weight(m[k]) else 0)
  {
    TotalRemove(m[k := v], k, weight);
    if k in m {
      TotalRemove(m, k, weight);
      assert m[k := v] - {k} == m - {k};
    } else {
      assert m[k := v] - {k} == m;
    }
  }

  lemma {:induction false} TotalOrdered<K, V>(m: map<K, V>, small: V -> int, large: V -> int)
    requires forall k :: k in m ==> small(m[k]) <= large(m[k])
    ensures Total(m, small) <= Total(m, large)
    decreases |m|
  {
    if m != map[] {
      var k :| k in m;
      TotalRemove(m, k, small);
      TotalRemove(m, k, large);
      TotalOrdered(m - {k}, small, large);
    }
  }

  /** A total of non-negative weights dominates each of them. */
  lemma {:induction false} TotalBounds<K, V>(m: map<K, V>, weight: V -> int)
    requires forall k :: k in m ==> 0 <= weight(m[k])
    ensures 0 <= Total(m, weight)
    ensures forall k :: k in m ==> weight(m[k]) <= Total(m, weight)
    decreases |m|
  {
    if m != map[] {
      var j :| j in m;
      TotalRemove(m, j, weight);
      TotalBounds(m - {j}, weight);
      forall k | k in m ensures weight(m[k]) <= Total(m, weight) {
        if k != j { assert k in m - {j} && (m - {j})[k] == m[k]; }
      }
    }
  }

  /** Weights that are zero on every value add up to zero. */
  lemma {:induction false} TotalZero<K, V>(m: map<K, V>, weight: V -> int)
    requires forall k :: k in m ==> weight(m[k]) == 0
    ensures Total(m, weight) == 0
    decreases |m|
  {
    if m != map[] {
      var k :| k in m;
      TotalRemove(m, k, weight);
      TotalZero(m - {k}, weight);
    }
  }
}
