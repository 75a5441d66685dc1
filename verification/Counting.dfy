/** Weighted counts over the per-thread local states of a transition system. */
module Counting {

  /** The sum of `weight(m[k])` over all keys `k` of `m`. */
  ghost function Sum<K, V>(m: map<K, V>, weight: V -> nat): nat
    decreases |m|
  {
    if m == map[] then 0
    else
      var k :| k in m;
      weight(m[k]) + Sum(m - {k}, weight)
  }

  /** Any key may be split off, not only the one `Sum` happened to choose. */
  lemma {:induction false} SumSplit<K, V>(m: map<K, V>, weight: V -> nat, k: K)
    requires k in m
    ensures Sum(m, weight) == weight(m[k]) + Sum(m - {k}, weight)
    decreases |m|
  {
    var j :| j in m && Sum(m, weight) == weight(m[j]) + Sum(m - {j}, weight);
    if j != k {
      SumSplit(m - {j}, weight, k);
      SumSplit(m - {k}, weight, j);
      assert m - {j} - {k} == m - {k} - {j};
    }
  }

  /** Changing one thread's local state changes the sum by the difference of its two weights. */
  lemma SumUpdate<K, V>(m: map<K, V>, weight: V -> nat, k: K, v: V)
    requires k in m
    ensures Sum(m[k := v], weight) + weight(m[k]) == Sum(m, weight) + weight(v)
    ensures weight(m[k]) <= Sum(m, weight)
  {
    SumSplit(m, weight, k);
    SumSplit(m[k := v], weight, k);
    assert m[k := v] - {k} == m - {k};
  }

  /** A sum is zero exactly when no key carries weight. */
  lemma {:induction false} SumZero<K, V>(m: map<K, V>, weight: V -> nat)
    ensures Sum(m, weight) == 0 <==> forall k :: k in m ==> weight(m[k]) == 0
    decreases |m|
  {
    if m != map[] {
      var k :| k in m;
      SumSplit(m, weight, k);
      SumZero(m - {k}, weight);
      assert forall j :: j in m && j != k ==> j in m - {k} && (m - {k})[j] == m[j];
    }
  }

  lemma Times(x: nat, n: nat)
    requires n > 0
    ensures x * n == x * (n - 1) + x
  {
  }

  /** With weights of at most `bound`, the sum is at most `bound` per key. */
  lemma {:induction false} SumBound<K, V>(m: map<K, V>, weight: V -> nat, bound: nat)
    requires forall k :: k in m ==> weight(m[k]) <= bound
    ensures Sum(m, weight) <= bound * |m|
    decreases |m|
  {
    if m != map[] {
      var k :| k in m;
      SumSplit(m, weight, k);
      SumBound(m - {k}, weight, bound);
      assert |m - {k}| == |m| - 1 by { assert (m - {k}).Keys == m.Keys - {k}; }
      Times(bound, |m|);
    }
  }
}
