/** Sums over finite maps, with a missing key read as zero (Go's map default). */
module Sums {
  function Get<K>(m: map<K, int>, k: K): int {
    if k in m then m[k] else 0
  }

  ghost function Sum<K>(m: map<K, int>): int {
    if m == map[] then 0
    else
      var k :| k in m;
      m[k] + Sum(m - {k})
  }

  /** The choice made inside Sum does not matter. */
  lemma {:induction false} SumSplit<K>(m: map<K, int>, k: K)
    requires k in m
    ensures Sum(m) == m[k] + Sum(m - {k})
    decreases |m|
  {
    var j :| j in m && Sum(m) == m[j] + Sum(m - {j});
    if j != k {
      SumSplit(m - {j}, k);
      SumSplit(m - {k}, j);
      assert m - {j} - {k} == m - {k} - {j};
    }
  }

  lemma SumSet<K>(m: map<K, int>, k: K, v: int)
    ensures Sum(m[k := v]) == Sum(m) - Get(m, k) + v
  {
    SumSplit(m[k := v], k);
    if k in m {
      SumSplit(m, k);
      assert m[k := v] - {k} == m - {k};
    } else {
      assert m[k := v] - {k} == m;
    }
  }

  ghost predicate NonNegative<K>(m: map<K, int>) {
    forall k :: k in m ==> m[k] >= 0
  }

  lemma {:induction false} SumBounds<K>(m: map<K, int>, k: K)
    requires NonNegative(m)
    ensures 0 <= Get(m, k) <= Sum(m)
    decreases |m|
  {
    if k in m {
      SumSplit(m, k);
      SumBounds(m - {k}, k);
    } else if m != map[] {
      var j :| j in m;
      SumSplit(m, j);
      SumBounds(m - {j}, k);
    }
  }

}
