/** Sums over the values of a finite map, independent of iteration order. */
module Sums {
  ghost function SumValues<K>(m: map<K, int>): int
  {
    if m == map[] then 0
    else
      var k :| k in m;
      m[k] + SumValues(m - {k})
  }

  /** Any key may be taken out first: the sum does not depend on the order of iteration. */
  lemma {:induction false} SumRemove<K>(m: map<K, int>, k: K)
    requires k in m
    ensures SumValues(m) == m[k] + SumValues(m - {k})
    decreases |m|
  {
    var j :| j in m && SumValues(m) == m[j] + SumValues(m - {j});
    if j != k {
      SumRemove(m - {j}, k);
      SumRemove(m - {k}, j);
      assert m - {j} - {k} == m - {k} - {j};
    }
  }

  lemma {:induction false} SumBounded<K>(m: map<K, int>, bound: int)
    requires forall k :: k in m ==> 0 <= m[k] <= bound
    ensures 0 <= SumValues(m) <= |m| * bound
    decreases |m|
  {
    if m != map[] {
      var k :| k in m;
      SumRemove(m, k);
      assert (m - {k}).Keys == m.Keys - {k};
      SumBounded(m - {k}, bound);
      assert |m| * bound == (|m| - 1) * bound + bound;
    }
  }
}
