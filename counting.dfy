/** Sums over the values of a finite map: the arithmetic behind `totalScans`
    (a sum of dataset entry lengths) and `tagCount` (a sum of frequencies). */
module Counting {

  /** Some key of a non-empty set; fixed once per set, so every unfolding of
      SumValues picks the same one. */
  ghost function Pick<K>(s: set<K>): (k: K)
    requires s != {}
    ensures k in s
  {
    var k :| k in s; k
  }

  /** The sum of all values of `m`. */
  ghost function SumValues<K>(m: map<K, nat>): nat
    decreases |m|
  {
    if |m| == 0 then 0
    else
      var k := Pick(m.Keys);
      m[k] + SumValues(m - {k})
  }

  /** Any key, not only the one Pick chooses, can be split off the sum. */
  lemma {:induction false} SumValuesRemove<K>(m: map<K, nat>, k: K)
    requires k in m
    ensures SumValues(m) == m[k] + SumValues(m - {k})
    decreases |m|
  {
    var j := Pick(m.Keys);
    if j != k {
      assert |m - {j}| == |m| - 1;
      assert |m - {k}| == |m| - 1;
      SumValuesRemove(m - {j}, k);
      SumValuesRemove(m - {k}, j);
      assert (m - {j}) - {k} == (m - {k}) - {j};
    }
  }

  /** Overwriting (or adding) one key changes the sum by the difference. */
  lemma SumValuesUpdate<K>(m: map<K, nat>, k: K, v: nat)
    ensures SumValues(m[k := v]) == SumValues(m) - (if k in m then m[k] else 0) + v
  {
    var m' := m[k := v];
    SumValuesRemove(m', k);
    if k in m {
      SumValuesRemove(m, k);
      assert m' - {k} == m - {k};
    } else {
      assert m' - {k} == m;
    }
  }

  /** The empty map sums to zero. */
  lemma SumValuesEmpty<K>(m: map<K, nat>)
    requires |m| == 0
    ensures SumValues(m) == 0
  {
  }
}
