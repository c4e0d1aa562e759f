/**
 Sums over the values of a map, independent of any order: the reference
 definition behind `Object.values(...).reduce(...)` and the store's `_sum`
 aggregate.  The definition picks an arbitrary key; `SumRemove` shows that
 any key may be peeled off first.
 */
module MapSum {

  ghost function Sum<K, V>(m: map<K, V>, f: V -> real): real
    decreases |m|
  {
    if m == map[] then 0.0
    else
      var k :| k in m;
      assert |m - {k}| < |m| by { assert (m - {k}).Keys == m.Keys - {k}; }
      f(m[k]) + Sum(m - {k}, f)
  }

  /** Any key can be taken out of the sum first. */
  lemma {:induction false} SumRemove<K, V>(m: map<K, V>, k: K, f: V -> real)
    requires k in m
    ensures Sum(m, f) == f(m[k]) + Sum(m - {k}, f)
    decreases |m|
  {
    var j :| j in m && Sum(m, f) == f(m[j]) + Sum(m - {j}, f);
    if j != k {
      assert |m - {j}| < |m| by { assert (m - {j}).Keys == m.Keys - {j}; }
      assert |m - {k}| < |m| by { assert (m - {k}).Keys == m.Keys - {k}; }
      SumRemove(m - {j}, k, f);
      SumRemove(m - {k}, j, f);
      assert m - {j} - {k} == m - {k} - {j};
    }
  }

  /** Adding (or replacing) one entry changes the sum by the difference of that entry. */
  lemma SumUpdate<K, V>(m: map<K, V>, k: K, v: V, f: V -> real)
    ensures Sum(m[k := v], f) == Sum(m - {k}, f) + f(v)
  {
    SumRemove(m[k := v], k, f);
    assert m[k := v] - {k} == m - {k};
  }

  /** A sum of non-negative terms is non-negative. */
  lemma {:induction false} SumNonNegative<K, V>(m: map<K, V>, f: V -> real)
    requires forall k :: k in m ==> f(m[k]) >= 0.0
    ensures Sum(m, f) >= 0.0
    decreases |m|
  {
    if m != map[] {
      var k :| k in m;
      SumRemove(m, k, f);
      assert |m - {k}| < |m| by { assert (m - {k}).Keys == m.Keys - {k}; }
      SumNonNegative(m - {k}, f);
    }
  }

  /** A sum of terms each at least 1 is at least the number of terms. */
  lemma {:induction false} SumAtLeastCount<K, V>(m: map<K, V>, f: V -> real)
    requires forall k :: k in m ==> f(m[k]) >= 1.0
    ensures Sum(m, f) >= |m| as real
    decreases |m|
  {
    if m != map[] {
      var k :| k in m;
      SumRemove(m, k, f);
      assert |m - {k}| == |m| - 1 by { assert (m - {k}).Keys == m.Keys - {k}; }
      SumAtLeastCount(m - {k}, f);
    }
  }

  /** A sum of zeros is zero. */
  lemma {:induction false} SumZero<K, V>(m: map<K, V>, f: V -> real)
    requires forall k :: k in m ==> f(m[k]) == 0.0
    ensures Sum(m, f) == 0.0
    decreases |m|
  {
    if m != map[] {
      var k :| k in m;
      SumRemove(m, k, f);
      assert |m - {k}| < |m| by { assert (m - {k}).Keys == m.Keys - {k}; }
      SumZero(m - {k}, f);
    }
  }
}
