/**
 Ordered queries (`findMany` with `orderBy`).  A table is a map from key to
 row; a query result is the sequence of its `(key, row)` pairs, each exactly
 once, sorted on an integer column, largest first.  Ascending order is the
 same listing on the negated column.  Rows with equal sort values may come in
 any order, as with the store.
 */
module Listing {

  function KeysOf<K, V>(rows: seq<(K, V)>): set<K> {
    set i | 0 <= i < |rows| :: rows[i].0
  }

  predicate Descending<K, V>(rows: seq<(K, V)>, key: V -> int) {
    forall i, j :: 0 <= i < j < |rows| ==> key(rows[i].1) >= key(rows[j].1)
  }

  predicate DistinctKeys<K(==), V>(rows: seq<(K, V)>) {
    forall i, j :: 0 <= i < j < |rows| ==> rows[i].0 != rows[j].0
  }

  /** Every row comes from `m` under its own key. */
  predicate FromMap<K, V(==)>(rows: seq<(K, V)>, m: map<K, V>) {
    forall i :: 0 <= i < |rows| ==> rows[i].0 in m && m[rows[i].0] == rows[i].1
  }

  /** `rows` lists exactly the entries of `m`, each once. */
  predicate Lists<K(==), V(==)>(rows: seq<(K, V)>, m: map<K, V>) {
    FromMap(rows, m) && DistinctKeys(rows) && KeysOf(rows) == m.Keys
  }

  /** Where a row with sort value `x` goes in a descending listing: after every larger value. */
  function InsertionPoint<K, V>(rows: seq<(K, V)>, x: int, key: V -> int): (p: nat)
    ensures p <= |rows|
    ensures forall i :: 0 <= i < p ==> key(rows[i].1) > x
    ensures p < |rows| ==> key(rows[p].1) <= x
  {
    if |rows| == 0 || key(rows[0].1) <= x then 0
    else 1 + InsertionPoint(rows[1..], x, key)
  }

  /** `rows` with `x` placed at its insertion point. */
  function Insert<K, V>(rows: seq<(K, V)>, x: (K, V), key: V -> int): (r: seq<(K, V)>)
    ensures var p := InsertionPoint(rows, key(x.1), key);
            && |r| == |rows| + 1
            && r[p] == x
            && (forall i :: 0 <= i < p ==> r[i] == rows[i])
            && (forall i :: p < i < |r| ==> r[i] == rows[i - 1])
  {
    var p := InsertionPoint(rows, key(x.1), key);
    rows[..p] + [x] + rows[p..]
  }

  /** Insertion keeps a listing sorted. */
  lemma InsertDescending<K, V>(rows: seq<(K, V)>, x: (K, V), key: V -> int)
    requires Descending(rows, key)
    ensures Descending(Insert(rows, x, key), key)
  {
    var p := InsertionPoint(rows, key(x.1), key);
    var r := Insert(rows, x, key);
    forall i, j | 0 <= i < j < |r|
      ensures key(r[i].1) >= key(r[j].1)
    {
      if i == p && j > p {
        assert key(rows[j - 1].1) <= key(rows[p].1);
      }
    }
  }

  /** Insertion of a new key keeps keys distinct. */
  lemma InsertDistinct<K, V>(rows: seq<(K, V)>, x: (K, V), key: V -> int)
    requires DistinctKeys(rows)
    requires x.0 !in KeysOf(rows)
    ensures DistinctKeys(Insert(rows, x, key))
  {
    var p := InsertionPoint(rows, key(x.1), key);
    var r := Insert(rows, x, key);
    forall i, j | 0 <= i < j < |r|
      ensures r[i].0 != r[j].0
    {
      if i == p {
        assert r[j] == rows[j - 1];
      } else if j == p {
        assert r[i] == rows[i];
      }
    }
  }

  /** Insertion adds exactly the new key. */
  lemma InsertKeys<K, V>(rows: seq<(K, V)>, x: (K, V), key: V -> int)
    ensures KeysOf(Insert(rows, x, key)) == KeysOf(rows) + {x.0}
  {
    var p := InsertionPoint(rows, key(x.1), key);
    var r := Insert(rows, x, key);
    forall k | k in KeysOf(rows)
      ensures k in KeysOf(r)
    {
      var i :| 0 <= i < |rows| && rows[i].0 == k;
      if i < p {
        assert r[i] == rows[i];
      } else {
        assert r[i + 1] == rows[i];
      }
    }
    forall k | k in KeysOf(r)
      ensures k in KeysOf(rows) + {x.0}
    {
      var i :| 0 <= i < |r| && r[i].0 == k;
      if i < p {
        assert r[i] == rows[i];
      } else if i > p {
        assert r[i] == rows[i - 1];
      }
    }
    assert x.0 in KeysOf(r) by { assert r[p] == x; }
  }

  /** Insertion of an entry of `m` keeps every row an entry of `m`. */
  lemma InsertFromMap<K, V>(rows: seq<(K, V)>, x: (K, V), key: V -> int, m: map<K, V>)
    requires FromMap(rows, m)
    requires x.0 in m && m[x.0] == x.1
    ensures FromMap(Insert(rows, x, key), m)
  {
    var p := InsertionPoint(rows, key(x.1), key);
    var r := Insert(rows, x, key);
    forall i | 0 <= i < |r|
      ensures r[i].0 in m && m[r[i].0] == r[i].1
    {
      if i < p {
        assert r[i] == rows[i];
      } else if i > p {
        assert r[i] == rows[i - 1];
      }
    }
  }

  /** The entries of `m` as a listing sorted on `key`, largest first. */
  method ListBy<K(==), V(==)>(m: map<K, V>, key: V -> int) returns (rows: seq<(K, V)>)
    ensures |rows| == |m|
    ensures Lists(rows, m)
    ensures Descending(rows, key)
  {
    rows := [];
    var rest := m;
    while rest != map[]
      invariant rest.Keys <= m.Keys
      invariant forall k :: k in rest ==> rest[k] == m[k]
      invariant |rows| + |rest| == |m|
      invariant FromMap(rows, m)
      invariant DistinctKeys(rows)
      invariant KeysOf(rows) == m.Keys - rest.Keys
      invariant Descending(rows, key)
      decreases |rest|
    {
      var k :| k in rest;
      var x := (k, rest[k]);
      InsertDescending(rows, x, key);
      InsertDistinct(rows, x, key);
      InsertKeys(rows, x, key);
      InsertFromMap(rows, x, key, m);
      rows := Insert(rows, x, key);
      assert (rest - {k}).Keys == rest.Keys - {k};
      rest := rest - {k};
    }
  }

  /**
   The first `n` rows of a descending listing of `m` are the newest: every
   entry of `m` left out sorts no higher than any row kept.
   */
  lemma PrefixIsTop<K, V>(rows: seq<(K, V)>, m: map<K, V>, key: V -> int, n: nat)
    requires Lists(rows, m) && Descending(rows, key)
    requires n <= |rows|
    ensures forall k, i :: k in m && k !in KeysOf(rows[..n]) && 0 <= i < n ==> key(m[k]) <= key(rows[i].1)
  {
    forall k, i | k in m && k !in KeysOf(rows[..n]) && 0 <= i < n
      ensures key(m[k]) <= key(rows[i].1)
    {
      assert k in KeysOf(rows);
      var j :| 0 <= j < |rows| && rows[j].0 == k;
    }
  }
}
