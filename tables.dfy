/**
 * Shared machinery for the in-memory model of the Room tables: a table is a map from primary key
 * to row, and a `SELECT` without `ORDER BY` visits its keys in an order the database chooses.
 */
module Tables {
  import opened Wrappers

  /** True when no element occurs twice in `s`. */
  predicate Distinct<K(==)>(s: seq<K>) {
    forall i, j :: 0 <= i < j < |s| ==> s[i] != s[j]
  }

  /**
   * Lists the primary keys of a table, each exactly once, in an order left to the implementation
   * (the database's scan order).
   */
  method KeysOf<K(==), V>(t: map<K, V>) returns (keys: seq<K>)
    ensures Distinct(keys)
    ensures forall k :: k in keys <==> k in t
  {
    keys := [];
    var remaining := t.Keys;
    while remaining != {}
      invariant remaining <= t.Keys
      invariant Distinct(keys)
      invariant forall k :: k in keys <==> k in t && k !in remaining
      decreases |remaining|
    {
      var k :| k in remaining;
      keys := keys + [k];
      remaining := remaining - {k};
    }
  }

  /** `SELECT * ... WHERE <primary key> = :key`: the row stored under `key`, or nothing. */
  function Lookup<K(==), V>(t: map<K, V>, key: K): (r: Option<V>)
    ensures r.Some? <==> key in t
    ensures r.Some? ==> r.value == t[key]
  {
    if key in t then Some(t[key]) else None
  }
}
