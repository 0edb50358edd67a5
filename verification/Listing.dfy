/** Tables listed entry by entry, and read back from such lists. */
module Listing {
  import opened Telemetry

  /** The entries of a table, listed in some order and shown one by one. */
  ghost predicate Shows<K(!new), V, D>(table: map<K, V>, show: (K, V) -> D, keys: seq<K>, shown: seq<D>) {
    && |shown| == |keys| == |table| && (forall k :: k in keys <==> k in table)
    && (forall i, j :: 0 <= i < j < |keys| ==> keys[i] != keys[j])
    && (forall i :: 0 <= i < |keys| ==> keys[i] in table && shown[i] == show(keys[i], table[keys[i]]))
  }

  /** The loops of `snapshotLocked` and `buildRuntimePaths` over a table. */
  method ListAll<K(!new), V, D>(table: map<K, V>, show: (K, V) -> D) returns (shown: seq<D>, ghost keys: seq<K>)
    ensures Shows(table, show, keys, shown)
  {
    keys, shown := [], [];
    var rest := table.Keys;
    while rest != {}
      invariant rest <= table.Keys && |shown| == |keys| && |keys| + |rest| == |table.Keys|
      invariant (forall k :: k in keys <==> k in table && k !in rest) && forall i, j :: 0 <= i < j < |keys| ==> keys[i] != keys[j]
      invariant forall i :: 0 <= i < |keys| ==> keys[i] in table && shown[i] == show(keys[i], table[keys[i]])
      decreases |rest|
    {
      var k :| k in rest;
      rest := rest - {k};
      keys, shown := keys + [k], shown + [show(k, table[k])];
    }
    assert |table.Keys| == |table|;
  }

  lemma ShowsAll<K(!new), V, D>(table: map<K, V>, show: (K, V) -> D, keys: seq<K>, shown: seq<D>)
    requires Shows(table, show, keys, shown)
    ensures (forall k :: k in table ==> show(k, table[k]) in shown) && |shown| == |table|
  {
    forall k | k in table ensures show(k, table[k]) in shown {
      var i :| 0 <= i < |keys| && keys[i] == k;
      assert shown[i] == show(k, table[k]);
    }
  }

  /** The table that a list of entries describes; a later entry replaces an earlier one. */
  function Table<D, K, V>(shown: seq<D>, key: D -> K, value: D -> V): map<K, V> {
    if shown == [] then map[]
    else
      var last := shown[|shown| - 1];
      Table(shown[..|shown| - 1], key, value)[key(last) := value(last)]
  }

  lemma {:induction false} TableAt<D, K(!new), V>(shown: seq<D>, key: D -> K, value: D -> V, keys: seq<K>)
    requires |keys| == |shown| && forall i, j :: 0 <= i < j < |keys| ==> keys[i] != keys[j]
    requires forall i :: 0 <= i < |shown| ==> key(shown[i]) == keys[i]
    ensures forall k :: k in Table(shown, key, value) <==> k in keys
    ensures forall i :: 0 <= i < |shown| ==> keys[i] in keys && Table(shown, key, value)[keys[i]] == value(shown[i])
  {
    if shown != [] {
      var init, last := keys[..|keys| - 1], keys[|keys| - 1];
      TableAt(shown[..|shown| - 1], key, value, init);
      assert keys == init + [last];
      assert forall k :: k in keys <==> k in init || k == last;
    }
  }

  /** A table that is listed and read back is the same, if keys and values can be told from what is shown. */
  lemma ListedBack<D, K(!new), V>(table: map<K, V>, show: (K, V) -> D, keys: seq<K>, shown: seq<D>, key: D -> K, value: D -> V)
    requires Shows(table, show, keys, shown)
    requires forall k :: k in table ==> key(show(k, table[k])) == k && value(show(k, table[k])) == table[k]
    ensures Table(shown, key, value) == table
  {
    TableAt(shown, key, value, keys);
    var back := Table(shown, key, value);
    forall k | k in back ensures k in table && back[k] == table[k] {
      var i :| 0 <= i < |keys| && keys[i] == k;
    }
    assert back.Keys == table.Keys;
  }

  /** The elements of a set, each once. */
  method ListSet<K(!new)>(s: set<K>) returns (keys: seq<K>)
    ensures Elements(keys) == s && |keys| == |s|
  {
    keys := [];
    var rest := s;
    while rest != {}
      invariant rest <= s && |keys| + |rest| == |s| && forall k :: k in keys <==> k in s && k !in rest
      decreases |rest|
    {
      var k :| k in rest;
      rest := rest - {k};
      keys := keys + [k];
    }
  }

  /** The place of the first occurrence, or the length of the list. */
  function FirstIndex<T(==)>(list: seq<T>, x: T): nat {
    if list == [] || list[0] == x then 0 else 1 + FirstIndex(list[1..], x)
  }

  lemma {:induction false} FirstIndexIs<T>(list: seq<T>, x: T)
    ensures FirstIndex(list, x) <= |list| && (FirstIndex(list, x) < |list| <==> x in list)
    ensures x in list ==> list[FirstIndex(list, x)] == x
  {
    if list != [] && list[0] != x {
      FirstIndexIs(list[1..], x);
    }
  }
}
