/** Facts about finite maps and sets. */
module Maps {

  lemma Associates<K, V>(a: map<K, V>, b: map<K, V>, d: map<K, V>)
    ensures (a + b) + d == a + (b + d)
  {}

  lemma UpdateRight<K, V>(a: map<K, V>, b: map<K, V>, k: K, v: V)
    ensures a + b[k := v] == (a + b)[k := v]
  {}

  lemma EmptyRight<K, V>(a: map<K, V>)
    ensures a + map[] == a
  {}

  lemma UpdateMiddle<K, V>(a: map<K, V>, b: map<K, V>, d: map<K, V>, k: K, v: V)
    requires k !in d
    ensures a + b[k := v] + d == (a + b + d)[k := v]
  {}

  lemma RemoveMiddle<K, V>(a: map<K, V>, b: map<K, V>, d: map<K, V>, k: K)
    requires k !in a && k !in d
    ensures a + (b - {k}) + d == (a + b + d) - {k}
  {}

  lemma RemoveRight<K, V>(a: map<K, V>, b: map<K, V>, k: K)
    requires k !in a
    ensures (a + b) - {k} == a + (b - {k})
  {}

  lemma UpdateSize<K, V>(m: map<K, V>, k: K, v: V)
    ensures |m[k := v]| == if k in m then |m| else |m| + 1
  {
    assert m[k := v].Keys == m.Keys + {k};
    assert |m| == |m.Keys| && |m[k := v]| == |m[k := v].Keys|;
  }

  lemma RemoveSize<K, V>(m: map<K, V>, k: K)
    requires k in m
    ensures |m - {k}| == |m| - 1
  {
    assert (m - {k}).Keys == m.Keys - {k};
    assert |m| == |m.Keys| && |m - {k}| == |(m - {k}).Keys|;
  }

  lemma UnionSize<K, V>(a: map<K, V>, b: map<K, V>)
    requires a.Keys !! b.Keys
    ensures |a + b| == |a| + |b|
  {
    assert (a + b).Keys == a.Keys + b.Keys;
    assert |a| == |a.Keys| && |b| == |b.Keys| && |a + b| == |(a + b).Keys|;
  }

  lemma SubsetSize<T>(a: set<T>, b: set<T>)
    requires a <= b
    ensures |a| <= |b|
  {
    assert b == a + (b - a);
  }
}
