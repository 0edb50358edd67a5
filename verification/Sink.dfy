/** The topology sink: a batch of envelopes is grouped by application, taken in and checkpointed before it counts as consumed. */
module Sink {
  import opened Telemetry
  import opened StateStore

  // ---- grouping ---------------------------------------------------------------------------------------------

  /** `topologySpanGroup`. */
  datatype SpanGroup = SpanGroup(serviceName: string, nodeVersion: string, spans: seq<Span>, indexes: seq<nat>)

  function GroupKey(b: SpanBatch): string {
    b.serviceName + "\0" + b.nodeVersion
  }

  /** Groups are told apart by name and version, as long as no name holds the character that separates them. */
  lemma GroupKeysApart(a: SpanBatch, b: SpanBatch)
    requires '\0' !in a.serviceName && '\0' !in b.serviceName
    ensures GroupKey(a) == GroupKey(b) <==> a.serviceName == b.serviceName && a.nodeVersion == b.nodeVersion
  {
    if GroupKey(a) == GroupKey(b) {
      var m, n := |a.serviceName|, |b.serviceName|;
      assert GroupKey(a)[m] == '\0' && GroupKey(b)[n] == '\0';
      assert forall k :: 0 <= k < n ==> GroupKey(b)[k] == b.serviceName[k] && GroupKey(b)[k] != '\0';
      assert forall k :: 0 <= k < m ==> GroupKey(a)[k] == a.serviceName[k] && GroupKey(a)[k] != '\0';
      assert a.serviceName == GroupKey(a)[..m] && b.serviceName == GroupKey(b)[..n];
      assert a.nodeVersion == GroupKey(a)[m + 1..] && b.nodeVersion == GroupKey(b)[n + 1..];
    }
  }

  /** The envelope at this place has spans of this group. */
  predicate Belongs(envelopes: seq<Envelope>, key: string, i: nat) {
    i < |envelopes| && envelopes[i].spanBatch.Some? && GroupKey(envelopes[i].spanBatch.value) == key
  }

  function SpansAt(envelopes: seq<Envelope>, indexes: seq<nat>): seq<Span> {
    if indexes == [] then []
    else
      var last := indexes[|indexes| - 1];
      SpansAt(envelopes, indexes[..|indexes| - 1])
        + (if last < |envelopes| && envelopes[last].spanBatch.Some? then envelopes[last].spanBatch.value.spans else [])
  }

  /** A group has the spans of the envelopes of its key, in their order, each envelope once, and the names of the first. */
  ghost predicate IsGroup(envelopes: seq<Envelope>, upTo: nat, key: string, g: SpanGroup) {
    && (forall i: nat :: i in g.indexes <==> i < upTo && Belongs(envelopes, key, i))
    && (forall j, k :: 0 <= j < k < |g.indexes| ==> g.indexes[j] < g.indexes[k])
    && g.spans == SpansAt(envelopes, g.indexes)
    && (g.indexes != [] ==> NamedLike(envelopes, g.indexes[0], g))
  }

  predicate NamedLike(envelopes: seq<Envelope>, i: nat, g: SpanGroup) {
    && i < |envelopes| && envelopes[i].spanBatch.Some?
    && g.serviceName == envelopes[i].spanBatch.value.serviceName && g.nodeVersion == envelopes[i].spanBatch.value.nodeVersion
  }

  ghost predicate Grouped(envelopes: seq<Envelope>, upTo: nat, groups: map<string, SpanGroup>) {
    && (forall key :: key in groups ==> IsGroup(envelopes, upTo, key, groups[key]) && groups[key].indexes != [])
    && (forall i: nat, key :: i < upTo && Belongs(envelopes, key, i) ==> key in groups)
  }

  /** The latest metrics of a service; of equally late ones, the last. */
  ghost predicate IsNewest(envelopes: seq<Envelope>, upTo: nat, service: string, m: RuntimeMetrics) {
    exists i :: 0 <= i < upTo <= |envelopes| && Reports(envelopes, service, i) && envelopes[i].runtimeMetrics.value == m
      && forall j :: 0 <= j < upTo && Reports(envelopes, service, j) ==> Later(envelopes, i, j)
  }

  predicate Reports(envelopes: seq<Envelope>, service: string, i: nat) {
    i < |envelopes| && envelopes[i].runtimeMetrics.Some? && envelopes[i].runtimeMetrics.value.serviceName == service
  }

  predicate Later(envelopes: seq<Envelope>, i: nat, j: nat)
    requires i < |envelopes| && envelopes[i].runtimeMetrics.Some? && j < |envelopes| && envelopes[j].runtimeMetrics.Some?
  {
    var a, b := envelopes[i].runtimeMetrics.value.timestamp, envelopes[j].runtimeMetrics.value.timestamp;
    b < a || (b == a && j <= i)
  }

  ghost predicate Latest(envelopes: seq<Envelope>, upTo: nat, runtimes: map<string, RuntimeMetrics>) {
    && (forall service :: service in runtimes ==> IsNewest(envelopes, upTo, service, runtimes[service]))
    && (forall i: nat, service :: i < upTo && Reports(envelopes, service, i) ==> service in runtimes)
  }

  lemma SpansAtStep(envelopes: seq<Envelope>, indexes: seq<nat>, i: nat)
    requires i < |envelopes| && envelopes[i].spanBatch.Some?
    ensures SpansAt(envelopes, indexes + [i]) == SpansAt(envelopes, indexes) + envelopes[i].spanBatch.value.spans
  {
    assert (indexes + [i])[..|indexes|] == indexes;
  }

  lemma GroupGrows(envelopes: seq<Envelope>, i: nat, key: string, g: SpanGroup)
    requires Belongs(envelopes, key, i) && IsGroup(envelopes, i, key, g) && (g.indexes == [] ==> NamedLike(envelopes, i, g))
    ensures IsGroup(envelopes, i + 1, key, g.(spans := g.spans + envelopes[i].spanBatch.value.spans, indexes := g.indexes + [i]))
  {
    SpansAtStep(envelopes, g.indexes, i);
    assert forall j :: j in g.indexes + [i] <==> j in g.indexes || j == i;
    assert forall k :: 0 <= k < |g.indexes| ==> g.indexes[k] in g.indexes;
  }

  lemma OtherGroups(envelopes: seq<Envelope>, i: nat, key: string, g: SpanGroup)
    requires !Belongs(envelopes, key, i) && IsGroup(envelopes, i, key, g)
    ensures IsGroup(envelopes, i + 1, key, g)
  {}

  /** The first part of the loop of `ConsumeBatch` over the envelopes: groups of spans. */
  method GroupSpans(envelopes: seq<Envelope>) returns (groups: map<string, SpanGroup>)
    ensures Grouped(envelopes, |envelopes|, groups)
  {
    hide IsGroup, Belongs;
    groups := map[];
    Ungrouped(envelopes);
    for index := 0 to |envelopes|
      invariant Grouped(envelopes, index, groups)
    {
      ghost var before := groups;
      if envelopes[index].spanBatch.Some? {
        var batch := envelopes[index].spanBatch.value;
        var key := GroupKey(batch);
        var group := if key in groups then groups[key] else SpanGroup(batch.serviceName, batch.nodeVersion, [], []);
        groups := groups[key := group.(spans := group.spans + batch.spans, indexes := group.indexes + [index])];
        GroupAdded(envelopes, index, before, group);
      } else {
        NothingGrouped(envelopes, index, groups);
      }
    }
  }

  lemma Ungrouped(envelopes: seq<Envelope>)
    ensures Grouped(envelopes, 0, map[])
  {}

  lemma GroupAdded(envelopes: seq<Envelope>, index: nat, groups: map<string, SpanGroup>, group: SpanGroup)
    requires index < |envelopes| && envelopes[index].spanBatch.Some? && Grouped(envelopes, index, groups)
    requires var key := GroupKey(envelopes[index].spanBatch.value);
             if key in groups then group == groups[key]
             else group.spans == [] && group.indexes == [] && NamedLike(envelopes, index, group)
    ensures var b := envelopes[index].spanBatch.value;
            Grouped(envelopes, index + 1, groups[GroupKey(b) := group.(spans := group.spans + b.spans, indexes := group.indexes + [index])])
  {
    hide IsGroup;
    var b := envelopes[index].spanBatch.value;
    var key := GroupKey(b);
    if key !in groups { EmptyGroup(envelopes, index, groups, key, group); }
    GroupGrows(envelopes, index, key, group);
    forall other | other in groups && other != key ensures IsGroup(envelopes, index + 1, other, groups[other]) {
      OtherGroups(envelopes, index, other, groups[other]);
    }
  }

  lemma EmptyGroup(envelopes: seq<Envelope>, index: nat, groups: map<string, SpanGroup>, key: string, group: SpanGroup)
    requires Grouped(envelopes, index, groups) && key !in groups && group.spans == [] && group.indexes == []
    ensures IsGroup(envelopes, index, key, group)
  {}

  lemma NothingGrouped(envelopes: seq<Envelope>, index: nat, groups: map<string, SpanGroup>)
    requires index < |envelopes| && envelopes[index].spanBatch == None && Grouped(envelopes, index, groups)
    ensures Grouped(envelopes, index + 1, groups)
  {
    hide IsGroup;
    forall key | key in groups ensures IsGroup(envelopes, index + 1, key, groups[key]) { OtherGroups(envelopes, index, key, groups[key]); }
  }

  /** The second part: the newest metrics of each service. */
  method NewestMetrics(envelopes: seq<Envelope>) returns (runtimes: map<string, RuntimeMetrics>)
    ensures Latest(envelopes, |envelopes|, runtimes)
  {
    runtimes := map[];
    for index := 0 to |envelopes|
      invariant Latest(envelopes, index, runtimes)
    {
      ghost var before := runtimes;
      if envelopes[index].runtimeMetrics.Some? {
        var metrics := envelopes[index].runtimeMetrics.value;
        var service := metrics.serviceName;
        if service !in runtimes || runtimes[service].timestamp <= metrics.timestamp {
          runtimes := runtimes[service := metrics];
        }
      }
      forall service | service in runtimes ensures IsNewest(envelopes, index + 1, service, runtimes[service]) {
        NewestStep(envelopes, index, before, runtimes, service);
      }
    }
  }

  lemma NewestStep(envelopes: seq<Envelope>, index: nat, before: map<string, RuntimeMetrics>, after: map<string, RuntimeMetrics>, service: string)
    requires index < |envelopes| && Latest(envelopes, index, before) && service in after
    requires if Reports(envelopes, service, index) && (service !in before || before[service].timestamp <= envelopes[index].runtimeMetrics.value.timestamp)
             then after[service] == envelopes[index].runtimeMetrics.value
             else service in before && after[service] == before[service]
    ensures IsNewest(envelopes, index + 1, service, after[service])
  {
    if service in before {
      assert IsNewest(envelopes, index, service, before[service]);
      var i :| 0 <= i < index && Reports(envelopes, service, i) && envelopes[i].runtimeMetrics.value == before[service]
        && forall j :: 0 <= j < index && Reports(envelopes, service, j) ==> Later(envelopes, i, j);
      if Reports(envelopes, service, index) && before[service].timestamp <= envelopes[index].runtimeMetrics.value.timestamp {
        assert forall j :: 0 <= j < index + 1 && Reports(envelopes, service, j) ==> Later(envelopes, index, j);
      } else {
        assert forall j :: 0 <= j < index + 1 && Reports(envelopes, service, j) ==> Later(envelopes, i, j);
      }
    } else {
      assert forall j :: 0 <= j < index + 1 && Reports(envelopes, service, j) ==> j == index;
    }
  }

  // ---- sorted keys ----------------------------------------------------------------------------------------------

  /** The order of strings by their characters. */
  predicate Before(a: string, b: string) {
    b != "" && (a == "" || a[0] < b[0] || (a[0] == b[0] && Before(a[1..], b[1..])))
  }

  /** It is the order of dictionaries: the first difference decides, and a beginning comes before what it begins. */
  lemma {:induction false} BeforeIff(a: string, b: string)
    ensures Before(a, b) <==> exists k :: 0 <= k <= |a| && k < |b| && Differ(a, b, k)
  {
    assert forall k :: 0 < k <= |a| && k < |b| ==> a[..k][0] == a[0] && b[..k][0] == b[0];
    if a != "" && b != "" && a[0] == b[0] {
      BeforeIff(a[1..], b[1..]);
      if k :| 0 <= k <= |a[1..]| && k < |b[1..]| && Differ(a[1..], b[1..], k) {
        assert a[..k + 1] == [a[0]] + a[1..][..k] && b[..k + 1] == [b[0]] + b[1..][..k];
        assert Differ(a, b, k + 1);
      }
      if k :| 0 <= k <= |a| && k < |b| && Differ(a, b, k) {
        assert k > 0 && a[1..][..k - 1] == a[..k][1..] && b[1..][..k - 1] == b[..k][1..];
        assert Differ(a[1..], b[1..], k - 1);
      }
    } else if b != "" {
      if Before(a, b) { assert Differ(a, b, 0); }
    }
  }

  predicate Differ(a: string, b: string, k: nat) {
    k <= |a| && k < |b| && a[..k] == b[..k] && (k == |a| || a[k] < b[k])
  }

  lemma {:induction false} BeforeIsOrder(a: string, b: string, c: string)
    ensures !Before(a, a) && (a == b || Before(a, b) || Before(b, a))
    ensures Before(a, b) && Before(b, c) ==> Before(a, c)
  {
    if a != "" && b != "" {
      if c != "" { BeforeIsOrder(a[1..], b[1..], c[1..]); } else { BeforeIsOrder(a[1..], b[1..], ""); }
      assert a == [a[0]] + a[1..] && b == [b[0]] + b[1..];
    } else if a != "" {
      BeforeIsOrder(a[1..], "", "");
    }
  }

  ghost predicate Ascending(keys: seq<string>) {
    forall i, j :: 0 <= i < j < |keys| ==> Before(keys[i], keys[j])
  }

  /** `sortedKeys`. */
  method SortedKeys(s: set<string>) returns (keys: seq<string>)
    ensures Elements(keys) == s && Ascending(keys) && |keys| == |s|
  {
    keys := [];
    var rest := s;
    while rest != {}
      invariant rest <= s && |keys| + |rest| == |s| && Ascending(keys)
      invariant forall k :: k in keys <==> k in s && k !in rest
      invariant forall k, r :: k in keys && r in rest ==> Before(k, r)
      decreases |rest|
    {
      var least := Least(rest);
      rest := rest - {least};
      keys := keys + [least];
    }
  }

  method Least(s: set<string>) returns (least: string)
    requires s != {}
    ensures least in s && forall x :: x in s && x != least ==> Before(least, x)
  {
    least :| least in s;
    var rest := s - {least};
    while rest != {}
      invariant least in s && rest <= s && least !in rest
      invariant forall x :: x in s && x !in rest && x != least ==> Before(least, x)
      decreases |rest|
    {
      var x :| x in rest;
      rest := rest - {x};
      forall y ensures least == x || Before(least, x) || Before(x, least)
        ensures Before(x, least) && Before(least, y) ==> Before(x, y) {
        BeforeIsOrder(x, least, y);
      }
      if Before(x, least) { least := x; }
    }
  }
}
