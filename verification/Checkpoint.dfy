/** Checkpoints of the engine: what is saved, that reading it back gives the same engine, and when it cannot be read back. */
module Checkpoint {
  import opened Telemetry
  import opened Spans
  import opened TracePaths
  import opened EngineState
  import opened EngineTraces
  import opened EngineCore
  import opened Engine
  import opened Listing
  import opened Snapshot
  import Identity

  datatype SavedNode = SavedNode(id: string, about: About, metrics: Metrics)

  datatype SavedEdge = SavedEdge(id: string, source: string, target: string, metrics: Metrics)

  datatype SavedPath = SavedPath(id: string, path: PathKey, state: PathState)

  datatype SavedTrace = SavedTrace(traceID: string, spans: seq<Span>, lastUpdatedAt: nat, contributions: map<PathKey, Contribution>)

  /** `persistedState`. */
  datatype State = State(
    version: nat,
    checksum: nat,
    nodes: seq<SavedNode>,
    edges: seq<SavedEdge>,
    paths: seq<SavedPath>,
    traces: seq<SavedTrace>,
    seenSpanIDs: seq<string>,
    seenEdgeSpanIDs: seq<SpanKey>,
    applicationNames: seq<string>,
    nodeVersion: string,
    clock: nat,
    revision: nat,
    runtime: Option<RuntimeMetrics>,
    maxRecentTraces: nat,
    maxLatencySamples: nat,
    maxRuntimePaths: nat)

  const STATE_VERSION := 1

  /** Everything an engine holds, as a value. */
  datatype Contents = Contents(
    options: Options, view: View, applicationNames: set<string>, nodeVersion: string, revision: nat, runtime: Option<RuntimeMetrics>)

  function ContentsOf(e: Engine): Contents
    reads e
  {
    Contents(e.options, e.V(), e.applicationNames, e.nodeVersion, e.revision, e.runtime)
  }

  // ---- saving -------------------------------------------------------------------------------------------------

  const NO_SPAN := Span("", "", "", "", "", 0.0, 0.0, "", map[])

  function InOrder(tr: TraceState): seq<Span> {
    seq(|tr.order|, k requires 0 <= k < |tr.order| => if tr.order[k] in tr.spans then tr.spans[tr.order[k]] else NO_SPAN)
  }

  function SaveNode(id: string, s: NodeState): SavedNode {
    SavedNode(id, s.about, s.metrics)
  }

  function SaveEdge(ids: Ids): (EdgeKey, Metrics) -> SavedEdge {
    (e: EdgeKey, m: Metrics) => SavedEdge(ids.edge(e), e.source, e.target, m)
  }

  function SavePath(ids: Ids): (PathKey, PathState) -> SavedPath {
    (p: PathKey, s: PathState) => SavedPath(ids.path(p), p, s)
  }

  function SaveTrace(t: string, tr: TraceState): SavedTrace {
    SavedTrace(t, InOrder(tr), tr.lastUpdatedAt, tr.contributions)
  }

  ghost predicate SavedAs<K(!new), V, D>(table: map<K, V>, show: (K, V) -> D, shown: seq<D>) {
    exists keys :: Shows(table, show, keys, shown)
  }

  /** A state describes an engine: every entry of it, each once, in some order. */
  ghost predicate Describes(ids: Ids, c: Contents, s: State) {
    && s.version == STATE_VERSION && s.checksum == 0
    && SavedAs(c.view.nodes, SaveNode, s.nodes) && SavedAs(c.view.edges, SaveEdge(ids), s.edges)
    && SavedAs(c.view.paths, SavePath(ids), s.paths) && SavedAs(c.view.traces, SaveTrace, s.traces)
    && Elements(s.seenSpanIDs) == c.view.seen && Elements(s.seenEdgeSpanIDs) == c.view.seenEdges
    && Elements(s.applicationNames) == c.applicationNames && s.nodeVersion == c.nodeVersion
    && s.clock == c.view.clock && s.revision == c.revision && s.runtime == c.runtime
    && s.maxRecentTraces == c.options.maxRecentTraces && s.maxLatencySamples == c.options.maxLatencySamples
    && s.maxRuntimePaths == c.options.maxRuntimePaths
  }

  /** `persistedState`, up to the order of the entries of each table. */
  method Persist(ids: Ids, e: Engine) returns (s: State)
    ensures Describes(ids, ContentsOf(e), s)
  {
    hide Shows;
    var nodes, nodeKeys := ListAll(e.nodes, SaveNode);
    var edges, edgeKeys := ListAll(e.edges, SaveEdge(ids));
    var paths, pathKeys := ListAll(e.paths, SavePath(ids));
    var traces, traceKeys := ListAll(e.traces, SaveTrace);
    var seenSpanIDs := ListSet(e.seenSpanIDs);
    var seenEdgeSpanIDs := ListSet(e.seenEdgeSpanIDs);
    var applicationNames := ListSet(e.applicationNames);
    s := State(STATE_VERSION, 0, nodes, edges, paths, traces, seenSpanIDs, seenEdgeSpanIDs, applicationNames,
               e.nodeVersion, e.clock, e.revision, e.runtime,
               e.options.maxRecentTraces, e.options.maxLatencySamples, e.options.maxRuntimePaths);
  }

  // ---- restoring ------------------------------------------------------------------------------------------------

  /** No empty ID, and no ID twice. */
  ghost predicate Distinguished<D>(list: seq<D>, id: D -> string) {
    && (forall k :: 0 <= k < |list| ==> id(list[k]) != "")
    && (forall j, k :: 0 <= j < k < |list| ==> id(list[j]) != id(list[k]))
  }

  const NODE_ID := (n: SavedNode) => n.id
  const EDGE_ID := (e: SavedEdge) => e.id
  const PATH_ID := (p: SavedPath) => p.id
  const TRACE_ID := (t: SavedTrace) => t.traceID
  const SPAN_ID := (s: Span) => s.spanID

  /** The states that `restoreState` accepts. */
  ghost predicate Intact(s: State) {
    && Distinguished(s.nodes, NODE_ID) && Distinguished(s.edges, EDGE_ID) && Distinguished(s.paths, PATH_ID)
    && Distinguished(s.traces, TRACE_ID) && forall k :: 0 <= k < |s.traces| ==> Distinguished(s.traces[k].spans, SPAN_ID)
  }

  function LoadNode(): SavedNode -> NodeState {
    (n: SavedNode) => NodeState(n.about, n.metrics)
  }

  function EdgeOf(): SavedEdge -> EdgeKey {
    (e: SavedEdge) => EdgeKey(e.source, e.target)
  }

  function LoadEdge(): SavedEdge -> Metrics {
    (e: SavedEdge) => e.metrics
  }

  function PathOf(): SavedPath -> PathKey {
    (p: SavedPath) => p.path
  }

  function LoadPath(): SavedPath -> PathState {
    (p: SavedPath) => p.state
  }

  function Same<X>(): X -> X {
    (x: X) => x
  }

  function SpanTable(spans: seq<Span>): SpanMap {
    Table(spans, SPAN_ID, Same())
  }

  function SpanOrder(spans: seq<Span>): seq<string> {
    seq(|spans|, k requires 0 <= k < |spans| => spans[k].spanID)
  }

  function LoadTrace(): SavedTrace -> TraceState {
    (t: SavedTrace) => TraceState(SpanTable(t.spans), SpanOrder(t.spans), t.lastUpdatedAt, t.contributions)
  }

  /** What `restoreState` makes of a state. */
  function Restored(l: Identity.Letters, s: State, requested: Options, applicationName: string, nodeVersion: string): Contents {
    var version := if s.nodeVersion == "" then nodeVersion else s.nodeVersion;
    Contents(
      Defaulted(Options(requested.naming,
                        if s.maxRecentTraces > 0 then s.maxRecentTraces else requested.maxRecentTraces,
                        if s.maxLatencySamples > 0 then s.maxLatencySamples else requested.maxLatencySamples,
                        if s.maxRuntimePaths > 0 then s.maxRuntimePaths else requested.maxRuntimePaths)),
      View(Table(s.nodes, NODE_ID, LoadNode()), Table(s.edges, EdgeOf(), LoadEdge()), Table(s.paths, PathOf(), LoadPath()),
           Table(s.traces, TRACE_ID, LoadTrace()), Elements(s.seenSpanIDs), Elements(s.seenEdgeSpanIDs), s.clock),
      Filled(Identity.Trim(applicationName, l.space)) + Elements(s.applicationNames),
      if version == "" then "unknown" else version, s.revision, s.runtime)
  }

  datatype Damage = BadNode | BadEdge | BadPath | BadTrace | BadSpan

  /** The loops of `restoreState` over nodes, edges and paths. */
  method ReadTable<D, K, V>(list: seq<D>, id: D -> string, key: D -> K, value: D -> V) returns (table: Option<map<K, V>>)
    ensures table.Some? <==> Distinguished(list, id)
    ensures table.Some? ==> table.value == Table(list, key, value)
  {
    var read: map<K, V> := map[];
    var known: set<string> := {};
    for i := 0 to |list|
      invariant read == Table(list[..i], key, value) && Distinguished(list[..i], id)
      invariant forall x :: x in known <==> exists k :: 0 <= k < i && id(list[k]) == x
    {
      assert list[..i + 1][..i] == list[..i];
      if id(list[i]) == "" || id(list[i]) in known { return None; }
      known := known + {id(list[i])};
      read := read[key(list[i]) := value(list[i])];
    }
    assert list[..|list|] == list;
    return Some(read);
  }

  /** The loop over the spans of a saved trace. */
  method ReadSpans(list: seq<Span>) returns (r: Option<(SpanMap, seq<string>)>)
    ensures r.Some? <==> Distinguished(list, SPAN_ID)
    ensures r.Some? ==> r.value == (SpanTable(list), SpanOrder(list))
  {
    var spans: SpanMap := map[];
    var order: seq<string> := [];
    for i := 0 to |list|
      invariant spans == SpanTable(list[..i]) && order == SpanOrder(list[..i]) && Distinguished(list[..i], SPAN_ID)
      invariant forall x :: x in spans <==> exists k :: 0 <= k < i && list[k].spanID == x
    {
      assert list[..i + 1][..i] == list[..i];
      var span := list[i];
      if span.spanID == "" || span.spanID in spans { return None; }
      spans := spans[span.spanID := span];
      order := order + [span.spanID];
    }
    assert list[..|list|] == list;
    return Some((spans, order));
  }

  /** The loop over the saved traces. */
  method ReadTraces(list: seq<SavedTrace>) returns (r: Result<Traces, Damage>)
    ensures r.Ok? <==> Distinguished(list, TRACE_ID) && forall k :: 0 <= k < |list| ==> Distinguished(list[k].spans, SPAN_ID)
    ensures r.Ok? ==> r.value == Table(list, TRACE_ID, LoadTrace())
  {
    hide SpanTable, SpanOrder;
    var traces: Traces := map[];
    for i := 0 to |list|
      invariant traces == Table(list[..i], TRACE_ID, LoadTrace()) && Distinguished(list[..i], TRACE_ID)
      invariant forall k :: 0 <= k < i ==> Distinguished(list[k].spans, SPAN_ID)
      invariant forall x :: x in traces <==> exists k :: 0 <= k < i && list[k].traceID == x
    {
      assert list[..i + 1][..i] == list[..i];
      var trace := list[i];
      if trace.traceID == "" || trace.traceID in traces { return Err(BadTrace); }
      var read := ReadSpans(trace.spans);
      if read == None { return Err(BadSpan); }
      traces := traces[trace.traceID := TraceState(read.value.0, read.value.1, trace.lastUpdatedAt, trace.contributions)];
    }
    assert list[..|list|] == list;
    return Ok(traces);
  }

  /** A new engine with all of a state but its tables. */
  method Start(l: Identity.Letters, s: State, o: Options, applicationName: string, nodeVersion: string) returns (e: Engine)
    ensures fresh(e) && e.options == Defaulted(o)
    ensures e.seenSpanIDs == Elements(s.seenSpanIDs) && e.seenEdgeSpanIDs == Elements(s.seenEdgeSpanIDs) && e.clock == s.clock
    ensures e.applicationNames == Filled(Identity.Trim(applicationName, l.space)) + Elements(s.applicationNames)
    ensures e.nodeVersion == (if nodeVersion == "" then "unknown" else nodeVersion) && e.revision == s.revision && e.runtime == s.runtime
  {
    hide *;
    e := new Engine(l, o, applicationName, nodeVersion);
    e.clock, e.revision, e.runtime := s.clock, s.revision, s.runtime;
    e.applicationNames := e.applicationNames + Elements(s.applicationNames);
    e.seenSpanIDs, e.seenEdgeSpanIDs := Elements(s.seenSpanIDs), Elements(s.seenEdgeSpanIDs);
  }

  /** The tables of a restored engine. */
  method Install(e: Engine, nodes: map<string, NodeState>, edges: map<EdgeKey, Metrics>, paths: map<PathKey, PathState>, traces: Traces,
                 ghost past: Past, ghost evicted: bool)
    modifies e`nodes, e`edges, e`paths, e`traces, e`past, e`evicted
    ensures e.nodes == nodes && e.edges == edges && e.paths == paths && e.traces == traces && e.past == past && e.evicted == evicted
  {
    e.nodes, e.edges, e.paths, e.traces := nodes, edges, paths, traces;
    e.past, e.evicted := past, evicted;
  }

  /** `restoreState`. */
  method Restore(l: Identity.Letters, s: State, requested: Options, applicationName: string, nodeVersion: string, ghost past: Past, ghost evicted: bool)
    returns (r: Result<Engine, Damage>)
    ensures r.Ok? <==> Intact(s)
    ensures r.Ok? ==> fresh(r.value) && ContentsOf(r.value) == Restored(l, s, requested, applicationName, nodeVersion)
    ensures r.Ok? ==> r.value.past == past && r.value.evicted == evicted
  {
    hide Table, Distinguished;
    var o := Options(requested.naming,
                     if s.maxRecentTraces > 0 then s.maxRecentTraces else requested.maxRecentTraces,
                     if s.maxLatencySamples > 0 then s.maxLatencySamples else requested.maxLatencySamples,
                     if s.maxRuntimePaths > 0 then s.maxRuntimePaths else requested.maxRuntimePaths);
    var e := Start(l, s, o, applicationName, if s.nodeVersion == "" then nodeVersion else s.nodeVersion);
    var nodes := ReadTable(s.nodes, NODE_ID, NODE_ID, LoadNode());
    if nodes == None { return Err(BadNode); }
    var edges := ReadTable(s.edges, EDGE_ID, EdgeOf(), LoadEdge());
    if edges == None { return Err(BadEdge); }
    var paths := ReadTable(s.paths, PATH_ID, PathOf(), LoadPath());
    if paths == None { return Err(BadPath); }
    var traces := ReadTraces(s.traces);
    if traces.Err? { return Err(traces.error); }
    Install(e, nodes.value, edges.value, paths.value, traces.value, past, evicted);
    return Ok(e);
  }

  // ---- the round trip -------------------------------------------------------------------------------------------

  /** Retained spans have trace and span IDs, as validation demands. */
  ghost predicate Labelled(traces: Traces) {
    forall t :: t in traces ==> t != "" && forall id :: id in traces[t].spans ==> id != ""
  }

  lemma TraceBack(t: string, tr: TraceState)
    requires TraceOk(t, tr)
    ensures TRACE_ID(SaveTrace(t, tr)) == t && LoadTrace()(SaveTrace(t, tr)) == tr
    ensures Distinguished(InOrder(tr), SPAN_ID) <==> forall id :: id in tr.spans ==> id != ""
  {
    var list := InOrder(tr);
    forall k | 0 <= k < |list| ensures list[k] == tr.spans[tr.order[k]] && list[k].spanID == tr.order[k] {}
    TableAt(list, SPAN_ID, Same(), tr.order);
    SpansBack(tr, list);
    assert SpanOrder(list) == tr.order;
    forall id | id in tr.spans ensures exists k :: 0 <= k < |list| && list[k].spanID == id {
      var k :| 0 <= k < |tr.order| && tr.order[k] == id;
      assert list[k].spanID == id;
    }
  }

  lemma SpansBack(tr: TraceState, list: seq<Span>)
    requires Listed(tr.spans, tr.order) && AllIn(tr.spans, tr.order) && |list| == |tr.order|
    requires forall k :: 0 <= k < |list| ==> list[k] == tr.spans[tr.order[k]]
    requires forall id :: id in SpanTable(list) <==> id in tr.order
    requires forall k :: 0 <= k < |list| ==> tr.order[k] in SpanTable(list) && SpanTable(list)[tr.order[k]] == list[k]
    ensures SpanTable(list) == tr.spans
  {
    hide SpanTable;
    var back := SpanTable(list);
    forall id | id in tr.spans ensures id in back && back[id] == tr.spans[id] {
      var k :| 0 <= k < |tr.order| && tr.order[k] == id;
    }
    assert back.Keys == tr.spans.Keys;
  }

  /** Tables that are saved entry by entry are read back, and none of their IDs clash. */
  lemma TableBack<D, K(!new), V>(table: map<K, V>, show: (K, V) -> D, shown: seq<D>, key: D -> K, value: D -> V, id: D -> string)
    requires SavedAs(table, show, shown)
    requires forall k :: k in table ==> key(show(k, table[k])) == k && value(show(k, table[k])) == table[k]
    requires forall j, k :: j in table && k in table && id(show(j, table[j])) == id(show(k, table[k])) ==> j == k
    ensures Table(shown, key, value) == table
    ensures Distinguished(shown, id) <==> forall k :: k in table ==> id(show(k, table[k])) != ""
  {
    var keys :| Shows(table, show, keys, shown);
    ListedBack(table, show, keys, shown, key, value);
    forall k | k in table ensures exists i :: 0 <= i < |shown| && shown[i] == show(k, table[k]) {
      var i :| 0 <= i < |keys| && keys[i] == k;
    }
  }

  lemma NodesBack(n: Naming, ids: Ids, v: View, past: Past, evicted: bool, s: State)
    requires Core(n, v, past, evicted) && Proper(n, ids) && SavedAs(v.nodes, SaveNode, s.nodes)
    ensures Table(s.nodes, NODE_ID, LoadNode()) == v.nodes && Distinguished(s.nodes, NODE_ID)
  {
    hide Core, Named, Table, SavedAs, Distinguished;
    forall id | id in v.nodes ensures id != "" { NodeNamed(n, v, past, evicted, id); }
    TableBack(v.nodes, SaveNode, s.nodes, NODE_ID, LoadNode(), NODE_ID);
  }

  lemma EdgesBack(n: Naming, ids: Ids, v: View, past: Past, evicted: bool, s: State)
    requires Core(n, v, past, evicted) && Proper(n, ids) && SavedAs(v.edges, SaveEdge(ids), s.edges)
    ensures Table(s.edges, EdgeOf(), LoadEdge()) == v.edges && Distinguished(s.edges, EDGE_ID)
  {
    hide Counted, Deduplicated, Sane, Inflow, SharesCounted, Named, Table, SavedAs, Distinguished;
    forall e | e in v.edges ensures Named(n, e.source) && Named(n, e.target) {
      NodeNamed(n, v, past, evicted, e.source);
      NodeNamed(n, v, past, evicted, e.target);
    }
    TableBack(v.edges, SaveEdge(ids), s.edges, EdgeOf(), LoadEdge(), EDGE_ID);
  }

  lemma PathsBack(ids: Ids, paths: map<PathKey, PathState>, s: State)
    requires Apart(ids, paths)
    requires SavedAs(paths, SavePath(ids), s.paths)
    ensures Table(s.paths, PathOf(), LoadPath()) == paths && Distinguished(s.paths, PATH_ID)
  {
    hide Table, SavedAs, Distinguished;
    TableBack(paths, SavePath(ids), s.paths, PathOf(), LoadPath(), PATH_ID);
  }

  lemma TracesBack(traces: Traces, clock: nat, s: State)
    requires TracesOk(traces, clock) && SavedAs(traces, SaveTrace, s.traces)
    ensures Table(s.traces, TRACE_ID, LoadTrace()) == traces
    ensures Labelled(traces) <==>
      Distinguished(s.traces, TRACE_ID) && forall k :: 0 <= k < |s.traces| ==> Distinguished(s.traces[k].spans, SPAN_ID)
  {
    hide Table, Distinguished, TraceOk, LoadTrace, InOrder;
    forall t | t in traces
      ensures TRACE_ID(SaveTrace(t, traces[t])) == t && LoadTrace()(SaveTrace(t, traces[t])) == traces[t]
      ensures Distinguished(InOrder(traces[t]), SPAN_ID) <==> forall id :: id in traces[t].spans ==> id != ""
    {
      TraceBack(t, traces[t]);
    }
    TableBack(traces, SaveTrace, s.traces, TRACE_ID, LoadTrace(), TRACE_ID);
    var keys :| Shows(traces, SaveTrace, keys, s.traces);
    forall t | t in traces ensures exists k :: 0 <= k < |s.traces| && s.traces[k] == SaveTrace(t, traces[t]) {
      var i :| 0 <= i < |keys| && keys[i] == t;
    }
  }

  /** What an engine must be for its checkpoint to bring it back: settings that were made, not left open. */
  ghost predicate SameSettings(l: Identity.Letters, c: Contents, requested: Options, applicationName: string) {
    && c.options.naming == requested.naming && c.options == Defaulted(c.options) && c.nodeVersion != ""
    && Filled(Identity.Trim(applicationName, l.space)) <= c.applicationNames
  }

  /**
   * The checkpoint of an engine in any state that it can reach is accepted exactly if no retained span lacks an ID, and
   * then it gives back the same engine, with the order of spans, the dedup sets, the clock and the path shares.
   */
  lemma StateRoundTrip(l: Identity.Letters, ids: Ids, c: Contents, past: Past, evicted: bool, s: State,
                       requested: Options, applicationName: string, nodeVersion: string)
    requires Core(c.options.naming, c.view, past, evicted) && Proper(c.options.naming, ids) && Apart(ids, c.view.paths)
    requires Describes(ids, c, s) && SameSettings(l, c, requested, applicationName)
    ensures Intact(s) <==> Labelled(c.view.traces)
    ensures Restored(l, s, requested, applicationName, nodeVersion) == c
  {
    hide Table, SavedAs, Distinguished, Counted, Sane, Grounded, Inflow, SharesCounted, Proper, Apart, Labelled, LinksOk, TracesOk;
    NodesBack(c.options.naming, ids, c.view, past, evicted, s);
    EdgesBack(c.options.naming, ids, c.view, past, evicted, s);
    PathsBack(ids, c.view.paths, s);
    TracesBack(c.view.traces, c.view.clock, s);
    assert Filled(Identity.Trim(applicationName, l.space)) + c.applicationNames == c.applicationNames;
  }
}
