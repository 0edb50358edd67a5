/** Snapshots of the engine, and the validator that the reference implementation applies to them. */
module Snapshot {
  import opened Telemetry
  import opened Spans
  import opened TracePaths
  import opened Tallies
  import opened EngineState
  import opened EngineSteps
  import opened EngineTraces
  import opened EngineCore
  import Identity
  import opened Listing

  // ---- calls into a node ------------------------------------------------------------------------------------

  function Numbers(edges: map<EdgeKey, Metrics>): EdgeKey -> Tally {
    (e: EdgeKey) => if e in edges then Tally(edges[e].count, edges[e].errors, edges[e].total, multiset{}) else NONE
  }

  /** The edges into a node. */
  function Into(edges: map<EdgeKey, Metrics>, id: string): set<EdgeKey> {
    set e | e in edges && e.target == id
  }

  /** A dependency on behalf of `id` along one of these edges. */
  function AlongWeight(n: Naming, id: string, keys: set<EdgeKey>): Link -> Tally {
    (l: Link) => if NodeOf(n, l.child) == Some(id) && EdgeKey(l.source, id) in keys then One(l.child.duration, IsError(l.child)) else NONE
  }

  lemma {:induction false} SumSplits<X>(a: X -> Tally, b: X -> Tally, whole: X -> Tally, m: multiset<X>)
    requires forall x :: x in m ==> whole(x) == Plus(a(x), b(x))
    ensures Sum(whole, m) == Plus(Sum(a, m), Sum(b, m))
    decreases |m|
  {
    SumOfNothing(a);
    SumOfNothing(b);
    SumOfNothing(whole);
    PlusJoins(NONE, NONE, NONE);
    hide Sum, Plus;
    if m != multiset{} {
      var x :| x in m;
      SumTakes(whole, m, x);
      SumTakes(a, m, x);
      SumTakes(b, m, x);
      SumSplits(a, b, whole, m - multiset{x});
      PlusFour(a(x), b(x), Sum(a, m - multiset{x}), Sum(b, m - multiset{x}));
    }
  }

  lemma PlusFour(a: Tally, b: Tally, c: Tally, d: Tally)
    ensures Plus(Plus(a, b), Plus(c, d)) == Plus(Plus(a, c), Plus(b, d))
  {}

  predicate SameCalls(a: Tally, b: Tally) {
    a.count == b.count && a.errors == b.errors && a.total == b.total
  }

  /** The numbers of a set of edges into a node add up to the dependencies along them. */
  lemma {:induction false} EdgesAddUp(n: Naming, edges: map<EdgeKey, Metrics>, links: multiset<Link>, id: string, keys: set<EdgeKey>)
    requires EdgesTrack(n, edges, links) && keys <= Into(edges, id)
    ensures SameCalls(Sum(Numbers(edges), multiset(keys)), Sum(AlongWeight(n, id, keys), links))
    decreases |keys|
  {
    hide Sum, Plus;
    if keys == {} {
      SumOfNothing(Numbers(edges));
      assert multiset(keys) == multiset{};
      SumCounts(AlongWeight(n, id, {}), links);
    } else {
      var e :| e in keys;
      EdgesAddUp(n, edges, links, id, keys - {e});
      SumTakes(Numbers(edges), multiset(keys), e);
      TakeFromSet(keys, e);
      OneEdge(n, id, keys, e, links);
      assert EntryTracks(e in edges, EngineSteps.EdgeMetrics(edges, e), Sum(EdgeWeight(n, e), links));
      AddCalls(Numbers(edges)(e), Sum(EdgeWeight(n, e), links),
               Sum(Numbers(edges), multiset(keys - {e})), Sum(AlongWeight(n, id, keys - {e}), links));
    }
  }

  lemma NoneElse(a: Tally)
    ensures Plus(a, NONE) == a && Plus(NONE, a) == a
  {
    PlusJoins(a, NONE, NONE);
  }

  lemma AddCalls(a: Tally, b: Tally, c: Tally, d: Tally)
    requires SameCalls(a, b) && SameCalls(c, d)
    ensures SameCalls(Plus(a, c), Plus(b, d))
  {}

  lemma OneEdge(n: Naming, id: string, keys: set<EdgeKey>, e: EdgeKey, links: multiset<Link>)
    requires e in keys && e.target == id
    ensures Sum(AlongWeight(n, id, keys), links) == Plus(Sum(EdgeWeight(n, e), links), Sum(AlongWeight(n, id, keys - {e}), links))
  {
    hide Sum, Plus;
    forall l | l in links
      ensures AlongWeight(n, id, keys)(l) == Plus(EdgeWeight(n, e)(l), AlongWeight(n, id, keys - {e})(l))
    {
      NoneElse(EdgeWeight(n, e)(l));
      NoneElse(AlongWeight(n, id, keys - {e})(l));
      assert l.source == e.source <==> EdgeKey(l.source, id) == e;
    }
    SumSplits(EdgeWeight(n, e), AlongWeight(n, id, keys - {e}), AlongWeight(n, id, keys), links);
  }

  /** Every dependency on behalf of a node runs along one of the edges into it. */
  lemma AllAlong(n: Naming, edges: map<EdgeKey, Metrics>, links: multiset<Link>, id: string)
    requires EdgesTrack(n, edges, links)
    ensures Sum(AlongWeight(n, id, Into(edges, id)), links) == Sum(IntoWeight(n, id), links)
  {
    hide Sum;
    forall l | l in links ensures AlongWeight(n, id, Into(edges, id))(l) == IntoWeight(n, id)(l) {
      if NodeOf(n, l.child) == Some(id) {
        var e := EdgeKey(l.source, id);
        SumCounts(EdgeWeight(n, e), links);
        assert EntryTracks(e in edges, EngineSteps.EdgeMetrics(edges, e), Sum(EdgeWeight(n, e), links));
      }
    }
    SumAgrees(AlongWeight(n, id, Into(edges, id)), IntoWeight(n, id), links);
  }

  /** All dependencies on behalf of a node, present and past, were calls of that node. */
  lemma LinksAreCalls(n: Naming, v: View, past: Past, id: string)
    requires Rest(n, v, past)
    ensures Within(Sum(IntoWeight(n, id), AllLinks(n, v.traces, v.seenEdges, past)), Sum(NodeWeight(n, id), AllSpans(v.traces, past)))
  {
    hide Sum, Counted, Grounded;
    var links, spans := RetainedLinks(n, v.traces, v.seenEdges), RetainedSpans(v.traces);
    RetainedChildren(n, v);
    assert forall s :: s in spans ==> s in AllSpans(v.traces, past);
    LinksWithin(n, id, links, spans);
    SumJoins(IntoWeight(n, id), multiset(links), past.links);
    SumJoins(NodeWeight(n, id), multiset(spans), past.spans);
    WithinJoins(Sum(IntoWeight(n, id), multiset(links)), Sum(NodeWeight(n, id), multiset(spans)),
                Sum(IntoWeight(n, id), past.links), Sum(NodeWeight(n, id), past.spans));
  }

  lemma RetainedChildren(n: Naming, v: View)
    requires Deduplicated(n, v)
    ensures var links := RetainedLinks(n, v.traces, v.seenEdges);
            && (forall l :: l in links ==> l.child in RetainedSpans(v.traces))
            && (forall l, m :: l in links && m in links && l.child == m.child ==> l == m)
  {
    hide Source;
    forall k | k in v.seenEdges && IsLinked(n, v.traces, k) ensures LinkOf(n, v.traces, k).child in RetainedSpans(v.traces) {}
    forall j, k | IsLinked(n, v.traces, j) && IsLinked(n, v.traces, k) && LinkOf(n, v.traces, j).child == LinkOf(n, v.traces, k).child
      ensures LinkOf(n, v.traces, j) == LinkOf(n, v.traces, k)
    {
      if j != k { SpansDiffer(n, v.traces, v.clock, j, k); }
    }
  }

  /** In every state, the calls along the edges into a node are no more than its own calls; errors and latency likewise. */
  lemma Incoming(n: Naming, v: View, past: Past, evicted: bool, id: string)
    requires Core(n, v, past, evicted)
    ensures var t := Sum(Numbers(v.edges), multiset(Into(v.edges, id)));
            if id in v.nodes then
              t.count <= v.nodes[id].metrics.count && t.errors <= v.nodes[id].metrics.errors && t.total <= v.nodes[id].metrics.total
            else Into(v.edges, id) == {}
  {
    hide Sum, Deduplicated, Sane, Inflow, SharesCounted, AllSpans, AllLinks;
    var links := AllLinks(n, v.traces, v.seenEdges, past);
    EdgesAddUp(n, v.edges, links, id, Into(v.edges, id));
    AllAlong(n, v.edges, links, id);
    LinksAreCalls(n, v, past, id);
    assert EntryTracks(id in v.nodes, EngineSteps.NodeMetrics(v.nodes, id), Sum(NodeWeight(n, id), AllSpans(v.traces, past)));
  }

  // ---- the document -------------------------------------------------------------------------------------------

  datatype Node = Node(id: string, kind: string, name: string, framework: string, calls: int, errors: int,
                       average: real, p50: real, p95: real, p99: real)

  datatype Edge = Edge(id: string, source: string, target: string, calls: int, errors: int, average: real, p95: real)

  datatype Path = Path(id: string, entrypoint: string, nodes: seq<string>, calls: int, errors: int, average: real, p95: real)

  datatype Document = Document(version: string, nodes: seq<Node>, edges: seq<Edge>, paths: seq<Path>)

  const VERSION := "1.0"

  const NODE_TYPES: set<string> :=
    {"controller", "service", "provider", "database", "cache", "queue", "external-service", "http", "unknown"}

  /** `architectureNodeType`. */
  function NodeType(kind: string): string {
    if kind == "http-route" then "http"
    else if kind == "redis" then "cache"
    else if kind == "worker" then "provider"
    else if kind == "external-http" then "external-service"
    else if kind in {"controller", "service", "database", "queue"} then kind
    else ""
  }

  function Average(m: Metrics): real {
    if m.count == 0 then 0.0 else Round(m.total / m.count as real)
  }

  function SortReals(s: seq<real>): (r: seq<real>)
    ensures multiset(r) == multiset(s)
  {
    if s == [] then []
    else
      assert s == s[..|s| - 1] + [s[|s| - 1]];
      InsertReal(SortReals(s[..|s| - 1]), s[|s| - 1])
  }

  function InsertReal(s: seq<real>, x: real): (r: seq<real>)
    ensures multiset(r) == multiset(s) + multiset{x}
  {
    if s == [] then [x]
    else
      assert s == s[..|s| - 1] + [s[|s| - 1]];
      if x < s[|s| - 1] then InsertReal(s[..|s| - 1], x) + [s[|s| - 1]] else s + [x]
  }

  function Ceiling(x: real): int {
    -((-x).Floor)
  }

  /** `percentile`: the smallest sample that at least the given share of the window does not exceed. */
  function Percentile(values: seq<real>, share: real): (r: real)
    requires 0.0 < share <= 1.0
    ensures (forall k :: 0 <= k < |values| ==> values[k] >= 0.0) ==> r >= 0.0
  {
    if |values| == 0 then 0.0
    else
      var ordered := SortReals(values);
      var index := Rank(share, |values|);
      SortedLength(values);
      RankBelow(share, |values|);
      var sample := ordered[if index < 0 then 0 else index];
      assert sample in multiset(ordered);
      assert sample in values;
      Round(sample)
  }

  // ---- what a percentile is -----------------------------------------------------------------------------------

  /** How many samples are at most `x`. */
  function UpTo(s: seq<real>, x: real): nat {
    if s == [] then 0 else UpTo(s[..|s| - 1], x) + (if s[|s| - 1] <= x then 1 else 0)
  }

  lemma {:induction false} UpToInserted(s: seq<real>, y: real, x: real)
    ensures UpTo(InsertReal(s, y), x) == UpTo(s, x) + if y <= x then 1 else 0
  {
    if s != [] && y < s[|s| - 1] {
      var init, last := s[..|s| - 1], s[|s| - 1];
      UpToInserted(init, y, x);
      assert (InsertReal(init, y) + [last])[..|InsertReal(init, y)|] == InsertReal(init, y);
    } else {
      assert (s + [y])[..|s|] == s;
    }
  }

  lemma {:induction false} UpToSorted(s: seq<real>, x: real)
    ensures UpTo(SortReals(s), x) == UpTo(s, x)
  {
    if s != [] {
      UpToSorted(s[..|s| - 1], x);
      UpToInserted(SortReals(s[..|s| - 1]), s[|s| - 1], x);
    }
  }

  ghost predicate Ascends(s: seq<real>) {
    forall i, j :: 0 <= i < j < |s| ==> s[i] <= s[j]
  }

  /** Samples that ascend to at most `top`. */
  ghost predicate AscendsTo(s: seq<real>, top: real) {
    Ascends(s) && (s == [] || s[|s| - 1] <= top)
  }

  lemma {:induction false} InsertAscends(s: seq<real>, x: real, top: real)
    requires AscendsTo(s, top) && x <= top
    ensures AscendsTo(InsertReal(s, x), top)
  {
    hide Ascends;
    if s == [] {
      AscendsOne(x);
    } else if x < s[|s| - 1] {
      AscendsInit(s);
      InsertAscends(s[..|s| - 1], x, s[|s| - 1]);
      AscendsMore(InsertReal(s[..|s| - 1], x), s[|s| - 1]);
    } else {
      AscendsMore(s, x);
    }
  }

  lemma AscendsOne(x: real)
    ensures Ascends([x])
  {}

  lemma AscendsInit(s: seq<real>)
    requires Ascends(s) && s != []
    ensures AscendsTo(s[..|s| - 1], s[|s| - 1])
  {}

  lemma AscendsMore(s: seq<real>, x: real)
    requires AscendsTo(s, x)
    ensures Ascends(s + [x])
  {}

  lemma {:induction false} SortAscends(s: seq<real>)
    ensures Ascends(SortReals(s))
  {
    if s != [] {
      var sorted, x := SortReals(s[..|s| - 1]), s[|s| - 1];
      SortAscends(s[..|s| - 1]);
      InsertAscends(sorted, x, if sorted == [] || sorted[|sorted| - 1] <= x then x else sorted[|sorted| - 1]);
    }
  }

  lemma {:induction false} UpToAtLeast(s: seq<real>, n: nat, x: real)
    requires n <= |s| && forall k :: 0 <= k < n ==> s[k] <= x
    ensures UpTo(s, x) >= n
    decreases |s|
  {
    if n > 0 { UpToAtLeast(s[..|s| - 1], if n == |s| then n - 1 else n, x); }
  }

  lemma {:induction false} UpToAtMost(s: seq<real>, n: nat, x: real)
    requires n <= |s| && forall k :: n <= k < |s| ==> s[k] > x
    ensures UpTo(s, x) <= n
    decreases |s|
  {
    if s != [] { UpToAtMost(s[..|s| - 1], if n == |s| then n - 1 else n, x); }
  }

  lemma CeilingIs(x: real)
    ensures x <= Ceiling(x) as real < x + 1.0
  {}

  /** A percentile is, rounded, the smallest sample that at least the given share of the window does not exceed. */
  lemma PercentileIs(values: seq<real>, share: real) returns (sample: real)
    requires 0.0 < share <= 1.0 && values != []
    ensures sample in values && Percentile(values, share) == Round(sample)
    ensures UpTo(values, sample) as real >= share * |values| as real
    ensures forall x :: x < sample ==> (UpTo(values, x) as real) < share * |values| as real
  {
    hide Round, SortReals, Rank, Percentile, UpTo;
    var ordered, rank, need := SortReals(values), Rank(share, |values|), share * |values| as real;
    SortedLength(values);
    RankIs(share, |values|);
    PercentileAt(values, share);
    sample := ordered[rank];
    assert sample in multiset(ordered);
    RankCounts(values, rank, need);
  }

  /** At most `rank` samples are below the one at that place, and at least one more is not above it. */
  lemma RankCounts(values: seq<real>, rank: nat, need: real)
    requires rank < |SortReals(values)| && rank as real < need <= (rank + 1) as real
    ensures var sample := SortReals(values)[rank];
            UpTo(values, sample) as real >= need && forall x :: x < sample ==> (UpTo(values, x) as real) < need
  {
    hide SortReals, UpTo;
    var ordered := SortReals(values);
    var sample := ordered[rank];
    SortAscends(values);
    UpToSorted(values, sample);
    UpToAtLeast(ordered, rank + 1, sample);
    forall x | x < sample ensures (UpTo(values, x) as real) < need {
      UpToSorted(values, x);
      UpToAtMost(ordered, rank, x);
    }
  }

  lemma PercentileAt(values: seq<real>, share: real)
    requires 0.0 < share <= 1.0 && values != [] && 0 <= Rank(share, |values|) < |SortReals(values)|
    ensures Percentile(values, share) == Round(SortReals(values)[Rank(share, |values|)])
  {
    hide Round, SortReals, Rank;
  }

  lemma RankIs(share: real, n: nat)
    requires 0.0 < share <= 1.0 && n > 0
    ensures 0 <= Rank(share, n) < n && Rank(share, n) as real < share * n as real <= (Rank(share, n) + 1) as real
  {
    RankBelow(share, n);
    assert share * n as real > 0.0;
    CeilingIs(share * n as real);
  }

  lemma SortedLength(values: seq<real>)
    ensures |SortReals(values)| == |values|
  {
    assert |multiset(SortReals(values))| == |SortReals(values)| && |multiset(values)| == |values|;
  }

  function Rank(share: real, n: nat): int {
    Ceiling(share * n as real) - 1
  }

  lemma RankBelow(share: real, n: nat)
    requires 0.0 < share <= 1.0
    ensures Rank(share, n) < n
  {
    AtMostWhole(share, n as real);
    FloorAtLeast(-(share * n as real), 0 - n);
  }

  lemma FloorAtLeast(x: real, k: int)
    requires x >= k as real
    ensures x.Floor >= k
  {}

  lemma AtMostWhole(share: real, n: real)
    requires 0.0 < share <= 1.0 && n >= 0.0
    ensures share * n <= n
  {}

  // ---- the validator -------------------------------------------------------------------------------------------

  predicate ValidNode(n: Node) {
    && n.id != "" && n.kind in NODE_TYPES && n.calls >= 0 && n.errors >= 0
    && n.average >= 0.0 && n.p50 >= 0.0 && n.p95 >= 0.0 && n.p99 >= 0.0
  }

  predicate ValidEdge(e: Edge) {
    e.id != "" && e.calls >= 0 && e.errors >= 0 && e.average >= 0.0 && e.p95 >= 0.0
  }

  predicate ValidNumbers(p: Path) {
    p.calls >= 0 && p.errors >= 0 && p.average >= 0.0 && p.p95 >= 0.0
  }

  ghost predicate HasNode(d: Document, id: string) {
    exists k :: 0 <= k < |d.nodes| && d.nodes[k].id == id
  }

  /** What makes a snapshot valid: valid entries, IDs that are unique, and references that exist. */
  ghost predicate WellFormed(d: Document) {
    && d.version == VERSION
    && (forall k :: 0 <= k < |d.nodes| ==> ValidNode(d.nodes[k]))
    && (forall j, k :: 0 <= j < k < |d.nodes| ==> d.nodes[j].id != d.nodes[k].id)
    && (forall k :: 0 <= k < |d.edges| ==> ValidEdge(d.edges[k]) && HasNode(d, d.edges[k].source) && HasNode(d, d.edges[k].target))
    && (forall j, k :: 0 <= j < k < |d.edges| ==> d.edges[j].id != d.edges[k].id)
    && (forall k :: 0 <= k < |d.paths| ==> ValidNumbers(d.paths[k]) && forall i :: 0 <= i < |d.paths[k].nodes| ==> HasNode(d, d.paths[k].nodes[i]))
    && (forall j, k :: 0 <= j < k < |d.paths| ==> d.paths[j].id != d.paths[k].id)
  }

  datatype Malformed =
    | UnsupportedVersion | InvalidNode | DuplicateNode | InvalidEdge | DuplicateEdge | MissingNode | InvalidPath | DuplicatePath

  /** `validateSnapshot`, on documents that have the right types. */
  method Validate(d: Document) returns (error: Option<Malformed>)
    ensures error == None <==> WellFormed(d)
  {
    if d.version != VERSION { return Some(UnsupportedVersion); }
    var nodeIds: set<string> := {};
    for i := 0 to |d.nodes|
      invariant forall id :: id in nodeIds <==> exists k :: 0 <= k < i && d.nodes[k].id == id
      invariant forall k :: 0 <= k < i ==> ValidNode(d.nodes[k])
      invariant forall j, k :: 0 <= j < k < i ==> d.nodes[j].id != d.nodes[k].id
    {
      if !ValidNode(d.nodes[i]) { return Some(InvalidNode); }
      if d.nodes[i].id in nodeIds { return Some(DuplicateNode); }
      nodeIds := nodeIds + {d.nodes[i].id};
    }
    error := ValidateEdges(d, nodeIds);
    if error == None { error := ValidatePaths(d, nodeIds); }
  }

  method ValidateEdges(d: Document, nodeIds: set<string>) returns (error: Option<Malformed>)
    requires forall id :: id in nodeIds <==> HasNode(d, id)
    ensures error == None <==>
      && (forall k :: 0 <= k < |d.edges| ==> ValidEdge(d.edges[k]) && HasNode(d, d.edges[k].source) && HasNode(d, d.edges[k].target))
      && (forall j, k :: 0 <= j < k < |d.edges| ==> d.edges[j].id != d.edges[k].id)
  {
    var edgeIds: set<string> := {};
    for i := 0 to |d.edges|
      invariant forall id :: id in edgeIds <==> exists k :: 0 <= k < i && d.edges[k].id == id
      invariant forall k :: 0 <= k < i ==> ValidEdge(d.edges[k]) && d.edges[k].source in nodeIds && d.edges[k].target in nodeIds
      invariant forall j, k :: 0 <= j < k < i ==> d.edges[j].id != d.edges[k].id
    {
      if !ValidEdge(d.edges[i]) { return Some(InvalidEdge); }
      if d.edges[i].id in edgeIds { return Some(DuplicateEdge); }
      if d.edges[i].source !in nodeIds || d.edges[i].target !in nodeIds { return Some(MissingNode); }
      edgeIds := edgeIds + {d.edges[i].id};
    }
    return None;
  }

  method ValidatePaths(d: Document, nodeIds: set<string>) returns (error: Option<Malformed>)
    requires forall id :: id in nodeIds <==> HasNode(d, id)
    ensures error == None <==>
      && (forall k :: 0 <= k < |d.paths| ==> ValidNumbers(d.paths[k]) && forall i :: 0 <= i < |d.paths[k].nodes| ==> HasNode(d, d.paths[k].nodes[i]))
      && (forall j, k :: 0 <= j < k < |d.paths| ==> d.paths[j].id != d.paths[k].id)
  {
    var pathIds: set<string> := {};
    for i := 0 to |d.paths|
      invariant forall id :: id in pathIds <==> exists k :: 0 <= k < i && d.paths[k].id == id
      invariant forall k :: 0 <= k < i ==> ValidNumbers(d.paths[k]) && forall j :: 0 <= j < |d.paths[k].nodes| ==> d.paths[k].nodes[j] in nodeIds
      invariant forall j, k :: 0 <= j < k < i ==> d.paths[j].id != d.paths[k].id
    {
      var path := d.paths[i];
      if !(ValidNumbers(path) && forall j :: 0 <= j < |path.nodes| ==> path.nodes[j] in nodeIds) { return Some(InvalidPath); }
      if path.id in pathIds { return Some(DuplicatePath); }
      pathIds := pathIds + {path.id};
    }
    return None;
  }

  // ---- the snapshot of an engine ---------------------------------------------------------------------------------

  /** `StableEdgeID` and `stablePathID`. */
  datatype Ids = Ids(edge: EdgeKey -> string, path: PathKey -> string)

  /** A node ID that the spans of the topology can have. */
  ghost predicate Named(n: Naming, id: string) {
    exists s: Span :: NodeOf(n, s) == Some(id)
  }

  /** Different edges have different IDs; no node or edge has an empty one. */
  ghost predicate Proper(n: Naming, ids: Ids) {
    && (forall id :: Named(n, id) ==> id != "")
    && (forall e: EdgeKey :: ids.edge(e) != "")
    && (forall e: EdgeKey, f: EdgeKey ::
          Named(n, e.source) && Named(n, e.target) && Named(n, f.source) && Named(n, f.target) && ids.edge(e) == ids.edge(f) ==> e == f)
  }

  /** The paths of a table have IDs, and no two of them the same. */
  ghost predicate Apart(ids: Ids, paths: map<PathKey, PathState>) {
    && (forall p :: p in paths ==> ids.path(p) != "")
    && (forall p, q :: p in paths && q in paths && ids.path(p) == ids.path(q) ==> p == q)
  }

  /** The IDs of the runtime: `StableEdgeID`, and the hash of a path's text. */
  function RuntimeIds(hash: string -> string): Ids {
    Ids((e: EdgeKey) => Identity.StableEdgeID(e.source, e.target), (p: PathKey) => hash(Identity.PathText(p)))
  }

  /** Node and edge IDs of the runtime are proper. */
  lemma RuntimeProper(l: Identity.Letters, hash: string -> string)
    requires l.Lawful()
    ensures Proper(Identity.RuntimeNaming(l), RuntimeIds(hash))
  {
    hide Identity.Normal, Identity.NodeID, Identity.RuntimeNaming;
    var n := Identity.RuntimeNaming(l);
    forall id | Named(n, id) ensures id != "" && Identity.Normal(id) {
      var s :| NodeOf(n, s) == Some(id);
      Identity.NodesNormal(l, s);
    }
    forall e: EdgeKey, f: EdgeKey | Named(n, e.source) && Named(n, e.target) && Named(n, f.source) && Named(n, f.target)
        && Identity.StableEdgeID(e.source, e.target) == Identity.StableEdgeID(f.source, f.target) ensures e == f {
      Identity.EdgeIDsInjective(e.source, e.target, f.source, f.target);
    }
  }

  /** The entrypoint and the first node of a path, as its text runs them together. */
  function Head(p: PathKey): string
    requires p.nodes != []
  {
    p.entrypoint + ":" + p.nodes[0]
  }

  /** Two paths run together when their entrypoints and first nodes make the same text and the other nodes are the same. */
  ghost predicate RunTogether(p: PathKey, q: PathKey)
    requires p.nodes != [] && q.nodes != []
  {
    p != q && Head(p) == Head(q) && p.nodes[1..] == q.nodes[1..]
  }

  /** The paths of an engine have an entrypoint in normal form and at least one node, and all nodes are node IDs. */
  lemma PathsNormal(l: Identity.Letters, v: View, past: Past, evicted: bool, p: PathKey)
    requires l.Lawful() && Core(Identity.RuntimeNaming(l), v, past, evicted) && p in v.paths
    ensures p.nodes != [] && Identity.Normal(p.entrypoint) && Identity.AllNormal(p.nodes)
  {
    hide Counted, Deduplicated, Sane, Inflow, SharesCounted, Named, Identity.NodeID, Identity.Normalize, Identity.Normal;
    var n := Identity.RuntimeNaming(l);
    var name :| p.entrypoint == n.entry(name);
    Identity.NormalizeNormal(l, name);
    forall k | 0 <= k < |p.nodes| ensures Identity.Normal(p.nodes[k]) && p.nodes[k] != "" {
      NodeNamed(n, v, past, evicted, p.nodes[k]);
      NamedNormal(l, p.nodes[k]);
    }
  }

  lemma NamedNormal(l: Identity.Letters, id: string)
    requires l.Lawful() && Named(Identity.RuntimeNaming(l), id)
    ensures Identity.Normal(id) && id != ""
  {
    hide Identity.Normal, Identity.NodeID;
    var s :| NodeOf(Identity.RuntimeNaming(l), s) == Some(id);
    Identity.NodesNormal(l, s);
  }

  /**
   * With a hash that never collides, the paths of an engine have different IDs exactly if no two of them run together. A
   * hash cannot help where the text itself is the same.
   */
  lemma PathsApart(l: Identity.Letters, v: View, past: Past, evicted: bool, hash: string -> string)
    requires l.Lawful() && Core(Identity.RuntimeNaming(l), v, past, evicted)
    requires (forall x: string, y: string :: hash(x) == hash(y) ==> x == y) && forall x: string :: hash(x) != ""
    ensures forall p :: p in v.paths ==> p.nodes != []
    ensures Apart(RuntimeIds(hash), v.paths) <==> forall p, q :: p in v.paths && q in v.paths ==> !RunTogether(p, q)
  {
    hide Core, Identity.Normal, Identity.AllNormal, Identity.PathText;
    forall p | p in v.paths ensures p.nodes != [] && Identity.Normal(p.entrypoint) && Identity.AllNormal(p.nodes) {
      PathsNormal(l, v, past, evicted, p);
    }
    forall p, q | p in v.paths && q in v.paths
      ensures Identity.PathText(p) == Identity.PathText(q) <==> Head(p) == Head(q) && p.nodes[1..] == q.nodes[1..]
    {
      Identity.PathTextsAgree(p, q);
    }
  }

  function ShowNode(id: string, s: NodeState): Node {
    Node(id, NodeType(s.about.kind), s.about.name, s.about.framework, s.metrics.count, s.metrics.errors, Average(s.metrics),
         Percentile(s.metrics.latencies, 0.5), Percentile(s.metrics.latencies, 0.95), Percentile(s.metrics.latencies, 0.99))
  }

  function ShowEdge(ids: Ids, e: EdgeKey, m: Metrics): Edge {
    Edge(ids.edge(e), e.source, e.target, m.count, m.errors, Average(m), Percentile(m.latencies, 0.95))
  }

  function ShowPath(ids: Ids, p: PathKey, s: PathState): Path {
    Path(ids.path(p), p.entrypoint, p.nodes, s.metrics.count, s.metrics.errors, Average(s.metrics), Percentile(s.metrics.latencies, 0.95))
  }

  lemma NodesValid(n: Naming, ids: Ids, v: View, past: Past, evicted: bool, keys: seq<string>, d: Document)
    requires Core(n, v, past, evicted) && Proper(n, ids) && Shows(v.nodes, ShowNode, keys, d.nodes)
    ensures forall k :: 0 <= k < |d.nodes| ==> ValidNode(d.nodes[k])
    ensures forall j, k :: 0 <= j < k < |d.nodes| ==> d.nodes[j].id != d.nodes[k].id
    ensures forall id :: id in v.nodes ==> HasNode(d, id)
  {
    hide Counted, Deduplicated, Sane, Inflow, SharesCounted, Percentile, Average, Named;
    forall k | 0 <= k < |d.nodes| ensures ValidNode(d.nodes[k]) {
      NodeNamed(n, v, past, evicted, keys[k]);
      NodeShown(keys[k], v.nodes[keys[k]]);
    }
    forall id | id in v.nodes ensures HasNode(d, id) {
      var k :| 0 <= k < |keys| && keys[k] == id;
      assert d.nodes[k].id == id;
    }
  }

  lemma NodeShown(id: string, s: NodeState)
    requires id != "" && s.about.kind in TOPOLOGY_KINDS && Presentable(s.metrics)
    ensures ValidNode(ShowNode(id, s))
  {
    hide Percentile, Average;
    AverageShown(s.metrics);
  }

  lemma AverageShown(m: Metrics)
    requires m.total >= 0.0
    ensures Average(m) >= 0.0
  {
    if m.count != 0 { QuotientShown(m.total, m.count); }
  }

  lemma QuotientShown(total: real, count: nat)
    requires total >= 0.0 && count > 0
    ensures total / count as real >= 0.0
  {}

  /** A node that exists has been called by a span, so its ID is a node ID. */
  lemma NodeNamed(n: Naming, v: View, past: Past, evicted: bool, id: string)
    requires Core(n, v, past, evicted) && id in v.nodes
    ensures Named(n, id)
  {
    hide Deduplicated, Sane, Inflow, SharesCounted, EdgesTrack, Grounded, AllSpans, AllLinks;
    var spans := AllSpans(v.traces, past);
    assert EntryTracks(true, EngineSteps.NodeMetrics(v.nodes, id), Sum(NodeWeight(n, id), spans));
    SumCounts(NodeWeight(n, id), spans);
    var s :| s in spans && NodeWeight(n, id)(s) != NONE;
  }

  lemma EdgesValid(n: Naming, ids: Ids, v: View, past: Past, evicted: bool, keys: seq<EdgeKey>, d: Document)
    requires Core(n, v, past, evicted) && Proper(n, ids)
    requires Shows(v.edges, (e: EdgeKey, m: Metrics) => ShowEdge(ids, e, m), keys, d.edges)
    requires forall id :: id in v.nodes ==> HasNode(d, id)
    ensures forall k :: 0 <= k < |d.edges| ==> ValidEdge(d.edges[k]) && HasNode(d, d.edges[k].source) && HasNode(d, d.edges[k].target)
    ensures forall j, k :: 0 <= j < k < |d.edges| ==> d.edges[j].id != d.edges[k].id
  {
    hide Counted, Deduplicated, Sane, Inflow, SharesCounted, Percentile, Average, HasNode, Named;
    forall k | 0 <= k < |d.edges| ensures ValidEdge(d.edges[k]) && Named(n, keys[k].source) && Named(n, keys[k].target) {
      AverageShown(v.edges[keys[k]]);
      NodeNamed(n, v, past, evicted, keys[k].source);
      NodeNamed(n, v, past, evicted, keys[k].target);
    }
  }

  lemma PathsValid(n: Naming, ids: Ids, v: View, past: Past, evicted: bool, keys: seq<PathKey>, d: Document)
    requires Core(n, v, past, evicted) && Apart(ids, v.paths)
    requires Shows(v.paths, (p: PathKey, s: PathState) => ShowPath(ids, p, s), keys, d.paths)
    requires forall id :: id in v.nodes ==> HasNode(d, id)
    ensures forall k :: 0 <= k < |d.paths| ==> ValidNumbers(d.paths[k]) && forall i :: 0 <= i < |d.paths[k].nodes| ==> HasNode(d, d.paths[k].nodes[i])
    ensures forall j, k :: 0 <= j < k < |d.paths| ==> d.paths[j].id != d.paths[k].id
  {
    hide Counted, Deduplicated, Sane, Inflow, SharesCounted, Percentile, Average, HasNode;
    forall k | 0 <= k < |d.paths| ensures ValidNumbers(d.paths[k]) { AverageShown(v.paths[keys[k]].metrics); }
  }

  lemma AllValid(n: Naming, ids: Ids, v: View, past: Past, evicted: bool, nodeKeys: seq<string>, edgeKeys: seq<EdgeKey>,
                 pathKeys: seq<PathKey>, d: Document)
    requires Core(n, v, past, evicted) && Proper(n, ids) && Apart(ids, v.paths) && d.version == VERSION
    requires Shows(v.nodes, ShowNode, nodeKeys, d.nodes)
    requires Shows(v.edges, (e: EdgeKey, m: Metrics) => ShowEdge(ids, e, m), edgeKeys, d.edges)
    requires Shows(v.paths, (p: PathKey, s: PathState) => ShowPath(ids, p, s), pathKeys, d.paths)
    ensures WellFormed(d)
  {
    hide Core, Proper, Apart, Shows, ValidNode, ValidEdge, ValidNumbers, HasNode;
    NodesValid(n, ids, v, past, evicted, nodeKeys, d);
    EdgesValid(n, ids, v, past, evicted, edgeKeys, d);
    PathsValid(n, ids, v, past, evicted, pathKeys, d);
  }

  /** `snapshotLocked`, up to the order of the entries: in every state the snapshot passes the validator. */
  method Take(n: Naming, ids: Ids, v: View, ghost past: Past, ghost evicted: bool) returns (d: Document)
    requires Core(n, v, past, evicted) && Proper(n, ids) && Apart(ids, v.paths)
    ensures WellFormed(d)
    ensures (forall id :: id in v.nodes ==> ShowNode(id, v.nodes[id]) in d.nodes) && |d.nodes| == |v.nodes|
    ensures (forall e :: e in v.edges ==> ShowEdge(ids, e, v.edges[e]) in d.edges) && |d.edges| == |v.edges|
    ensures (forall p :: p in v.paths ==> ShowPath(ids, p, v.paths[p]) in d.paths) && |d.paths| == |v.paths|
  {
    hide *;
    var showEdge, showPath := (e: EdgeKey, m: Metrics) => ShowEdge(ids, e, m), (p: PathKey, s: PathState) => ShowPath(ids, p, s);
    var nodes, nodeKeys := ListAll(v.nodes, ShowNode);
    var edges, edgeKeys := ListAll(v.edges, showEdge);
    var paths, pathKeys := ListAll(v.paths, showPath);
    d := Document(VERSION, nodes, edges, paths);
    AllValid(n, ids, v, past, evicted, nodeKeys, edgeKeys, pathKeys, d);
    ShowsAll(v.nodes, ShowNode, nodeKeys, nodes);
    ShowsAll(v.edges, showEdge, edgeKeys, edges);
    ShowsAll(v.paths, showPath, pathKeys, paths);
  }
}
