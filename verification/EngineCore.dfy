/** What the engine keeps true while it takes in a batch, step by step. */
module EngineCore {
  import opened Telemetry
  import opened Spans
  import opened Forest
  import opened TracePaths
  import opened Tallies
  import opened EngineState
  import opened EngineSteps
  import opened EngineTraces

  datatype Options = Options(naming: Naming, maxRecentTraces: nat, maxLatencySamples: nat, maxRuntimePaths: nat)

  /** The fields of the engine that the ingestion of spans changes. */
  datatype View = View(
    nodes: map<string, NodeState>,
    edges: map<EdgeKey, Metrics>,
    paths: map<PathKey, PathState>,
    traces: Traces,
    seen: set<string>,
    seenEdges: set<SpanKey>,
    clock: nat)

  /** The counters of nodes and edges are the sums over everything taken in. */
  ghost predicate Counted(n: Naming, v: View, past: Past) {
    && NodesTrack(n, v.nodes, AllSpans(v.traces, past))
    && EdgesTrack(n, v.edges, AllLinks(n, v.traces, v.seenEdges, past))
  }

  /** The counters of paths are the sums over all path shares, as long as no path was evicted. */
  ghost predicate SharesCounted(v: View, credits: multiset<Credit>, evicted: bool) {
    (!evicted ==> PathsTrack(v.paths, credits)) && Credible(credits)
  }

  /** The dedup sets are those of the retained traces. */
  ghost predicate Deduplicated(n: Naming, v: View) {
    TracesOk(v.traces, v.clock) && v.seen == SpanIDs(v.traces) && LinksOk(n, v.traces, v.seenEdges)
  }

  /** Durations are those of validated spans. */
  ghost predicate Sane(v: View, past: Past) {
    forall s :: s in AllSpans(v.traces, past) ==> s.duration >= 0.0
  }

  /** Everything that edges and paths refer to is a node, and nodes are of a kind that the topology shows. */
  ghost predicate Grounded(n: Naming, v: View) {
    && (forall e :: e in v.edges ==> e.source in v.nodes && e.target in v.nodes && e.source != e.target)
    && (forall p :: p in v.paths ==> Charted(n, v.nodes, p))
    && (forall id :: id in v.nodes ==> v.nodes[id].about.kind in TOPOLOGY_KINDS)
  }

  /** A path leads through nodes from an entrypoint in normal form. */
  ghost predicate Charted(n: Naming, nodes: map<string, NodeState>, p: PathKey) {
    p.nodes != [] && (exists name :: p.entrypoint == n.entry(name)) && forall k :: 0 <= k < |p.nodes| ==> p.nodes[k] in nodes
  }

  /** The numbers of every entry may be shown. */
  ghost predicate Showable(v: View) {
    && (forall id :: id in v.nodes ==> Presentable(v.nodes[id].metrics))
    && (forall e :: e in v.edges ==> Presentable(v.edges[e]))
    && (forall p :: p in v.paths ==> Presentable(v.paths[p].metrics))
  }

  function IntoWeight(n: Naming, id: string): Link -> Tally {
    (l: Link) => if NodeOf(n, l.child) == Some(id) then One(l.child.duration, IsError(l.child)) else NONE
  }

  /** Past dependencies on behalf of a node were calls of that node. */
  ghost predicate Inflow(n: Naming, past: Past) {
    forall id :: Within(Sum(IntoWeight(n, id), past.links), Sum(NodeWeight(n, id), past.spans))
  }

  /** Everything but the counters of paths. */
  ghost predicate Rest(n: Naming, v: View, past: Past) {
    Counted(n, v, past) && Deduplicated(n, v) && Sane(v, past) && Grounded(n, v) && Showable(v) && Inflow(n, past)
  }

  ghost predicate Core(n: Naming, v: View, past: Past, evicted: bool) {
    Rest(n, v, past) && SharesCounted(v, AllCredits(v.traces, past), evicted)
  }

  /** A trace has at most one path share for each span that it shows. */
  ghost predicate Shared(tr: TraceState) {
    |tr.contributions| <= |Items(tr.spans)|
  }

  /** Every dependency that the spans of a trace reveal has been counted. */
  ghost predicate Reconciled(n: Naming, v: View, t: string) {
    forall id :: t in v.traces && id in v.traces[t].spans ==>
      (SpanKey(t, id) in v.seenEdges <==> IsLinked(n, v.traces, SpanKey(t, id)))
  }

  /** A trace has the path shares that its spans call for exactly if it has a root or no shares at all. */
  ghost predicate PathsSettled(n: Naming, tr: TraceState) {
    && AllIn(tr.spans, tr.order) && Shared(tr)
    && (IsDesired(n, tr.spans, tr.order, tr.contributions) <==> RootList(tr.spans, tr.order) != [] || tr.contributions == map[])
  }

  /** Every span that the trace shows is on or below a parent cycle, or it shows none. */
  ghost predicate Rootless(tr: TraceState) {
    AllIn(tr.spans, tr.order) && RootList(tr.spans, tr.order) == []
  }

  function SharesOf(traces: Traces, t: string): map<PathKey, Contribution> {
    if t in traces then traces[t].contributions else map[]
  }

  ghost predicate SharesUntouched(before: Traces, after: Traces) {
    forall t :: t in after ==> after[t].contributions == SharesOf(before, t)
  }

  /** Traces without a root keep the shares they had. */
  ghost predicate StaleStay(before: Traces, after: Traces) {
    forall t :: t in after && Rootless(after[t]) ==> after[t].contributions == SharesOf(before, t)
  }

  /** What holds in the middle of a batch. */
  ghost predicate InBatch(n: Naming, v: View, past: Past, evicted: bool) {
    Core(n, v, past, evicted) && forall t :: t in v.traces ==> Shared(v.traces[t])
  }

  /** What holds between batches: the dependencies and path shares of every retained trace are up to date as well. */
  ghost predicate UpToDate(n: Naming, v: View, past: Past, evicted: bool) {
    Core(n, v, past, evicted) && forall t :: t in v.traces ==> Reconciled(n, v, t) && PathsSettled(n, v.traces[t])
  }

  // ---- a span ----------------------------------------------------------------------------------------------------

  /** The engine with one more span: the first loop of `Ingest`, for a span whose ID is new. */
  function Admit(o: Options, v: View, s: Span): View {
    var nodes :=
      match NodeOf(o.naming, s)
      case None => v.nodes
      case Some(id) =>
        var about := if id in v.nodes then v.nodes[id].about else Describe(s);
        v.nodes[id := NodeState(about, Recorded(EngineSteps.NodeMetrics(v.nodes, id), s.duration, IsError(s), o.maxLatencySamples))];
    v.(nodes := nodes, traces := WithSpan(v.traces, s, v.clock + 1), seen := v.seen + {s.spanID}, clock := v.clock + 1)
  }

  lemma AdmitCore(o: Options, v: View, past: Past, evicted: bool, s: Span)
    requires Core(o.naming, v, past, evicted) && s.spanID !in v.seen && s.duration >= 0.0
    ensures Core(o.naming, Admit(o, v, s), past, evicted)
    ensures AllSpans(Admit(o, v, s).traces, past) == AllSpans(v.traces, past) + multiset{s}
  {
    hide NodesTrack, EdgesTrack, PathsTrack, TracesOk, LinksOk, WithSpan, AllSpans, AllLinks, AllCredits, Credible, SpanIDs, Recorded, Inflow;
    hide Grounded, Showable;
    var n, next := o.naming, Admit(o, v, s);
    WithSpanOk(v.traces, s, v.clock);
    WithSpanIDs(v.traces, s, v.clock + 1);
    WithSpanSpans(v.traces, s, v.clock, past);
    WithSpanLinks(n, v.traces, s, v.clock, v.seenEdges);
    AdmitSums(n, v, past, s);
    var id := NodeOf(n, s);
    var about := if id.Some? && id.value in v.nodes then v.nodes[id.value].about else Describe(s);
    NodesGrow(n, v.nodes, AllSpans(v.traces, past), s, about, o.maxLatencySamples);
    AdmitShown(o, v, s);
  }

  lemma AdmitShown(o: Options, v: View, s: Span)
    requires Grounded(o.naming, v) && Showable(v) && s.duration >= 0.0
    ensures Grounded(o.naming, Admit(o, v, s)) && Showable(Admit(o, v, s))
  {
    hide WithSpan, Recorded, Presentable, Grounded, Showable, Charted;
    var id, w := NodeOf(o.naming, s), Admit(o, v, s);
    if id.Some? {
      var m := EngineSteps.NodeMetrics(v.nodes, id.value);
      NodePresentable(v, id.value);
      RecordPresentable(m, s.duration, IsError(s), o.maxLatencySamples);
      MoreNodes(o.naming, v, w, id.value);
    } else {
      SameNodes(o.naming, v, w);
    }
  }

  lemma NodePresentable(v: View, id: string)
    requires Showable(v)
    ensures Presentable(EngineSteps.NodeMetrics(v.nodes, id))
  {
    if id !in v.nodes { NoCallsPresentable(); }
  }

  lemma SameNodes(n: Naming, v: View, w: View)
    requires Grounded(n, v) && Showable(v) && w.nodes == v.nodes && w.edges == v.edges && w.paths == v.paths
    ensures Grounded(n, w) && Showable(w)
  {}

  lemma MoreNodes(n: Naming, v: View, w: View, id: string)
    requires Grounded(n, v) && Showable(v) && w.edges == v.edges && w.paths == v.paths
    requires id in w.nodes && w.nodes == v.nodes[id := w.nodes[id]]
    requires w.nodes[id].about.kind in TOPOLOGY_KINDS || (id in v.nodes && w.nodes[id].about == v.nodes[id].about)
    requires Presentable(w.nodes[id].metrics)
    ensures Grounded(n, w) && Showable(w)
  {
    hide Presentable;
    assert forall x :: x in v.nodes ==> x in w.nodes;
    forall p | p in w.paths ensures Charted(n, w.nodes, p) { assert Charted(n, v.nodes, p); }
  }

  lemma NoCallsPresentable()
    ensures Presentable(NO_CALLS)
  {}

  lemma AdmitSums(n: Naming, v: View, past: Past, s: Span)
    requires TracesOk(v.traces, v.clock) && s.spanID !in SpanIDs(v.traces) && LinksOk(n, v.traces, v.seenEdges)
    ensures AllLinks(n, WithSpan(v.traces, s, v.clock + 1), v.seenEdges, past) == AllLinks(n, v.traces, v.seenEdges, past)
    ensures AllCredits(WithSpan(v.traces, s, v.clock + 1), past) == AllCredits(v.traces, past)
  {
    hide TracesOk, WithSpan, SpanIDs, RetainedLinks, RetainedCredits, LinksOk;
    WithSpanLinks(n, v.traces, s, v.clock, v.seenEdges);
    WithSpanCredits(v.traces, s, v.clock + 1);
  }

  // ---- a dependency -----------------------------------------------------------------------------------------------

  /** The engine with one more dependency: the second loop of `Ingest`, for a span that is not marked yet. */
  function Connect(o: Options, v: View, k: SpanKey): View
    requires IsLinked(o.naming, v.traces, k)
  {
    var l := LinkOf(o.naming, v.traces, k);
    var e := EdgeKey(l.source, o.naming.node(l.child));
    v.(edges := v.edges[e := Recorded(EngineSteps.EdgeMetrics(v.edges, e), l.child.duration, IsError(l.child), o.maxLatencySamples)],
       seenEdges := v.seenEdges + {k})
  }

  lemma ConnectCore(o: Options, v: View, past: Past, evicted: bool, k: SpanKey)
    requires Core(o.naming, v, past, evicted) && IsLinked(o.naming, v.traces, k) && k !in v.seenEdges
    ensures Core(o.naming, Connect(o, v, k), past, evicted)
  {
    hide NodesTrack, EdgesTrack, PathsTrack, TracesOk, LinksOk, AllSpans, AllLinks, AllCredits, Credible, SpanIDs, Recorded, Inflow;
    var n, l := o.naming, LinkOf(o.naming, v.traces, k);
    LinkAdded(n, v.traces, v.clock, v.seenEdges, k, past);
    EdgesGrow(n, v.edges, AllLinks(n, v.traces, v.seenEdges, past), l, n.node(l.child), o.maxLatencySamples);
    LinkEnds(n, v, past, evicted, k);
    ChildIsSane(n, v, past, k);
    RecordPresentable(EngineSteps.EdgeMetrics(v.edges, EdgeKey(l.source, n.node(l.child))), l.child.duration, IsError(l.child), o.maxLatencySamples);
  }

  lemma ChildIsSane(n: Naming, v: View, past: Past, k: SpanKey)
    requires Sane(v, past) && IsLinked(n, v.traces, k)
    ensures LinkOf(n, v.traces, k).child.duration >= 0.0
  {
    hide Source;
    var s := v.traces[k.traceID].spans[k.spanID];
    assert s in RetainedSpans(v.traces);
    assert s in AllSpans(v.traces, past);
  }

  /** Both ends of a dependency are nodes, and different ones. */
  lemma LinkEnds(n: Naming, v: View, past: Past, evicted: bool, k: SpanKey)
    requires Core(n, v, past, evicted) && IsLinked(n, v.traces, k)
    ensures var l := LinkOf(n, v.traces, k);
            NodeOf(n, l.child) == Some(n.node(l.child)) && n.node(l.child) in v.nodes && l.source in v.nodes && l.source != n.node(l.child)
  {
    hide EdgesTrack, PathsTrack, TracesOk, LinksOk, Credible, SpanIDs, Inflow, NodesTrack, Nearest;
    var spans := v.traces[k.traceID].spans;
    var s := spans[k.spanID];
    NearestIsNode(n, spans, s.parentSpanID, {});
    var a :| a in spans && NodeOf(n, spans[a]) == Nearest(n, spans, s.parentSpanID, {});
    SpanHasNode(n, v, past, k.traceID, k.spanID);
    SpanHasNode(n, v, past, k.traceID, a);
  }

  /** The node of every retained span exists. */
  lemma SpanHasNode(n: Naming, v: View, past: Past, t: string, id: string)
    requires NodesTrack(n, v.nodes, AllSpans(v.traces, past)) && t in v.traces && id in v.traces[t].spans
    requires NodeOf(n, v.traces[t].spans[id]).Some?
    ensures NodeOf(n, v.traces[t].spans[id]).value in v.nodes
  {
    var s := v.traces[t].spans[id];
    var x := NodeOf(n, s).value;
    var all := AllSpans(v.traces, past);
    assert s in RetainedSpans(v.traces);
    assert s in all;
    SumCounts(NodeWeight(n, x), all);
    assert NodeWeight(n, x)(s) != NONE;
    assert EntryTracks(x in v.nodes, EngineSteps.NodeMetrics(v.nodes, x), Sum(NodeWeight(n, x), all));
  }

  // ---- the path shares of a trace ---------------------------------------------------------------------------------

  ghost function CreditsWith(v: View, past: Past, t: string, cur: map<PathKey, Contribution>): multiset<Credit> {
    OtherCredits(v.traces, past, t) + multiset(CreditsOf(t, cur))
  }

  /** The counters of paths while the shares of trace `t` are being replaced and stand at `cur`. */
  ghost predicate Sharing(v: View, past: Past, evicted: bool, t: string, cur: map<PathKey, Contribution>) {
    t in v.traces && SharesCounted(v, CreditsWith(v, past, t, cur), evicted)
  }

  lemma SharingStarts(v: View, past: Past, evicted: bool, t: string)
    requires SharesCounted(v, AllCredits(v.traces, past), evicted) && t in v.traces
    ensures Sharing(v, past, evicted, t, v.traces[t].contributions)
  {
    CreditsSplit(v.traces, past, t);
  }

  lemma CreditsOfLess(t: string, cur: map<PathKey, Contribution>, p: PathKey)
    requires p in cur
    ensures multiset(CreditsOf(t, cur)) == multiset(CreditsOf(t, cur - {p})) + multiset{Credit(t, p, cur[p])}
  {
    var c, less := Credit(t, p, cur[p]), cur - {p};
    forall q | q in cur ensures Credit(t, q, cur[q]) in CreditsOf(t, less) + {c} {
      if q != p { assert q in less && less[q] == cur[q]; }
    }
    forall q | q in less ensures Credit(t, q, less[q]) in CreditsOf(t, cur) { assert q in cur; }
    assert CreditsOf(t, cur) == CreditsOf(t, less) + {c};
    assert c !in CreditsOf(t, cur - {p});
  }

  /** Taking back one share: the path is there, no clamp fires, and it goes when this was its last call. */
  lemma ShareDropped(v: View, past: Past, evicted: bool, t: string, cur: map<PathKey, Contribution>, p: PathKey)
    requires Sharing(v, past, evicted, t, cur) && p in cur
    ensures Sharing(v.(paths := WithoutShare(v.paths, p, cur[p])), past, evicted, t, cur - {p})
    ensures !evicted ==>
      && p in v.paths && v.paths[p].metrics.count > 0 && (cur[p].failed ==> v.paths[p].metrics.errors > 0)
      && v.paths[p].metrics.total - cur[p].duration >= 0.0
  {
    hide PathsTrack, WithoutShare, CreditsOf, OtherCredits;
    var c, rest := Credit(t, p, cur[p]), CreditsWith(v, past, t, cur - {p});
    CreditsOfLess(t, cur, p);
    Reassociate(OtherCredits(v.traces, past, t), multiset(CreditsOf(t, cur - {p})), multiset{c});
    if !evicted { PathsShrink(v.paths, rest, c); }
  }

  /** Taking a share. */
  function WithShare(o: Options, paths: map<PathKey, PathState>, p: PathKey, share: Contribution, now: nat): map<PathKey, PathState> {
    paths[p := PathState(Recorded(EngineSteps.PathMetrics(paths, p), share.duration, share.failed, o.maxLatencySamples), now)]
  }

  lemma ShareTaken(o: Options, v: View, past: Past, evicted: bool, t: string, cur: map<PathKey, Contribution>,
                   p: PathKey, share: Contribution, now: nat)
    requires Sharing(v, past, evicted, t, cur) && p !in cur && share.duration >= 0.0
    ensures Sharing(v.(paths := WithShare(o, v.paths, p, share, now)), past, evicted, t, cur[p := share])
  {
    hide PathsTrack, CreditsOf, OtherCredits, Recorded;
    var c := Credit(t, p, share);
    assert cur[p := share] - {p} == cur;
    CreditsOfLess(t, cur[p := share], p);
    Reassociate(OtherCredits(v.traces, past, t), multiset(CreditsOf(t, cur)), multiset{c});
    PathsGrowIf(o, v.paths, CreditsWith(v, past, t, cur), c, now, evicted);
  }

  lemma PathsGrowIf(o: Options, paths: map<PathKey, PathState>, credits: multiset<Credit>, c: Credit, now: nat, evicted: bool)
    requires !evicted ==> PathsTrack(paths, credits)
    ensures !evicted ==> PathsTrack(WithShare(o, paths, c.path, c.share, now), credits + multiset{c})
  {
    if !evicted { PathsGrow(paths, credits, c, o.maxLatencySamples, now); }
  }

  /** The new shares are noted in the trace. */
  lemma SharingEnds(n: Naming, v: View, past: Past, evicted: bool, t: string, cur: map<PathKey, Contribution>)
    requires Rest(n, v, past) && Sharing(v, past, evicted, t, cur)
    ensures Core(n, v.(traces := WithShares(v.traces, t, cur)), past, evicted)
  {
    hide NodesTrack, EdgesTrack, PathsTrack, TracesOk, LinksOk, AllSpans, AllLinks, AllCredits, SpanIDs, Inflow, WithShares, OtherCredits, CreditsOf;
    WithSharesCredits(v.traces, past, t, cur);
    WithSharesRest(n, v.traces, v.clock, v.seenEdges, past, t, cur);
  }

  /** A path whose nodes are known may be added, and any path may go. */
  lemma PathsRest(n: Naming, v: View, past: Past, paths: map<PathKey, PathState>, clock: nat)
    requires Rest(n, v, past) && clock >= v.clock
    requires forall p :: p in paths ==> p in v.paths || Charted(n, v.nodes, p)
    requires forall p :: p in paths ==> (p in v.paths && paths[p] == v.paths[p]) || Presentable(paths[p].metrics)
    ensures Rest(n, v.(paths := paths, clock := clock), past)
  {
    hide NodesTrack, EdgesTrack, LinksOk, AllSpans, AllLinks, SpanIDs, Inflow, TraceOk;
  }

  lemma PathsLess(n: Naming, v: View, past: Past, p: PathKey, share: Contribution)
    requires Rest(n, v, past)
    ensures Rest(n, v.(paths := WithoutShare(v.paths, p, share)), past)
  {
    hide Counted, Deduplicated, Sane, Inflow, Removed;
    if p in v.paths { RemovePresentable(v.paths[p].metrics, share.duration, share.failed); }
    PathsRest(n, v, past, WithoutShare(v.paths, p, share), v.clock);
  }

  lemma PathsMore(o: Options, v: View, past: Past, p: PathKey, share: Contribution, now: nat)
    requires Rest(o.naming, v, past) && share.duration >= 0.0 && now >= v.clock
    requires Charted(o.naming, v.nodes, p)
    ensures Rest(o.naming, v.(paths := WithShare(o, v.paths, p, share, now), clock := now), past)
  {
    hide Counted, Deduplicated, Sane, Inflow, Recorded;
    RecordPresentable(EngineSteps.PathMetrics(v.paths, p), share.duration, share.failed, o.maxLatencySamples);
    PathsRest(o.naming, v, past, WithShare(o, v.paths, p, share, now), now);
  }

  /** Where the replacement of shares stands after the first loop: unchanged shares stay, the others are gone if done. */
  ghost predicate Withdrawn(contributions: map<PathKey, Contribution>, desired: map<PathKey, Contribution>, todo: set<PathKey>,
                            cur: map<PathKey, Contribution>) {
    && (forall p :: p in cur <==> p in contributions && (p in todo || Unchanged(contributions, desired, p)))
    && (forall p :: p in cur ==> cur[p] == contributions[p])
  }

  predicate Unchanged(contributions: map<PathKey, Contribution>, desired: map<PathKey, Contribution>, p: PathKey) {
    p in contributions && p in desired && desired[p] == contributions[p]
  }

  /** Where it stands in the second loop: the shares done so far have been taken. */
  ghost predicate Renewed(contributions: map<PathKey, Contribution>, desired: map<PathKey, Contribution>, done: seq<PathKey>,
                          cur: map<PathKey, Contribution>) {
    && (forall p :: p in cur <==> p in desired && (p in done || Unchanged(contributions, desired, p)))
    && (forall p :: p in cur ==> cur[p] == desired[p])
  }

  lemma RenewalStarts(contributions: map<PathKey, Contribution>, desired: map<PathKey, Contribution>, cur: map<PathKey, Contribution>)
    requires Withdrawn(contributions, desired, {}, cur)
    ensures Renewed(contributions, desired, [], cur)
  {}

  lemma RenewalEnds(contributions: map<PathKey, Contribution>, desired: map<PathKey, Contribution>, done: seq<PathKey>,
                    cur: map<PathKey, Contribution>)
    requires Renewed(contributions, desired, done, cur) && forall p :: p in desired ==> p in done
    ensures cur == desired
  {
    assert cur.Keys == desired.Keys;
  }

  lemma RenewalStep(contributions: map<PathKey, Contribution>, desired: map<PathKey, Contribution>, done: seq<PathKey>,
                    cur: map<PathKey, Contribution>, p: PathKey)
    requires Renewed(contributions, desired, done, cur) && p in desired
    ensures Renewed(contributions, desired, done + [p], cur[p := desired[p]])
    ensures p in cur ==> cur[p := desired[p]] == cur
  {
    assert forall q :: q in done + [p] <==> q in done || q == p;
  }

  /** After an eviction the counters of paths promise nothing more. */
  lemma SharingGivenUp(v: View, past: Past, evicted: bool, t: string, cur: map<PathKey, Contribution>, paths: map<PathKey, PathState>)
    requires Sharing(v, past, evicted, t, cur)
    ensures Sharing(v.(paths := paths), past, true, t, cur)
  {}

  // ---- the nodes of a trace's paths ---------------------------------------------------------------------------------

  lemma {:induction false} AlongNodes(n: Naming, spans: SpanMap, path: seq<string>, k: nat)
    requires (forall i :: 0 <= i < |path| ==> path[i] in spans) && k < |Along(n, spans, path)|
    ensures exists id :: id in spans && NodeOf(n, spans[id]) == Some(Along(n, spans, path)[k])
  {
    var init := path[..|path| - 1];
    if k < |Along(n, spans, init)| {
      AlongNodes(n, spans, init, k);
      assert Along(n, spans, path)[k] == Along(n, spans, init)[k];
    } else {
      assert path[|path| - 1] in spans;
    }
  }

  /** The nodes of the chains that a trace contributes exist. */
  lemma LeadsToNodes(n: Naming, v: View, past: Past, t: string, r: string, nodes: seq<string>)
    requires Rest(n, v, past) && t in v.traces && Leads(n, v.traces[t].spans, r, nodes)
    ensures forall k :: 0 <= k < |nodes| ==> nodes[k] in v.nodes
  {
    hide EdgesTrack, LinksOk, AllSpans, AllLinks, SpanIDs, Inflow, TraceOk, NodesTrack;
    var spans := v.traces[t].spans;
    var longer :| Continues(spans, [r], longer) && LineNodes(n, spans, longer) == nodes;
    LineInSpans(spans, longer);
    forall k | 0 <= k < |nodes| ensures nodes[k] in v.nodes {
      AlongNodes(n, spans, longer, k);
      var id :| id in spans && NodeOf(n, spans[id]) == Some(nodes[k]);
      SpanHasNode(n, v, past, t, id);
    }
  }

  // ---- a trace that goes ----------------------------------------------------------------------------------------------

  /** The engine without one trace, as `trimTraces` leaves it. */
  function Without(v: View, t: string): View
    requires t in v.traces
  {
    v.(traces := v.traces - {t}, seen := v.seen - v.traces[t].spans.Keys, seenEdges := v.seenEdges - KeysOf(t, v.traces[t]))
  }

  lemma WithoutCore(n: Naming, v: View, past: Past, evicted: bool, t: string)
    requires Core(n, v, past, evicted) && t in v.traces
    ensures Core(n, Without(v, t), Trimmed(n, v.traces, v.seenEdges, past, t), evicted)
  {
    hide NodesTrack, EdgesTrack, PathsTrack, TracesOk, LinksOk, AllSpans, AllLinks, AllCredits, SpanIDs, Trimmed, Inflow, KeysOf, Credible;
    TrimSpans(n, v.traces, v.clock, v.seenEdges, past, t);
    TrimIDs(v.traces, v.clock, t);
    TrimLinks(n, v.traces, v.clock, v.seenEdges, past, t);
    TrimCredits(n, v.traces, v.seenEdges, past, t);
    TrimInflow(n, v, past, t);
  }

  lemma TrimInflow(n: Naming, v: View, past: Past, t: string)
    requires Rest(n, v, past) && t in v.traces
    ensures Inflow(n, Trimmed(n, v.traces, v.seenEdges, past, t))
  {
    hide NodesTrack, EdgesTrack, AllSpans, AllLinks, Sum;
    var links, spans := LinksOf(n, v.traces, v.seenEdges, t), SpansOf(v.traces[t]);
    SpansAreSane(v, past, t);
    ChildrenDiffer(n, v, t);
    forall id ensures Within(Sum(IntoWeight(n, id), past.links + multiset(links)), Sum(NodeWeight(n, id), past.spans + multiset(spans))) {
      SumJoins(IntoWeight(n, id), past.links, multiset(links));
      SumJoins(NodeWeight(n, id), past.spans, multiset(spans));
      LinksWithin(n, id, links, spans);
      WithinJoins(Sum(IntoWeight(n, id), past.links), Sum(NodeWeight(n, id), past.spans),
                  Sum(IntoWeight(n, id), multiset(links)), Sum(NodeWeight(n, id), multiset(spans)));
    }
  }

  lemma TakeFromSet<X>(s: set<X>, x: X)
    requires x in s
    ensures multiset(s) - multiset{x} == multiset(s - {x}) && |s - {x}| < |s|
  {}

  lemma WithinSelf(a: Tally)
    ensures Within(a, a)
  {}

  lemma WithinJoins(a: Tally, b: Tally, c: Tally, d: Tally)
    requires Within(a, b) && Within(c, d)
    ensures Within(Plus(a, c), Plus(b, d))
  {}

  lemma SpansAreSane(v: View, past: Past, t: string)
    requires Sane(v, past) && t in v.traces
    ensures forall s :: s in SpansOf(v.traces[t]) ==> s.duration >= 0.0
  {
    forall id | id in v.traces[t].spans ensures v.traces[t].spans[id].duration >= 0.0 {
      assert v.traces[t].spans[id] in RetainedSpans(v.traces);
      assert v.traces[t].spans[id] in AllSpans(v.traces, past);
    }
  }

  /** The dependencies of a trace are those of different spans of it. */
  lemma ChildrenDiffer(n: Naming, v: View, t: string)
    requires Deduplicated(n, v) && t in v.traces
    ensures var links := LinksOf(n, v.traces, v.seenEdges, t);
            && (forall l :: l in links ==> l.child in SpansOf(v.traces[t]))
            && (forall l, m :: l in links && m in links && l.child == m.child ==> l == m)
  {
    hide Source;
    forall j, k | IsLinked(n, v.traces, j) && IsLinked(n, v.traces, k) && j.traceID == t && k.traceID == t
                  && LinkOf(n, v.traces, j).child == LinkOf(n, v.traces, k).child
      ensures LinkOf(n, v.traces, j) == LinkOf(n, v.traces, k)
    {
      if j != k { SpansDiffer(n, v.traces, v.clock, j, k); }
    }
  }

  /** Dependencies of different spans are no more than the spans. */
  lemma {:induction false} LinksWithin(n: Naming, id: string, links: set<Link>, spans: set<Span>)
    requires forall l :: l in links ==> l.child in spans
    requires forall l, m :: l in links && m in links && l.child == m.child ==> l == m
    requires forall s :: s in spans ==> s.duration >= 0.0
    ensures Within(Sum(IntoWeight(n, id), multiset(links)), Sum(NodeWeight(n, id), multiset(spans)))
    decreases |links|
  {
    if links == {} {
      SumOfPart(NodeWeight(n, id), multiset{}, multiset(spans));
      assert multiset(links) == multiset{};
    } else {
      hide Sum, Plus, Within;
      var l :| l in links;
      LinksWithin(n, id, links - {l}, spans - {l.child});
      SumTakes(IntoWeight(n, id), multiset(links), l);
      SumTakes(NodeWeight(n, id), multiset(spans), l.child);
      TakeFromSet(links, l);
      TakeFromSet(spans, l.child);
      WithinSelf(IntoWeight(n, id)(l));
      WithinJoins(IntoWeight(n, id)(l), NodeWeight(n, id)(l.child),
                  Sum(IntoWeight(n, id), multiset(links - {l})), Sum(NodeWeight(n, id), multiset(spans - {l.child})));
    }
  }
}
