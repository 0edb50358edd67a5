/**
 * The state of the topology engine and what its counters mean: sums over the spans, dependencies and path shares
 * that were ever taken in, each exactly once. Order of arrival does not appear in it.
 */
module EngineState {
  import opened Telemetry
  import opened Spans
  import opened TracePaths
  import opened Tallies

  /** `metricAccumulator`. */
  datatype Metrics = Metrics(count: nat, errors: nat, total: real, latencies: seq<real>)

  const NO_CALLS := Metrics(0, 0, 0.0, [])

  /** What the first span of a node says about it. */
  datatype About = About(name: string, kind: string, framework: string, operation: string)

  function TextAttribute(s: Span, key: string): string {
    if key in s.attributes && s.attributes[key].Text? then s.attributes[key].text else ""
  }

  /** What `resolveNode` notes about a node when it creates it. */
  function Describe(s: Span): About {
    var className, shown := TextAttribute(s, "nodeflow.class"), TextAttribute(s, "nodeflow.topology_name");
    var method_, operation := TextAttribute(s, "nodeflow.method"), TextAttribute(s, "nodeflow.operation");
    About(if (s.kind == "controller" || s.kind == "service") && className != "" then className
          else if shown == "" then s.name else shown,
          s.kind, TextAttribute(s, "nodeflow.framework"), if method_ != "" then method_ else operation)
  }

  datatype NodeState = NodeState(about: About, metrics: Metrics)

  datatype EdgeKey = EdgeKey(source: string, target: string)

  datatype PathState = PathState(metrics: Metrics, lastUpdatedAt: nat)

  datatype TraceState = TraceState(
    spans: SpanMap, order: seq<string>, lastUpdatedAt: nat, contributions: map<PathKey, Contribution>)

  /** The key of `seenEdgeSpanIDs`. */
  datatype SpanKey = SpanKey(traceID: string, spanID: string)

  type Traces = map<string, TraceState>

  // ---- metrics ---------------------------------------------------------------------------------------------

  /** `record`: the window keeps the last `max` latencies. */
  function Recorded(m: Metrics, duration: real, failed: bool, max: nat): Metrics {
    var latencies := m.latencies + [duration];
    Metrics(m.count + 1, m.errors + (if failed then 1 else 0), m.total + duration,
            if |latencies| > max then latencies[1..] else latencies)
  }

  /** The metrics of an entry that was called like this, one call after the other. */
  function RecordedAll(calls: seq<(real, bool)>, max: nat): Metrics {
    if calls == [] then NO_CALLS
    else
      var last := calls[|calls| - 1];
      Recorded(RecordedAll(calls[..|calls| - 1], max), last.0, last.1, max)
  }

  function Durations(calls: seq<(real, bool)>): seq<real> {
    seq(|calls|, k requires 0 <= k < |calls| => calls[k].0)
  }

  /** The window holds the durations of the last calls, as many as it may, in order. */
  lemma {:induction false} WindowIs(calls: seq<(real, bool)>, max: nat)
    ensures var m, n := RecordedAll(calls, max), |calls|;
            m.count == n && m.latencies == Durations(calls)[if n > max then n - max else 0..]
  {
    if calls != [] {
      var init := calls[..|calls| - 1];
      WindowIs(init, max);
      assert Durations(calls) == Durations(init) + [calls[|calls| - 1].0];
    }
  }

  function WithoutFirst(s: seq<real>, x: real): seq<real> {
    if s == [] then [] else if s[0] == x then s[1..] else [s[0]] + WithoutFirst(s[1..], x)
  }

  /** `removeRecord`. */
  function Removed(m: Metrics, duration: real, failed: bool): Metrics {
    Metrics(if m.count > 0 then m.count - 1 else m.count,
            if failed && m.errors > 0 then m.errors - 1 else m.errors,
            if m.total - duration < 0.0 then 0.0 else m.total - duration,
            WithoutFirst(m.latencies, duration))
  }

  /** Metrics agree with a tally; the window of latencies holds some of its samples. */
  ghost predicate Tracks(m: Metrics, t: Tally) {
    m.count == t.count && m.errors == t.errors && m.total == t.total && multiset(m.latencies) <= t.samples
  }

  lemma RecordTracks(m: Metrics, t: Tally, duration: real, failed: bool, max: nat)
    requires Tracks(m, t)
    ensures Tracks(Recorded(m, duration, failed, max), Plus(t, One(duration, failed)))
  {
    var latencies := m.latencies + [duration];
    assert multiset(latencies) <= t.samples + multiset{duration};
    assert latencies == [latencies[0]] + latencies[1..];
    assert multiset(latencies[1..]) <= multiset(latencies);
  }

  /** Only the first of equal samples goes, and the others keep their order. */
  lemma {:induction false} WithoutFirstAt(s: seq<real>, x: real, i: nat)
    requires i < |s| && s[i] == x && x !in s[..i]
    ensures WithoutFirst(s, x) == s[..i] + s[i + 1..]
  {
    if i > 0 {
      assert s[..i][0] == s[0] && s[1..][..i - 1] == s[..i][1..] && s[1..][i - 1] == x;
      WithoutFirstAt(s[1..], x, i - 1);
      assert s[..i] == [s[0]] + s[1..][..i - 1] && s[1..][i..] == s[i + 1..];
    }
  }

  lemma {:induction false} WithoutFirstIs(s: seq<real>, x: real)
    ensures multiset(WithoutFirst(s, x)) == multiset(s) - multiset{x}
  {
    if s != [] {
      assert s == [s[0]] + s[1..];
      if s[0] != x { WithoutFirstIs(s[1..], x); }
    }
  }

  /** Taking back a share that was added: no clamp fires. */
  lemma RemoveTracks(m: Metrics, t: Tally, duration: real, failed: bool)
    requires Tracks(m, Plus(t, One(duration, failed))) && t.total >= 0.0
    ensures Tracks(Removed(m, duration, failed), t)
    ensures m.count > 0 && (failed ==> m.errors > 0) && m.total - duration >= 0.0
  {
    WithoutFirstIs(m.latencies, duration);
    LessOne(multiset(m.latencies), t.samples, duration);
  }

  lemma LessOne(a: multiset<real>, b: multiset<real>, x: real)
    requires a <= b + multiset{x}
    ensures a - multiset{x} <= b
  {}

  /** Numbers that a snapshot may show. */
  ghost predicate Presentable(m: Metrics) {
    m.total >= 0.0 && forall k :: 0 <= k < |m.latencies| ==> m.latencies[k] >= 0.0
  }

  lemma RecordPresentable(m: Metrics, duration: real, failed: bool, max: nat)
    requires Presentable(m) && duration >= 0.0
    ensures Presentable(Recorded(m, duration, failed, max))
  {}

  lemma {:induction false} WithoutFirstPresentable(s: seq<real>, x: real)
    requires forall k :: 0 <= k < |s| ==> s[k] >= 0.0
    ensures forall k :: 0 <= k < |WithoutFirst(s, x)| ==> WithoutFirst(s, x)[k] >= 0.0
  {
    if s != [] && s[0] != x { WithoutFirstPresentable(s[1..], x); }
  }

  lemma RemovePresentable(m: Metrics, duration: real, failed: bool)
    requires Presentable(m)
    ensures Presentable(Removed(m, duration, failed))
  {
    WithoutFirstPresentable(m.latencies, duration);
  }

  /** The loop of `removeRecord` over the samples. */
  method RemoveSample(latencies: seq<real>, duration: real) returns (rest: seq<real>)
    ensures rest == WithoutFirst(latencies, duration)
  {
    for index := 0 to |latencies|
      invariant WithoutFirst(latencies, duration) == latencies[..index] + WithoutFirst(latencies[index..], duration)
    {
      if latencies[index] == duration { return latencies[..index] + latencies[index + 1..]; }
      assert latencies[..index + 1] == latencies[..index] + [latencies[index]];
      assert latencies[index..][1..] == latencies[index + 1..];
    }
    assert latencies[..|latencies|] == latencies;
    return latencies;
  }

  method RemoveRecord(m: Metrics, duration: real, failed: bool) returns (r: Metrics)
    ensures r == Removed(m, duration, failed)
  {
    var count, errors, total := m.count, m.errors, m.total;
    if count > 0 { count := count - 1; }
    if failed && errors > 0 { errors := errors - 1; }
    total := total - duration;
    if total < 0.0 { total := 0.0; }
    var latencies := RemoveSample(m.latencies, duration);
    r := Metrics(count, errors, total, latencies);
  }

  // ---- what the counters count ----------------------------------------------------------------------------------

  /** A dependency that a span stands for. */
  datatype Link = Link(child: Span, source: string)

  /** The share of one trace in one path. */
  datatype Credit = Credit(traceID: string, path: PathKey, share: Contribution)

  /** What traces that have been trimmed left in the counters. */
  datatype Past = Past(spans: multiset<Span>, links: multiset<Link>, credits: multiset<Credit>)

  const NO_PAST := Past(multiset{}, multiset{}, multiset{})

  function IsError(s: Span): bool {
    s.status == "error"
  }

  function NodeWeight(n: Naming, id: string): Span -> Tally {
    (s: Span) => if NodeOf(n, s) == Some(id) then One(s.duration, IsError(s)) else NONE
  }

  function EdgeWeight(n: Naming, e: EdgeKey): Link -> Tally {
    (l: Link) => if l.source == e.source && NodeOf(n, l.child) == Some(e.target) then One(l.child.duration, IsError(l.child)) else NONE
  }

  function PathWeight(p: PathKey): Credit -> Tally {
    (c: Credit) => if c.path == p then One(c.share.duration, c.share.failed) else NONE
  }

  function RetainedSpans(traces: Traces): set<Span> {
    set t, id | t in traces && id in traces[t].spans :: traces[t].spans[id]
  }

  function RetainedLinks(n: Naming, traces: Traces, seenEdges: set<SpanKey>): set<Link> {
    set k | k in seenEdges && IsLinked(n, traces, k) :: LinkOf(n, traces, k)
  }

  /** The span of this key depends on another node. */
  predicate IsLinked(n: Naming, traces: Traces, k: SpanKey) {
    && k.traceID in traces && k.spanID in traces[k.traceID].spans
    && Source(n, traces[k.traceID].spans, traces[k.traceID].spans[k.spanID]).Some?
  }

  function LinkOf(n: Naming, traces: Traces, k: SpanKey): Link
    requires IsLinked(n, traces, k)
  {
    var spans := traces[k.traceID].spans;
    Link(spans[k.spanID], Source(n, spans, spans[k.spanID]).value)
  }

  function RetainedCredits(traces: Traces): set<Credit> {
    set t, p | t in traces && p in traces[t].contributions :: Credit(t, p, traces[t].contributions[p])
  }

  ghost function AllSpans(traces: Traces, past: Past): multiset<Span> {
    multiset(RetainedSpans(traces)) + past.spans
  }

  ghost function AllLinks(n: Naming, traces: Traces, seenEdges: set<SpanKey>, past: Past): multiset<Link> {
    multiset(RetainedLinks(n, traces, seenEdges)) + past.links
  }

  ghost function AllCredits(traces: Traces, past: Past): multiset<Credit> {
    multiset(RetainedCredits(traces)) + past.credits
  }

  /** The entry for one key of a table of metrics: there exactly if it has been called, and then with the right sums. */
  ghost predicate EntryTracks(present: bool, m: Metrics, t: Tally) {
    (present <==> t.count > 0) && (present ==> Tracks(m, t)) && (!present ==> t == NONE)
  }

  ghost predicate NodesTrack(n: Naming, nodes: map<string, NodeState>, spans: multiset<Span>) {
    forall id :: EntryTracks(id in nodes, if id in nodes then nodes[id].metrics else NO_CALLS, Sum(NodeWeight(n, id), spans))
  }

  ghost predicate EdgesTrack(n: Naming, edges: map<EdgeKey, Metrics>, links: multiset<Link>) {
    forall e :: EntryTracks(e in edges, if e in edges then edges[e] else NO_CALLS, Sum(EdgeWeight(n, e), links))
  }

  ghost predicate PathsTrack(paths: map<PathKey, PathState>, credits: multiset<Credit>) {
    forall p :: EntryTracks(p in paths, if p in paths then paths[p].metrics else NO_CALLS, Sum(PathWeight(p), credits))
  }
}
