/** The topology engine: its fields as the runtime keeps them, its methods as the runtime runs them. */
module Engine {
  import opened Telemetry
  import opened Spans
  import opened Forest
  import opened TracePaths
  import opened Tallies
  import opened EngineState
  import opened EngineSteps
  import opened EngineTraces
  import opened EngineCore
  import opened Identity
  import opened EngineRoom
  import opened NodeNames
  import opened Reshares
  import opened Retention
  import Maps

  /** The spans of a batch that are taken in: the first of each ID that the engine has not seen. */
  function Newcomers(seen: set<string>, spans: seq<Span>): seq<Span> {
    if spans == [] then []
    else
      var init, last := spans[..|spans| - 1], spans[|spans| - 1];
      Newcomers(seen, init) + (if last.spanID in seen || last.spanID in IDs(init) then [] else [last])
  }

  function IDs(spans: seq<Span>): set<string> {
    set s | s in spans :: s.spanID
  }

  /** Spans as validation lets them through. */
  ghost predicate Validated(spans: seq<Span>) {
    forall k :: 0 <= k < |spans| ==> spans[k].duration >= 0.0
  }

  lemma NewcomersStep(seen: set<string>, spans: seq<Span>, k: nat)
    requires k < |spans|
    ensures Newcomers(seen, spans[..k + 1])
         == Newcomers(seen, spans[..k]) + (if spans[k].spanID in seen || spans[k].spanID in IDs(spans[..k]) then [] else [spans[k]])
    ensures IDs(spans[..k + 1]) == IDs(spans[..k]) + {spans[k].spanID}
    ensures TraceIDs(spans[..k + 1]) == TraceIDs(spans[..k]) + {spans[k].traceID}
  {
    assert spans[..k + 1][..k] == spans[..k];
    assert forall s :: s in spans[..k + 1] <==> s in spans[..k] || s == spans[k];
  }

  /** Options with the defaults of the source for those that are absent. */
  function Defaulted(o: Options): (r: Options)
    ensures r.naming == o.naming && r.maxRecentTraces >= 1 && r.maxLatencySamples >= 1 && r.maxRuntimePaths >= 1
  {
    Options(o.naming,
            if o.maxRecentTraces == 0 then 50 else o.maxRecentTraces,
            if o.maxLatencySamples == 0 then 1000 else o.maxLatencySamples,
            if o.maxRuntimePaths == 0 then 1000 else o.maxRuntimePaths)
  }

  function Filled(name: string): set<string> {
    if name == "" then {} else {name}
  }

  const NOTHING := View(map[], map[], map[], map[], {}, {}, 0)

  lemma NothingUpToDate(n: Naming)
    ensures UpToDate(n, NOTHING, NO_PAST, false)
  {
    hide Sum;
    assert AllSpans(NOTHING.traces, NO_PAST) == multiset{};
    assert AllLinks(n, NOTHING.traces, NOTHING.seenEdges, NO_PAST) == multiset{};
    assert AllCredits(NOTHING.traces, NO_PAST) == multiset{};
    forall id ensures Sum(NodeWeight(n, id), multiset{}) == NONE { SumOfNothing(NodeWeight(n, id)); }
    forall e ensures Sum(EdgeWeight(n, e), multiset{}) == NONE { SumOfNothing(EdgeWeight(n, e)); }
    forall p ensures Sum(PathWeight(p), multiset{}) == NONE { SumOfNothing(PathWeight(p)); }
    forall id ensures Sum(IntoWeight(n, id), multiset{}) == NONE { SumOfNothing(IntoWeight(n, id)); }
    assert SpanIDs(NOTHING.traces) == {};
  }

  /** Traces that a batch does not mention are as they were. */
  ghost predicate SameOutside(touched: seq<string>, before: Traces, after: Traces) {
    && (forall t :: t in before ==> t in after)
    && (forall t :: t in after && t !in touched ==> t in before && after[t] == before[t])
  }

  /** The traces and the clock after these spans of a batch. */
  ghost predicate Gathers(before: Traces, seen: set<string>, clock: nat, spans: seq<Span>, after: Traces, now: nat) {
    after == Gathered(before, Newcomers(seen, spans), clock) && now == clock + |Newcomers(seen, spans)|
  }

  lemma NothingGathers(traces: Traces, seen: set<string>, clock: nat)
    ensures Gathers(traces, seen, clock, [], traces, clock)
  {}

  lemma GathersMore(before: Traces, seen: set<string>, clock: nat, spans: seq<Span>, i: nat, after: Traces, now: nat)
    requires i < |spans| && Gathers(before, seen, clock, spans[..i], after, now)
    ensures var known := spans[i].spanID in seen + IDs(spans[..i]);
            Gathers(before, seen, clock, spans[..i + 1], if known then after else WithSpan(after, spans[i], now + 1), if known then now else now + 1)
  {
    hide WithSpan, Gathered, Newcomers;
    NewcomersStep(seen, spans, i);
    GatheredMore(before, Newcomers(seen, spans[..i]), after, spans[i], spans[i].spanID in seen + IDs(spans[..i]), clock);
  }

  /** What is known of the nodes after these spans of a batch. */
  ghost predicate Names(n: Naming, before: map<string, NodeState>, seen: set<string>, spans: seq<Span>, after: map<string, NodeState>) {
    Describes(n, before, Newcomers(seen, spans), after)
  }

  lemma NothingNamed(n: Naming, nodes: map<string, NodeState>, seen: set<string>)
    ensures Names(n, nodes, seen, [], nodes)
  {
    NothingDescribed(n, nodes);
  }

  lemma NamesMore(n: Naming, before: map<string, NodeState>, seen: set<string>, spans: seq<Span>, i: nat, nodes: map<string, NodeState>,
                  after: map<string, NodeState>)
    requires i < |spans| && Names(n, before, seen, spans[..i], nodes)
    requires if spans[i].spanID in seen + IDs(spans[..i]) then after == nodes else Called(n, nodes, spans[i], after)
    ensures Names(n, before, seen, spans[..i + 1], after)
  {
    hide Newcomers, Describes, Called;
    NewcomersStep(seen, spans, i);
    if spans[i].spanID !in seen + IDs(spans[..i]) {
      DescribesMore(n, before, Newcomers(seen, spans[..i]), nodes, spans[i], after);
    }
    assert Newcomers(seen, spans[..i]) + [] == Newcomers(seen, spans[..i]);
  }

  lemma NoSpans(seen: set<string>, m: multiset<Span>)
    ensures Newcomers(seen, []) == [] && IDs([]) == {} && TraceIDs([]) == {} && m + multiset([]) == m && seen + {} == seen
  {}

  lemma NothingTouchedYet(traces: Traces)
    ensures SameOutside([], traces, traces)
  {}

  lemma NoSharesTouched(traces: Traces)
    ensures SharesUntouched(traces, traces)
  {}

  lemma NothingTouched(traces: Traces, t: string)
    ensures SameOutside([t], traces, traces) && forall m: multiset<Span> :: m + multiset([]) == m
  {}

  /** A list and the set of what is on it: one more, if it is not there yet. */
  function Noting(list: seq<string>, x: string): (r: seq<string>)
    ensures forall y :: y in r <==> y in list || y == x
  {
    if x in list then list else list + [x]
  }

  lemma TouchedMore(touched: seq<string>, t: string, start: Traces, before: Traces, after: Traces)
    requires SameOutside(touched, start, before) && SameOutside([t], before, after)
    ensures SameOutside(Noting(touched, t), start, after)
  {}

  lemma AdmittedOutside(before: Traces, s: Span, now: nat)
    ensures SameOutside([s.traceID], before, WithSpan(before, s, now))
  {}

  lemma AdmittedShares(before: Traces, s: Span, now: nat)
    ensures SharesUntouched(before, WithSpan(before, s, now)) && WithSpan(before, s, now).Keys == before.Keys + {s.traceID}
  {}

  lemma UntouchedThrough(start: Traces, before: Traces, after: Traces, ids: set<string>, t: string)
    requires SharesUntouched(start, before) && SharesUntouched(before, after)
    requires start.Keys <= before.Keys <= start.Keys + ids && before.Keys <= after.Keys <= before.Keys + {t}
    ensures SharesUntouched(start, after) && start.Keys <= after.Keys <= start.Keys + (ids + {t})
  {}

  lemma OneNewcomer(m: multiset<Span>, news: seq<Span>, more: seq<Span>)
    ensures m + multiset(news) + multiset(more) == m + multiset(news + more)
  {}

  class Engine {
    const options: Options
    var nodes: map<string, NodeState>
    var edges: map<EdgeKey, Metrics>
    var paths: map<PathKey, PathState>
    var traces: Traces
    var seenSpanIDs: set<string>
    var seenEdgeSpanIDs: set<SpanKey>
    var applicationNames: set<string>
    var nodeVersion: string
    var clock: nat
    var revision: nat
    var runtime: Option<RuntimeMetrics>
    /** What trimmed traces left in the counters, and whether a path was ever evicted. */
    ghost var past: Past
    ghost var evicted: bool

    /** `New`. */
    constructor (l: Letters, requested: Options, applicationName: string, nodeVersion: string)
      ensures options == Defaulted(requested) && Valid() && V() == NOTHING && past == NO_PAST && !evicted
      ensures revision == 0 && runtime == None && this.nodeVersion == (if nodeVersion == "" then "unknown" else nodeVersion)
      ensures applicationNames == Filled(Trim(applicationName, l.space))
    {
      options := Defaulted(requested);
      nodes, edges, paths, traces := map[], map[], map[], map[];
      seenSpanIDs, seenEdgeSpanIDs := {}, {};
      applicationNames := Filled(Trim(applicationName, l.space));
      this.nodeVersion := if nodeVersion == "" then "unknown" else nodeVersion;
      clock, revision, runtime := 0, 0, None;
      past, evicted := NO_PAST, false;
      new;
      NothingUpToDate(options.naming);
    }

    /** `RegisterApplication`. */
    method RegisterApplication(l: Letters, name: string, nodeVersion: string)
      modifies `applicationNames, `nodeVersion
      ensures applicationNames == old(applicationNames) + Filled(Trim(name, l.space))
      ensures this.nodeVersion == if Trim(nodeVersion, l.space) == "" then old(this.nodeVersion) else Trim(nodeVersion, l.space)
    {
      var service, version := Trim(name, l.space), Trim(nodeVersion, l.space);
      if service != "" { applicationNames := applicationNames + {service}; }
      if version != "" { this.nodeVersion := version; }
    }

    /** `UpdateRuntime`. */
    method UpdateRuntime(metrics: RuntimeMetrics)
      modifies `runtime, `revision
      ensures runtime == Some(metrics) && revision == old(revision) + 1
    {
      runtime := Some(metrics);
      revision := revision + 1;
    }

    function V(): View
      reads this
    {
      View(nodes, edges, paths, traces, seenSpanIDs, seenEdgeSpanIDs, clock)
    }

    /** Everything that was ever taken in. */
    ghost function Admitted(): multiset<Span>
      reads this
    {
      AllSpans(traces, past)
    }

    ghost predicate Consistent()
      reads this
    {
      InBatch(options.naming, V(), past, evicted)
    }

    ghost predicate Valid()
      reads this
    {
      UpToDate(options.naming, V(), past, evicted)
    }

    // ---- the first loop of Ingest --------------------------------------------------------------------

    /** Takes in a span whose ID is new. */
    method AdmitSpan(span: Span)
      requires Consistent() && span.spanID !in seenSpanIDs && span.duration >= 0.0
      modifies `nodes, `traces, `seenSpanIDs, `clock
      ensures V() == Admit(options, old(V()), span)
      ensures seenSpanIDs == old(seenSpanIDs) + {span.spanID} && clock == old(clock) + 1
      ensures traces == WithSpan(old(traces), span, clock)
      ensures Consistent() && Admitted() == old(Admitted()) + multiset{span} && Called(options.naming, old(nodes), span, nodes)
    {
      hide TextAttribute, IsError, Core, Shared, NodeMetrics, One, NodeOf, RetainedSpans, Rest, SharesCounted, AllCredits;
      hide Items;
      hide AllSpans, Recorded, Describe, InBatch;
      AdmitInBatch(options, V(), past, evicted, span);
      seenSpanIDs := seenSpanIDs + {span.spanID};
      var trace := if span.traceID in traces then traces[span.traceID] else NEW_TRACE;
      clock := clock + 1;
      traces := traces[span.traceID := trace.(spans := trace.spans[span.spanID := span], order := trace.order + [span.spanID], lastUpdatedAt := clock)];
      CountNode(span);
    }

    /** One turn of the first loop of `Ingest`. */
    method Offer(span: Span)
      requires Consistent() && span.duration >= 0.0
      modifies `nodes, `traces, `seenSpanIDs, `clock
      ensures Consistent() && seenSpanIDs == old(seenSpanIDs) + {span.spanID} && clock >= old(clock)
      ensures Admitted() == old(Admitted()) + multiset(if span.spanID in old(seenSpanIDs) then [] else [span])
      ensures SameOutside([span.traceID], old(traces), traces)
      ensures traces == if span.spanID in old(seenSpanIDs) then old(traces) else WithSpan(old(traces), span, clock)
      ensures clock == if span.spanID in old(seenSpanIDs) then old(clock) else old(clock) + 1
      ensures SharesUntouched(old(traces), traces) && old(traces).Keys <= traces.Keys <= old(traces).Keys + {span.traceID}
      ensures if span.spanID in old(seenSpanIDs) then nodes == old(nodes) else Called(options.naming, old(nodes), span, nodes)
    {
      hide InBatch, AllSpans, Admit, WithSpan, SameOutside, Called;
      NothingTouched(traces, span.traceID);
      if span.spanID in seenSpanIDs { return; }
      AdmittedOutside(traces, span, clock + 1);
      AdmittedShares(traces, span, clock + 1);
      AdmitSpan(span);
    }

    /** The first loop of `Ingest`: takes in the spans whose IDs are new, and lists the traces of all spans of the batch. */
    method AdmitAll(spans: seq<Span>) returns (touched: seq<string>)
      requires Consistent() && Validated(spans)
      modifies `nodes, `traces, `seenSpanIDs, `clock
      ensures Consistent() && seenSpanIDs == old(seenSpanIDs) + IDs(spans) && clock >= old(clock)
      ensures Admitted() == old(Admitted()) + multiset(Newcomers(old(seenSpanIDs), spans))
      ensures forall t :: t in touched <==> t in TraceIDs(spans)
      ensures SameOutside(touched, old(traces), traces)
      ensures SharesUntouched(old(traces), traces) && traces.Keys <= old(traces).Keys + TraceIDs(spans)
      ensures Gathers(old(traces), old(seenSpanIDs), old(clock), spans, traces, clock)
      ensures Names(options.naming, old(nodes), old(seenSpanIDs), spans, nodes)
    {
      hide Names, Called;
      hide Admitted, Consistent, SharesOf, V, Gathered;
      hide WithSpan, Gathers;
      hide InBatch, AllSpans, SameOutside, Newcomers, IDs, TraceIDs, Noting, SharesUntouched;
      touched := [];
      NoSpans(seenSpanIDs, Admitted());
      NothingTouchedYet(traces);
      NoSharesTouched(traces);
      NothingGathers(traces, seenSpanIDs, clock);
      NothingNamed(options.naming, nodes, seenSpanIDs);
      assert spans[..0] == [];
      for i := 0 to |spans|
        invariant Consistent() && seenSpanIDs == old(seenSpanIDs) + IDs(spans[..i]) && clock >= old(clock)
        invariant Admitted() == old(Admitted()) + multiset(Newcomers(old(seenSpanIDs), spans[..i]))
        invariant forall t :: t in touched <==> t in TraceIDs(spans[..i])
        invariant SameOutside(touched, old(traces), traces) && SharesUntouched(old(traces), traces)
        invariant old(traces).Keys <= traces.Keys <= old(traces).Keys + TraceIDs(spans[..i])
        invariant Gathers(old(traces), old(seenSpanIDs), old(clock), spans[..i], traces, clock)
        invariant Names(options.naming, old(nodes), old(seenSpanIDs), spans[..i], nodes)
      {
        var span := spans[i];
        NewcomersStep(old(seenSpanIDs), spans, i);
        OneNewcomer(old(Admitted()), Newcomers(old(seenSpanIDs), spans[..i]), if span.spanID in seenSpanIDs then [] else [span]);
        ghost var before, named := traces, nodes;
        GathersMore(old(traces), old(seenSpanIDs), old(clock), spans, i, traces, clock);
        Offer(span);
        NamesMore(options.naming, old(nodes), old(seenSpanIDs), spans, i, named, nodes);
        TouchedMore(touched, span.traceID, old(traces), before, traces);
        UntouchedThrough(old(traces), before, traces, TraceIDs(spans[..i]), span.traceID);
        touched := Noting(touched, span.traceID);
      }
      assert spans[..|spans|] == spans;
    }

    /** `resolveNode` with creation, and the call recorded for the node. */
    method CountNode(span: Span)
      modifies `nodes
      ensures nodes == Admit(options, old(V()), span).nodes
    {
      hide Recorded, Describe;
      var id := NodeOf(options.naming, span);
      if id.Some? {
        var node := if id.value in nodes then nodes[id.value] else NodeState(Describe(span), NO_CALLS);
        nodes := nodes[id.value := node.(metrics := Recorded(node.metrics, span.duration, IsError(span), options.maxLatencySamples))];
      }
    }

    // ---- the second loop of Ingest -------------------------------------------------------------------

    /** Counts the dependencies that the spans of a trace reveal and that have not been counted yet. */
    method LinkTrace(t: string)
      requires Consistent() && t in traces
      modifies `edges, `seenEdgeSpanIDs
      ensures Consistent() && Reconciled(options.naming, V(), t)
      ensures forall k: SpanKey :: k.traceID != t ==> (k in seenEdgeSpanIDs <==> k in old(seenEdgeSpanIDs))
      ensures forall id :: id in traces[t].spans ==>
        (SpanKey(t, id) in seenEdgeSpanIDs <==> exists node :: Depends(options.naming, traces[t].spans, traces[t].spans[id], node))
    {
      hide Core, Shared, Source, AllSpans, Depends;
      var trace := traces[t];
      OrderOk(options.naming, V(), past, evicted, t);
      for i := 0 to |trace.order|
        invariant Consistent()
        invariant forall k: SpanKey :: k.traceID != t ==> (k in seenEdgeSpanIDs <==> k in old(seenEdgeSpanIDs))
        invariant forall j :: 0 <= j < i ==> IsLinked(options.naming, traces, SpanKey(t, trace.order[j])) ==> SpanKey(t, trace.order[j]) in seenEdgeSpanIDs
      {
        LinkSpan(t, trace.order[i]);
      }
      AllLinked(options.naming, V(), past, evicted, t);
      forall id | id in trace.spans
        ensures IsLinked(options.naming, traces, SpanKey(t, id)) <==> exists node :: Depends(options.naming, trace.spans, trace.spans[id], node)
      {
        LinkedIff(options.naming, trace.spans, trace.spans[id]);
      }
    }

    /** One turn of that loop. */
    method LinkSpan(t: string, spanID: string)
      requires Consistent() && t in traces && spanID in traces[t].spans
      modifies `edges, `seenEdgeSpanIDs
      ensures Consistent()
      ensures IsLinked(options.naming, traces, SpanKey(t, spanID)) ==> SpanKey(t, spanID) in seenEdgeSpanIDs
      ensures old(seenEdgeSpanIDs) <= seenEdgeSpanIDs <= old(seenEdgeSpanIDs) + {SpanKey(t, spanID)}
    {
      hide Core, Shared, AllSpans, Recorded, Nearest;
      var child := traces[t].spans[spanID];
      var key := SpanKey(t, spanID);
      if child.parentSpanID == "" { return; }
      if key in seenEdgeSpanIDs { return; }
      var parentNode := FindNearest(options.naming, traces[t].spans, child.parentSpanID);
      var childNode := NodeOf(options.naming, child);
      if parentNode == None || childNode == None || parentNode == childNode { return; }
      ConnectCore(options, V(), past, evicted, key);
      var edge := EdgeKey(parentNode.value, childNode.value);
      var metrics := if edge in edges then edges[edge] else NO_CALLS;
      edges := edges[edge := Recorded(metrics, child.duration, IsError(child), options.maxLatencySamples)];
      seenEdgeSpanIDs := seenEdgeSpanIDs + {key};
    }

    /** The second loop over all traces of the batch. */
    method LinkAll(touched: seq<string>, ghost start: View)
      requires Consistent() && UpToDate(options.naming, start, past, evicted) && SameOutside(touched, start.traces, traces)
      requires seenEdgeSpanIDs == start.seenEdges
      modifies `edges, `seenEdgeSpanIDs
      ensures Consistent() && forall t :: t in traces ==> Reconciled(options.naming, V(), t)
    {
      hide InBatch, UpToDate, SameOutside, Reconciled;
      OutsideReconciled(options.naming, start, past, evicted, V(), touched);
      for i := 0 to |touched|
        invariant Consistent()
        invariant forall t :: t in traces && (t !in touched || t in touched[..i]) ==> Reconciled(options.naming, V(), t)
      {
        var t := touched[i];
        assert touched[..i + 1] == touched[..i] + [t];
        if t in traces {
          ghost var before := V();
          LinkTrace(t);
          OthersKeptLinks(options.naming, before, V(), t);
        }
      }
      assert touched[..|touched|] == touched;
    }

    // ---- the third loop of Ingest ----------------------------------------------------------------------

    /** `removeLeastUsefulPath`: the path with the fewest calls goes, of those the one updated longest ago. */
    method RemoveLeastUsefulPath()
      modifies `paths, `evicted
      ensures old(paths) == map[] ==> paths == old(paths) && evicted == old(evicted)
      ensures old(paths) != map[] ==> evicted && exists c :: IsLeastUseful(old(paths), c) && paths == old(paths) - {c}
    {
      if paths == map[] { return; }
      var rest := paths.Keys;
      var candidate :| candidate in rest;
      rest := rest - {candidate};
      while rest != {}
        invariant candidate in paths && rest <= paths.Keys
        invariant forall p :: p in paths && p !in rest ==> !LessUseful(paths[p], paths[candidate])
        decreases |rest|
      {
        var p :| p in rest;
        rest := rest - {p};
        if LessUseful(paths[p], paths[candidate]) { candidate := p; }
      }
      paths := paths - {candidate};
      evicted := true;
    }

    /** The loop that takes back shares which no longer apply. */
    method Withdraw(t: string, contributions: map<PathKey, Contribution>, desired: map<PathKey, Contribution>)
      returns (ghost cur: map<PathKey, Contribution>)
      requires Rest(options.naming, V(), past) && Sharing(V(), past, evicted, t, contributions)
      modifies `paths
      ensures Rest(options.naming, V(), past) && Sharing(V(), past, evicted, t, cur)
      ensures Withdrawn(contributions, desired, {}, cur) && paths.Keys <= old(paths).Keys
      ensures TakenBack(old(paths), contributions, desired, {}, paths)
    {
      hide Rest, Sharing, Removed, TakenBack;
      NothingTakenBack(paths, contributions, desired);
      cur := contributions;
      var todo := contributions.Keys;
      while todo != {}
        invariant todo <= contributions.Keys
        invariant Rest(options.naming, V(), past) && Sharing(V(), past, evicted, t, cur)
        invariant Withdrawn(contributions, desired, todo, cur) && paths.Keys <= old(paths).Keys
        invariant TakenBack(old(paths), contributions, desired, todo, paths)
        decreases |todo|
      {
        var id :| id in todo;
        TakenBackMore(old(paths), contributions, desired, todo, paths, id);
        todo := todo - {id};
        if !Unchanged(contributions, desired, id) {
          ShareDropped(V(), past, evicted, t, cur, id);
          PathsLess(options.naming, V(), past, id, cur[id]);
          cur := cur - {id};
          if id in paths {
            var metrics := RemoveRecord(paths[id].metrics, contributions[id].duration, contributions[id].failed);
            if metrics.count == 0 { paths := paths - {id}; } else { paths := paths[id := paths[id].(metrics := metrics)]; }
          }
        }
      }
    }

    /** One share taken; an unknown path may have to evict another one first. */
    method TakeShare(t: string, id: PathKey, share: Contribution, ghost cur: map<PathKey, Contribution>)
      requires Rest(options.naming, V(), past) && Sharing(V(), past, evicted, t, cur) && share.duration >= 0.0
      requires (id in cur ==> id !in paths && cur[id] == share) && Charted(options.naming, nodes, id)
      modifies `paths, `clock, `evicted
      ensures Rest(options.naming, V(), past) && Sharing(V(), past, evicted, t, cur[id := share])
      ensures exists room :: RoomMade(old(paths), id, options.maxRuntimePaths, room) && paths == WithShare(options, room, id, share, clock)
      ensures id in paths && clock == old(clock) + 1
      ensures old(evicted) ==> evicted
      ensures id in old(paths) || |old(paths)| < options.maxRuntimePaths ==> evicted == old(evicted)
      ensures Capped(old(paths), paths, options.maxRuntimePaths)
    {
      hide Rest, Sharing, Recorded, Charted, Capped, IsLeastUseful;
      if id in cur { KeptShare(V(), past, evicted, t, cur, id); }
      if id !in paths && |paths| >= options.maxRuntimePaths { MakeRoom(t, cur); }
      ShareNoted(options, V(), past, evicted, t, cur, id, share);
      ghost var room := paths;
      assert RoomMade(old(paths), id, options.maxRuntimePaths, room);
      var metrics := if id in paths then paths[id].metrics else NO_CALLS;
      clock := clock + 1;
      paths := paths[id := PathState(Recorded(metrics, share.duration, share.failed, options.maxLatencySamples), clock)];
      CappedMore(old(paths), room, id, paths[id], options.maxRuntimePaths);
    }

    /** The eviction before an unknown path is added. */
    method MakeRoom(t: string, ghost cur: map<PathKey, Contribution>)
      requires Rest(options.naming, V(), past) && Sharing(V(), past, evicted, t, cur)
      modifies `paths, `evicted
      ensures Rest(options.naming, V(), past) && Sharing(V(), past, evicted, t, cur)
      ensures paths.Keys <= old(paths).Keys && (old(evicted) ==> evicted)
      ensures |paths| == if old(paths) == map[] then 0 else old(|paths|) - 1
      ensures if old(paths) == map[] then paths == old(paths) else exists c :: IsLeastUseful(old(paths), c) && paths == old(paths) - {c}
    {
      hide Rest, Sharing, IsLeastUseful;
      ghost var before, was := V(), evicted;
      RemoveLeastUsefulPath();
      OnePathLess(options.naming, before, past, was, t, cur, paths);
    }

    /** The loop that takes the shares a trace should have and does not have yet. */
    method Renew(t: string, contributions: map<PathKey, Contribution>, desired: map<PathKey, Contribution>, desiredOrder: seq<PathKey>,
                 ghost withdrawn: map<PathKey, Contribution>)
      requires Rest(options.naming, V(), past) && Sharing(V(), past, evicted, t, withdrawn)
      requires Withdrawn(contributions, desired, {}, withdrawn)
      requires forall p :: p in desired ==> desired[p].duration >= 0.0 && Charted(options.naming, nodes, p)
      requires (forall p :: p in desiredOrder <==> p in desired) && Once(desiredOrder)
      modifies `paths, `clock, `evicted
      ensures Rest(options.naming, V(), past) && Sharing(V(), past, evicted, t, desired)
      ensures clock >= old(clock) && (old(evicted) ==> evicted)
      ensures !old(evicted) && past == NO_PAST && |PathsFor(traces, t, desired)| <= options.maxRuntimePaths ==> !evicted
      ensures Capped(old(paths), paths, options.maxRuntimePaths)
      ensures Renews(options, old(paths), contributions, desired, desiredOrder, old(clock), paths)
    {
      hide Sharing, Withdrawn, Renewed, Rest, Charted, PathsFor, Capped, Renews, RoomMade, Unchanged, WithShare;
      CappedSame(paths, options.maxRuntimePaths);
      NothingRenewed(options, paths, contributions, desired, clock);
      ghost var cur := withdrawn;
      RenewalStarts(contributions, desired, cur);
      for i := 0 to |desiredOrder|
        invariant Rest(options.naming, V(), past) && Sharing(V(), past, evicted, t, cur)
        invariant Renewed(contributions, desired, desiredOrder[..i], cur)
        invariant clock >= old(clock) && (old(evicted) ==> evicted)
        invariant !old(evicted) && past == NO_PAST && |PathsFor(traces, t, desired)| <= options.maxRuntimePaths ==> !evicted
        invariant Capped(old(paths), paths, options.maxRuntimePaths)
        invariant Renews(options, old(paths), contributions, desired, desiredOrder[..i], old(clock), paths)
      {
        var id := desiredOrder[i];
        assert desiredOrder[..i + 1] == desiredOrder[..i] + [id] && id in desiredOrder;
        RenewalStep(contributions, desired, desiredOrder[..i], cur, id);
        if Unchanged(contributions, desired, id) && id in paths {
          NotedAlready(contributions, desired, desiredOrder[..i], cur, id);
          RenewsSkip(options, old(paths), contributions, desired, desiredOrder[..i], old(clock), paths, id);
        } else {
          NotYetTaken(contributions, desired, desiredOrder, i, cur);
          OnlyDesired(contributions, desired, desiredOrder[..i], cur);
          if !evicted && past == NO_PAST && id !in paths { RoomLeft(V(), t, desired, cur, id); }
          ghost var before := paths;
          TakeShare(t, id, desired[id], cur);
          CappedThrough(old(paths), before, paths, options.maxRuntimePaths);
          ghost var room :| RoomMade(before, id, options.maxRuntimePaths, room) && paths == WithShare(options, room, id, desired[id], clock);
          RenewsTake(options, old(paths), contributions, desired, desiredOrder[..i], old(clock), before, id, room, clock);
          cur := cur[id := desired[id]];
        }
      }
      assert desiredOrder[..|desiredOrder|] == desiredOrder;
      RenewalEnds(contributions, desired, desiredOrder, cur);
    }

    /** `aggregateRuntimePaths`: replaces the path shares of a trace by those that its spans call for now. */
    method Aggregate(t: string)
      requires Consistent() && t in traces
      modifies `paths, `traces, `clock, `evicted
      ensures Consistent() && clock >= old(clock) && (old(evicted) ==> evicted) && t in traces && PathsSettled(options.naming, traces[t])
      ensures OnlyShares(old(traces), t, traces) && (Rootless(old(traces)[t]) ==> traces == old(traces))
      ensures Settles(options.naming, old(traces)[t], traces[t].contributions)
      ensures Admitted() == old(Admitted())
      ensures !old(evicted) && past == NO_PAST && |seenSpanIDs| <= options.maxRuntimePaths ==> !evicted
      ensures Capped(old(paths), paths, options.maxRuntimePaths)
      ensures if Rootless(old(traces)[t]) then paths == old(paths)
              else Reshared(options, old(paths), old(traces)[t].contributions, traces[t].contributions, old(clock), paths)
    {
      hide IsRoot, IsExtent, Listed, TraceOk, Round;
      hide Capped, TakenBack, Renews;
      hide Core, Shared, AllSpans, PathsSettled, Sharing, Settles, Withdrawn, Rest, IsShare, IsUnique, SortByStart, RootList, Linked;
      hide DesiredOf, PathsFor, PathsIn, Chains, FirstSeen, Ordered, ListsByStart, Once, IsDesired, Charted;
      var trace := traces[t];
      OrderOk(options.naming, V(), past, evicted, t);
      var roots, children := BuildTrace(trace.spans, trace.order);
      RootsSorted(trace.spans, trace.order);
      if |roots| == 0 {
        NothingToSettle(options.naming, t, trace);
        SameShares(traces, t);
        SettledBefore(options.naming, trace, trace.contributions);
        CappedSame(paths, options.maxRuntimePaths);
        return;
      }
      var share, _ := Measure(trace.spans, trace.order);
      var unique, uniqueOrder := CollectPaths(options.naming, trace.spans, roots, children);
      var desired, desiredOrder := Desire(options.naming, unique, uniqueOrder, share);
      AggregateStarts(options.naming, V(), past, evicted, t, unique, share);
      AggregateRoom(options.naming, V(), past, evicted, t, unique, share);
      ghost var cur := Withdraw(t, trace.contributions, desired);
      ghost var fewer := paths;
      CappedLess(old(paths), fewer, options.maxRuntimePaths);
      Renew(t, trace.contributions, desired, desiredOrder, cur);
      CappedThrough(old(paths), fewer, paths, options.maxRuntimePaths);
      assert Resharing(options, old(paths), trace.contributions, desired, fewer, desiredOrder, old(clock), paths);
      SharingEnds(options.naming, V(), past, evicted, t, desired);
      AggregateEnds(options.naming, V(), past, t, unique, share);
      SettledBefore(options.naming, trace, desired);
      traces := traces[t := trace.(contributions := desired)];
    }

    /** The third loop over all traces of the batch. */
    method AggregateAll(touched: seq<string>, ghost start: View)
      requires Consistent() && UpToDate(options.naming, start, past, evicted) && SameOutside(touched, start.traces, traces)
      requires (forall t :: t in traces ==> Reconciled(options.naming, V(), t)) && SharesUntouched(start.traces, traces)
      modifies `paths, `traces, `clock, `evicted
      ensures Valid() && clock >= old(clock) && (old(evicted) ==> evicted) && Admitted() == old(Admitted())
      ensures StaleStay(start.traces, traces) && traces.Keys == old(traces).Keys && SameSpans(old(traces), traces)
      ensures !old(evicted) && past == NO_PAST && |seenSpanIDs| <= options.maxRuntimePaths ==> !evicted
      ensures Capped(old(paths), paths, options.maxRuntimePaths)
    {
      hide Admitted, Resharing, IsShare, PathsFor, SharesOf;
      hide InBatch, UpToDate, SameOutside, Reconciled, PathsSettled, Core, AllSpans, Rootless, Settles, Capped, Reshared;
      CappedSame(paths, options.maxRuntimePaths);
      OutsideSettled(options.naming, start, past, evicted, traces, touched);
      for i := 0 to |touched|
        invariant Consistent() && clock >= old(clock) && (old(evicted) ==> evicted) && Admitted() == old(Admitted())
        invariant StaleStay(start.traces, traces) && traces.Keys == old(traces).Keys && SameSpans(old(traces), traces)
        invariant !old(evicted) && past == NO_PAST && |seenSpanIDs| <= options.maxRuntimePaths ==> !evicted
        invariant Capped(old(paths), paths, options.maxRuntimePaths)
        invariant forall t :: t in traces ==> Reconciled(options.naming, V(), t)
        invariant forall t :: t in traces && (t !in touched || t in touched[..i]) ==> PathsSettled(options.naming, traces[t])
      {
        var t := touched[i];
        assert touched[..i + 1] == touched[..i] + [t];
        if t in traces {
          ghost var before := V();
          Aggregate(t);
          CappedThrough(old(paths), before.paths, paths, options.maxRuntimePaths);
          SharesReconciled(options.naming, before, V(), t);
          StaleThrough(start.traces, before.traces, traces, t);
        }
      }
      assert touched[..|touched|] == touched;
      BatchDone(options.naming, V(), past, evicted);
    }

    /** `Ingest`: takes in the new spans of a batch, counts what they reveal, and trims. */
    method Ingest(spans: seq<Span>)
      requires Valid() && Validated(spans)
      modifies `nodes, `edges, `paths, `traces, `seenSpanIDs, `seenEdgeSpanIDs, `clock, `revision, `past, `evicted
      ensures Valid() && revision == old(revision) + 1 && |traces| <= options.maxRecentTraces
      ensures Admitted() == old(Admitted()) + multiset(Newcomers(old(seenSpanIDs), spans))
      ensures past == old(past) ==> seenSpanIDs == old(seenSpanIDs) + IDs(spans)
      ensures past == old(past) || |past.spans| > |old(past).spans|
      ensures |old(traces).Keys + TraceIDs(spans)| <= options.maxRecentTraces ==> past == old(past)
      ensures old(evicted) ==> evicted
      ensures !old(evicted) && old(past) == NO_PAST && |old(seenSpanIDs) + IDs(spans)| <= options.maxRuntimePaths ==> !evicted
      ensures StaleStay(old(traces), traces) && traces.Keys <= old(traces).Keys + TraceIDs(spans)
      ensures options.maxRuntimePaths >= 1 && old(|paths|) <= options.maxRuntimePaths ==> |paths| <= options.maxRuntimePaths
      ensures Retains(old(traces), Newcomers(old(seenSpanIDs), spans), old(clock), options.maxRecentTraces, traces)
      ensures Describes(options.naming, old(nodes), Newcomers(old(seenSpanIDs), spans), nodes)
    {
      hide Describes, UpToDate, AllSpans, Newcomers, IDs, TraceIDs, StaleStay, Gathered, SameSpans, Retains, TouchedLater;
      ghost var start := traces;
      ghost var news, begun := Newcomers(seenSpanIDs, spans), clock;
      ClockAhead(options.naming, V(), past, evicted);
      Absorb(spans);
      FewEnough(traces, start.Keys + TraceIDs(spans));
      ghost var before := traces;
      TrimTraces();
      StaleTrimmed(start, before, traces);
      RetainsKept(start, news, begun, before, options.maxRecentTraces, traces);
      revision := revision + 1;
    }

    /** The three loops of `Ingest`. */
    method Absorb(spans: seq<Span>)
      requires Valid() && Validated(spans)
      modifies `nodes, `edges, `paths, `traces, `seenSpanIDs, `seenEdgeSpanIDs, `clock, `evicted
      ensures Valid() && Admitted() == old(Admitted()) + multiset(Newcomers(old(seenSpanIDs), spans))
      ensures seenSpanIDs == old(seenSpanIDs) + IDs(spans) && traces.Keys <= old(traces).Keys + TraceIDs(spans)
      ensures (old(evicted) ==> evicted) && StaleStay(old(traces), traces)
      ensures SameSpans(Gathered(old(traces), Newcomers(old(seenSpanIDs), spans), old(clock)), traces)
      ensures !old(evicted) && past == NO_PAST && |seenSpanIDs| <= options.maxRuntimePaths ==> !evicted
      ensures Capped(old(paths), paths, options.maxRuntimePaths)
      ensures Describes(options.naming, old(nodes), Newcomers(old(seenSpanIDs), spans), nodes)
    {
      hide Describes, Capped;
      hide InBatch, UpToDate, SameOutside, Reconciled, AllSpans, Newcomers, IDs, TraceIDs, SharesUntouched, StaleStay, Gathered, SameSpans;
      ghost var start := V();
      BatchStarts(options.naming, V(), past, evicted);
      var touched := AdmitAll(spans);
      LinkAll(touched, start);
      AggregateAll(touched, start);
    }

    // ---- trimming --------------------------------------------------------------------------------------

    /** The trace that was touched longest ago. */
    method Oldest() returns (t: string)
      requires traces != map[]
      ensures t in traces && forall u :: u in traces ==> traces[t].lastUpdatedAt <= traces[u].lastUpdatedAt
    {
      var rest := traces.Keys;
      t :| t in rest;
      rest := rest - {t};
      while rest != {}
        invariant t in traces && rest <= traces.Keys
        invariant forall u :: u in traces && u !in rest ==> traces[t].lastUpdatedAt <= traces[u].lastUpdatedAt
        decreases |rest|
      {
        var u :| u in rest;
        rest := rest - {u};
        if traces[u].lastUpdatedAt < traces[t].lastUpdatedAt { t := u; }
      }
    }

    /** One trace goes, with its entries in the dedup sets. */
    method Forget(t: string)
      requires Valid() && t in traces
      modifies `traces, `seenSpanIDs, `seenEdgeSpanIDs, `past
      ensures Valid() && Admitted() == old(Admitted()) && traces == old(traces) - {t} && |traces| == old(|traces|) - 1
      ensures |past.spans| > |old(past).spans|
    {
      hide UpToDate, AllSpans, Trimmed, KeysOf;
      WithoutUpToDate(options.naming, V(), past, evicted, t);
      FewerTraces(traces, t);
      PastGrows(options.naming, V(), past, evicted, t);
      past := Trimmed(options.naming, traces, seenEdgeSpanIDs, past, t);
      seenSpanIDs := seenSpanIDs - traces[t].spans.Keys;
      seenEdgeSpanIDs := seenEdgeSpanIDs - KeysOf(t, traces[t]);
      traces := traces - {t};
    }

    lemma ValidApart()
      requires Valid()
      ensures TouchedApart(traces)
    {
      hide TouchedApart;
      UpToDateApart(options.naming, V(), past, evicted);
    }

    /** `trimTraces`: the traces touched longest ago go until few enough are left; the counters keep what they counted. */
    method TrimTraces()
      requires Valid()
      modifies `traces, `seenSpanIDs, `seenEdgeSpanIDs, `past
      ensures Valid() && Admitted() == old(Admitted()) && |traces| <= options.maxRecentTraces
      ensures SomeOf(old(traces), traces) && OlderGone(old(traces), traces)
      ensures past == old(past) ==> traces == old(traces) && seenSpanIDs == old(seenSpanIDs)
      ensures past == old(past) || |past.spans| > |old(past).spans|
      ensures old(|traces|) <= options.maxRecentTraces ==> past == old(past)
      ensures |traces| == if old(|traces|) > options.maxRecentTraces then options.maxRecentTraces else old(|traces|)
      ensures LatestStay(old(traces), options.maxRecentTraces, traces)
    {
      hide SomeOf, OlderGone, TouchedApart, LatestStay, Valid, Admitted;
      ValidApart();
      AllStay(traces);
      while |traces| > options.maxRecentTraces
        invariant Valid() && Admitted() == old(Admitted()) && |traces| <= old(|traces|)
        invariant SomeOf(old(traces), traces) && OlderGone(old(traces), traces)
        invariant (past == old(past) && traces == old(traces) && seenSpanIDs == old(seenSpanIDs)) || |past.spans| > |old(past).spans|
        invariant old(|traces|) <= options.maxRecentTraces ==> past == old(past)
        invariant |traces| >= options.maxRecentTraces || |traces| == old(|traces|)
        decreases |traces|
      {
        var t := Oldest();
        OneLess(old(traces), traces, t);
        Forget(t);
      }
      LatestKept(old(traces), options.maxRecentTraces, traces);
    }
  }

  /** A share that a trace holds has its path, unless a path was evicted. */
  lemma KeptShare(v: View, past: Past, evicted: bool, t: string, cur: map<PathKey, Contribution>, p: PathKey)
    requires Sharing(v, past, evicted, t, cur) && p in cur
    ensures evicted || p in v.paths
  {
    hide Sharing;
    ShareDropped(v, past, evicted, t, cur, p);
  }

  lemma SharingLater(v: View, past: Past, evicted: bool, t: string, cur: map<PathKey, Contribution>, clock: nat)
    requires Sharing(v, past, evicted, t, cur)
    ensures Sharing(v.(clock := clock), past, evicted, t, cur)
  {}

  /** A share is counted in its path; one that the trace has already is counted again only after an eviction. */
  lemma ShareNoted(o: Options, v: View, past: Past, evicted: bool, t: string, cur: map<PathKey, Contribution>, id: PathKey, share: Contribution)
    requires Rest(o.naming, v, past) && Sharing(v, past, evicted, t, cur) && share.duration >= 0.0 && Charted(o.naming, v.nodes, id)
    requires id in cur ==> cur[id] == share && evicted
    ensures var w := v.(paths := WithShare(o, v.paths, id, share, v.clock + 1), clock := v.clock + 1);
            Rest(o.naming, w, past) && Sharing(w, past, evicted, t, cur[id := share])
  {
    hide Rest, Sharing, Charted, WithShare;
    var paths := WithShare(o, v.paths, id, share, v.clock + 1);
    if id in cur {
      assert cur[id := share] == cur;
      SharingGivenUp(v, past, evicted, t, cur, paths);
    } else {
      ShareTaken(o, v, past, evicted, t, cur, id, share, v.clock + 1);
    }
    SharingLater(v.(paths := paths), past, evicted, t, cur[id := share], v.clock + 1);
    PathsMore(o, v, past, id, share, v.clock + 1);
  }

  lemma RootsSorted(spans: SpanMap, order: seq<string>)
    requires AllIn(spans, order)
    ensures forall k :: 0 <= k < |SortByStart(spans, RootList(spans, order))| ==> IsRoot(spans, SortByStart(spans, RootList(spans, order))[k])
    ensures SortByStart(spans, RootList(spans, order)) == [] <==> RootList(spans, order) == []
  {
    hide TraceParent;
    var roots := SortByStart(spans, RootList(spans, order));
    SortKeepsElements(spans, RootList(spans, order));
    forall k | 0 <= k < |roots| ensures IsRoot(spans, roots[k]) { assert roots[k] in roots; }
    assert |multiset(roots)| == |roots| && |multiset(RootList(spans, order))| == |RootList(spans, order)|;
  }

  /** Without roots the shares stay, and are right if there are none. */
  lemma NothingToSettle(n: Naming, t: string, tr: TraceState)
    requires TraceOk(t, tr) && Shared(tr) && AllIn(tr.spans, tr.order) && RootList(tr.spans, tr.order) == []
    ensures PathsSettled(n, tr)
  {
    hide RootList, IsDesired;
    RootlessDesired(n, tr.spans, tr.order, tr.contributions);
  }

  /** These shares are right for the trace as it was exactly if it had a root, or no shares already. */
  ghost predicate Settles(n: Naming, tr: TraceState, shares: map<PathKey, Contribution>) {
    && AllIn(tr.spans, tr.order)
    && (IsDesired(n, tr.spans, tr.order, shares) <==> RootList(tr.spans, tr.order) != [] || tr.contributions == map[])
  }

  lemma SettledBefore(n: Naming, tr: TraceState, shares: map<PathKey, Contribution>)
    requires PathsSettled(n, tr.(contributions := shares)) && (Rootless(tr) ==> shares == tr.contributions)
    ensures Settles(n, tr, shares)
  {
    hide IsDesired, RootList;
  }

  lemma StaleThrough(start: Traces, before: Traces, after: Traces, t: string)
    requires OnlyShares(before, t, after) && StaleStay(start, before) && (Rootless(before[t]) ==> after == before)
    ensures StaleStay(start, after)
  {
    hide Rootless;
    assert Rootless(after[t]) <==> Rootless(before[t]) by { SameRootless(before[t], after[t]); }
  }

  lemma SameRootless(a: TraceState, b: TraceState)
    requires a.spans == b.spans && a.order == b.order
    ensures Rootless(a) <==> Rootless(b)
  {}

  lemma StaleTrimmed(start: Traces, before: Traces, after: Traces)
    requires StaleStay(start, before) && SomeOf(before, after)
    ensures StaleStay(start, after)
  {
    hide Rootless;
  }

  lemma ClockAhead(n: Naming, v: View, past: Past, evicted: bool)
    requires UpToDate(n, v, past, evicted)
    ensures Stamped(v.traces, v.clock)
  {
    hide Counted, SharesCounted, Sane, Grounded, Inflow, Reconciled, PathsSettled, LinksOk;
  }

  lemma UpToDateApart(n: Naming, v: View, past: Past, evicted: bool)
    requires UpToDate(n, v, past, evicted)
    ensures TouchedApart(v.traces)
  {
    hide Counted, SharesCounted, Sane, Grounded, Inflow, Reconciled, PathsSettled, LinksOk;
  }

  lemma FewEnough(traces: Traces, ids: set<string>)
    requires traces.Keys <= ids
    ensures |traces| <= |ids|
  {
    Maps.SubsetSize(traces.Keys, ids);
    assert |traces| == |traces.Keys|;
  }

  /** Nothing changed but the path shares of one trace. */
  ghost predicate OnlyShares(traces: Traces, t: string, more: Traces) {
    t in traces && t in more && more == WithShares(traces, t, more[t].contributions)
  }

  lemma SameShares(traces: Traces, t: string)
    requires t in traces
    ensures OnlyShares(traces, t, traces)
  {}

  lemma OnePathLess(n: Naming, v: View, past: Past, evicted: bool, t: string, cur: map<PathKey, Contribution>, after: map<PathKey, PathState>)
    requires Rest(n, v, past) && Sharing(v, past, evicted, t, cur)
    requires if v.paths == map[] then after == v.paths else exists c :: IsLeastUseful(v.paths, c) && after == v.paths - {c}
    ensures Rest(n, v.(paths := after), past) && Sharing(v.(paths := after), past, true, t, cur)
    ensures |after| == (if v.paths == map[] then 0 else |v.paths| - 1) && after.Keys <= v.paths.Keys
  {
    hide Rest, Sharing, Presentable, Charted;
    if v.paths != map[] {
      var c :| IsLeastUseful(v.paths, c) && after == v.paths - {c};
      Maps.RemoveSize(v.paths, c);
    }
    PathsRest(n, v, past, after, v.clock);
    SharingGivenUp(v, past, evicted, t, cur, after);
  }

  /** What the loops over shares may rely on. */
  lemma AggregateStarts(n: Naming, v: View, past: Past, evicted: bool, t: string, unique: map<seq<string>, string>, share: Contribution)
    requires InBatch(n, v, past, evicted) && t in v.traces && AllIn(v.traces[t].spans, v.traces[t].order)
    requires IsUnique(n, v.traces[t].spans, SortByStart(v.traces[t].spans, RootList(v.traces[t].spans, v.traces[t].order)), unique)
    requires IsShare(v.traces[t].spans, share)
    ensures Rest(n, v, past) && Sharing(v, past, evicted, t, v.traces[t].contributions) && share.duration >= 0.0
    ensures forall p :: p in DesiredOf(n, unique, share) ==>
              DesiredOf(n, unique, share)[p].duration >= 0.0 && Charted(n, v.nodes, p)
  {
    hide Counted, Deduplicated, Grounded, Inflow, SharesCounted, AllSpans, AllCredits, IsUnique, SortByStart, RootList, IsExtent, Charted;
    SharingStarts(v, past, evicted, t);
    SpansAreSane(v, past, t);
    ShareNonNegative(v.traces[t].spans, share);
    DesiredCharted(n, v, past, t, unique, share);
  }

  lemma DesiredCharted(n: Naming, v: View, past: Past, t: string, unique: map<seq<string>, string>, share: Contribution)
    requires Rest(n, v, past) && t in v.traces && AllIn(v.traces[t].spans, v.traces[t].order)
    requires IsUnique(n, v.traces[t].spans, SortByStart(v.traces[t].spans, RootList(v.traces[t].spans, v.traces[t].order)), unique)
    ensures forall p :: p in DesiredOf(n, unique, share) ==> Charted(n, v.nodes, p)
  {
    hide Rest, Leads, SortByStart, RootList;
    var spans := v.traces[t].spans;
    var roots := SortByStart(spans, RootList(spans, v.traces[t].order));
    forall p | p in DesiredOf(n, unique, share) ensures Charted(n, v.nodes, p) {
      var k :| 0 <= k < |roots| && Leads(n, spans, roots[k], p.nodes);
      LeadsToNodes(n, v, past, t, roots[k], p.nodes);
      LeadsSomewhere(n, spans, roots[k], p.nodes);
      assert p.entrypoint == n.entry(unique[p.nodes]);
    }
  }

  lemma LeadsSomewhere(n: Naming, spans: SpanMap, r: string, nodes: seq<string>)
    requires Leads(n, spans, r, nodes)
    ensures nodes != []
  {}

  lemma NotedAlready(contributions: map<PathKey, Contribution>, desired: map<PathKey, Contribution>, done: seq<PathKey>,
                     cur: map<PathKey, Contribution>, p: PathKey)
    requires Renewed(contributions, desired, done, cur) && Unchanged(contributions, desired, p)
    ensures cur[p := desired[p]] == cur
  {}

  lemma NotYetTaken(contributions: map<PathKey, Contribution>, desired: map<PathKey, Contribution>, order: seq<PathKey>, i: nat,
                    cur: map<PathKey, Contribution>)
    requires i < |order| && Renewed(contributions, desired, order[..i], cur) && order[i] in desired
    requires Once(order)
    ensures order[i] in cur ==> Unchanged(contributions, desired, order[i]) && cur[order[i]] == desired[order[i]]
  {}

  lemma OnlyDesired(contributions: map<PathKey, Contribution>, desired: map<PathKey, Contribution>, done: seq<PathKey>,
                    cur: map<PathKey, Contribution>)
    requires Renewed(contributions, desired, done, cur) && forall p :: p in done ==> p in desired
    ensures cur.Keys <= desired.Keys
  {}

  /** The trace is settled once its new shares are noted. */
  lemma AggregateEnds(n: Naming, v: View, past: Past, t: string, unique: map<seq<string>, string>, share: Contribution)
    requires Rest(n, v, past) && t in v.traces && AllIn(v.traces[t].spans, v.traces[t].order)
    requires IsUnique(n, v.traces[t].spans, SortByStart(v.traces[t].spans, RootList(v.traces[t].spans, v.traces[t].order)), unique)
    requires IsShare(v.traces[t].spans, share) && RootList(v.traces[t].spans, v.traces[t].order) != []
    ensures var more := WithShares(v.traces, t, DesiredOf(n, unique, share));
            && PathsSettled(n, more[t]) && AllSpans(more, past) == AllSpans(v.traces, past)
            && Shared(more[t]) && forall u :: u in more && u != t ==> u in v.traces && more[u] == v.traces[u]
  {
    hide Counted, Sane, Grounded, Inflow, IsUnique, IsShare, SortByStart, TraceParent;
    var tr := v.traces[t];
    SharesSpans(v.traces, t, DesiredOf(n, unique, share));
    DesiredFew(n, tr.spans, SortByStart(tr.spans, RootList(tr.spans, tr.order)), unique, share);
  }

  /** The shares that a trace should have leave the paths at most as many as the retained spans. */
  lemma AggregateRoom(n: Naming, v: View, past: Past, evicted: bool, t: string, unique: map<seq<string>, string>, share: Contribution)
    requires InBatch(n, v, past, evicted) && t in v.traces && AllIn(v.traces[t].spans, v.traces[t].order)
    requires IsUnique(n, v.traces[t].spans, SortByStart(v.traces[t].spans, RootList(v.traces[t].spans, v.traces[t].order)), unique)
    ensures |PathsFor(v.traces, t, DesiredOf(n, unique, share))| <= |v.seen|
  {
    hide Counted, Sane, Grounded, Inflow, SharesCounted, Showable, LinksOk, IsUnique, SortByStart, RootList, Items, PathsFor, DesiredOf;
    var tr := v.traces[t];
    DesiredFew(n, tr.spans, SortByStart(tr.spans, RootList(tr.spans, tr.order)), unique, share);
    RoomFor(v.traces, t, DesiredOf(n, unique, share));
  }

  /** Traces that the batch does not mention keep their dependencies. */
  lemma OutsideReconciled(n: Naming, start: View, past: Past, evicted: bool, v: View, touched: seq<string>)
    requires UpToDate(n, start, past, evicted) && SameOutside(touched, start.traces, v.traces) && v.seenEdges == start.seenEdges
    ensures forall t :: t in v.traces && t !in touched ==> Reconciled(n, v, t)
  {
    hide Core, PathsSettled, Source;
    forall t | t in v.traces && t !in touched ensures Reconciled(n, v, t) { assert Reconciled(n, start, t); }
  }

  lemma OthersKeptLinks(n: Naming, before: View, after: View, t: string)
    requires before.traces == after.traces
    requires forall k: SpanKey :: k.traceID != t ==> (k in after.seenEdges <==> k in before.seenEdges)
    ensures forall u :: u != t && Reconciled(n, before, u) ==> Reconciled(n, after, u)
  {
    hide Source;
  }

  lemma OutsideSettled(n: Naming, start: View, past: Past, evicted: bool, traces: Traces, touched: seq<string>)
    requires UpToDate(n, start, past, evicted) && SameOutside(touched, start.traces, traces)
    ensures forall t :: t in traces && t !in touched ==> PathsSettled(n, traces[t])
  {
    hide Core, PathsSettled, Reconciled;
  }

  lemma SharesReconciled(n: Naming, before: View, after: View, t: string)
    requires OnlyShares(before.traces, t, after.traces) && before.seenEdges == after.seenEdges
    ensures forall u :: Reconciled(n, before, u) ==> Reconciled(n, after, u)
    ensures forall u :: u in after.traces <==> u in before.traces
    ensures forall u :: u in after.traces && u != t ==> after.traces[u] == before.traces[u]
  {
    hide Source;
    forall k: SpanKey ensures IsLinked(n, after.traces, k) <==> IsLinked(n, before.traces, k) {}
  }

  lemma BatchStarts(n: Naming, v: View, past: Past, evicted: bool)
    requires UpToDate(n, v, past, evicted)
    ensures InBatch(n, v, past, evicted)
  {
    hide Core, Reconciled, Shared;
  }

  lemma BatchDone(n: Naming, v: View, past: Past, evicted: bool)
    requires InBatch(n, v, past, evicted) && forall t :: t in v.traces ==> Reconciled(n, v, t) && PathsSettled(n, v.traces[t])
    ensures UpToDate(n, v, past, evicted)
  {
    hide Core, Reconciled, PathsSettled;
  }

  lemma FewerTraces(traces: Traces, t: string)
    requires t in traces
    ensures |traces - {t}| == |traces| - 1
  {
    assert (traces - {t}).Keys == traces.Keys - {t};
    assert |traces| == |traces.Keys| && |traces - {t}| == |(traces - {t}).Keys|;
  }

  lemma OrderOk(n: Naming, v: View, past: Past, evicted: bool, t: string)
    requires Core(n, v, past, evicted) && t in v.traces
    ensures TraceOk(t, v.traces[t]) && AllIn(v.traces[t].spans, v.traces[t].order) && Listed(v.traces[t].spans, v.traces[t].order)
  {
    hide Counted, SharesCounted, Sane, Grounded, Inflow;
  }

  lemma AllLinked(n: Naming, v: View, past: Past, evicted: bool, t: string)
    requires Core(n, v, past, evicted) && t in v.traces
    requires forall j :: 0 <= j < |v.traces[t].order| ==>
      IsLinked(n, v.traces, SpanKey(t, v.traces[t].order[j])) ==> SpanKey(t, v.traces[t].order[j]) in v.seenEdges
    ensures Reconciled(n, v, t)
  {
    hide Counted, SharesCounted, Sane, Grounded, Inflow;
    OrderOk(n, v, past, evicted, t);
    forall id | id in v.traces[t].spans && IsLinked(n, v.traces, SpanKey(t, id)) ensures SpanKey(t, id) in v.seenEdges {
      var j :| 0 <= j < |v.traces[t].order| && v.traces[t].order[j] == id;
    }
  }

  lemma WithoutSpans(n: Naming, v: View, past: Past, evicted: bool, t: string)
    requires Core(n, v, past, evicted) && t in v.traces
    ensures AllSpans(v.traces - {t}, Trimmed(n, v.traces, v.seenEdges, past, t)) == AllSpans(v.traces, past)
  {
    hide Counted, SharesCounted, Sane, Grounded, Inflow, TracesOk, AllSpans, Trimmed;
    TrimSpans(n, v.traces, v.clock, v.seenEdges, past, t);
  }

  lemma WithoutUpToDate(n: Naming, v: View, past: Past, evicted: bool, t: string)
    requires UpToDate(n, v, past, evicted) && t in v.traces
    ensures UpToDate(n, Without(v, t), Trimmed(n, v.traces, v.seenEdges, past, t), evicted)
    ensures AllSpans(v.traces - {t}, Trimmed(n, v.traces, v.seenEdges, past, t)) == AllSpans(v.traces, past)
  {
    hide Core, Shared, AllSpans, PathsSettled, Reconciled, Trimmed;
    WithoutCore(n, v, past, evicted, t);
    WithoutSpans(n, v, past, evicted, t);
    OthersReconciled(n, v, t);
  }

  lemma PastGrows(n: Naming, v: View, past: Past, evicted: bool, t: string)
    requires UpToDate(n, v, past, evicted) && t in v.traces
    ensures |Trimmed(n, v.traces, v.seenEdges, past, t).spans| > |past.spans|
  {
    hide Counted, SharesCounted, Sane, Grounded, Inflow, Reconciled, PathsSettled, LinksOk;
    assert TraceOk(t, v.traces[t]);
    var id :| id in v.traces[t].spans;
    assert v.traces[t].spans[id] in SpansOf(v.traces[t]);
    assert |multiset(SpansOf(v.traces[t]))| > 0;
  }

  lemma OthersReconciled(n: Naming, v: View, t: string)
    requires t in v.traces
    ensures forall u :: u != t && Reconciled(n, v, u) ==> Reconciled(n, Without(v, t), u)
  {
    hide Source;
  }

  lemma AdmitInBatch(o: Options, v: View, past: Past, evicted: bool, s: Span)
    requires InBatch(o.naming, v, past, evicted) && s.spanID !in v.seen && s.duration >= 0.0
    ensures InBatch(o.naming, Admit(o, v, s), past, evicted)
    ensures AllSpans(Admit(o, v, s).traces, past) == AllSpans(v.traces, past) + multiset{s}
  {
    hide AllSpans, Shared, Counted, TracesOk, LinksOk, Sane, Grounded, Inflow, SharesCounted;
    AdmitCore(o, v, past, evicted, s);
    GrownShared(v.traces, s, v.clock + 1);
  }

  lemma GrownShared(traces: Traces, s: Span, now: nat)
    requires (forall t :: t in traces ==> Shared(traces[t])) && s.spanID !in SpanIDs(traces)
    ensures forall t :: t in WithSpan(traces, s, now) ==> Shared(WithSpan(traces, s, now)[t])
  {
    var tr := TraceAt(traces, s.traceID);
    assert s.spanID !in tr.spans;
    Maps.SubsetSize(Items(tr.spans), Items(tr.spans[s.spanID := s]));
  }
}
