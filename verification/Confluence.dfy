/**
 * What the counters say depends on which spans arrived, not on when: any order, batching and repetition of the same
 * spans gives the same nodes, dependencies and paths.
 */
module Confluence {
  import opened Telemetry
  import opened Spans
  import opened Forest
  import opened TracePaths
  import opened Tallies
  import opened EngineState
  import opened EngineSteps
  import opened EngineTraces
  import opened EngineCore
  import opened Engine
  import Maps

  // ---- the spans determine the traces ---------------------------------------------------------------------

  /** Retained traces are the retained spans, grouped by trace ID. */
  lemma SameSpanMaps(v: Traces, w: Traces, clockV: nat, clockW: nat)
    requires TracesOk(v, clockV) && TracesOk(w, clockW) && RetainedSpans(v) == RetainedSpans(w)
    ensures v.Keys == w.Keys && forall t :: t in v ==> v[t].spans == w[t].spans
  {
    hide TracesOk, RetainedSpans;
    forall t | t in v ensures t in w && v[t].spans == w[t].spans {
      SpansFound(v, w, clockV, clockW, t);
      SpansFound(w, v, clockW, clockV, t);
      SameMap(v[t].spans, w[t].spans);
    }
    forall t | t in w ensures t in v { SpansFound(w, v, clockW, clockV, t); }
    assert v.Keys == w.Keys;
  }

  lemma SameMap<K, V>(a: map<K, V>, b: map<K, V>)
    requires forall k :: k in a ==> k in b && b[k] == a[k]
    requires forall k :: k in b ==> k in a
    ensures a == b
  {
    assert a.Keys == b.Keys;
  }

  lemma SpansFound(v: Traces, w: Traces, clockV: nat, clockW: nat, t: string)
    requires TracesOk(v, clockV) && TracesOk(w, clockW) && RetainedSpans(v) <= RetainedSpans(w) && t in v
    ensures t in w && forall id :: id in v[t].spans ==> id in w[t].spans && w[t].spans[id] == v[t].spans[id]
  {
    assert TraceOk(t, v[t]);
    forall id | id in v[t].spans ensures t in w && id in w[t].spans && w[t].spans[id] == v[t].spans[id] {
      var s := v[t].spans[id];
      assert s in RetainedSpans(v);
      var u, j :| u in w && j in w[u].spans && w[u].spans[j] == s;
      assert TraceOk(u, w[u]);
    }
    var some :| some in v[t].spans;
  }

  lemma Cancels<T>(a: set<T>, b: set<T>, m: multiset<T>)
    requires multiset(a) + m == multiset(b) + m
    ensures a == b
  {
    forall x ensures x in a <==> x in b {
      assert (multiset(a) + m)[x] == multiset(a)[x] + m[x] && (multiset(b) + m)[x] == multiset(b)[x] + m[x];
    }
  }

  lemma RetainedAre(n: Naming, v: View, w: View, past: Past, evictedV: bool, evictedW: bool)
    requires UpToDate(n, v, past, evictedV) && UpToDate(n, w, past, evictedW)
    requires AllSpans(v.traces, past) == AllSpans(w.traces, past)
    ensures v.traces.Keys == w.traces.Keys && forall t :: t in v.traces ==> v.traces[t].spans == w.traces[t].spans
  {
    hide Counted, SharesCounted, Sane, Grounded, Inflow, Reconciled, PathsSettled, LinksOk, TracesOk, RetainedSpans;
    Cancels(RetainedSpans(v.traces), RetainedSpans(w.traces), past.spans);
    SameSpanMaps(v.traces, w.traces, v.clock, w.clock);
  }

  /** Which spans have been linked follows from the spans. */
  lemma SameLinks(n: Naming, v: View, w: View, past: Past, evictedV: bool, evictedW: bool)
    requires UpToDate(n, v, past, evictedV) && UpToDate(n, w, past, evictedW)
    requires AllSpans(v.traces, past) == AllSpans(w.traces, past)
    ensures v.seenEdges == w.seenEdges
    ensures AllLinks(n, v.traces, v.seenEdges, past) == AllLinks(n, w.traces, w.seenEdges, past)
  {
    hide Counted, SharesCounted, Sane, Grounded, Inflow, PathsSettled, TracesOk, Source, AllSpans;
    RetainedAre(n, v, w, past, evictedV, evictedW);
    forall k: SpanKey ensures IsLinked(n, v.traces, k) <==> IsLinked(n, w.traces, k) {}
    forall k: SpanKey ensures k in v.seenEdges <==> k in w.seenEdges {
      LinkedWhenSeen(n, v, past, evictedV, k);
      LinkedWhenSeen(n, w, past, evictedW, k);
    }
    assert RetainedLinks(n, v.traces, v.seenEdges) == RetainedLinks(n, w.traces, w.seenEdges);
  }

  lemma LinkedWhenSeen(n: Naming, v: View, past: Past, evicted: bool, k: SpanKey)
    requires UpToDate(n, v, past, evicted)
    ensures k in v.seenEdges <==> IsLinked(n, v.traces, k)
  {
    hide Counted, SharesCounted, Sane, Grounded, Inflow, PathsSettled, TracesOk, Source;
    if k.traceID in v.traces {
      assert Reconciled(n, v, k.traceID);
      assert SpanKey(k.traceID, k.spanID) == k;
    }
  }

  /** The numbers of a metric, without its window of latencies. */
  ghost predicate SameNumbers(a: Metrics, b: Metrics) {
    a.count == b.count && a.errors == b.errors && a.total == b.total
  }

  ghost predicate NodesAgree(a: map<string, NodeState>, b: map<string, NodeState>) {
    a.Keys == b.Keys && forall id :: id in a ==> SameNumbers(a[id].metrics, b[id].metrics)
  }

  ghost predicate EdgesAgree(a: map<EdgeKey, Metrics>, b: map<EdgeKey, Metrics>) {
    a.Keys == b.Keys && forall e :: e in a ==> SameNumbers(a[e], b[e])
  }

  ghost predicate PathsAgree(a: map<PathKey, PathState>, b: map<PathKey, PathState>) {
    a.Keys == b.Keys && forall p :: p in a ==> SameNumbers(a[p].metrics, b[p].metrics)
  }

  /** The same spans, however they arrived, give the same nodes and dependencies with the same numbers. */
  lemma SameTopology(n: Naming, v: View, w: View, past: Past, evictedV: bool, evictedW: bool)
    requires UpToDate(n, v, past, evictedV) && UpToDate(n, w, past, evictedW)
    requires AllSpans(v.traces, past) == AllSpans(w.traces, past)
    ensures NodesAgree(v.nodes, w.nodes) && EdgesAgree(v.edges, w.edges)
  {
    hide SharesCounted, Sane, Grounded, Inflow, PathsSettled, Reconciled, Deduplicated, AllSpans, AllLinks, Sum;
    SameLinks(n, v, w, past, evictedV, evictedW);
    var spans, links := AllSpans(v.traces, past), AllLinks(n, v.traces, v.seenEdges, past);
    forall id: string ensures id in v.nodes <==> id in w.nodes
      ensures id in v.nodes && id in w.nodes ==> SameNumbers(v.nodes[id].metrics, w.nodes[id].metrics)
    {
      assert EntryTracks(id in v.nodes, EngineSteps.NodeMetrics(v.nodes, id), Sum(NodeWeight(n, id), spans));
      assert EntryTracks(id in w.nodes, EngineSteps.NodeMetrics(w.nodes, id), Sum(NodeWeight(n, id), spans));
    }
    forall e: EdgeKey ensures e in v.edges <==> e in w.edges
      ensures e in v.edges && e in w.edges ==> SameNumbers(v.edges[e], w.edges[e])
    {
      assert EntryTracks(e in v.edges, EngineSteps.EdgeMetrics(v.edges, e), Sum(EdgeWeight(n, e), links));
      assert EntryTracks(e in w.edges, EngineSteps.EdgeMetrics(w.edges, e), Sum(EdgeWeight(n, e), links));
    }
    assert v.nodes.Keys == w.nodes.Keys && v.edges.Keys == w.edges.Keys;
  }

  /** A trace that has a root, if it shows anything, and whose roots start at different times. */
  ghost predicate Orderly(tr: TraceState) {
    && AllIn(tr.spans, tr.order) && (RootList(tr.spans, tr.order) != [] || Items(tr.spans) == {})
    && DistinctStarts(tr.spans, RootList(tr.spans, tr.order))
  }

  ghost predicate AllOrderly(traces: Traces) {
    forall t :: t in traces ==> Orderly(traces[t])
  }

  lemma ContributionsAgree(n: Naming, v: View, w: View, past: Past, evictedV: bool, evictedW: bool, t: string)
    requires UpToDate(n, v, past, evictedV) && UpToDate(n, w, past, evictedW)
    requires t in v.traces && t in w.traces && v.traces[t].spans == w.traces[t].spans && Orderly(v.traces[t])
    ensures v.traces[t].contributions == w.traces[t].contributions
  {
    hide Core, Reconciled, IsDesired, RootList, UpToDate;
    TraceUpToDate(n, v, past, evictedV, t);
    TraceUpToDate(n, w, past, evictedW, t);
    var spans, a, b := v.traces[t].spans, v.traces[t].order, w.traces[t].order;
    SameRoots(spans, a, b);
    assert RootList(spans, a) == [] <==> RootList(spans, b) == [] by {
      assert |multiset(RootList(spans, a))| == |RootList(spans, a)| && |multiset(RootList(spans, b))| == |RootList(spans, b)|;
    }
    if RootList(spans, a) != [] {
      DesiredUnique(n, spans, a, b, v.traces[t].contributions, w.traces[t].contributions);
    }
  }

  lemma TraceUpToDate(n: Naming, v: View, past: Past, evicted: bool, t: string)
    requires UpToDate(n, v, past, evicted) && t in v.traces
    ensures PathsSettled(n, v.traces[t]) && TraceOk(t, v.traces[t])
    ensures Listed(v.traces[t].spans, v.traces[t].order)
  {
    hide Counted, SharesCounted, Sane, Grounded, Inflow, Reconciled, LinksOk, PathsSettled;
  }

  /**
   * The same for paths: as long as no path was evicted, the same spans give the same paths with the same numbers, if every
   * trace that shows something has a root, and the roots of each trace start at different times.
   */
  lemma SamePaths(n: Naming, v: View, w: View, past: Past)
    requires UpToDate(n, v, past, false) && UpToDate(n, w, past, false)
    requires AllSpans(v.traces, past) == AllSpans(w.traces, past)
    requires AllOrderly(v.traces)
    ensures PathsAgree(v.paths, w.paths)
  {
    hide Rest, PathsSettled, Reconciled, AllSpans, Sum, Orderly;
    RetainedAre(n, v, w, past, false, false);
    forall t | t in v.traces ensures v.traces[t].contributions == w.traces[t].contributions {
      ContributionsAgree(n, v, w, past, false, false, t);
    }
    SameCredits(v.traces, w.traces, past);
    var credits := AllCredits(v.traces, past);
    forall p: PathKey ensures p in v.paths <==> p in w.paths
      ensures p in v.paths && p in w.paths ==> SameNumbers(v.paths[p].metrics, w.paths[p].metrics)
    {
      assert EntryTracks(p in v.paths, EngineSteps.PathMetrics(v.paths, p), Sum(PathWeight(p), credits));
      assert EntryTracks(p in w.paths, EngineSteps.PathMetrics(w.paths, p), Sum(PathWeight(p), credits));
    }
    assert v.paths.Keys == w.paths.Keys;
  }

  lemma SameCredits(v: Traces, w: Traces, past: Past)
    requires v.Keys == w.Keys && forall t :: t in v ==> v[t].contributions == w[t].contributions
    ensures AllCredits(v, past) == AllCredits(w, past)
  {
    assert RetainedCredits(v) == RetainedCredits(w);
  }

  // ---- runs of the engine ------------------------------------------------------------------------------------

  function Flatten(batches: seq<seq<Span>>): seq<Span> {
    if batches == [] then [] else Flatten(batches[..|batches| - 1]) + batches[|batches| - 1]
  }

  /** A span ID stands for one span. */
  ghost predicate Identified(spans: seq<Span>) {
    forall i, j :: 0 <= i < |spans| && 0 <= j < |spans| && spans[i].spanID == spans[j].spanID ==> spans[i] == spans[j]
  }

  function Distinct(spans: seq<Span>): set<Span> {
    set s | s in spans
  }

  lemma {:induction false} NewcomersParts(seen: set<string>, a: seq<Span>, b: seq<Span>)
    ensures Newcomers(seen, a + b) == Newcomers(seen, a) + Newcomers(seen + IDs(a), b)
    decreases |b|
  {
    if b == [] {
      assert a + b == a;
    } else {
      var init, last := b[..|b| - 1], b[|b| - 1];
      assert (a + b)[..|a + b| - 1] == a + init;
      NewcomersParts(seen, a, init);
      IDsParts(a, init);
    }
  }

  lemma IDsParts(a: seq<Span>, b: seq<Span>)
    ensures IDs(a + b) == IDs(a) + IDs(b) && TraceIDs(a + b) == TraceIDs(a) + TraceIDs(b)
  {
    assert forall s :: s in a + b <==> s in a || s in b;
  }

  function Unseen(seen: set<string>, spans: set<Span>): set<Span> {
    set s | s in spans && s.spanID !in seen
  }

  /** Each span that is not known yet is taken in exactly once, whatever the order and the repetitions. */
  lemma {:induction false} NewcomersAre(seen: set<string>, spans: seq<Span>)
    requires Identified(spans)
    ensures multiset(Newcomers(seen, spans)) == multiset(Unseen(seen, Distinct(spans)))
  {
    if spans == [] {
      assert Unseen(seen, Distinct(spans)) == {};
    } else {
      var init, last := spans[..|spans| - 1], spans[|spans| - 1];
      assert spans == init + [last];
      NewcomersAre(seen, init);
      assert Distinct(spans) == Distinct(init) + {last};
      UnseenStep(seen, init, last);
      OneMore(Newcomers(seen, init), last);
    }
  }

  lemma UnseenStep(seen: set<string>, init: seq<Span>, last: Span)
    requires Identified(init + [last])
    ensures var before, after := Unseen(seen, Distinct(init)), Unseen(seen, Distinct(init) + {last});
            multiset(after) == multiset(before) + if last.spanID in seen || last.spanID in IDs(init) then multiset{} else multiset{last}
  {
    hide IDs, Identified;
    KnownByID(init, last);
    var before, after := Unseen(seen, Distinct(init)), Unseen(seen, Distinct(init) + {last});
    if last.spanID in seen || last in Distinct(init) {
      assert after == before;
    } else {
      assert after == before + {last};
      JoinOne(before, last);
    }
  }

  lemma OneMore(news: seq<Span>, s: Span)
    ensures multiset(news + [s]) == multiset(news) + multiset{s} && news + [] == news
  {}

  lemma JoinOne(s: set<Span>, x: Span)
    requires x !in s
    ensures multiset(s + {x}) == multiset(s) + multiset{x}
  {}

  lemma KnownByID(init: seq<Span>, last: Span)
    requires Identified(init + [last])
    ensures last.spanID in IDs(init) <==> last in Distinct(init)
    ensures last in Distinct(init) ==> Distinct(init) + {last} == Distinct(init)
  {
    var all := init + [last];
    if last.spanID in IDs(init) {
      var s :| s in init && s.spanID == last.spanID;
      var k :| 0 <= k < |init| && init[k] == s;
      assert all[k] == s && all[|init|] == last;
    }
  }

  /** A run: batch after batch. */
  method IngestAll(engine: Engine, batches: seq<seq<Span>>)
    requires engine.Valid() && forall k :: 0 <= k < |batches| ==> Validated(batches[k])
    modifies engine
    ensures engine.Valid() && (old(engine.evicted) ==> engine.evicted)
    ensures engine.past == old(engine.past) ==>
      && engine.Admitted() == old(engine.Admitted()) + multiset(Newcomers(old(engine.seenSpanIDs), Flatten(batches)))
      && engine.seenSpanIDs == old(engine.seenSpanIDs) + IDs(Flatten(batches))
    ensures engine.past == old(engine.past) || |engine.past.spans| > |old(engine.past).spans|
    ensures |old(engine.traces).Keys + TraceIDs(Flatten(batches))| <= engine.options.maxRecentTraces ==> engine.past == old(engine.past)
    ensures |old(engine.seenSpanIDs) + IDs(Flatten(batches))| <= engine.options.maxRuntimePaths && engine.evicted ==>
              old(engine.evicted) || old(engine.past) != NO_PAST || engine.past != NO_PAST
  {
    hide UpToDate, AllSpans, Newcomers, IDs, TraceIDs, Flatten;
    NothingArrives(engine.seenSpanIDs, engine.Admitted());
    assert batches[..0] == [];
    for i := 0 to |batches|
      invariant engine.Valid() && (old(engine.evicted) ==> engine.evicted)
      invariant engine.past == old(engine.past) ==>
        && engine.Admitted() == old(engine.Admitted()) + multiset(Newcomers(old(engine.seenSpanIDs), Flatten(batches[..i])))
        && engine.seenSpanIDs == old(engine.seenSpanIDs) + IDs(Flatten(batches[..i]))
      invariant engine.past == old(engine.past) || |engine.past.spans| > |old(engine.past).spans|
      invariant engine.traces.Keys <= old(engine.traces).Keys + TraceIDs(Flatten(batches[..i]))
      invariant |old(engine.traces).Keys + TraceIDs(Flatten(batches))| <= engine.options.maxRecentTraces ==> engine.past == old(engine.past)
      invariant |old(engine.seenSpanIDs) + IDs(Flatten(batches))| <= engine.options.maxRuntimePaths && engine.evicted ==>
                  old(engine.evicted) || old(engine.past) != NO_PAST || engine.past != NO_PAST
    {
      NextBatch(old(engine.Admitted()), old(engine.seenSpanIDs), batches, i);
      NextFits(engine.traces.Keys, old(engine.traces).Keys, old(engine.seenSpanIDs), batches, i);
      engine.Ingest(batches[i]);
    }
    assert batches[..|batches|] == batches;
  }

  lemma NothingArrives(seen: set<string>, m: multiset<Span>)
    ensures Flatten([]) == [] && Newcomers(seen, []) == [] && IDs([]) == {} && seen + {} == seen && m + multiset([]) == m
  {}

  lemma NextBatch(m: multiset<Span>, seen: set<string>, batches: seq<seq<Span>>, i: nat)
    requires i < |batches|
    ensures var before, all := Flatten(batches[..i]), Flatten(batches[..i + 1]);
            && m + multiset(Newcomers(seen, before)) + multiset(Newcomers(seen + IDs(before), batches[i])) == m + multiset(Newcomers(seen, all))
            && seen + IDs(before) + IDs(batches[i]) == seen + IDs(all)
  {
    assert batches[..i + 1][..i] == batches[..i];
    NewcomersParts(seen, Flatten(batches[..i]), batches[i]);
    IDsParts(Flatten(batches[..i]), batches[i]);
  }

  lemma {:induction false} FlattenPrefix(batches: seq<seq<Span>>, k: nat)
    requires k <= |batches|
    ensures IDs(Flatten(batches[..k])) <= IDs(Flatten(batches)) && TraceIDs(Flatten(batches[..k])) <= TraceIDs(Flatten(batches))
    decreases |batches|
  {
    if k == |batches| {
      assert batches[..k] == batches;
    } else {
      var init := batches[..|batches| - 1];
      FlattenPrefix(init, k);
      assert init[..k] == batches[..k];
      IDsParts(Flatten(init), batches[|batches| - 1]);
    }
  }

  /** The next batch keeps within what the whole run brings. */
  lemma NextFits(traces: set<string>, start: set<string>, seen: set<string>, batches: seq<seq<Span>>, i: nat)
    requires i < |batches| && traces <= start + TraceIDs(Flatten(batches[..i]))
    ensures traces + TraceIDs(batches[i]) <= start + TraceIDs(Flatten(batches[..i + 1]))
    ensures |traces + TraceIDs(batches[i])| <= |start + TraceIDs(Flatten(batches))|
    ensures |seen + IDs(Flatten(batches[..i])) + IDs(batches[i])| <= |seen + IDs(Flatten(batches))|
  {
    hide IDs, TraceIDs;
    assert batches[..i + 1][..i] == batches[..i];
    IDsParts(Flatten(batches[..i]), batches[i]);
    FlattenPrefix(batches, i + 1);
    Maps.SubsetSize(traces + TraceIDs(batches[i]), start + TraceIDs(Flatten(batches)));
    Maps.SubsetSize(seen + IDs(Flatten(batches[..i])) + IDs(batches[i]), seen + IDs(Flatten(batches)));
  }

  /**
   * Arrival order does not matter: two engines that start alike and take in the same spans, in any order, batching and
   * repetition, agree on all numbers of nodes and dependencies unless one of them had to trim, and on those of paths
   * unless one of them had to evict. No trace is trimmed while there are no more than the limit of traces; and if none
   * ever was, no path is evicted while there are no more spans than the limit of paths.
   */
  method ArrivalOrder(a: Engine, b: Engine, batchesA: seq<seq<Span>>, batchesB: seq<seq<Span>>)
    requires a != b && a.Valid() && b.Valid() && a.options.naming == b.options.naming
    requires a.V() == b.V() && a.past == b.past
    requires (forall k :: 0 <= k < |batchesA| ==> Validated(batchesA[k])) && forall k :: 0 <= k < |batchesB| ==> Validated(batchesB[k])
    requires Identified(Flatten(batchesA)) && Identified(Flatten(batchesB))
    requires Distinct(Flatten(batchesA)) == Distinct(Flatten(batchesB))
    modifies a, b
    ensures |old(a.traces).Keys + TraceIDs(Flatten(batchesA))| <= a.options.maxRecentTraces ==> a.past == old(a.past)
    ensures |old(b.traces).Keys + TraceIDs(Flatten(batchesB))| <= b.options.maxRecentTraces ==> b.past == old(b.past)
    ensures |old(a.seenSpanIDs) + IDs(Flatten(batchesA))| <= a.options.maxRuntimePaths && a.past == old(a.past) == NO_PAST ==>
              (a.evicted ==> old(a.evicted))
    ensures |old(b.seenSpanIDs) + IDs(Flatten(batchesB))| <= b.options.maxRuntimePaths && b.past == old(b.past) == NO_PAST ==>
              (b.evicted ==> old(b.evicted))
    ensures a.past == old(a.past) && b.past == old(b.past) ==> NodesAgree(a.nodes, b.nodes) && EdgesAgree(a.edges, b.edges)
    ensures a.past == old(a.past) && b.past == old(b.past) && !a.evicted && !b.evicted && AllOrderly(a.traces) ==>
              PathsAgree(a.paths, b.paths)
    ensures a.Valid() && b.Valid()
  {
    hide NodesAgree, EdgesAgree, PathsAgree, AllOrderly;
    hide UpToDate, AllSpans, Newcomers, Flatten, IDs, TraceIDs, SameNumbers, Orderly;
    ghost var seen := a.seenSpanIDs;
    assert a.Admitted() == b.Admitted();
    IngestAll(a, batchesA);
    IngestAll(b, batchesB);
    NewcomersAre(seen, Flatten(batchesA));
    NewcomersAre(seen, Flatten(batchesB));
    if a.past == old(a.past) && b.past == old(b.past) {
      SameTopology(a.options.naming, a.V(), b.V(), a.past, a.evicted, b.evicted);
      if !a.evicted && !b.evicted && AllOrderly(a.traces) {
        SamePaths(a.options.naming, a.V(), b.V(), a.past);
      }
    }
  }
}
