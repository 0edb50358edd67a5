/**
 * The shares that a trace keeps when it loses its last root: two spans that name each other as parents, taken in one
 * after the other, leave a share behind which the same two spans, taken in together, never get.
 */
module StaleShares {
  import opened Telemetry
  import opened Spans
  import opened Forest
  import opened TracePaths
  import opened EngineState
  import opened EngineTraces
  import opened EngineCore
  import opened Engine

  /** Two spans of a trace that name each other as parents; the first one could begin a path. */
  ghost predicate Circular(n: Naming, a: Span, b: Span) {
    && a.traceID == b.traceID && a.spanID != b.spanID && a.parentSpanID == b.spanID && b.parentSpanID == a.spanID
    && a.spanID != "" && b.spanID != "" && a.duration >= 0.0 && b.duration >= 0.0
    && a.kind in ENTRY_KINDS && b.kind in TOPOLOGY_KINDS && n.node(a) != ""
  }

  function Alone(a: Span): SpanMap {
    map[a.spanID := a]
  }

  function SpansIn(spans: SpanMap): set<Span> {
    set id | id in spans :: spans[id]
  }

  function Both(a: Span, b: Span): SpanMap {
    map[a.spanID := a, b.spanID := b]
  }

  /** Retained spans of one trace are that trace. */
  lemma OneTrace(traces: Traces, clock: nat, spans: SpanMap, t: string)
    requires TracesOk(traces, clock) && Keyed(spans) && spans != map[]
    requires RetainedSpans(traces) == SpansIn(spans)
    requires forall id :: id in spans ==> spans[id].traceID == t
    ensures traces.Keys == {t} && traces[t].spans == spans && TraceOk(t, traces[t])
  {
    forall u | u in traces ensures u == t && forall id :: id in traces[u].spans ==> id in spans && spans[id] == traces[u].spans[id] {
      assert TraceOk(u, traces[u]);
      forall id | id in traces[u].spans ensures u == t && id in spans && spans[id] == traces[u].spans[id] {
        assert traces[u].spans[id] in RetainedSpans(traces);
        var j :| j in spans && spans[j] == traces[u].spans[id];
      }
      var some :| some in traces[u].spans;
    }
    forall id | id in spans ensures t in traces && id in traces[t].spans && traces[t].spans[id] == spans[id] {
      assert spans[id] in SpansIn(spans);
      assert spans[id] in RetainedSpans(traces);
      var u, j :| u in traces && j in traces[u].spans && traces[u].spans[j] == spans[id];
      assert TraceOk(u, traces[u]);
    }
    var some :| some in spans;
    assert traces[t].spans.Keys == spans.Keys;
  }

  /** Alone, the first span is a root and begins a path. */
  lemma AloneDesires(n: Naming, a: Span, b: Span, order: seq<string>, d: map<PathKey, Contribution>)
    requires Circular(n, a, b) && Listed(Alone(a), order) && AllIn(Alone(a), order)
    requires IsDesired(n, Alone(a), order, d)
    ensures RootList(Alone(a), order) != [] && d != map[]
  {
    hide IsShare, RootList, IsUnique, Leads, SortByStart;
    var spans := Alone(a);
    AloneLeads(n, a, b);
    assert a.spanID in RootList(spans, order);
    var roots := SortByStart(spans, RootList(spans, order));
    SortKeepsElements(spans, RootList(spans, order));
    assert a.spanID in multiset(roots);
    var k :| 0 <= k < |roots| && roots[k] == a.spanID;
    var u, c :| IsUnique(n, spans, roots, u) && IsShare(spans, c) && d == DesiredOf(n, u, c);
    LeadUnique(n, spans, roots, u, k, [n.node(a)]);
    assert PathKey(n.entry(u[[n.node(a)]]), [n.node(a)]) in d;
  }

  lemma RootAlone(n: Naming, a: Span, b: Span, order: seq<string>)
    requires Circular(n, a, b) && Listed(Alone(a), order) && AllIn(Alone(a), order)
    ensures RootList(Alone(a), order) != []
  {
    AloneLeads(n, a, b);
    assert a.spanID in RootList(Alone(a), order);
  }

  lemma LeadUnique(n: Naming, spans: SpanMap, roots: seq<string>, u: map<seq<string>, string>, k: nat, nodes: seq<string>)
    requires IsUnique(n, spans, roots, u) && k < |roots| && Leads(n, spans, roots[k], nodes)
    ensures nodes in u
  {
    hide Leads;
  }

  lemma AloneLeads(n: Naming, a: Span, b: Span)
    requires Circular(n, a, b)
    ensures IsRoot(Alone(a), a.spanID) && Leads(n, Alone(a), a.spanID, [n.node(a)])
  {
    var spans, path := Alone(a), [a.spanID];
    assert Parent(spans, a.spanID) == None;
    assert path[..0] == [] && Along(n, spans, path) == [n.node(a)];
    assert Kids(spans, a.spanID) == {};
    assert Line(spans, path) && Continues(spans, path, path) && LineNodes(n, spans, path) == [n.node(a)];
  }

  /** Together they have no root. */
  lemma TogetherRootless(n: Naming, a: Span, b: Span, order: seq<string>)
    requires Circular(n, a, b) && AllIn(Both(a, b), order)
    ensures RootList(Both(a, b), order) == []
  {
    var spans := Both(a, b);
    assert Parent(spans, a.spanID) == Some(b.spanID) && Parent(spans, b.spanID) == Some(a.spanID);
    assert forall x :: x in spans ==> !IsRoot(spans, x);
    assert forall x :: x !in RootList(spans, order);
  }

  lemma RetainedTrace(e: Options, v: View, evicted: bool, spans: SpanMap, t: string)
    requires UpToDate(e.naming, v, NO_PAST, evicted) && Keyed(spans) && spans != map[]
    requires AllSpans(v.traces, NO_PAST) == multiset(SpansIn(spans))
    requires forall id :: id in spans ==> spans[id].traceID == t
    ensures v.traces.Keys == {t} && v.traces[t].spans == spans && TraceOk(t, v.traces[t]) && PathsSettled(e.naming, v.traces[t])
  {
    hide Counted, SharesCounted, Sane, Grounded, Inflow, Reconciled, PathsSettled, LinksOk, TracesOk, RetainedSpans;
    assert forall s :: s in RetainedSpans(v.traces) <==> s in AllSpans(v.traces, NO_PAST);
    OneTrace(v.traces, v.clock, spans, t);
  }

  lemma FirstNews(a: Span, b: Span)
    requires a.spanID != b.spanID
    ensures Newcomers({}, [a]) == [a] && IDs([a]) == {a.spanID} && Newcomers({a.spanID}, [b]) == [b] && IDs([b]) == {b.spanID}
    ensures Newcomers({}, [a, b]) == [a, b]
    ensures TraceIDs([a]) == {a.traceID} && TraceIDs([b]) == {b.traceID} && TraceIDs([a, b]) == {a.traceID, b.traceID}
  {
    assert [a][..0] == [] && [b][..0] == [] && [a, b][..1] == [a];
    assert Newcomers({}, []) == [] && Newcomers({a.spanID}, []) == [];
    assert IDs([a]) == {a.spanID};
  }

  lemma TwoSpans(a: Span, b: Span)
    requires a.spanID != b.spanID
    ensures Keyed(Alone(a)) && Alone(a) != map[] && Keyed(Both(a, b)) && Both(a, b) != map[]
    ensures multiset{} + multiset([a]) == multiset(SpansIn(Alone(a)))
    ensures multiset{} + multiset([a]) + multiset([b]) == multiset(SpansIn(Both(a, b)))
    ensures multiset{} + multiset([a, b]) == multiset(SpansIn(Both(a, b)))
  {
    assert a.spanID in Alone(a) && a.spanID in Both(a, b);
    assert Alone(a)[a.spanID] == a && Both(a, b)[a.spanID] == a && Both(a, b)[b.spanID] == b;
    assert a in SpansIn(Alone(a)) && a in SpansIn(Both(a, b)) && b in SpansIn(Both(a, b));
    assert SpansIn(Alone(a)) == {a} && SpansIn(Both(a, b)) == {a, b};
    assert [a, b] == [a] + [b];
  }

  /** Taken in one after the other, the spans leave the share of the first one behind. */
  method OneByOne(early: Engine, a: Span, b: Span)
    requires early.Valid() && early.options.maxRecentTraces >= 1 && early.V() == NOTHING && early.past == NO_PAST
    requires Circular(early.options.naming, a, b)
    modifies early
    ensures a.traceID in early.traces && early.traces[a.traceID].spans == Both(a, b) && Rootless(early.traces[a.traceID])
    ensures PathsSettled(early.options.naming, early.traces[a.traceID]) && early.traces[a.traceID].contributions != map[]
  {
    hide UpToDate, AllSpans, Newcomers, IDs, TraceIDs, IsDesired, RootList, SpansIn, StaleStay, PathsSettled;
    var o, t := early.options, a.traceID;
    FirstNews(a, b);
    TwoSpans(a, b);
    IngestFirst(early, a, b);
    assert {t} + {t} == {t};
    ghost var before := early.traces;
    early.Ingest([b]);
    RetainedTrace(o, early.V(), early.evicted, Both(a, b), t);
    TogetherRootless(o.naming, a, b, early.traces[t].order);
    StaleOf(before, early.traces, t);
  }

  method IngestFirst(early: Engine, a: Span, b: Span)
    requires early.Valid() && early.options.maxRecentTraces >= 1 && early.V() == NOTHING && early.past == NO_PAST
    requires Circular(early.options.naming, a, b)
    modifies early
    ensures early.Valid() && early.past == NO_PAST && early.seenSpanIDs == {a.spanID}
    ensures early.Admitted() == multiset{} + multiset([a])
    ensures early.traces.Keys == {a.traceID} && early.traces[a.traceID].contributions != map[]
  {
    hide UpToDate, AllSpans, Newcomers, IDs, TraceIDs, IsDesired, RootList, SpansIn, StaleStay, PathsSettled;
    FirstNews(a, b);
    TwoSpans(a, b);
    NothingSeen();
    assert {} + {a.traceID} == {a.traceID} && {} + {a.spanID} == {a.spanID};
    early.Ingest([a]);
    RetainedTrace(early.options, early.V(), early.evicted, Alone(a), a.traceID);
    FirstShare(early.options.naming, a, b, early.traces[a.traceID]);
  }

  lemma FirstShare(n: Naming, a: Span, b: Span, tr: TraceState)
    requires Circular(n, a, b) && TraceOk(a.traceID, tr) && tr.spans == Alone(a) && PathsSettled(n, tr)
    ensures tr.contributions != map[]
  {
    hide IsDesired, RootList;
    RootAlone(n, a, b, tr.order);
    AloneDesires(n, a, b, tr.order, tr.contributions);
  }

  /** Taken in together, they never get one. */
  method Together(late: Engine, a: Span, b: Span)
    requires late.Valid() && late.options.maxRecentTraces >= 1 && late.V() == NOTHING && late.past == NO_PAST
    requires Circular(late.options.naming, a, b)
    modifies late
    ensures a.traceID in late.traces && late.traces[a.traceID].spans == Both(a, b) && Rootless(late.traces[a.traceID])
    ensures PathsSettled(late.options.naming, late.traces[a.traceID]) && late.traces[a.traceID].contributions == map[]
  {
    hide Rootless, IsShare, Reconciled, IsRoot, Keyed;
    hide UpToDate, AllSpans, Newcomers, IDs, TraceIDs, IsDesired, RootList, SpansIn, StaleStay, PathsSettled;
    var o, t := late.options, a.traceID;
    FirstNews(a, b);
    TwoSpans(a, b);
    NothingSeen();
    assert {} + {t} == {t};
    late.Ingest([a, b]);
    RetainedTrace(o, late.V(), late.evicted, Both(a, b), t);
    TogetherRootless(o.naming, a, b, late.traces[t].order);
    StaleOf(map[], late.traces, t);
  }

  /**
   * Where arrival order matters: one engine takes in the first span, then the second; another takes in both at once. Both
   * end up with the same two spans in the trace and no root, but the first engine keeps a share that the spans do not
   * call for, and the second one has none.
   */
  method StaleShare(early: Engine, late: Engine, a: Span, b: Span)
    requires early != late && early.Valid() && late.Valid() && early.options == late.options && early.options.maxRecentTraces >= 1
    requires early.V() == NOTHING && late.V() == NOTHING && early.past == NO_PAST && late.past == NO_PAST
    requires Circular(early.options.naming, a, b)
    modifies early, late
    ensures a.traceID in early.traces && a.traceID in late.traces
    ensures early.traces[a.traceID].spans == late.traces[a.traceID].spans == Both(a, b)
    ensures Rootless(early.traces[a.traceID]) && Rootless(late.traces[a.traceID])
    ensures early.traces[a.traceID].contributions != map[] && late.traces[a.traceID].contributions == map[]
    ensures !IsDesired(early.options.naming, Both(a, b), early.traces[a.traceID].order, early.traces[a.traceID].contributions)
    ensures IsDesired(early.options.naming, Both(a, b), late.traces[a.traceID].order, late.traces[a.traceID].contributions)
  {
    hide IsDesired, UpToDate;
    OneByOne(early, a, b);
    Together(late, a, b);
  }

  lemma StaleOf(before: Traces, after: Traces, t: string)
    requires StaleStay(before, after) && t in after && AllIn(after[t].spans, after[t].order) && RootList(after[t].spans, after[t].order) == []
    ensures Rootless(after[t]) && after[t].contributions == SharesOf(before, t)
  {}

  lemma NothingSeen()
    ensures AllSpans(NOTHING.traces, NO_PAST) == multiset{} && NOTHING.seen == {}
  {}
}
