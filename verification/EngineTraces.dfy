/** The traces that the engine retains: what they hold, and how their contents change as spans arrive and traces go. */
module EngineTraces {
  import opened Telemetry
  import opened Spans
  import opened TracePaths
  import opened EngineState

  // ---- the retained traces ---------------------------------------------------------------------------------

  ghost predicate TraceOk(t: string, tr: TraceState) {
    && Keyed(tr.spans) && (forall id :: id in tr.spans ==> tr.spans[id].traceID == t)
    && Listed(tr.spans, tr.order) && AllIn(tr.spans, tr.order) && tr.spans != map[]
  }

  /** `seenSpanIDs`: the span IDs of the retained traces. */
  function SpanIDs(traces: Traces): set<string> {
    set t, id | t in traces && id in traces[t].spans :: id
  }

  /** Traces hold their own spans, no two of them a span of the same ID, and were last touched at different times. */
  ghost predicate TracesOk(traces: Traces, clock: nat) {
    && (forall t :: t in traces ==> TraceOk(t, traces[t]) && traces[t].lastUpdatedAt <= clock)
    && (forall t, u, id :: t in traces && u in traces && id in traces[t].spans && id in traces[u].spans ==> t == u)
    && (forall t, u :: t in traces && u in traces && traces[t].lastUpdatedAt == traces[u].lastUpdatedAt ==> t == u)
  }

  /** Only spans of the retained traces that depend on another node are marked as linked. */
  ghost predicate LinksOk(n: Naming, traces: Traces, seenEdges: set<SpanKey>) {
    forall k :: k in seenEdges ==> IsLinked(n, traces, k)
  }

  const NEW_TRACE := TraceState(map[], [], 0, map[])

  function TraceAt(traces: Traces, t: string): TraceState {
    if t in traces then traces[t] else NEW_TRACE
  }

  function TraceIDs(spans: seq<Span>): set<string> {
    set s | s in spans :: s.traceID
  }

  /** The traces with one more span, taken in at time `now`. */
  function WithSpan(traces: Traces, s: Span, now: nat): Traces {
    var tr := TraceAt(traces, s.traceID);
    traces[s.traceID := tr.(spans := tr.spans[s.spanID := s], order := tr.order + [s.spanID], lastUpdatedAt := now)]
  }

  lemma WithSpanOk(traces: Traces, s: Span, clock: nat)
    requires TracesOk(traces, clock) && s.spanID !in SpanIDs(traces)
    ensures TracesOk(WithSpan(traces, s, clock + 1), clock + 1)
  {
    hide TraceOk;
    var tr := TraceAt(traces, s.traceID);
    assert s.spanID !in tr.spans;
    GrownTraceOk(s.traceID, tr, s, clock + 1);
    assert forall t, id :: t in traces && id in traces[t].spans ==> id in SpanIDs(traces);
  }

  lemma WithSpanIDs(traces: Traces, s: Span, now: nat)
    ensures SpanIDs(WithSpan(traces, s, now)) == SpanIDs(traces) + {s.spanID}
  {
    var more := WithSpan(traces, s, now);
    assert s.spanID in more[s.traceID].spans;
    forall t, id | t in traces && id in traces[t].spans ensures id in SpanIDs(more) { assert id in more[t].spans; }
  }

  lemma RetainedID(traces: Traces, clock: nat)
    requires TracesOk(traces, clock)
    ensures forall x :: x in RetainedSpans(traces) ==> x.spanID in SpanIDs(traces)
  {
    forall t, id | t in traces && id in traces[t].spans ensures traces[t].spans[id].spanID in SpanIDs(traces) {
      assert TraceOk(t, traces[t]);
    }
  }

  lemma GrownTraceOk(t: string, tr: TraceState, s: Span, now: nat)
    requires TraceOk(t, tr) || tr == NEW_TRACE
    requires s.traceID == t && s.spanID !in tr.spans
    ensures TraceOk(t, tr.(spans := tr.spans[s.spanID := s], order := tr.order + [s.spanID], lastUpdatedAt := now))
  {
    var order := tr.order + [s.spanID];
    assert forall id :: id in order <==> id in tr.order || id == s.spanID;
    assert forall k :: 0 <= k < |tr.order| ==> tr.order[k] in tr.order;
  }

  /** A span that is new to the engine joins the retained spans, once. */
  lemma WithSpanSpans(traces: Traces, s: Span, clock: nat, past: Past)
    requires TracesOk(traces, clock) && s.spanID !in SpanIDs(traces)
    ensures AllSpans(WithSpan(traces, s, clock + 1), past) == AllSpans(traces, past) + multiset{s}
  {
    var more := WithSpan(traces, s, clock + 1);
    RetainedID(traces, clock);
    forall x ensures x in RetainedSpans(more) <==> x in RetainedSpans(traces) || x == s { WithSpanHas(traces, s, clock, x); }
    assert RetainedSpans(more) == RetainedSpans(traces) + {s};
    AddToSet(RetainedSpans(traces), s, past.spans);
  }

  lemma WithSpanHas(traces: Traces, s: Span, clock: nat, x: Span)
    requires TracesOk(traces, clock) && s.spanID !in SpanIDs(traces)
    ensures x in RetainedSpans(WithSpan(traces, s, clock + 1)) <==> x in RetainedSpans(traces) || x == s
  {
    var more := WithSpan(traces, s, clock + 1);
    if x in RetainedSpans(traces) {
      var t, id :| t in traces && id in traces[t].spans && traces[t].spans[id] == x;
      assert id in SpanIDs(traces);
      assert id in more[t].spans && more[t].spans[id] == x;
    }
    assert s.spanID in more[s.traceID].spans && more[s.traceID].spans[s.spanID] == s;
  }

  lemma AddToSet<X>(s: set<X>, x: X, rest: multiset<X>)
    requires x !in s
    ensures multiset(s + {x}) + rest == multiset(s) + rest + multiset{x}
  {}

  /** Dependencies already found stay as they are when a span arrives. */
  lemma WithSpanLinks(n: Naming, traces: Traces, s: Span, clock: nat, seenEdges: set<SpanKey>)
    requires TracesOk(traces, clock) && s.spanID !in SpanIDs(traces) && LinksOk(n, traces, seenEdges)
    ensures LinksOk(n, WithSpan(traces, s, clock + 1), seenEdges)
    ensures RetainedLinks(n, WithSpan(traces, s, clock + 1), seenEdges) == RetainedLinks(n, traces, seenEdges)
  {
    var more := WithSpan(traces, s, clock + 1);
    forall k | k in seenEdges ensures IsLinked(n, more, k) && LinkOf(n, more, k) == LinkOf(n, traces, k) {
      WithSpanLink(n, traces, s, clock, k);
    }
    SameImage(n, traces, more, seenEdges);
  }

  lemma WithSpanLink(n: Naming, traces: Traces, s: Span, clock: nat, k: SpanKey)
    requires TracesOk(traces, clock) && s.spanID !in SpanIDs(traces) && IsLinked(n, traces, k)
    ensures IsLinked(n, WithSpan(traces, s, clock + 1), k)
    ensures LinkOf(n, WithSpan(traces, s, clock + 1), k) == LinkOf(n, traces, k)
  {
    var more := WithSpan(traces, s, clock + 1);
    assert k.spanID in SpanIDs(traces);
    SourceStays(n, traces[k.traceID].spans, more[k.traceID].spans, traces[k.traceID].spans[k.spanID]);
  }

  lemma SameImage(n: Naming, traces: Traces, more: Traces, seenEdges: set<SpanKey>)
    requires forall k :: k in seenEdges ==> IsLinked(n, traces, k) && IsLinked(n, more, k) && LinkOf(n, more, k) == LinkOf(n, traces, k)
    ensures RetainedLinks(n, more, seenEdges) == RetainedLinks(n, traces, seenEdges)
  {}

  /** Path shares are not touched when a span arrives. */
  lemma WithSpanCredits(traces: Traces, s: Span, now: nat)
    ensures RetainedCredits(WithSpan(traces, s, now)) == RetainedCredits(traces)
  {
    var more := WithSpan(traces, s, now);
    forall c ensures c in RetainedCredits(more) <==> c in RetainedCredits(traces) {
      assert c.traceID in traces ==> c.traceID in more && more[c.traceID].contributions == traces[c.traceID].contributions;
    }
  }

  // ---- one more dependency -----------------------------------------------------------------------------------

  /** A span marked as linked adds its dependency, once. */
  lemma LinkAdded(n: Naming, traces: Traces, clock: nat, seenEdges: set<SpanKey>, k: SpanKey, past: Past)
    requires TracesOk(traces, clock) && LinksOk(n, traces, seenEdges) && IsLinked(n, traces, k) && k !in seenEdges
    ensures LinksOk(n, traces, seenEdges + {k})
    ensures AllLinks(n, traces, seenEdges + {k}, past) == AllLinks(n, traces, seenEdges, past) + multiset{LinkOf(n, traces, k)}
  {
    var l := LinkOf(n, traces, k);
    assert RetainedLinks(n, traces, seenEdges + {k}) == RetainedLinks(n, traces, seenEdges) + {l};
    forall j | j in seenEdges && IsLinked(n, traces, j) ensures LinkOf(n, traces, j) != l {
      if j != k { SpansDiffer(n, traces, clock, j, k); }
    }
    AddToSet(RetainedLinks(n, traces, seenEdges), l, past.links);
  }

  /** Spans of different keys are different. */
  lemma SpansDiffer(n: Naming, traces: Traces, clock: nat, j: SpanKey, k: SpanKey)
    requires TracesOk(traces, clock) && IsLinked(n, traces, j) && IsLinked(n, traces, k) && j != k
    ensures LinkOf(n, traces, j).child != LinkOf(n, traces, k).child
  {
    assert TraceOk(j.traceID, traces[j.traceID]) && TraceOk(k.traceID, traces[k.traceID]);
  }

  // ---- one trace and the others -----------------------------------------------------------------------------

  function SpansOf(tr: TraceState): set<Span> {
    set id | id in tr.spans :: tr.spans[id]
  }

  function LinksOf(n: Naming, traces: Traces, seenEdges: set<SpanKey>, t: string): set<Link> {
    set k | k in seenEdges && k.traceID == t && IsLinked(n, traces, k) :: LinkOf(n, traces, k)
  }

  function CreditsOf(t: string, contributions: map<PathKey, Contribution>): set<Credit> {
    set p | p in contributions :: Credit(t, p, contributions[p])
  }

  function KeysOf(t: string, tr: TraceState): set<SpanKey> {
    set id | id in tr.spans :: SpanKey(t, id)
  }

  /** What a trace leaves behind when it is trimmed. */
  ghost function Trimmed(n: Naming, traces: Traces, seenEdges: set<SpanKey>, past: Past, t: string): Past
    requires t in traces
  {
    Past(past.spans + multiset(SpansOf(traces[t])), past.links + multiset(LinksOf(n, traces, seenEdges, t)),
         past.credits + multiset(CreditsOf(t, traces[t].contributions)))
  }

  lemma SetsJoin<X>(a: set<X>, b: set<X>, rest: multiset<X>)
    requires a !! b
    ensures multiset(a + b) + rest == multiset(a) + (rest + multiset(b))
  {}

  /** The counters do not change when a trace is trimmed: what it held moves to the past. */
  lemma TrimSpans(n: Naming, traces: Traces, clock: nat, seenEdges: set<SpanKey>, past: Past, t: string)
    requires TracesOk(traces, clock) && t in traces
    ensures AllSpans(traces - {t}, Trimmed(n, traces, seenEdges, past, t)) == AllSpans(traces, past)
  {
    var rest := traces - {t};
    forall x ensures x in RetainedSpans(traces) <==> x in RetainedSpans(rest) || x in SpansOf(traces[t]) {
      if x in RetainedSpans(traces) {
        var u, id :| u in traces && id in traces[u].spans && traces[u].spans[id] == x;
        if u != t { assert u in rest && id in rest[u].spans; }
      }
      if x in RetainedSpans(rest) {
        var u, id :| u in rest && id in rest[u].spans && rest[u].spans[id] == x;
        assert u in traces && id in traces[u].spans;
      }
    }
    assert RetainedSpans(traces) == RetainedSpans(rest) + SpansOf(traces[t]);
    forall u, id | u in rest && id in rest[u].spans ensures rest[u].spans[id] !in SpansOf(traces[t]) {
      assert TraceOk(u, traces[u]) && TraceOk(t, traces[t]);
    }
    SetsJoin(RetainedSpans(rest), SpansOf(traces[t]), past.spans);
  }

  lemma TrimIDs(traces: Traces, clock: nat, t: string)
    requires TracesOk(traces, clock) && t in traces
    ensures SpanIDs(traces - {t}) == SpanIDs(traces) - traces[t].spans.Keys
    ensures TracesOk(traces - {t}, clock)
  {
    var rest := traces - {t};
    forall id ensures id in SpanIDs(rest) <==> id in SpanIDs(traces) && id !in traces[t].spans {
      if id in SpanIDs(traces) && id !in traces[t].spans {
        var u :| u in traces && id in traces[u].spans;
        assert u in rest && id in rest[u].spans;
      }
      if id in SpanIDs(rest) {
        var u :| u in rest && id in rest[u].spans;
        assert u in traces && id in traces[u].spans;
      }
    }
  }

  lemma TrimLinks(n: Naming, traces: Traces, clock: nat, seenEdges: set<SpanKey>, past: Past, t: string)
    requires TracesOk(traces, clock) && LinksOk(n, traces, seenEdges) && t in traces
    ensures LinksOk(n, traces - {t}, seenEdges - KeysOf(t, traces[t]))
    ensures AllLinks(n, traces - {t}, seenEdges - KeysOf(t, traces[t]), Trimmed(n, traces, seenEdges, past, t))
         == AllLinks(n, traces, seenEdges, past)
  {
    var rest, left := traces - {t}, seenEdges - KeysOf(t, traces[t]);
    forall k | k in left ensures k.traceID != t && IsLinked(n, rest, k) && LinkOf(n, rest, k) == LinkOf(n, traces, k) {
      assert IsLinked(n, traces, k);
    }
    RestLinks(n, traces, rest, seenEdges, left, t);
    forall j, k | j in left && k in seenEdges && k.traceID == t ensures LinkOf(n, traces, j) != LinkOf(n, traces, k) {
      SpansDiffer(n, traces, clock, j, k);
    }
    SetsJoin(RetainedLinks(n, rest, left), LinksOf(n, traces, seenEdges, t), past.links);
  }

  lemma RestLinks(n: Naming, traces: Traces, rest: Traces, seenEdges: set<SpanKey>, left: set<SpanKey>, t: string)
    requires LinksOk(n, traces, seenEdges) && left <= seenEdges
    requires forall k :: k in seenEdges ==> (k in left <==> k.traceID != t)
    requires forall k :: k in left ==> IsLinked(n, rest, k) && LinkOf(n, rest, k) == LinkOf(n, traces, k)
    ensures RetainedLinks(n, traces, seenEdges) == RetainedLinks(n, rest, left) + LinksOf(n, traces, seenEdges, t)
  {
    hide Source;
    forall k | k in seenEdges ensures LinkOf(n, traces, k) in RetainedLinks(n, rest, left) + LinksOf(n, traces, seenEdges, t) {
      assert IsLinked(n, traces, k);
      if k in left { assert LinkOf(n, rest, k) in RetainedLinks(n, rest, left); }
    }
    forall k | k in left ensures LinkOf(n, rest, k) in RetainedLinks(n, traces, seenEdges) {
      assert LinkOf(n, traces, k) in RetainedLinks(n, traces, seenEdges);
    }
  }

  /** The path shares of the other traces, present and past. */
  ghost function OtherCredits(traces: Traces, past: Past, t: string): multiset<Credit> {
    multiset(RetainedCredits(traces - {t})) + past.credits
  }

  lemma CreditsSplit(traces: Traces, past: Past, t: string)
    requires t in traces
    ensures AllCredits(traces, past) == OtherCredits(traces, past, t) + multiset(CreditsOf(t, traces[t].contributions))
  {
    var rest := traces - {t};
    forall c ensures c in RetainedCredits(traces) <==> c in RetainedCredits(rest) || c in CreditsOf(t, traces[t].contributions) {
      if c in RetainedCredits(traces) && c.traceID != t { assert c.traceID in rest; }
      if c in RetainedCredits(rest) { assert c.traceID in traces; }
    }
    assert RetainedCredits(traces) == RetainedCredits(rest) + CreditsOf(t, traces[t].contributions);
    SetsJoin(RetainedCredits(rest), CreditsOf(t, traces[t].contributions), past.credits);
    Reassociate(multiset(RetainedCredits(rest)), past.credits, multiset(CreditsOf(t, traces[t].contributions)));
  }

  lemma Reassociate<X>(a: multiset<X>, b: multiset<X>, c: multiset<X>)
    ensures a + (b + c) == a + b + c
  {}

  lemma TrimCredits(n: Naming, traces: Traces, seenEdges: set<SpanKey>, past: Past, t: string)
    requires t in traces
    ensures AllCredits(traces - {t}, Trimmed(n, traces, seenEdges, past, t)) == AllCredits(traces, past)
  {
    CreditsSplit(traces, past, t);
    Reassociate(multiset(RetainedCredits(traces - {t})), past.credits, multiset(CreditsOf(t, traces[t].contributions)));
  }

  /** The traces with other path shares for one of them. */
  function WithShares(traces: Traces, t: string, contributions: map<PathKey, Contribution>): Traces
    requires t in traces
  {
    traces[t := traces[t].(contributions := contributions)]
  }

  lemma WithSharesCredits(traces: Traces, past: Past, t: string, contributions: map<PathKey, Contribution>)
    requires t in traces
    ensures AllCredits(WithShares(traces, t, contributions), past) == OtherCredits(traces, past, t) + multiset(CreditsOf(t, contributions))
  {
    var more := WithShares(traces, t, contributions);
    CreditsSplit(more, past, t);
    assert more - {t} == traces - {t};
  }

  /** Path shares are no part of what traces say about spans and dependencies. */
  lemma WithSharesRest(n: Naming, traces: Traces, clock: nat, seenEdges: set<SpanKey>, past: Past, t: string,
                       contributions: map<PathKey, Contribution>)
    requires TracesOk(traces, clock) && LinksOk(n, traces, seenEdges) && t in traces
    ensures var more := WithShares(traces, t, contributions);
            && TracesOk(more, clock) && LinksOk(n, more, seenEdges) && SpanIDs(more) == SpanIDs(traces)
            && AllSpans(more, past) == AllSpans(traces, past) && AllLinks(n, more, seenEdges, past) == AllLinks(n, traces, seenEdges, past)
  {
    SharesSpans(traces, t, contributions);
    SharesLinks(n, traces, seenEdges, t, contributions);
    SharesOk(traces, clock, t, contributions);
  }

  lemma SharesSpans(traces: Traces, t: string, contributions: map<PathKey, Contribution>)
    requires t in traces
    ensures RetainedSpans(WithShares(traces, t, contributions)) == RetainedSpans(traces)
    ensures SpanIDs(WithShares(traces, t, contributions)) == SpanIDs(traces)
  {
    var more := WithShares(traces, t, contributions);
    assert forall u :: u in traces <==> u in more;
    assert forall u :: u in traces ==> more[u].spans == traces[u].spans;
  }

  lemma SharesLinks(n: Naming, traces: Traces, seenEdges: set<SpanKey>, t: string, contributions: map<PathKey, Contribution>)
    requires t in traces && LinksOk(n, traces, seenEdges)
    ensures var more := WithShares(traces, t, contributions);
            LinksOk(n, more, seenEdges) && RetainedLinks(n, more, seenEdges) == RetainedLinks(n, traces, seenEdges)
  {
    hide Source;
    var more := WithShares(traces, t, contributions);
    forall k | k in seenEdges ensures IsLinked(n, more, k) && LinkOf(n, more, k) == LinkOf(n, traces, k) {
      assert IsLinked(n, traces, k);
    }
    SameImage(n, traces, more, seenEdges);
  }

  lemma SharesOk(traces: Traces, clock: nat, t: string, contributions: map<PathKey, Contribution>)
    requires TracesOk(traces, clock) && t in traces
    ensures TracesOk(WithShares(traces, t, contributions), clock)
  {}
}
