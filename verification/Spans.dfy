/** What a trace says about nodes and dependencies, as a function of the set of its spans. */
module Spans {
  import opened Telemetry

  const TOPOLOGY_KINDS: set<string> :=
    {"http-route", "controller", "service", "database", "redis", "queue", "worker", "external-http"}

  const TRACE_KINDS: set<string> := TOPOLOGY_KINDS + {"custom"}

  /** How spans are named: `StableNodeID` of a span, and the normal form of an entrypoint name. */
  datatype Naming = Naming(node: Span -> string, entry: string -> string)

  /** The spans of one trace, by span ID. */
  type SpanMap = map<string, Span>

  ghost predicate Keyed(spans: SpanMap) {
    forall id :: id in spans ==> spans[id].spanID == id
  }

  /** The node a span belongs to, if its kind is part of the topology. */
  function NodeOf(n: Naming, s: Span): Option<string> {
    if s.kind in TOPOLOGY_KINDS then Some(n.node(s)) else None
  }

  /** `findNearestParentNode`: up the parent pointers from `id` to the first span with a node; a cycle ends the search. */
  function Nearest(n: Naming, spans: SpanMap, id: string, visited: set<string>): Option<string>
    decreases spans.Keys - visited
  {
    if id !in spans || id in visited then None
    else
      var s := spans[id];
      if NodeOf(n, s).Some? then NodeOf(n, s)
      else if s.parentSpanID == "" then None
      else Nearest(n, spans, s.parentSpanID, visited + {id})
  }

  /** The node that a span depends on behalf of: its nearest ancestor's, unless that is its own. */
  function Source(n: Naming, spans: SpanMap, s: Span): Option<string> {
    if s.parentSpanID == "" || NodeOf(n, s) == None then None
    else
      var parent := Nearest(n, spans, s.parentSpanID, {});
      if parent == NodeOf(n, s) then None else parent
  }

  ghost predicate Extends(spans: SpanMap, more: SpanMap) {
    forall id :: id in spans ==> id in more && more[id] == spans[id]
  }

  /** Spans that arrive later do not change an ancestor that has been found. */
  lemma {:induction false} NearestStays(n: Naming, spans: SpanMap, more: SpanMap, id: string, visited: set<string>)
    requires Extends(spans, more) && Nearest(n, spans, id, visited).Some?
    ensures Nearest(n, more, id, visited) == Nearest(n, spans, id, visited)
    decreases spans.Keys - visited
  {
    var s := spans[id];
    if NodeOf(n, s) == None { NearestStays(n, spans, more, s.parentSpanID, visited + {id}); }
  }

  lemma SourceStays(n: Naming, spans: SpanMap, more: SpanMap, s: Span)
    requires Extends(spans, more) && Source(n, spans, s).Some?
    ensures Source(n, more, s) == Source(n, spans, s)
  {
    NearestStays(n, spans, more, s.parentSpanID, {});
  }

  /** An ancestor's node is the node of a span of the trace. */
  lemma {:induction false} NearestIsNode(n: Naming, spans: SpanMap, id: string, visited: set<string>)
    requires Nearest(n, spans, id, visited).Some?
    ensures exists a :: a in spans && NodeOf(n, spans[a]) == Nearest(n, spans, id, visited)
    decreases spans.Keys - visited
  {
    var s := spans[id];
    if NodeOf(n, s) == None { NearestIsNode(n, spans, s.parentSpanID, visited + {id}); }
  }

  // ---- what the search finds, said by the parent pointers themselves -------------------------------------------

  /**
   * A way up from `id` to the first span of one of these kinds: different spans of the trace, each named as parent by the
   * one before, and only the last of such a kind.
   */
  ghost predicate WayUp(spans: SpanMap, kinds: set<string>, id: string, ids: seq<string>) {
    && ids != [] && ids[0] == id && (forall i :: 0 <= i < |ids| ==> ids[i] in spans)
    && (forall i, j :: 0 <= i < j < |ids| ==> ids[i] != ids[j])
    && (forall i :: 0 < i < |ids| ==> ids[i] != "" && spans[ids[i - 1]].parentSpanID == ids[i])
    && (forall i :: 0 <= i < |ids| ==> (spans[ids[i]].kind in kinds <==> i == |ids| - 1))
  }

  /** The rest of a way up, from the parent of its first span. */
  lemma WayUpRest(spans: SpanMap, kinds: set<string>, id: string, ids: seq<string>)
    requires WayUp(spans, kinds, id, ids) && spans[id].kind !in kinds
    ensures spans[id].parentSpanID != "" && WayUp(spans, kinds, spans[id].parentSpanID, ids[1..])
    ensures id !in ids[1..] && ids[1..][|ids[1..]| - 1] == ids[|ids| - 1]
  {
    assert ids[1] == spans[ids[0]].parentSpanID;
  }

  lemma WayUpLonger(spans: SpanMap, kinds: set<string>, id: string, ids: seq<string>)
    requires id in spans && spans[id].kind !in kinds && spans[id].parentSpanID != "" && id !in ids
    requires WayUp(spans, kinds, spans[id].parentSpanID, ids)
    ensures WayUp(spans, kinds, id, [id] + ids)
  {
    var all := [id] + ids;
    forall i | 0 < i < |all| ensures all[i] != "" && spans[all[i - 1]].parentSpanID == all[i] {
      if i > 1 { assert all[i] == ids[i - 1] && all[i - 1] == ids[i - 2]; }
    }
  }

  lemma {:induction false} WayUpFound(n: Naming, spans: SpanMap, id: string, visited: set<string>, ids: seq<string>)
    requires WayUp(spans, TOPOLOGY_KINDS, id, ids) && forall x :: x in ids ==> x !in visited
    ensures Nearest(n, spans, id, visited) == Some(n.node(spans[ids[|ids| - 1]]))
    decreases |ids|
  {
    hide WayUp;
    WayUpStarts(spans, TOPOLOGY_KINDS, id, ids);
    if spans[id].kind !in TOPOLOGY_KINDS {
      WayUpRest(spans, TOPOLOGY_KINDS, id, ids);
      WayUpFound(n, spans, spans[id].parentSpanID, visited + {id}, ids[1..]);
    }
  }

  lemma WayUpStarts(spans: SpanMap, kinds: set<string>, id: string, ids: seq<string>)
    requires WayUp(spans, kinds, id, ids)
    ensures id in ids && id in spans && ids[|ids| - 1] in spans && (spans[id].kind in kinds ==> ids == [id])
  {
    if spans[id].kind in kinds { assert spans[ids[0]].kind in kinds; }
  }

  lemma {:induction false} FoundWayUp(n: Naming, spans: SpanMap, id: string, visited: set<string>) returns (ids: seq<string>)
    requires Nearest(n, spans, id, visited).Some?
    ensures WayUp(spans, TOPOLOGY_KINDS, id, ids) && forall x :: x in ids ==> x !in visited
    decreases spans.Keys - visited
  {
    if NodeOf(n, spans[id]).Some? {
      ids := [id];
    } else {
      var rest := FoundWayUp(n, spans, spans[id].parentSpanID, visited + {id});
      WayUpLonger(spans, TOPOLOGY_KINDS, id, rest);
      ids := [id] + rest;
    }
  }

  /** The search finds the node at the end of a way up, and nothing exactly when there is none. */
  lemma NearestIs(n: Naming, spans: SpanMap, id: string)
    ensures forall ids :: WayUp(spans, TOPOLOGY_KINDS, id, ids) ==> Nearest(n, spans, id, {}) == Some(n.node(spans[ids[|ids| - 1]]))
    ensures Nearest(n, spans, id, {}) == None <==> forall ids :: !WayUp(spans, TOPOLOGY_KINDS, id, ids)
  {
    hide WayUp, Nearest;
    forall ids | WayUp(spans, TOPOLOGY_KINDS, id, ids)
      ensures ids != [] && ids[|ids| - 1] in spans && Nearest(n, spans, id, {}) == Some(n.node(spans[ids[|ids| - 1]]))
    {
      WayUpStarts(spans, TOPOLOGY_KINDS, id, ids);
      WayUpFound(n, spans, id, {}, ids);
    }
    if Nearest(n, spans, id, {}).Some? { var ids := FoundWayUp(n, spans, id, {}); }
  }

  /** A span with a node, whose parent lies on a way up to a span of another one. */
  ghost predicate Depends(n: Naming, spans: SpanMap, s: Span, node: string) {
    && s.kind in TOPOLOGY_KINDS && s.parentSpanID != "" && node != n.node(s)
    && exists ids :: WayUp(spans, TOPOLOGY_KINDS, s.parentSpanID, ids) && n.node(spans[ids[|ids| - 1]]) == node
  }

  /** Which node the engine counts a span for is a matter of the way up from its parent. */
  lemma SourceIff(n: Naming, spans: SpanMap, s: Span, node: string)
    ensures Source(n, spans, s) == Some(node) <==> Depends(n, spans, s, node)
  {
    hide WayUp, Nearest;
    NearestIs(n, spans, s.parentSpanID);
    forall ids | WayUp(spans, TOPOLOGY_KINDS, s.parentSpanID, ids) ensures ids != [] && ids[|ids| - 1] in spans {
      WayUpStarts(spans, TOPOLOGY_KINDS, s.parentSpanID, ids);
    }
  }

  lemma LinkedIff(n: Naming, spans: SpanMap, s: Span)
    ensures Source(n, spans, s).Some? <==> exists node :: Depends(n, spans, s, node)
  {
    hide Source, Depends;
    if Source(n, spans, s).Some? { SourceIff(n, spans, s, Source(n, spans, s).value); }
    if node :| Depends(n, spans, s, node) { SourceIff(n, spans, s, node); }
  }

  /** The search of `findNearestParentNode`, as it runs. */
  method FindNearest(n: Naming, spans: SpanMap, parentSpanID: string) returns (node: Option<string>)
    ensures node == Nearest(n, spans, parentSpanID, {})
    ensures forall ids :: WayUp(spans, TOPOLOGY_KINDS, parentSpanID, ids) ==> node == Some(n.node(spans[ids[|ids| - 1]]))
    ensures node == None <==> forall ids :: !WayUp(spans, TOPOLOGY_KINDS, parentSpanID, ids)
  {
    NearestIs(n, spans, parentSpanID);
    var id, visited := parentSpanID, {};
    while id in spans && id !in visited
      invariant Nearest(n, spans, parentSpanID, {}) == Nearest(n, spans, id, visited)
      decreases spans.Keys - visited
    {
      var s := spans[id];
      visited := visited + {id};
      if NodeOf(n, s).Some? { return NodeOf(n, s); }
      if s.parentSpanID == "" { return None; }
      id := s.parentSpanID;
    }
    return None;
  }
}
