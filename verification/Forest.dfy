/**
 * The forest that parent pointers describe. Pointers may be missing, may skip spans that are not shown, and may form
 * cycles; what is reached from the roots is a finite forest all the same.
 */
module Forest {
  import opened Telemetry
  import opened Spans

  /** `findNearestTraceParent`: up the parent pointers to the first span of a kind that traces show. */
  function TraceParent(spans: SpanMap, id: string, visited: set<string>): (parent: Option<string>)
    ensures parent.Some? ==> IsItem(spans, parent.value)
    decreases spans.Keys - visited
  {
    if id == "" || id in visited || id !in spans then None
    else if spans[id].kind in TRACE_KINDS then Some(id)
    else TraceParent(spans, spans[id].parentSpanID, visited + {id})
  }

  lemma {:induction false} WayUpFollowed(spans: SpanMap, id: string, visited: set<string>, ids: seq<string>)
    requires id != "" && WayUp(spans, TRACE_KINDS, id, ids) && forall x :: x in ids ==> x !in visited
    ensures TraceParent(spans, id, visited) == Some(ids[|ids| - 1])
    decreases |ids|
  {
    hide WayUp;
    WayUpStarts(spans, TRACE_KINDS, id, ids);
    if spans[id].kind !in TRACE_KINDS {
      WayUpRest(spans, TRACE_KINDS, id, ids);
      WayUpFollowed(spans, spans[id].parentSpanID, visited + {id}, ids[1..]);
    }
  }

  lemma {:induction false} ParentWayUp(spans: SpanMap, id: string, visited: set<string>) returns (ids: seq<string>)
    requires TraceParent(spans, id, visited).Some?
    ensures id != "" && WayUp(spans, TRACE_KINDS, id, ids) && forall x :: x in ids ==> x !in visited
    decreases spans.Keys - visited
  {
    if spans[id].kind in TRACE_KINDS {
      ids := [id];
    } else {
      var rest := ParentWayUp(spans, spans[id].parentSpanID, visited + {id});
      WayUpLonger(spans, TRACE_KINDS, id, rest);
      ids := [id] + rest;
    }
  }

  /** The parent is the span at the end of the way up, and there is none exactly when there is no way up. */
  lemma ParentIs(spans: SpanMap, id: string)
    ensures forall ids :: id != "" && WayUp(spans, TRACE_KINDS, id, ids) ==> TraceParent(spans, id, {}) == Some(ids[|ids| - 1])
    ensures TraceParent(spans, id, {}) == None <==> id == "" || forall ids :: !WayUp(spans, TRACE_KINDS, id, ids)
  {
    hide WayUp, TraceParent;
    forall ids | id != "" && WayUp(spans, TRACE_KINDS, id, ids)
      ensures ids != [] && TraceParent(spans, id, {}) == Some(ids[|ids| - 1])
    {
      WayUpStarts(spans, TRACE_KINDS, id, ids);
      WayUpFollowed(spans, id, {}, ids);
    }
    if TraceParent(spans, id, {}).Some? { var ids := ParentWayUp(spans, id, {}); }
  }

  method FindTraceParent(spans: SpanMap, span: Span) returns (parent: Option<string>)
    ensures parent == TraceParent(spans, span.parentSpanID, {})
    ensures forall ids :: span.parentSpanID != "" && WayUp(spans, TRACE_KINDS, span.parentSpanID, ids) ==> parent == Some(ids[|ids| - 1])
    ensures parent == None <==> span.parentSpanID == "" || forall ids :: !WayUp(spans, TRACE_KINDS, span.parentSpanID, ids)
  {
    ParentIs(spans, span.parentSpanID);
    var id, visited := span.parentSpanID, {};
    while id != "" && id !in visited
      invariant TraceParent(spans, span.parentSpanID, {}) == TraceParent(spans, id, visited)
      invariant visited <= spans.Keys
      decreases spans.Keys - visited
    {
      if id !in spans { return None; }
      visited := visited + {id};
      if spans[id].kind in TRACE_KINDS { return Some(id); }
      id := spans[id].parentSpanID;
    }
    return None;
  }

  /** The spans that traces show. */
  predicate IsItem(spans: SpanMap, id: string) {
    id in spans && spans[id].kind in TRACE_KINDS
  }

  function Items(spans: SpanMap): set<string> {
    set id | id in spans && spans[id].kind in TRACE_KINDS
  }

  function Parent(spans: SpanMap, id: string): Option<string>
    requires id in spans
  {
    TraceParent(spans, spans[id].parentSpanID, {})
  }

  predicate IsRoot(spans: SpanMap, id: string) {
    IsItem(spans, id) && Parent(spans, id) == None
  }

  function Kids(spans: SpanMap, id: string): set<string> {
    set c | c in spans && spans[c].kind in TRACE_KINDS && Parent(spans, c) == Some(id)
  }

  // ---- lines of descent ----------------------------------------------------------------------------------

  /** Span `path[i + 1]` hangs below span `path[i]`. */
  predicate Hangs(spans: SpanMap, path: seq<string>, i: nat) {
    i + 1 < |path| && IsItem(spans, path[i + 1]) && Parent(spans, path[i + 1]) == Some(path[i])
  }

  /** A line of descent from a root. */
  ghost predicate Line(spans: SpanMap, path: seq<string>) {
    path != [] && IsRoot(spans, path[0]) && forall i :: 0 <= i < |path| - 1 ==> Hangs(spans, path, i)
  }

  lemma LineItems(spans: SpanMap, path: seq<string>, i: nat)
    requires Line(spans, path) && i < |path|
    ensures IsItem(spans, path[i]) && (i > 0 ==> Parent(spans, path[i]) == Some(path[i - 1]))
  {
    if i > 0 { assert Hangs(spans, path, i - 1); }
  }

  /** A span has one line of descent at most: no span is shown twice. */
  lemma {:induction false} LineIsUnique(spans: SpanMap, a: seq<string>, b: seq<string>)
    requires Line(spans, a) && Line(spans, b) && a[|a| - 1] == b[|b| - 1]
    ensures a == b
    decreases |a|
  {
    LineItems(spans, a, |a| - 1);
    LineItems(spans, b, |b| - 1);
    if |a| > 1 && |b| > 1 {
      LinePrefix(spans, a);
      LinePrefix(spans, b);
      LineIsUnique(spans, a[..|a| - 1], b[..|b| - 1]);
      assert a == a[..|a| - 1] + [a[|a| - 1]] && b == b[..|b| - 1] + [b[|b| - 1]];
    }
  }

  lemma LinePrefix(spans: SpanMap, path: seq<string>)
    requires Line(spans, path) && |path| > 1
    ensures Line(spans, path[..|path| - 1])
  {
    var init := path[..|path| - 1];
    forall i | 0 <= i < |init| - 1 ensures Hangs(spans, init, i) { assert Hangs(spans, path, i); }
  }

  lemma {:induction false} LineStart(spans: SpanMap, path: seq<string>, k: nat)
    requires Line(spans, path) && 0 < k <= |path|
    ensures Line(spans, path[..k])
  {
    forall i | 0 <= i < k - 1 ensures Hangs(spans, path[..k], i) { assert Hangs(spans, path, i); }
  }

  /** No span occurs twice on a line, so lines are no longer than there are spans. */
  lemma LineIsShort(spans: SpanMap, path: seq<string>)
    requires Line(spans, path)
    ensures forall i, j :: 0 <= i < j < |path| ==> path[i] != path[j]
    ensures |path| <= |Items(spans)|
  {
    forall i, j | 0 <= i < j < |path| ensures path[i] != path[j] {
      if path[i] == path[j] {
        LineStart(spans, path, i + 1);
        LineStart(spans, path, j + 1);
        LineIsUnique(spans, path[..i + 1], path[..j + 1]);
        assert false;
      }
    }
    forall i | 0 <= i < |path| ensures path[i] in Items(spans) { LineItems(spans, path, i); }
    DifferentFit(path, Items(spans));
  }

  lemma {:induction false} DifferentFit(s: seq<string>, set_: set<string>)
    requires (forall i, j :: 0 <= i < j < |s| ==> s[i] != s[j]) && forall i :: 0 <= i < |s| ==> s[i] in set_
    ensures |s| <= |set_|
  {
    if s != [] {
      var init, last := s[..|s| - 1], s[|s| - 1];
      assert last !in init;
      DifferentFit(init, set_ - {last});
    }
  }

  lemma LineGrows(spans: SpanMap, path: seq<string>, c: string)
    requires Line(spans, path) && c in Kids(spans, path[|path| - 1])
    ensures Line(spans, path + [c])
  {
    var longer := path + [c];
    forall i | 0 <= i < |longer| - 1 ensures Hangs(spans, longer, i) {
      if i < |path| - 1 { assert Hangs(spans, path, i); }
    }
  }

  // ---- which spans are shown --------------------------------------------------------------------------------

  ghost predicate Shown(spans: SpanMap, id: string) {
    exists path :: Line(spans, path) && path[|path| - 1] == id
  }

  /** The ancestor `k` generations up. */
  function Ancestor(spans: SpanMap, id: string, k: nat): Option<string> {
    if k == 0 then Some(id)
    else match Ancestor(spans, id, k - 1)
      case None => None
      case Some(a) => if a in spans then Parent(spans, a) else None
  }

  lemma {:induction false} AncestorFromParent(spans: SpanMap, id: string, k: nat)
    requires id in spans && Parent(spans, id).Some?
    ensures Ancestor(spans, id, k + 1) == Ancestor(spans, Parent(spans, id).value, k)
  {
    if k > 0 { AncestorFromParent(spans, id, k - 1); }
  }

  /** A span is shown exactly when its ancestors come to an end: only spans on or below a cycle are left out. */
  lemma ShownIff(spans: SpanMap, id: string)
    requires IsItem(spans, id)
    ensures Shown(spans, id) <==> exists k :: Ancestor(spans, id, k) == None
  {
    if Shown(spans, id) {
      var path :| Line(spans, path) && path[|path| - 1] == id;
      LineEnds(spans, path);
    }
    if k :| Ancestor(spans, id, k) == None { EndsShown(spans, id, k); }
  }

  lemma {:induction false} LineEnds(spans: SpanMap, path: seq<string>)
    requires Line(spans, path)
    ensures Ancestor(spans, path[|path| - 1], |path|) == None
  {
    LineItems(spans, path, |path| - 1);
    if |path| == 1 {
      assert Ancestor(spans, path[0], 0) == Some(path[0]);
    } else {
      LinePrefix(spans, path);
      LineEnds(spans, path[..|path| - 1]);
      AncestorFromParent(spans, path[|path| - 1], |path| - 1);
    }
  }

  lemma {:induction false} EndsShown(spans: SpanMap, id: string, k: nat)
    requires IsItem(spans, id) && Ancestor(spans, id, k) == None
    ensures Shown(spans, id)
    decreases k
  {
    if Parent(spans, id) == None {
      assert Line(spans, [id]);
    } else if k > 0 {
      var p := Parent(spans, id).value;
      AncestorFromParent(spans, id, k - 1);
      EndsShown(spans, p, k - 1);
      var path :| Line(spans, path) && path[|path| - 1] == p;
      LineGrows(spans, path, id);
      assert (path + [id])[|path + [id]| - 1] == id;
    }
  }

  /** A trace has a root exactly when it shows a span: without one, every chain of parents runs into a cycle. */
  lemma RootIffShown(spans: SpanMap)
    ensures (exists r :: IsRoot(spans, r)) <==> (exists id :: IsItem(spans, id) && Shown(spans, id))
  {
    if r :| IsRoot(spans, r) {
      assert Line(spans, [r]) && [r][|[r]| - 1] == r;
      assert IsItem(spans, r) && Shown(spans, r);
    }
    if id :| IsItem(spans, id) && Shown(spans, id) {
      var path :| Line(spans, path) && path[|path| - 1] == id;
      assert IsRoot(spans, path[0]);
    }
  }

  // ---- chains of nodes -----------------------------------------------------------------------------------------

  /** `traceSpan.nodeID`: empty for spans that have no node. */
  function ItemNode(n: Naming, s: Span): string {
    if s.kind in TOPOLOGY_KINDS then n.node(s) else ""
  }

  /** A chain of nodes, one span further down; a span without a node, or with the same one again, adds nothing. */
  function Extend(nodes: seq<string>, node: string): seq<string> {
    if node != "" && (nodes == [] || nodes[|nodes| - 1] != node) then nodes + [node] else nodes
  }

  /** The nodes along a line of descent. */
  function Along(n: Naming, spans: SpanMap, path: seq<string>): seq<string>
    requires forall i :: 0 <= i < |path| ==> path[i] in spans
  {
    if path == [] then []
    else Extend(Along(n, spans, path[..|path| - 1]), ItemNode(n, spans[path[|path| - 1]]))
  }

  predicate IsLeaf(spans: SpanMap, id: string) {
    Kids(spans, id) == {}
  }

  /** The node chain of some line that leads from the end of `path` down to a leaf. */
  ghost predicate Reaches(n: Naming, spans: SpanMap, path: seq<string>, nodes: seq<string>) {
    exists longer :: Continues(spans, path, longer) && LineNodes(n, spans, longer) == nodes
  }

  ghost predicate Continues(spans: SpanMap, path: seq<string>, longer: seq<string>) {
    Line(spans, longer) && path <= longer && IsLeaf(spans, longer[|longer| - 1])
  }

  ghost function LineNodes(n: Naming, spans: SpanMap, path: seq<string>): seq<string> {
    if forall i :: 0 <= i < |path| ==> path[i] in spans then Along(n, spans, path) else []
  }

  lemma LineInSpans(spans: SpanMap, path: seq<string>)
    requires Line(spans, path)
    ensures forall i :: 0 <= i < |path| ==> path[i] in spans
  {
    forall i | 0 <= i < |path| ensures path[i] in spans { LineItems(spans, path, i); }
  }

  lemma LineNodesStep(n: Naming, spans: SpanMap, path: seq<string>, c: string)
    requires Line(spans, path + [c])
    ensures c in spans && LineNodes(n, spans, path + [c]) == Extend(LineNodes(n, spans, path), ItemNode(n, spans[c]))
  {
    var longer := path + [c];
    forall i | 0 <= i < |longer| ensures longer[i] in spans { LineItems(spans, longer, i); }
    forall i | 0 <= i < |path| ensures path[i] in spans { assert longer[i] == path[i]; }
    assert longer[..|longer| - 1] == path && longer[|longer| - 1] == c;
  }

  /** The pointers to children that the runtime builds: every item lists its kids. */
  ghost predicate Linked(spans: SpanMap, children: map<string, seq<string>>) {
    forall id :: IsItem(spans, id) ==> id in children && Lists(children[id], Kids(spans, id))
  }

  ghost predicate Lists(list: seq<string>, elements: set<string>) {
    forall x :: x in list <==> x in elements
  }

  /** `collectNodePaths`: the node chains from a span down to the leaves below it. */
  function CollectNodePaths(n: Naming, spans: SpanMap, children: map<string, seq<string>>, ghost path: seq<string>, id: string,
                            parents: seq<string>): seq<seq<string>>
    requires Line(spans, path) && path[|path| - 1] == id && Linked(spans, children)
    decreases |Items(spans)| - |path|, 1, 0
  {
    LineItems(spans, path, |path| - 1);
    var nodes := Extend(parents, ItemNode(n, spans[id]));
    if |children[id]| == 0 then [nodes] else CollectBelow(n, spans, children, path, children[id], nodes)
  }

  function CollectBelow(n: Naming, spans: SpanMap, children: map<string, seq<string>>, ghost path: seq<string>, kids: seq<string>,
                        nodes: seq<string>): seq<seq<string>>
    requires Line(spans, path) && Linked(spans, children) && forall k :: 0 <= k < |kids| ==> kids[k] in Kids(spans, path[|path| - 1])
    decreases |Items(spans)| - |path|, 0, |kids|
  {
    if kids == [] then []
    else
      var c := kids[|kids| - 1];
      LineGrows(spans, path, c);
      LineIsShort(spans, path + [c]);
      CollectBelow(n, spans, children, path, kids[..|kids| - 1], nodes)
        + CollectNodePaths(n, spans, children, path + [c], c, nodes)
  }

  /** What is collected are the node chains of the lines from the root down to a leaf: all of them and nothing else. */
  lemma {:induction false} CollectIs(n: Naming, spans: SpanMap, children: map<string, seq<string>>, path: seq<string>, parents: seq<string>)
    requires Line(spans, path) && Linked(spans, children)
    requires parents == LineNodes(n, spans, path[..|path| - 1])
    ensures forall nodes :: nodes in CollectNodePaths(n, spans, children, path, path[|path| - 1], parents) <==> Reaches(n, spans, path, nodes)
    decreases |Items(spans)| - |path|, 1, 0
  {
    var id := path[|path| - 1];
    assert path == path[..|path| - 1] + [id];
    LineItems(spans, path, |path| - 1);
    LineNodesStep(n, spans, path[..|path| - 1], id);
    LineIsShort(spans, path);
    var here := LineNodes(n, spans, path);
    if |children[id]| == 0 {
      LeafReaches(n, spans, path);
    } else {
      BelowIs(n, spans, children, path, children[id], here);
      assert children[id][0] in children[id];
      ReachesBelow(n, spans, path);
    }
  }

  lemma {:induction false} BelowIs(n: Naming, spans: SpanMap, children: map<string, seq<string>>, path: seq<string>, kids: seq<string>, nodes: seq<string>)
    requires Line(spans, path) && Linked(spans, children) && forall k :: 0 <= k < |kids| ==> kids[k] in Kids(spans, path[|path| - 1])
    requires nodes == LineNodes(n, spans, path)
    ensures forall ns :: ns in CollectBelow(n, spans, children, path, kids, nodes) <==>
              exists c :: c in kids && Reaches(n, spans, path + [c], ns)
    decreases |Items(spans)| - |path|, 0, |kids|
  {
    if kids != [] {
      var init, c := kids[..|kids| - 1], kids[|kids| - 1];
      LineGrows(spans, path, c);
      LineIsShort(spans, path + [c]);
      assert (path + [c])[..|path|] == path;
      BelowIs(n, spans, children, path, init, nodes);
      CollectIs(n, spans, children, path + [c], nodes);
      assert forall x :: x in kids <==> x in init || x == c;
    }
  }

  lemma LeafReaches(n: Naming, spans: SpanMap, path: seq<string>)
    requires Line(spans, path) && IsLeaf(spans, path[|path| - 1])
    ensures forall nodes :: Reaches(n, spans, path, nodes) <==> nodes == LineNodes(n, spans, path)
  {
    hide Kids, Hangs, LineNodes;
    assert Continues(spans, path, path);
    forall longer | Continues(spans, path, longer) ensures longer == path {
      if |longer| > |path| { LongerHasKid(spans, path, longer); }
    }
  }

  lemma LongerHasKid(spans: SpanMap, path: seq<string>, longer: seq<string>)
    requires Line(spans, longer) && path != [] && path < longer
    ensures longer[|path|] in Kids(spans, path[|path| - 1]) && Kids(spans, path[|path| - 1]) != {}
  {
    assert Hangs(spans, longer, |path| - 1);
  }

  lemma ReachesBelow(n: Naming, spans: SpanMap, path: seq<string>)
    requires Line(spans, path) && Kids(spans, path[|path| - 1]) != {}
    ensures forall nodes :: Reaches(n, spans, path, nodes) <==>
              exists c :: c in Kids(spans, path[|path| - 1]) && Reaches(n, spans, path + [c], nodes)
  {
    hide Kids, Parent, IsRoot, IsItem, TraceParent;
    forall nodes | Reaches(n, spans, path, nodes)
      ensures exists c :: c in Kids(spans, path[|path| - 1]) && Reaches(n, spans, path + [c], nodes)
    {
      var longer :| Continues(spans, path, longer) && LineNodes(n, spans, longer) == nodes;
      assert |longer| > |path|;
      LongerHasKid(spans, path, longer);
      var c := longer[|path|];
      assert Continues(spans, path + [c], longer);
      assert c in Kids(spans, path[|path| - 1]) && Reaches(n, spans, path + [c], nodes);
    }
    forall nodes, c | c in Kids(spans, path[|path| - 1]) && Reaches(n, spans, path + [c], nodes)
      ensures Reaches(n, spans, path, nodes)
    {
      var longer :| Continues(spans, path + [c], longer) && LineNodes(n, spans, longer) == nodes;
      assert path <= path + [c] <= longer;
      assert Continues(spans, path, longer);
    }
  }
}
