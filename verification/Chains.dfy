/**
 * What the node chain of a line of spans is, without the code that builds it: the nodes of the spans in order, spans without
 * a node passed over and one entry for each run of the same node. From this, which paths a trace contributes.
 */
module Chains {
  import opened Telemetry
  import opened Spans
  import opened Forest
  import opened TracePaths

  /** The nodes of these spans, one by one; empty where a span has none. */
  function NodesOf(n: Naming, spans: SpanMap, path: seq<string>): seq<string> {
    seq(|path|, k requires 0 <= k < |path| =>
      if path[k] in spans && spans[path[k]].kind in TOPOLOGY_KINDS then n.node(spans[path[k]]) else "")
  }

  /**
   * The chain has one entry for each run of a node: `at[k]` of its entries are made by the first `k` nodes, a node adds one
   * entry at most, the last entry after it is its own, and neighbours in the chain differ.
   */
  ghost predicate Collapses(nodes: seq<string>, chain: seq<string>, at: seq<nat>) {
    && |at| == |nodes| + 1 && at[0] == 0 && at[|nodes|] == |chain|
    && (forall k :: 0 <= k < |nodes| ==> Adds(nodes[k], chain, at[k], at[k + 1]))
    && forall i :: 0 < i < |chain| ==> chain[i - 1] != chain[i]
  }

  predicate Adds(node: string, chain: seq<string>, before: nat, after: nat) {
    if node == "" then after == before else before <= after <= before + 1 && 0 < after <= |chain| && chain[after - 1] == node
  }

  lemma NothingCollapses()
    ensures Collapses([], [], [0])
  {}

  lemma ExtendCollapses(nodes: seq<string>, chain: seq<string>, at: seq<nat>, node: string)
    requires Collapses(nodes, chain, at)
    ensures Collapses(nodes + [node], Extend(chain, node), at + [|Extend(chain, node)|])
  {
    var more := Extend(chain, node);
    var at' := at + [|more|];
    forall k | 0 <= k < |nodes| + 1 ensures Adds((nodes + [node])[k], more, at'[k], at'[k + 1]) {
      if k < |nodes| { assert Adds(nodes[k], chain, at[k], at[k + 1]); }
    }
  }

  /** The chain that the engine builds along a line collapses its nodes. */
  lemma {:induction false} AlongCollapses(n: Naming, spans: SpanMap, path: seq<string>) returns (at: seq<nat>)
    requires forall i :: 0 <= i < |path| ==> path[i] in spans
    ensures Collapses(NodesOf(n, spans, path), Along(n, spans, path), at)
  {
    hide Collapses, Extend;
    if path == [] {
      NothingCollapses();
      at := [0];
      assert NodesOf(n, spans, path) == [];
    } else {
      var init, id := path[..|path| - 1], path[|path| - 1];
      var before := AlongCollapses(n, spans, init);
      ExtendCollapses(NodesOf(n, spans, init), Along(n, spans, init), before, ItemNode(n, spans[id]));
      at := before + [|Along(n, spans, path)|];
      assert NodesOf(n, spans, path) == NodesOf(n, spans, init) + [ItemNode(n, spans[id])];
    }
  }

  lemma {:induction false} StepsAgree(nodes: seq<string>, a: seq<string>, at: seq<nat>, b: seq<string>, bt: seq<nat>, k: nat)
    requires Collapses(nodes, a, at) && Collapses(nodes, b, bt) && k <= |nodes|
    ensures at[k] == bt[k] <= |a| && at[k] <= |b| && a[..at[k]] == b[..at[k]]
  {
    if k > 0 {
      StepsAgree(nodes, a, at, b, bt, k - 1);
      assert Adds(nodes[k - 1], a, at[k - 1], at[k]) && Adds(nodes[k - 1], b, bt[k - 1], bt[k]);
      var i := at[k - 1];
      if nodes[k - 1] != "" && i > 0 {
        assert a[i - 1] == a[..i][i - 1] == b[..i][i - 1] == b[i - 1];
      }
      if at[k] == i + 1 { assert a[..i + 1] == a[..i] + [a[i]]; }
      if bt[k] == i + 1 { assert b[..i + 1] == b[..i] + [b[i]]; }
    }
  }

  /** The nodes have one such chain only. */
  lemma CollapseIsUnique(nodes: seq<string>, a: seq<string>, at: seq<nat>, b: seq<string>, bt: seq<nat>)
    requires Collapses(nodes, a, at) && Collapses(nodes, b, bt)
    ensures a == b
  {
    StepsAgree(nodes, a, at, b, bt, |nodes|);
  }

  /** A line that leads from a root of an entry kind, with a node, down to a leaf, and whose nodes are this chain. */
  ghost predicate Route(n: Naming, spans: SpanMap, r: string, path: seq<string>, chain: seq<string>) {
    && Line(spans, path) && path[0] == r && IsLeaf(spans, path[|path| - 1])
    && r in spans && spans[r].kind in {"http-route", "worker", "controller", "service"} && NodesOf(n, spans, path)[0] != ""
    && exists at :: Collapses(NodesOf(n, spans, path), chain, at)
  }

  ghost predicate Routes(n: Naming, spans: SpanMap, r: string, chain: seq<string>) {
    exists path :: Route(n, spans, r, path, chain)
  }

  lemma RouteLeads(n: Naming, spans: SpanMap, r: string, path: seq<string>, chain: seq<string>)
    requires Route(n, spans, r, path, chain)
    ensures Leads(n, spans, r, chain)
  {
    hide Collapses, Along, IsRoot, IsItem, Hangs, IsLeaf;
    LineInSpans(spans, path);
    var at :| Collapses(NodesOf(n, spans, path), chain, at);
    var bt := AlongCollapses(n, spans, path);
    CollapseIsUnique(NodesOf(n, spans, path), chain, at, Along(n, spans, path), bt);
    SomeEntry(NodesOf(n, spans, path), chain, at);
    assert Continues(spans, [r], path);
  }

  lemma SomeEntry(nodes: seq<string>, chain: seq<string>, at: seq<nat>)
    requires Collapses(nodes, chain, at) && nodes != [] && nodes[0] != ""
    ensures chain != []
  {
    assert Adds(nodes[0], chain, at[0], at[1]);
  }

  lemma LeadsRoute(n: Naming, spans: SpanMap, r: string, chain: seq<string>)
    requires Leads(n, spans, r, chain)
    ensures Routes(n, spans, r, chain)
  {
    hide Collapses, Along, IsRoot, IsItem, Hangs, IsLeaf;
    var path :| Continues(spans, [r], path) && LineNodes(n, spans, path) == chain;
    LineInSpans(spans, path);
    var at := AlongCollapses(n, spans, path);
    assert path[0] == r;
    assert Route(n, spans, r, path, chain);
  }

  /** Root `k` is the last, by start time, that leads to the nodes of this path, and gives it its name. */
  ghost predicate LastOf(n: Naming, spans: SpanMap, roots: seq<string>, k: nat, p: PathKey) {
    && k < |roots| && roots[k] in spans && p.entrypoint == n.entry(spans[roots[k]].name)
    && Routes(n, spans, roots[k], p.nodes) && forall j :: k < j < |roots| ==> !Routes(n, spans, roots[j], p.nodes)
  }

  /** Some root is the last that leads to the nodes of this path, and gives it its name. */
  ghost predicate IsPath(n: Naming, spans: SpanMap, roots: seq<string>, p: PathKey) {
    exists k: nat :: LastOf(n, spans, roots, k, p)
  }

  lemma LeadsIff(n: Naming, spans: SpanMap, r: string, chain: seq<string>)
    ensures Leads(n, spans, r, chain) <==> Routes(n, spans, r, chain)
  {
    hide Leads, Route;
    if Leads(n, spans, r, chain) { LeadsRoute(n, spans, r, chain); }
    if path :| Route(n, spans, r, path, chain) { RouteLeads(n, spans, r, path, chain); }
  }

  /** The name that a chain has is that of the last root that leads to it. */
  lemma NamedByLast(n: Naming, spans: SpanMap, roots: seq<string>, u: map<seq<string>, string>, p: PathKey)
    requires IsUnique(n, spans, roots, u)
    ensures p.nodes in u && p.entrypoint == n.entry(u[p.nodes]) <==> IsPath(n, spans, roots, p)
  {
    hide Leads, Routes;
    forall r ensures Leads(n, spans, r, p.nodes) <==> Routes(n, spans, r, p.nodes) { LeadsIff(n, spans, r, p.nodes); }
    if p.nodes in u && p.entrypoint == n.entry(u[p.nodes]) {
      var k :| 0 <= k < |roots| && Leads(n, spans, roots[k], p.nodes);
      HasLast(n, spans, roots, k, p.nodes);
      var l: nat :| LastLead(n, spans, roots, l, p.nodes);
      assert LastOf(n, spans, roots, l, p);
    }
    if k: nat :| LastOf(n, spans, roots, k, p) {
      assert LastLead(n, spans, roots, k, p.nodes);
    }
  }

  lemma InDesired(n: Naming, u: map<seq<string>, string>, c: Contribution, p: PathKey)
    ensures p in DesiredOf(n, u, c) <==> p.nodes in u && p.entrypoint == n.entry(u[p.nodes])
    ensures p in DesiredOf(n, u, c) ==> DesiredOf(n, u, c)[p] == c
  {
    if p.nodes in u && p.entrypoint == n.entry(u[p.nodes]) { assert PathKey(n.entry(u[p.nodes]), p.nodes) in DesiredOf(n, u, c); }
  }

  /**
   * The paths of a trace: one for every chain of nodes on a line from an entry root down to a leaf, under the name of the
   * last such root, and each with the extent of the whole trace and whether any of its spans failed.
   */
  lemma PathsAre(n: Naming, spans: SpanMap, order: seq<string>, d: map<PathKey, Contribution>)
    requires AllIn(spans, order) && IsDesired(n, spans, order, d)
    ensures var roots := SortByStart(spans, RootList(spans, order));
            forall p :: p in d <==> IsPath(n, spans, roots, p)
    ensures forall p :: p in d ==> IsShare(spans, d[p])
  {
    hide IsUnique, IsPath, IsShare, RootList, SortByStart, DesiredOf;
    var roots := SortByStart(spans, RootList(spans, order));
    var u, c :| IsUnique(n, spans, roots, u) && IsShare(spans, c) && d == DesiredOf(n, u, c);
    forall p ensures (p in d <==> IsPath(n, spans, roots, p)) && (p in d ==> d[p] == c) {
      InDesired(n, u, c, p);
      NamedByLast(n, spans, roots, u, p);
    }
  }
}
