/** What is known about a node: what the first span of it said, whatever later ones say. */
module NodeNames {
  import opened Telemetry
  import opened Spans
  import opened EngineState

  /** The first of these spans that is a call of this node. */
  ghost predicate FirstCall(n: Naming, spans: seq<Span>, k: nat, id: string) {
    k < |spans| && NodeOf(n, spans[k]) == Some(id) && forall j :: 0 <= j < k ==> NodeOf(n, spans[j]) != Some(id)
  }

  /** The description of a node is that of the first span that called it. */
  ghost predicate ByFirstCall(n: Naming, spans: seq<Span>, id: string, about: About) {
    exists k: nat :: FirstCall(n, spans, k, id) && about == Describe(spans[k])
  }

  /** With these spans taken in, known nodes are described as before, and new ones by their first call. */
  ghost predicate Describes(n: Naming, before: map<string, NodeState>, spans: seq<Span>, after: map<string, NodeState>) {
    && (forall id :: id in before ==> id in after && after[id].about == before[id].about)
    && (forall id :: id in after && id !in before ==> ByFirstCall(n, spans, id, after[id].about))
    && (forall s :: s in spans && NodeOf(n, s).Some? ==> NodeOf(n, s).value in after)
  }

  /** One more span: its node is described by it if it is new, and no other node is touched. */
  ghost predicate Called(n: Naming, nodes: map<string, NodeState>, s: Span, after: map<string, NodeState>) {
    match NodeOf(n, s)
    case None => after == nodes
    case Some(id) =>
      && id in after && after == nodes[id := after[id]]
      && after[id].about == if id in nodes then nodes[id].about else Describe(s)
  }

  lemma NothingDescribed(n: Naming, nodes: map<string, NodeState>)
    ensures Describes(n, nodes, [], nodes)
  {}

  lemma DescribesMore(n: Naming, before: map<string, NodeState>, spans: seq<Span>, nodes: map<string, NodeState>, s: Span,
                      after: map<string, NodeState>)
    requires Describes(n, before, spans, nodes)
    requires Called(n, nodes, s, after)
    ensures Describes(n, before, spans + [s], after)
  {
    hide Describe;
    var more := spans + [s];
    forall id | id in after && id !in before ensures ByFirstCall(n, more, id, after[id].about) {
      if id in nodes {
        assert ByFirstCall(n, spans, id, nodes[id].about);
        var k: nat :| FirstCall(n, spans, k, id) && nodes[id].about == Describe(spans[k]);
        assert FirstCall(n, more, k, id);
      } else {
        assert FirstCall(n, more, |spans|, id);
      }
    }
  }
}
