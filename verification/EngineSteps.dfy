/** How the sums behind the counters change when a span, a dependency or a path share is taken in or taken back. */
module EngineSteps {
  import opened Telemetry
  import opened Spans
  import opened TracePaths
  import opened Tallies
  import opened EngineState

  // ---- one entry of a table ---------------------------------------------------------------------------------

  lemma EntryGrows(present: bool, m: Metrics, t: Tally, duration: real, failed: bool, max: nat)
    requires EntryTracks(present, m, t) && (!present ==> m == NO_CALLS)
    ensures EntryTracks(true, Recorded(m, duration, failed, max), Plus(t, One(duration, failed)))
  {
    assert Tracks(m, t);
    RecordTracks(m, t, duration, failed, max);
  }

  lemma EntryShrinks(m: Metrics, t: Tally, duration: real, failed: bool)
    requires EntryTracks(true, m, Plus(t, One(duration, failed))) && t.total >= 0.0 && (t.count == 0 ==> t == NONE)
    ensures var r := Removed(m, duration, failed); EntryTracks(r.count > 0, if r.count > 0 then r else NO_CALLS, t)
    ensures m.count > 0 && (failed ==> m.errors > 0) && m.total - duration >= 0.0
  {
    RemoveTracks(m, t, duration, failed);
  }

  lemma PlusNone(t: Tally)
    ensures Plus(t, NONE) == t
  {
    PlusJoins(t, NONE, NONE);
  }

  // ---- the tables ----------------------------------------------------------------------------------------------

  function NodeMetrics(nodes: map<string, NodeState>, id: string): Metrics {
    if id in nodes then nodes[id].metrics else NO_CALLS
  }

  /** One more span: its node is called once more, and no other. */
  lemma NodesGrow(n: Naming, nodes: map<string, NodeState>, spans: multiset<Span>, s: Span, about: About, max: nat)
    requires NodesTrack(n, nodes, spans)
    ensures NodeOf(n, s) == None ==> NodesTrack(n, nodes, spans + multiset{s})
    ensures NodeOf(n, s).Some? ==>
      var id := NodeOf(n, s).value;
      NodesTrack(n, nodes[id := NodeState(about, Recorded(NodeMetrics(nodes, id), s.duration, IsError(s), max))], spans + multiset{s})
  {
    hide EntryTracks, Sum, Recorded;
    forall id ensures Sum(NodeWeight(n, id), spans + multiset{s})
                   == if NodeOf(n, s) == Some(id) then Plus(Sum(NodeWeight(n, id), spans), One(s.duration, IsError(s)))
                      else Sum(NodeWeight(n, id), spans)
    {
      SumAdds(NodeWeight(n, id), spans, s);
      PlusNone(Sum(NodeWeight(n, id), spans));
    }
    if NodeOf(n, s).Some? {
      var id := NodeOf(n, s).value;
      EntryGrows(id in nodes, NodeMetrics(nodes, id), Sum(NodeWeight(n, id), spans), s.duration, IsError(s), max);
    }
  }

  function EdgeMetrics(edges: map<EdgeKey, Metrics>, e: EdgeKey): Metrics {
    if e in edges then edges[e] else NO_CALLS
  }

  /** One more dependency: its edge is called once more, and no other. */
  lemma EdgesGrow(n: Naming, edges: map<EdgeKey, Metrics>, links: multiset<Link>, l: Link, target: string, max: nat)
    requires EdgesTrack(n, edges, links) && NodeOf(n, l.child) == Some(target)
    ensures var e := EdgeKey(l.source, target);
            EdgesTrack(n, edges[e := Recorded(EdgeMetrics(edges, e), l.child.duration, IsError(l.child), max)], links + multiset{l})
  {
    hide EntryTracks, Sum, Recorded;
    var e := EdgeKey(l.source, target);
    forall f ensures Sum(EdgeWeight(n, f), links + multiset{l})
                  == if f == e then Plus(Sum(EdgeWeight(n, f), links), One(l.child.duration, IsError(l.child)))
                     else Sum(EdgeWeight(n, f), links)
    {
      SumAdds(EdgeWeight(n, f), links, l);
      PlusNone(Sum(EdgeWeight(n, f), links));
    }
    EntryGrows(e in edges, EdgeMetrics(edges, e), Sum(EdgeWeight(n, e), links), l.child.duration, IsError(l.child), max);
  }

  function PathMetrics(paths: map<PathKey, PathState>, p: PathKey): Metrics {
    if p in paths then paths[p].metrics else NO_CALLS
  }

  /** A trace takes a share in a path. */
  lemma PathsGrow(paths: map<PathKey, PathState>, credits: multiset<Credit>, c: Credit, max: nat, now: nat)
    requires PathsTrack(paths, credits)
    ensures PathsTrack(paths[c.path := PathState(Recorded(PathMetrics(paths, c.path), c.share.duration, c.share.failed, max), now)],
                       credits + multiset{c})
  {
    hide EntryTracks, Sum, Recorded;
    forall p ensures Sum(PathWeight(p), credits + multiset{c})
                  == if p == c.path then Plus(Sum(PathWeight(p), credits), One(c.share.duration, c.share.failed))
                     else Sum(PathWeight(p), credits)
    {
      SumAdds(PathWeight(p), credits, c);
      PlusNone(Sum(PathWeight(p), credits));
    }
    EntryGrows(c.path in paths, PathMetrics(paths, c.path), Sum(PathWeight(c.path), credits), c.share.duration, c.share.failed, max);
  }

  /** A path without one share: gone when that was its last call. */
  function WithoutShare(paths: map<PathKey, PathState>, p: PathKey, share: Contribution): map<PathKey, PathState> {
    if p !in paths then paths
    else
      var m := Removed(paths[p].metrics, share.duration, share.failed);
      if m.count == 0 then paths - {p} else paths[p := paths[p].(metrics := m)]
  }

  ghost predicate Credible(credits: multiset<Credit>) {
    forall c :: c in credits ==> c.share.duration >= 0.0
  }

  /** A trace takes back a share it had: the path is there, no clamp fires, and the rest of the sum is untouched. */
  lemma PathsShrink(paths: map<PathKey, PathState>, rest: multiset<Credit>, c: Credit)
    requires PathsTrack(paths, rest + multiset{c}) && Credible(rest + multiset{c})
    ensures c.path in paths && PathsTrack(WithoutShare(paths, c.path, c.share), rest)
    ensures var m := paths[c.path].metrics;
            m.count > 0 && (c.share.failed ==> m.errors > 0) && m.total - c.share.duration >= 0.0
  {
    hide EntryTracks, Sum, Removed;
    forall p ensures Sum(PathWeight(p), rest + multiset{c})
                  == if p == c.path then Plus(Sum(PathWeight(p), rest), One(c.share.duration, c.share.failed))
                     else Sum(PathWeight(p), rest)
    {
      SumAdds(PathWeight(p), rest, c);
      PlusNone(Sum(PathWeight(p), rest));
    }
    PathSums(rest, c.path);
    HadShare(paths, c, Sum(PathWeight(c.path), rest));
    EntryShrinks(paths[c.path].metrics, Sum(PathWeight(c.path), rest), c.share.duration, c.share.failed);
  }

  lemma PathSums(credits: multiset<Credit>, p: PathKey)
    requires Credible(credits)
    ensures Sum(PathWeight(p), credits).total >= 0.0
    ensures Sum(PathWeight(p), credits).count == 0 ==> Sum(PathWeight(p), credits) == NONE
  {
    SumNonNegative(PathWeight(p), credits);
    SumCounts(PathWeight(p), credits);
  }

  lemma HadShare(paths: map<PathKey, PathState>, c: Credit, t: Tally)
    requires EntryTracks(c.path in paths, PathMetrics(paths, c.path), Plus(t, One(c.share.duration, c.share.failed)))
    ensures c.path in paths
  {}
}
