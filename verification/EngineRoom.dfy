/** When paths need not be evicted: a trace has at most as many path shares as it has spans to show. */
module EngineRoom {
  import opened Telemetry
  import opened Forest
  import opened TracePaths
  import opened Tallies
  import opened EngineState
  import opened EngineSteps
  import opened EngineTraces
  import opened EngineCore
  import Maps

  /** The paths that some trace has a share of. */
  function PathsIn(traces: Traces): set<PathKey> {
    set t, p | t in traces && p in traces[t].contributions :: p
  }

  ghost predicate AllShared(traces: Traces) {
    forall t :: t in traces ==> Shared(traces[t])
  }

  /** No two traces hold a span of the same ID. */
  ghost predicate Apart(traces: Traces) {
    forall t, u, id :: t in traces && u in traces && id in traces[t].spans && id in traces[u].spans ==> t == u
  }

  lemma PathsInSplit(traces: Traces, t: string)
    requires t in traces
    ensures PathsIn(traces) == PathsIn(traces - {t}) + traces[t].contributions.Keys
    ensures SpanIDs(traces) == SpanIDs(traces - {t}) + traces[t].spans.Keys
  {
    var rest := traces - {t};
    forall p | p in PathsIn(traces) ensures p in PathsIn(rest) || p in traces[t].contributions {
      var u :| u in traces && p in traces[u].contributions;
      if u != t { assert u in rest && rest[u] == traces[u]; }
    }
    forall id | id in SpanIDs(traces) ensures id in SpanIDs(rest) || id in traces[t].spans {
      var u :| u in traces && id in traces[u].spans;
      if u != t { assert u in rest && rest[u] == traces[u]; }
    }
    forall p | p in PathsIn(rest) ensures p in PathsIn(traces) {
      var u :| u in rest && p in rest[u].contributions;
      assert u in traces;
    }
    forall id | id in SpanIDs(rest) ensures id in SpanIDs(traces) {
      var u :| u in rest && id in rest[u].spans;
      assert u in traces;
    }
  }

  lemma SpanIDsApart(traces: Traces, t: string)
    requires t in traces && Apart(traces)
    ensures Apart(traces - {t}) && SpanIDs(traces - {t}) !! traces[t].spans.Keys
  {}

  /** There are at most as many paths as retained spans. */
  lemma {:induction false} PathsFew(traces: Traces)
    requires AllShared(traces) && Apart(traces)
    ensures |PathsIn(traces)| <= |SpanIDs(traces)|
    decreases |traces|
  {
    hide PathsIn, SpanIDs, Apart, Items;
    if traces == map[] {
      NoPaths();
    } else {
      var t :| t in traces;
      var rest := traces - {t};
      Maps.RemoveSize(traces, t);
      PathsInSplit(traces, t);
      SpanIDsApart(traces, t);
      PathsFew(rest);
      JoinedSize(PathsIn(rest), traces[t].contributions.Keys);
      ItemsFew(traces[t]);
      assert |SpanIDs(rest) + traces[t].spans.Keys| == |SpanIDs(rest)| + |traces[t].spans.Keys|;
    }
  }

  lemma NoPaths()
    ensures PathsIn(map[]) == {}
  {}

  lemma JoinedSize<T>(a: set<T>, b: set<T>)
    ensures |a + b| <= |a| + |b|
  {
    assert a + b == a + (b - a);
    Maps.SubsetSize(b - a, b);
  }

  lemma ItemsFew(tr: TraceState)
    requires Shared(tr)
    ensures |tr.contributions.Keys| <= |tr.spans.Keys|
  {
    Maps.SubsetSize(Items(tr.spans), tr.spans.Keys);
    assert |tr.contributions.Keys| == |tr.contributions|;
  }

  /** The paths that there can be while trace `t` takes up these shares. */
  function PathsFor(traces: Traces, t: string, desired: map<PathKey, Contribution>): set<PathKey> {
    PathsIn(traces - {t}) + desired.Keys
  }

  /** With a share at most for each shown span, they are at most as many as the retained spans. */
  lemma RoomFor(traces: Traces, t: string, desired: map<PathKey, Contribution>)
    requires t in traces && AllShared(traces) && Apart(traces) && |desired| <= |Items(traces[t].spans)|
    ensures |PathsFor(traces, t, desired)| <= |SpanIDs(traces)|
  {
    hide PathsIn, SpanIDs, Items, Apart;
    var more := traces[t := traces[t].(contributions := desired)];
    StillApart(traces, t, desired);
    PathsInSplit(more, t);
    assert more - {t} == traces - {t};
    PathsFew(more);
  }

  lemma StillApart(traces: Traces, t: string, desired: map<PathKey, Contribution>)
    requires t in traces && Apart(traces)
    ensures var more := traces[t := traces[t].(contributions := desired)]; Apart(more) && SpanIDs(more) == SpanIDs(traces)
  {
    var more := traces[t := traces[t].(contributions := desired)];
    assert more.Keys == traces.Keys && forall u :: u in traces ==> more[u].spans == traces[u].spans;
  }

  /** As long as none was evicted, every path there is has a share. */
  lemma PathHasShare(paths: map<PathKey, PathState>, credits: multiset<Credit>, p: PathKey)
    requires PathsTrack(paths, credits) && p in paths
    ensures exists c :: c in credits && c.path == p
  {
    hide Sum;
    assert EntryTracks(p in paths, EngineSteps.PathMetrics(paths, p), Sum(PathWeight(p), credits));
    SumCounts(PathWeight(p), credits);
    var c :| c in credits && PathWeight(p)(c) != NONE;
  }

  /** Before a path is added, there are fewer paths than the limit. */
  lemma RoomLeft(v: View, t: string, desired: map<PathKey, Contribution>, cur: map<PathKey, Contribution>, id: PathKey)
    requires Sharing(v, NO_PAST, false, t, cur) && cur.Keys <= desired.Keys && id in desired && id !in v.paths
    ensures |v.paths| < |PathsFor(v.traces, t, desired)|
  {
    hide PathsTrack, Credible, PathsIn;
    var all := PathsFor(v.traces, t, desired);
    forall p | p in v.paths ensures p in all - {id} {
      PathHasShare(v.paths, CreditsWith(v, NO_PAST, t, cur), p);
      var c :| c in CreditsWith(v, NO_PAST, t, cur) && c.path == p;
      CreditIn(v.traces, t, cur, c);
    }
    Maps.SubsetSize(v.paths.Keys, all - {id});
    assert |v.paths| == |v.paths.Keys|;
  }

  lemma CreditIn(traces: Traces, t: string, cur: map<PathKey, Contribution>, c: Credit)
    requires c in OtherCredits(traces, NO_PAST, t) + multiset(CreditsOf(t, cur))
    ensures c.path in PathsIn(traces - {t}) || c.path in cur
  {
    if c in RetainedCredits(traces - {t}) {
      var u, p :| u in traces - {t} && p in (traces - {t})[u].contributions && c == Credit(u, p, (traces - {t})[u].contributions[p]);
    }
  }

  // ---- the limit on paths -----------------------------------------------------------------------------------------

  /** The paths stay within the limit if they were. */
  ghost predicate Capped(before: map<PathKey, PathState>, after: map<PathKey, PathState>, max: nat) {
    max >= 1 && |before| <= max ==> |after| <= max
  }

  lemma CappedThrough(a: map<PathKey, PathState>, b: map<PathKey, PathState>, d: map<PathKey, PathState>, max: nat)
    requires Capped(a, b, max) && Capped(b, d, max)
    ensures Capped(a, d, max)
  {}

  lemma CappedSame(a: map<PathKey, PathState>, max: nat)
    ensures Capped(a, a, max)
  {}

  lemma CappedLess(a: map<PathKey, PathState>, b: map<PathKey, PathState>, max: nat)
    requires b.Keys <= a.Keys
    ensures Capped(a, b, max)
  {
    Maps.SubsetSize(b.Keys, a.Keys);
    assert |a| == |a.Keys| && |b| == |b.Keys|;
  }

  /** A path that is new takes the room that there was, or that one more path made. */
  lemma CappedMore(a: map<PathKey, PathState>, room: map<PathKey, PathState>, id: PathKey, s: PathState, max: nat)
    requires |room| <= |a| && (id !in a && |a| >= max && a != map[] ==> |room| == |a| - 1) && (id in a || |a| < max ==> room == a)
    ensures Capped(a, room[id := s], max)
  {
    Maps.UpdateSize(room, id, s);
    if id in room { assert room.Keys == room.Keys; }
  }
}
