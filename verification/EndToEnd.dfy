/**
 * Effectively once, from admission to checkpoint: through every run of the collector, crashes included, what has been
 * acknowledged is in the durable checkpoint, nothing stored is lost, and nothing is counted twice while its trace is kept.
 */
module EndToEnd {
  import opened Bytes
  import opened Telemetry
  import opened Spans
  import opened Tallies
  import opened EngineState
  import opened EngineSteps
  import opened EngineTraces
  import opened EngineCore
  import opened Engine
  import Snapshot
  import opened WalFormat
  import opened WalLog
  import opened WalMemory
  import opened WalBudget
  import opened WalMarks
  import opened WalOps
  import R = WalRuns
  import P = Pipeline
  import opened Listing
  import Identity
  import opened Checkpoint
  import opened StateStore
  import opened TopologySink
  import opened World
  import opened WorldSteps

  // ---- what a checkpoint says about a span -----------------------------------------------------------------------

  /** Spans of one ID have been counted once at most, unless a trace with a span of that ID was trimmed. */
  ghost predicate OnceEach(x: Kept) {
    forall s, t :: s in Everything(x) && t in Everything(x) && s.spanID == t.spanID && !CountsID(x.past.spans, s.spanID) ==>
      s == t && Everything(x)[s] == 1
  }

  lemma CountedOnce(x: Kept)
    requires Fits(x)
    ensures OnceEach(x)
  {
    hide UpToDate;
    var traces := x.c.view.traces;
    TracesOf(x);
    forall s, t | s in Everything(x) && t in Everything(x) && s.spanID == t.spanID && !CountsID(x.past.spans, s.spanID)
      ensures s == t && Everything(x)[s] == 1
    {
      assert s !in x.past.spans && t !in x.past.spans;
      RetainedOnce(traces, x.c.view.clock, s, t);
    }
  }

  lemma TracesOf(x: Kept)
    requires Fits(x)
    ensures TracesOk(x.c.view.traces, x.c.view.clock) && x.c.view.seen == SpanIDs(x.c.view.traces)
  {
    hide Counted, SharesCounted, Sane, Grounded, Inflow, Reconciled, PathsSettled, TracesOk, LinksOk, SpanIDs;
  }

  lemma RetainedOnce(traces: Traces, clock: nat, s: Span, t: Span)
    requires TracesOk(traces, clock) && s in RetainedSpans(traces) && t in RetainedSpans(traces) && s.spanID == t.spanID
    ensures s == t
  {
    var a, i :| a in traces && i in traces[a].spans && traces[a].spans[i] == s;
    var b, j :| b in traces && j in traces[b].spans && traces[b].spans[j] == t;
    assert TraceOk(a, traces[a]) && TraceOk(b, traces[b]);
  }

  /** Spans that are sent again while their traces are retained count nothing. */
  lemma {:induction false} RedeliveryCountsNothing(seen: set<string>, spans: seq<Span>)
    requires forall s :: s in spans ==> s.spanID in seen
    ensures Newcomers(seen, spans) == []
  {
    if spans != [] {
      var init, last := spans[..|spans| - 1], spans[|spans| - 1];
      assert forall s :: s in init ==> s in spans;
      assert last in spans;
      RedeliveryCountsNothing(seen, init);
    }
  }

  /** A span that has been counted is one of the calls of its node, whose numbers are the sums over everything counted. */
  lemma SpanInNode(x: Kept, s: Span, id: string)
    requires Fits(x) && s in Everything(x) && NodeOf(x.c.options.naming, s) == Some(id)
    ensures id in x.c.view.nodes
    ensures Tracks(x.c.view.nodes[id].metrics, Sum(NodeWeight(x.c.options.naming, id), Everything(x)))
    ensures Sum(NodeWeight(x.c.options.naming, id), Everything(x))
         == Plus(One(s.duration, IsError(s)), Sum(NodeWeight(x.c.options.naming, id), Everything(x) - multiset{s}))
  {
    hide UpToDate, Sum, Plus, AllSpans, Tracks;
    var n := x.c.options.naming;
    NodesOf(x);
    SumTakes(NodeWeight(n, id), Everything(x), s);
    SumCounts(NodeWeight(n, id), Everything(x));
    assert NodeWeight(n, id)(s) != NONE;
    assert EntryTracks(id in x.c.view.nodes, NodeMetrics(x.c.view.nodes, id), Sum(NodeWeight(n, id), Everything(x)));
  }

  lemma NodesOf(x: Kept)
    requires Fits(x)
    ensures NodesTrack(x.c.options.naming, x.c.view.nodes, Everything(x))
  {
    hide SharesCounted, Deduplicated, Sane, Grounded, Inflow, Reconciled, PathsSettled, NodesTrack, EdgesTrack, AllSpans, AllLinks;
  }

  /** A retained span that depends on another node is one of the calls of its dependency. */
  lemma LinkInEdge(x: Kept, k: SpanKey)
    requires Fits(x) && IsLinked(x.c.options.naming, x.c.view.traces, k)
    ensures var n, v := x.c.options.naming, x.c.view;
            var l := LinkOf(n, v.traces, k);
            var e := EdgeKey(l.source, n.node(l.child));
            && l in AllLinks(n, v.traces, v.seenEdges, x.past) && e in v.edges
            && Tracks(v.edges[e], Sum(EdgeWeight(n, e), AllLinks(n, v.traces, v.seenEdges, x.past)))
  {
    hide UpToDate, Sum, AllSpans, Tracks, Source;
    var n, v := x.c.options.naming, x.c.view;
    var l := LinkOf(n, v.traces, k);
    var e := EdgeKey(l.source, n.node(l.child));
    EdgesOf(x, k);
    assert l in RetainedLinks(n, v.traces, v.seenEdges);
    var links := AllLinks(n, v.traces, v.seenEdges, x.past);
    assert l in links;
    LinkedHasNode(n, v.traces, k);
    SumCounts(EdgeWeight(n, e), links);
    assert EdgeWeight(n, e)(l) != NONE;
    assert EntryTracks(e in v.edges, EngineSteps.EdgeMetrics(v.edges, e), Sum(EdgeWeight(n, e), links));
  }

  /**
   * A retained span whose parent lies on a way up to a span of another node is one of the calls of the edge between the
   * two nodes, whose numbers are the sums over all such spans.
   */
  lemma SpanInEdge(x: Kept, t: string, id: string, node: string)
    requires Fits(x) && t in x.c.view.traces && id in x.c.view.traces[t].spans
    requires Depends(x.c.options.naming, x.c.view.traces[t].spans, x.c.view.traces[t].spans[id], node)
    ensures var n, v, s := x.c.options.naming, x.c.view, x.c.view.traces[t].spans[id];
            var e := EdgeKey(node, n.node(s));
            && Link(s, node) in AllLinks(n, v.traces, v.seenEdges, x.past) && e in v.edges
            && Tracks(v.edges[e], Sum(EdgeWeight(n, e), AllLinks(n, v.traces, v.seenEdges, x.past)))
  {
    hide Fits, Depends, Source, AllLinks, Sum, Tracks;
    SourceIff(x.c.options.naming, x.c.view.traces[t].spans, x.c.view.traces[t].spans[id], node);
    LinkInEdge(x, SpanKey(t, id));
  }

  lemma LinkedHasNode(n: Naming, traces: Traces, k: SpanKey)
    requires IsLinked(n, traces, k)
    ensures NodeOf(n, LinkOf(n, traces, k).child) == Some(n.node(LinkOf(n, traces, k).child))
  {
    hide Nearest;
  }

  lemma EdgesOf(x: Kept, k: SpanKey)
    requires Fits(x) && IsLinked(x.c.options.naming, x.c.view.traces, k)
    ensures k in x.c.view.seenEdges
    ensures EdgesTrack(x.c.options.naming, x.c.view.edges, AllLinks(x.c.options.naming, x.c.view.traces, x.c.view.seenEdges, x.past))
  {
    hide SharesCounted, Deduplicated, Sane, Grounded, Inflow, PathsSettled, NodesTrack, EdgesTrack, AllSpans, AllLinks, Source;
    assert Reconciled(x.c.options.naming, x.c.view, k.traceID);
    assert SpanKey(k.traceID, k.spanID) == k;
  }

  // ---- a first start ---------------------------------------------------------------------------------------------

  /** A collector that starts on an empty directory is one from which runs begin, if its budget has room for the headers. */
  lemma FirstWorld(site: Site, now: nat) returns (u: World)
    requires site.Lawful() && site.codec.Lawful() && site.log.Valid() && site.setup.Lawful() && site.log.maxBytes >= SEGMENT_HEADER + STATE_HEADER
    ensures Begins(site, u) && u.sink.file == None && u.wal == R.Fresh(site.codec, now)
  {
    hide Engine.Valid, StateHeader, RecordAccepted, UpToDate, Fits;
    hide R.Safe, LogEncodes, Budgeted, Affordable, R.Fresh, Snapshot.Proper, Defaulted;
    R.FirstStart(site.codec, site.log, now);
    R.FreshIs(site.codec, now);
    var x := Kept(site.setup.Fresh(), NO_PAST, false);
    FreshFits(site.setup);
    var wal := R.Fresh(site.codec, now);
    u := World(wal, FirstPipe(site.pipeline), SinkValue(None, x, x), {}, {}, {});
    FreshLog(site.codec, now);
  }

  lemma FreshLog(c: Codec, now: nat)
    ensures R.Fresh(c, now).log != []
  {}

  function FirstPipe(cfg: P.Config): P.State {
    P.State(true, false, P.Storage({}, map[], map[], 1), map[], {}, map[], map[], P.Looking, 0, [], P.Running, [], [], [],
            seq(cfg.workers, _ => P.Worker([], [], P.Free)), P.History({}, map[], map[], {}, {}, map[], [], multiset{}, {}, {}, false))
  }

  lemma FreshFits(setup: Setup)
    ensures var x := Kept(setup.Fresh(), NO_PAST, false); Fits(x) && setup.Owns(x) && setup.Holds(None, x) && Everything(x) == multiset{}
  {
    hide UpToDate;
    NothingUpToDate(setup.requested.naming);
    assert Defaulted(Defaulted(setup.requested)) == Defaulted(setup.requested);
  }

  /** A codec that encodes the listed records, each by its place in the list. */
  function ListedRecords(records: seq<DiskRecord>): Codec {
    Codec(
      s => 0,
      r => if FirstIndex(records, r) < |records| then Some(seq(FirstIndex(records, r), _ => 0)) else None,
      s => if |s| < |records| then Some(records[|s|]) else None)
  }

  lemma ListedLawful(records: seq<DiskRecord>)
    ensures ListedRecords(records).Lawful() && forall r :: r in records ==> ListedRecords(records).marshal(r).Some?
  {
    var c := ListedRecords(records);
    forall r: DiskRecord ensures c.marshal(r).Some? <==> r in records { FirstIndexIs(records, r); }
    forall r: DiskRecord | c.marshal(r).Some? ensures c.unmarshal(c.marshal(r).value) == Some(r) { FirstIndexIs(records, r); }
  }

  /** ASCII letters; other characters are kept as they are. */
  const ASCII := Identity.Letters(
    (c: char) => if 'A' <= c <= 'Z' then (c as int + 32) as char else c,
    (c: char) => c == ' ' || 9 <= c as int <= 13)

  /**
   * Runs exist: for any records and any checkpoints that a run may write, there is a site whose codecs are lawful and
   * encode all of them, and a world from which its runs begin.
   */
  lemma SiteFor(records: seq<DiskRecord>, states: seq<State>, log: Config, workers: nat, now: nat) returns (site: Site, u: World)
    requires log.Valid() && log.maxBytes >= SEGMENT_HEADER + STATE_HEADER && workers >= 1
    ensures Begins(site, u) && site.codec.Lawful() && site.setup.Lawful() && site.log == log
    ensures forall r :: r in records ==> site.codec.marshal(r).Some?
    ensures forall s :: s in states ==> Sealed(site.setup.codec, s).Some?
  {
    hide Begins, Snapshot.Proper, Sealed;
    var naming, ids := Identity.RuntimeNaming(ASCII), Snapshot.RuntimeIds((x: string) => x);
    Snapshot.RuntimeProper(ASCII, (x: string) => x);
    ListedLawful(records);
    var codec := CodecFor(states);
    site := Site(ListedRecords(records), log, P.Config(workers, 1, log.maxRecordAttempts, (s: string) => 0),
                 Setup(codec, ids, ASCII, Options(naming, 0, 0, 0), "", ""));
    u := FirstWorld(site, now);
  }

  // ---- every run -----------------------------------------------------------------------------------------------

  ghost predicate IsAt(us: seq<World>, n: nat, u: World) {
    n < |us| && us[n] == u
  }

  lemma {:induction false} RunJoined(site: Site, us: seq<World>, events: seq<Event>, n: nat, u: World)
    requires History(site, us, events) && IsAt(us, n, u)
    ensures Joined(site, u)
  {
    hide Happens, Joined, Begins;
    if n == 0 {
      StartJoined(site, u);
    } else {
      RunJoined(site, us, events, n - 1, us[n - 1]);
      StepTaken(site, us, events, n - 1, us[n - 1], events[n - 1], u);
      RunLawful(site, us, events);
      EventJoined(site, us[n - 1], events[n - 1], u);
    }
  }

  /** Event `n` of a run leads from one world to the next. */
  ghost predicate Leads(us: seq<World>, events: seq<Event>, n: nat, u: World, ev: Event, v: World) {
    n < |events| && IsAt(us, n, u) && events[n] == ev && IsAt(us, n + 1, v)
  }

  lemma StepTaken(site: Site, us: seq<World>, events: seq<Event>, n: nat, u: World, ev: Event, v: World)
    requires History(site, us, events) && Leads(us, events, n, u, ev, v)
    ensures Happens(site, u, ev, v)
  {
    hide Happens, Begins;
    assert StepAt(site, us, events, n);
  }

  lemma ReachedJoined(site: Site, us: seq<World>, events: seq<Event>, u: World)
    requires History(site, us, events) && u in us
    ensures Joined(site, u)
  {
    hide History, Joined;
    var n :| 0 <= n < |us| && us[n] == u;
    RunJoined(site, us, events, n, u);
  }

  lemma RunLawful(site: Site, us: seq<World>, events: seq<Event>)
    requires History(site, us, events)
    ensures site.Lawful()
  {
    hide Happens, R.Safe, Match, P.Initial, Coherent;
  }

  /**
   * Effectively once: at every point of every run of the collector, with crashes, failed deliveries, retries and replays
   * anywhere, each span of an acknowledged record is counted in the checkpoint on disk, and no span ID is counted twice
   * there unless its trace was trimmed in between.
   */
  lemma EffectivelyOnce(site: Site, us: seq<World>, events: seq<Event>, u: World)
    requires History(site, us, events) && u in us
    ensures forall r :: r in u.acked ==> Covered(u.sink.kept, r)
    ensures site.setup.Holds(u.sink.file, u.sink.kept) && Fits(u.sink.kept) && OnceEach(u.sink.kept)
  {
    hide History, R.Safe, Paid, PipeOk, Match, AllValid, Balanced, Delivered, Sourced, Covered, OnceEach, Fits, Everything, Setup.Holds;
    ReachedJoined(site, us, events, u);
    CountedOnce(u.sink.kept);
  }

  /** Nothing is lost and nothing made up: what was stored is queued, acknowledged or quarantined, and only that is counted. */
  lemma NothingLost(site: Site, us: seq<World>, events: seq<Event>, u: World)
    requires History(site, us, events) && u in us
    ensures u.stored == RecordsOf(u.wal.q) + u.acked + u.quarantined
    ensures forall s :: s in Everything(u.sink.kept) ==> exists r :: r in u.stored && InRecord(r, s)
  {
    hide History, R.Safe, Paid, PipeOk, Match, AllValid, Delivered, AllCounted, Everything, Fits, InRecord;
    ReachedJoined(site, us, events, u);
  }

  /**
   * The budget of the log holds through every run, because the pipeline keeps its retries below the log's attempt limit:
   * what the log counts as used and the reserve are within the limit, up to a spent segment that a rotation has just closed.
   */
  lemma BudgetHolds(site: Site, us: seq<World>, events: seq<Event>, u: World)
    requires History(site, us, events) && u in us
    ensures R.Safe(site.codec, site.log, u.wal) && R.WithinBudget(site.codec, site.log, u.wal)
  {
    hide History, R.Safe, PipeOk, Match, AllValid, Delivered, AllCounted, Sourced, Balanced, Coherent, Budgeted, LogEncodes;
    hide R.WithinBudget;
    ReachedJoined(site, us, events, u);
    R.BudgetCounted(site.codec, site.log, u.wal);
  }

  /** Writing this entry releases its 24 bytes of the reserve. */
  ghost predicate ReleasesItsEntry(max: nat, active: map<nat, Metadata>, e: StateEntry) {
    && e.id in active && e.attempts == active[e.id].attempts + 1 < max
    && Reserve(max, Marked(active, e)) == Reserve(max, active) - STATE_ENTRY
  }

  /** Every retry that the pipeline notes releases exactly the entry it writes: the clamp of the reserve never fires. */
  lemma RetriesReleaseTheirEntries(site: Site, us: seq<World>, events: seq<Event>, n: nat, w: nat, entries: seq<StateEntry>, u: World, v: World)
    requires History(site, us, events) && Leads(us, events, n, u, Finish(w, Retry, entries), v)
    ensures forall e :: e in entries ==> ReleasesItsEntry(site.log.maxRecordAttempts, u.wal.m.active, e)
  {
    hide History, Happens, Joined, R.Safe, Match, Reserve, Ripe, Finishes, EntryOf, Site.Lawful, Marked;
    RunJoined(site, us, events, n, u);
    RunLawful(site, us, events);
    StepTaken(site, us, events, n, u, Finish(w, Retry, entries), v);
    IsFinish(site, u, w, Retry, entries, v);
    RetriesFinished(site, u, w, entries, v);
    forall e | e in entries ensures ReleasesItsEntry(site.log.maxRecordAttempts, u.wal.m.active, e) {
      RetryReleasesOneEntry(site.log.maxRecordAttempts, u.wal.m.active, e);
    }
  }

  lemma IsFinish(site: Site, u: World, w: nat, kind: StateKind, entries: seq<StateEntry>, v: World)
    requires Happens(site, u, Finish(w, kind, entries), v)
    ensures Finishes(site, u, w, kind, entries, v)
  {
    hide Admits, Maintains, Feeds, Finishes, Cuts, Survives, P.Step, P.Initial, Match;
  }

  lemma RetriesFinished(site: Site, u: World, w: nat, entries: seq<StateEntry>, v: World)
    requires Finishes(site, u, w, Retry, entries, v) && Joined(site, u) && site.Lawful()
    ensures BelowLimit(site.log.maxRecordAttempts, u.wal.m.active, entries) && forall e :: e in entries ==> e.kind == Retry
  {
    hide R.Safe, Paid, PipeOk, Match, AllValid, Delivered, AllCounted, Sourced, Balanced, Coherent, P.Hopeless, Due, MarkAll, P.Step;
    RetriesBelowLimit(site, u, w, Retry, entries);
  }

  // ---- the code behind two of the events ---------------------------------------------------------------------------

  /** A worker is about to hand over these envelopes. */
  ghost predicate HasBatch(u: World, w: nat, envelopes: seq<Envelope>) {
    w < |u.pipe.crew| && u.pipe.crew[w].phase.Ready? && envelopes == EnvelopesOf(u.wal.q, u.pipe.crew[w].held)
  }

  /** A worker's delivery, carried out by the sink's own code, is the event of the model. */
  method Deliver(ghost site: Site, ghost u: World, w: nat, topology: Topology, envelopes: seq<Envelope>, permanent: bool, turns: nat -> Turn)
    returns (failed: bool, ghost v: World)
    requires topology.setup == site.setup && topology.Value() == u.sink && HasBatch(u, w, envelopes) && Joined(site, u)
    modifies topology.engine, topology`file, topology`kept
    ensures topology.Value() == v.sink && Feeds(site, u, w, failed, permanent, v)
  {
    hide R.Safe, Paid, PipeOk, Match, Coherent, Fits, Everything, AllValid, Balanced, Delivered, AllCounted, Sourced, Delivers, AllAccepted;
    hide EnvelopesOf, P.Tried, Consumes, IsLastNewest;
    BatchValid(u.pipe, u.wal.q, w);
    var r := topology.ConsumeBatch(envelopes, turns);
    failed := r.Err?;
    v := u.(pipe := P.Tried(u.pipe, w, failed, permanent), sink := topology.Value());
  }

  /** The file decodes to a state whose checksum is not zero. */
  ghost predicate Checksummed(codec: StateCodec, file: seq<byte>) {
    codec.unmarshal(file).Some? && codec.unmarshal(file).value.checksum != 0
  }

  /** A restart of the sink gives the sink of the model after a crash, unless the checkpoint's checksum is zero. */
  method Restart(ghost site: Site, ghost u: World, topology: Topology) returns (ok: bool)
    requires topology.setup == site.setup && topology.Value() == u.sink && Joined(site, u)
    requires Snapshot.Apart(site.setup.ids, u.sink.kept.c.view.paths)
    modifies topology`engine
    ensures ok ==> topology.Value() == u.sink.(now := u.sink.kept)
    ensures ok <==> (u.sink.file.Some? ==> Checksummed(site.setup.codec, u.sink.file.value))
  {
    hide R.Safe, Paid, PipeOk, Match, Coherent, Fits, Everything, AllValid, Balanced, Delivered, AllCounted, Sourced;
    ok := topology.Reopen();
  }
}
