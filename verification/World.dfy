/**
 * The collector as a whole: the log on disk, the pipeline that delivers its records, and the sink with its checkpoint.
 * Work goes on in any order; a crash may cut any write, and everything starts again from what the disk holds.
 */
module World {
  import opened Telemetry
  import opened WalFormat
  import opened WalLog
  import opened WalMemory
  import opened WalQueue
  import opened WalBudget
  import opened WalMarks
  import R = WalRuns
  import P = Pipeline
  import opened TopologySink

  /** One collector's codecs and settings; its log and its pipeline are told the same attempt limit. */
  datatype Site = Site(codec: Codec, log: Config, pipeline: P.Config, setup: Setup) {
    ghost predicate Lawful() {
      pipeline.Lawful() && log.maxRecordAttempts == pipeline.maxAttempts
    }
  }

  /** Log, pipeline and sink, and what became of the records so far. */
  datatype World = World(
    wal: R.Live, pipe: P.State, sink: SinkValue, stored: set<DiskRecord>, acked: set<DiskRecord>, quarantined: set<DiskRecord>)

  datatype Event =
    | Admit(group: Group, ks: seq<nat>, steps: seq<P.State>)
    | Internal(a: P.Action)
    | Background(op: R.Op)
    | Consume(w: nat, failed: bool, permanent: bool)
    | Finish(w: nat, kind: StateKind, entries: seq<StateEntry>)
    | Crash(w: nat, kind: StateKind, entries: seq<StateEntry>, op: R.Op, at: nat)

  /** `serviceKey`. */
  function ServiceKey(e: Envelope): string {
    if e.spanBatch.Some? then e.spanBatch.value.serviceName
    else if e.runtimeMetrics.Some? then e.runtimeMetrics.value.serviceName
    else ""
  }

  /** The storage that the pipeline sees is the queue of the log. */
  ghost predicate Match(st: P.Storage, q: Queue) {
    && st.active == q.Keys && st.nextID > 0
    && (forall id :: id in q ==>
          0 < id < st.nextID && id in st.attempts && st.attempts[id] == q[id].attempts
          && q[id].record.id == id && P.Service(st, id) == ServiceKey(q[id].record.envelope))
  }

  function RecordsOf(q: Queue): set<DiskRecord> {
    set id | id in q :: q[id].record
  }

  function Members(group: Group): set<DiskRecord> {
    set r | r in group
  }

  /** The envelopes of a batch. */
  function EnvelopesOf(q: Queue, ids: seq<nat>): seq<Envelope> {
    seq(|ids|, k requires 0 <= k < |ids| => if ids[k] in q then q[ids[k]].record.envelope else Envelope("", None, None))
  }

  ghost predicate RecordAccepted(r: DiskRecord) {
    r.envelope.spanBatch.Some? ==> Accepted(r.envelope.spanBatch.value.spans)
  }

  /** Every span of the record has been counted. */
  ghost predicate Covered(x: Kept, r: DiskRecord) {
    r.envelope.spanBatch.Some? ==> Covers(Everything(x), r.envelope.spanBatch.value.spans)
  }

  ghost predicate InRecord(r: DiskRecord, s: Span) {
    r.envelope.spanBatch.Some? && s in r.envelope.spanBatch.value.spans
  }

  // ---- what each event does --------------------------------------------------------------------------------------

  /** The submitters of a group see their records stored, one after the other. */
  ghost predicate Announced(cfg: P.Config, s: P.State, group: Group, ks: seq<nat>, steps: seq<P.State>, t: P.State) {
    && |ks| == |group| && |steps| == |group| + 1 && steps[0] == s && steps[|group|] == t
    && forall i :: 0 <= i < |group| ==> AnnouncedAt(cfg, group, ks, steps, i)
  }

  ghost predicate AnnouncedAt(cfg: P.Config, group: Group, ks: seq<nat>, steps: seq<P.State>, i: nat)
    requires i < |group| && i < |ks| && i + 1 < |steps|
  {
    P.Step(cfg, steps[i], P.Append(ks[i], group[i].id, ServiceKey(group[i].envelope)), steps[i + 1])
  }

  /** Actions of the pipeline that write nothing. */
  predicate Inner(a: P.Action) {
    !a.Append? && !a.Deliver? && !a.Ack? && !a.Quarantine? && !a.Retry?
  }

  function ActionOf(w: nat, kind: StateKind): P.Action {
    match kind
    case Ack => P.Ack(w)
    case Quarantine => P.Quarantine(w)
    case Retry => P.Retry(w)
  }

  /** When a worker makes each kind of storage call. */
  ghost predicate Ripe(cfg: P.Config, s: P.State, w: nat, kind: StateKind) {
    && w < |s.crew|
    && match kind
       case Ack => s.crew[w].phase.Consumed?
       case Quarantine => s.crew[w].phase.Failed? && P.Hopeless(cfg, s, w)
       case Retry => s.crew[w].phase.Failed? && !P.Hopeless(cfg, s, w)
  }

  /** The entry that such a call writes for one record of the batch. */
  ghost predicate EntryOf(x: R.Live, kind: StateKind, ids: seq<nat>, e: StateEntry) {
    && e.kind == kind && e.id in ids && e.id in x.q && Due(x, e)
    && e.attempts == x.q[e.id].attempts + (if kind == Retry then 1 else 0)
  }

  ghost predicate EntriesOf(x: R.Live, kind: StateKind, ids: seq<nat>, entries: seq<StateEntry>) {
    Distinct(entries) && forall e :: e in entries ==> EntryOf(x, kind, ids, e)
  }

  /** The records that entries of this kind are about. */
  function RecordsFor(q: Queue, entries: seq<StateEntry>, kind: StateKind): set<DiskRecord> {
    set e | e in entries && e.kind == kind && e.id in q :: q[e.id].record
  }

  ghost predicate Guarded(site: Site, x: R.Live, op: R.Op) {
    LogEncodes(site.codec, x.log) && x.log != [] && R.Thrifty(site.codec, site.log, x, op)
  }

  /** What a write that a crash cuts may be: an entry of the call in progress, a group of valid records, or upkeep. */
  ghost predicate Cuttable(site: Site, u: World, w: nat, kind: StateKind, entries: seq<StateEntry>, op: R.Op) {
    match op
    case Mark(_, e) => Ripe(site.pipeline, u.pipe, w, kind) && EntryOf(u.wal, kind, u.pipe.crew[w].held, e) && e.id !in EntryIds(entries)
    case Store(group) => (forall r :: r in group ==> RecordAccepted(r)) && Guarded(site, MarkAll(site.codec, u.wal, entries), op)
    case _ => Guarded(site, MarkAll(site.codec, u.wal, entries), op)
  }

  /** A group of valid records is stored and its submitters are told. */
  ghost predicate Admits(site: Site, u: World, group: Group, ks: seq<nat>, steps: seq<P.State>, v: World) {
    && R.Step(site.codec, site.log, u.wal, R.Done(R.Store(group)), v.wal) && Guarded(site, u.wal, R.Store(group))
    && (forall r :: r in group ==> RecordAccepted(r)) && Announced(site.pipeline, u.pipe, group, ks, steps, v.pipe)
    && v == u.(wal := v.wal, pipe := v.pipe, stored := u.stored + Members(group))
  }

  /** The log takes an ID, starts a segment or removes one. */
  ghost predicate Maintains(site: Site, u: World, op: R.Op, v: World) {
    && (op.Take? || op.Rotate? || op.Drop?) && R.Step(site.codec, site.log, u.wal, R.Done(op), v.wal) && Guarded(site, u.wal, op)
    && v == u.(wal := v.wal)
  }

  /** A worker hands its batch to the sink. */
  ghost predicate Feeds(site: Site, u: World, w: nat, failed: bool, permanent: bool, v: World) {
    && w < |u.pipe.crew| && P.Step(site.pipeline, u.pipe, P.Deliver(w, failed, permanent), v.pipe)
    && Delivers(site.setup, u.sink, EnvelopesOf(u.wal.q, u.pipe.crew[w].held), !failed, v.sink)
    && v == u.(pipe := v.pipe, sink := v.sink)
  }

  /** A worker's storage call about its whole batch. */
  ghost predicate Finishes(site: Site, u: World, w: nat, kind: StateKind, entries: seq<StateEntry>, v: World) {
    && Ripe(site.pipeline, u.pipe, w, kind) && EntriesOf(u.wal, kind, u.pipe.crew[w].held, entries)
    && EntryIds(entries) == Elements(u.pipe.crew[w].held)
    && P.Step(site.pipeline, u.pipe, ActionOf(w, kind), v.pipe)
    && v == u.(wal := MarkAll(site.codec, u.wal, entries), pipe := v.pipe,
               acked := u.acked + RecordsFor(u.wal.q, entries, Ack), quarantined := u.quarantined + RecordsFor(u.wal.q, entries, Quarantine))
  }

  /** What the log makes of a crash: the entries of the call in progress so far, and the write that was cut. */
  ghost predicate Cuts(site: Site, u: World, w: nat, kind: StateKind, entries: seq<StateEntry>, op: R.Op, at: nat, wal: R.Live) {
    && (entries == [] || (Ripe(site.pipeline, u.pipe, w, kind) && EntriesOf(u.wal, kind, u.pipe.crew[w].held, entries)))
    && Cuttable(site, u, w, kind, entries, op)
    && R.Step(site.codec, site.log, MarkAll(site.codec, u.wal, entries), R.Cut(op, at), wal)
  }

  /** What became durable before the crash. */
  ghost predicate Survives(site: Site, u: World, entries: seq<StateEntry>, op: R.Op, at: nat, v: World) {
    var written := if op.Mark? && R.Durable(site.codec, op, at) then entries + [op.e] else entries;
    && v.stored == u.stored + (if op.Store? && R.Durable(site.codec, op, at) then Members(op.group) else {})
    && v.acked == u.acked + RecordsFor(u.wal.q, written, Ack) && v.quarantined == u.quarantined + RecordsFor(u.wal.q, written, Quarantine)
  }

  ghost predicate Happens(site: Site, u: World, ev: Event, v: World) {
    match ev
    case Admit(group, ks, steps) => Admits(site, u, group, ks, steps, v)
    case Internal(a) => Inner(a) && P.Step(site.pipeline, u.pipe, a, v.pipe) && v == u.(pipe := v.pipe)
    case Background(op) => Maintains(site, u, op, v)
    case Consume(w, failed, permanent) => Feeds(site, u, w, failed, permanent, v)
    case Finish(w, kind, entries) => Finishes(site, u, w, kind, entries, v)
    case Crash(w, kind, entries, op, at) =>
      && Cuts(site, u, w, kind, entries, op, at, v.wal) && Survives(site, u, entries, op, at, v)
      && P.Initial(site.pipeline, v.pipe) && Match(v.pipe.storage, v.wal.q)
      && v.sink == u.sink.(now := u.sink.kept)
  }

  /** A collector that starts: nothing has been counted, and what the log holds is still to be delivered. */
  ghost predicate Begins(site: Site, u: World) {
    && site.Lawful() && R.Safe(site.codec, site.log, u.wal) && Match(u.pipe.storage, u.wal.q) && P.Initial(site.pipeline, u.pipe)
    && LogEncodes(site.codec, u.wal.log) && u.wal.log != [] && Budgeted(site.codec, site.log, u.wal.log)
    && (forall id :: id in u.wal.q ==> RecordAccepted(u.wal.q[id].record))
    && Coherent(site.setup, u.sink.file, u.sink.kept, u.sink.now) && Everything(u.sink.now) == multiset{}
    && u.stored == RecordsOf(u.wal.q) && u.acked == {} && u.quarantined == {}
  }

  ghost predicate StepAt(site: Site, us: seq<World>, events: seq<Event>, i: nat)
    requires i < |events| && i + 1 < |us|
  {
    hide Happens;
    Happens(site, us[i], events[i], us[i + 1])
  }

  ghost predicate History(site: Site, us: seq<World>, events: seq<Event>) {
    hide Begins, StepAt;
    |us| == |events| + 1 && Begins(site, us[0]) && forall i :: 0 <= i < |events| ==> StepAt(site, us, events, i)
  }
}
