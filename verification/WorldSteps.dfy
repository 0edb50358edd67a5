/** What every event of the collector keeps. */
module WorldSteps {
  import opened Telemetry
  import opened WalFormat
  import opened WalLog
  import opened WalMemory
  import opened WalQueue
  import opened WalBudget
  import opened WalMarks
  import opened WalSteps
  import R = WalRuns
  import P = Pipeline
  import opened PipelineOwners
  import opened TopologySink
  import opened World

  ghost predicate PipeOk(s: P.State) {
    Exclusive(s) && Alive(s) && Accounted(s)
  }

  /** A batch that the sink has taken is in the checkpoint, before anything about it is written to the log. */
  ghost predicate Delivered(s: P.State, q: Queue, kept: Kept) {
    forall w, id :: 0 <= w < |s.crew| && s.crew[w].phase.Consumed? && id in s.crew[w].held ==> id in q && Covered(kept, q[id].record)
  }

  ghost predicate AllCounted(records: set<DiskRecord>, kept: Kept) {
    forall r :: r in records ==> Covered(kept, r)
  }

  /** Everything that was counted came from a record that was stored. */
  ghost predicate Sourced(stored: set<DiskRecord>, m: multiset<Span>) {
    forall s :: s in m ==> exists r :: r in stored && InRecord(r, s)
  }

  ghost predicate AllValid(q: Queue) {
    forall id :: id in q ==> RecordAccepted(q[id].record)
  }

  ghost predicate Paid(site: Site, x: R.Live) {
    LogEncodes(site.codec, x.log) && x.log != [] && Budgeted(site.codec, site.log, x.log)
  }

  /** Every stored record is queued, acknowledged or quarantined. */
  ghost predicate Balanced(u: World) {
    u.stored == RecordsOf(u.wal.q) + u.acked + u.quarantined
  }

  ghost predicate Joined(site: Site, u: World) {
    && R.Safe(site.codec, site.log, u.wal) && Paid(site, u.wal) && PipeOk(u.pipe) && Match(u.pipe.storage, u.wal.q)
    && Coherent(site.setup, u.sink.file, u.sink.kept, u.sink.now) && AllValid(u.wal.q) && Balanced(u)
    && Delivered(u.pipe, u.wal.q, u.sink.kept) && AllCounted(u.acked, u.sink.kept) && Sourced(u.stored, Everything(u.sink.now))
  }

  // ---- the pipeline's part -----------------------------------------------------------------------------------

  lemma PipeKept(cfg: P.Config, s: P.State, a: P.Action, t: P.State)
    requires P.Step(cfg, s, a, t) && PipeOk(s)
    ensures PipeOk(t)
  {
    hide P.Step, Exclusive, Alive, Accounted;
    OwnersKept(cfg, s, a, t);
    AccountedKept(cfg, s, a, t);
  }

  /** No worker has a consumed batch that it did not have before. */
  ghost predicate NoneConsumed(s: P.State, t: P.State) {
    |t.crew| == |s.crew| && forall w :: 0 <= w < |s.crew| && t.crew[w].phase.Consumed? ==> s.crew[w].phase.Consumed? && t.crew[w].held == s.crew[w].held
  }

  lemma InnerStep(cfg: P.Config, s: P.State, a: P.Action, t: P.State)
    requires P.Step(cfg, s, a, t) && Inner(a)
    ensures t.storage == s.storage && NoneConsumed(s, t)
  {
    hide P.DoorOpen, P.Passes, P.CanLoad, P.LoaderDoes, P.CanDispatch, P.DispatcherDoes, P.CanWork, P.WorkerDoes;
    if P.Door(a) { InnerDoor(cfg, s, a, t); }
    else if P.Loading(a) { InnerLoader(cfg, s, a, t); }
    else if P.Dispatching(a) { InnerDispatcher(cfg, s, a, t); }
    else { InnerWorker(cfg, s, a, t); }
  }

  lemma InnerDoor(cfg: P.Config, s: P.State, a: P.Action, t: P.State)
    requires P.Door(a) && P.DoorOpen(cfg, s, a) && P.Passes(cfg, s, a, t) && Inner(a)
    ensures t.storage == s.storage && NoneConsumed(s, t)
  {}

  lemma InnerLoader(cfg: P.Config, s: P.State, a: P.Action, t: P.State)
    requires P.Loading(a) && P.CanLoad(cfg, s, a) && P.LoaderDoes(cfg, s, a, t)
    ensures t.storage == s.storage && NoneConsumed(s, t)
  {
    hide P.Loads, Elements;
    if a.Load? { LoadCases(s, t); }
  }

  lemma InnerDispatcher(cfg: P.Config, s: P.State, a: P.Action, t: P.State)
    requires P.Dispatching(a) && P.CanDispatch(cfg, s, a) && P.DispatcherDoes(cfg, s, a, t)
    ensures t.storage == s.storage && NoneConsumed(s, t)
  {
    hide P.Splits, P.Answers, Elements;
  }

  lemma InnerWorker(cfg: P.Config, s: P.State, a: P.Action, t: P.State)
    requires P.Working(a) && P.CanWork(cfg, s, a) && P.WorkerDoes(cfg, s, a, t) && Inner(a)
    ensures t.storage == s.storage && NoneConsumed(s, t)
  {
    hide P.Exhausted, P.Answers, Elements;
  }

  lemma InternalJoined(site: Site, u: World, ev: Event, v: World)
    requires Joined(site, u) && Happens(site, u, ev, v) && ev.Internal?
    ensures Joined(site, v)
  {
    hide R.Safe, P.Step, PipeOk, Match, Coherent, Everything, Covered, Paid;
    PipeKept(site.pipeline, u.pipe, ev.a, v.pipe);
    InnerStep(site.pipeline, u.pipe, ev.a, v.pipe);
  }

  lemma BackgroundJoined(site: Site, u: World, ev: Event, v: World)
    requires Joined(site, u) && Happens(site, u, ev, v) && ev.Background?
    ensures Joined(site, v)
  {
    hide R.Safe, PipeOk, Match, Coherent, Everything, Covered, R.Enabled, R.Does, R.LogAfter, LogEncodes, Budgeted, R.Thrifty;
    R.StepSafe(site.codec, site.log, u.wal, R.Done(ev.op), v.wal);
    R.StepBudgeted(site.codec, site.log, u.wal, R.Done(ev.op), v.wal);
    assert v.wal.q == u.wal.q;
  }

  // ---- a group that is stored ------------------------------------------------------------------------------------

  lemma AppendMatches(cfg: P.Config, s: P.State, k: nat, r: DiskRecord, t: P.State, q: Queue)
    requires P.Step(cfg, s, P.Append(k, r.id, ServiceKey(r.envelope)), t) && Match(s.storage, q) && Accounted(s)
    ensures r.id !in q && Match(t.storage, q[r.id := Delivery(r, 0)]) && t.crew == s.crew && t.storage.nextID == r.id + 1
  {
    hide Accounted, ServiceKey, P.WorkerDoes, P.LoaderDoes, P.Passes, P.CanLoad, P.Loading, P.Released;
    hide P.Step;
    var a := P.Append(k, r.id, ServiceKey(r.envelope));
    AppendLedger(cfg, s, a, t);
    StillStep(cfg, s, a, t);
  }

  lemma GroupQueueStep(group: Group, i: nat)
    requires i < |group|
    ensures GroupQueue(group[..i + 1]) == GroupQueue(group[..i])[group[i].id := Delivery(group[i], 0)]
  {
    assert group[..i + 1][..i] == group[..i];
  }

  lemma QueueWithOne(q: Queue, more: Queue, id: nat, d: Delivery)
    ensures (q + more)[id := d] == q + more[id := d]
  {}

  lemma {:induction false} AnnouncedMatches(cfg: P.Config, s: P.State, group: Group, ks: seq<nat>, steps: seq<P.State>, t: P.State, q: Queue, i: nat)
    requires Announced(cfg, s, group, ks, steps, t) && PipeOk(s) && Match(s.storage, q) && i <= |group|
    ensures PipeOk(steps[i]) && Match(steps[i].storage, q + GroupQueue(group[..i])) && steps[i].crew == s.crew
    ensures RecordsOf(q + GroupQueue(group[..i])) == RecordsOf(q) + Members(group[..i])
  {
    hide P.Step, Exclusive, Alive, Accounted, Match;
    if i == 0 {
      assert group[..0] == [];
      assert q + map[] == q;
    } else {
      AnnouncedMatches(cfg, s, group, ks, steps, t, q, i - 1);
      var before := q + GroupQueue(group[..i - 1]);
      assert AnnouncedAt(cfg, group, ks, steps, i - 1);
      PipeKept(cfg, steps[i - 1], P.Append(ks[i - 1], group[i - 1].id, ServiceKey(group[i - 1].envelope)), steps[i]);
      AppendMatches(cfg, steps[i - 1], ks[i - 1], group[i - 1], steps[i], before);
      GroupQueueStep(group, i - 1);
      QueueWithOne(q, GroupQueue(group[..i - 1]), group[i - 1].id, Delivery(group[i - 1], 0));
      OneRecordMore(before, group[i - 1], group[..i - 1]);
      assert group[..i] == group[..i - 1] + [group[i - 1]];
    }
  }

  lemma OneRecordMore(q: Queue, r: DiskRecord, group: Group)
    requires r.id !in q
    ensures RecordsOf(q[r.id := Delivery(r, 0)]) == RecordsOf(q) + {r} && Members(group + [r]) == Members(group) + {r}
  {
    var more := q[r.id := Delivery(r, 0)];
    assert more[r.id].record == r;
    forall id | id in q ensures q[id].record in RecordsOf(more) { assert more[id] == q[id]; }
  }

  lemma AdmitJoined(site: Site, u: World, ev: Event, v: World)
    requires Joined(site, u) && Happens(site, u, ev, v) && ev.Admit?
    ensures Joined(site, v)
  {
    hide Members, P.Step, GroupQueue, RecordAccepted, P.CanDispatch;
    hide R.Safe, PipeOk, Match, Coherent, Everything, Covered, R.Enabled, R.Does, R.LogAfter, LogEncodes, Budgeted, R.Thrifty, Announced;
    R.StepSafe(site.codec, site.log, u.wal, R.Done(R.Store(ev.group)), v.wal);
    R.StepBudgeted(site.codec, site.log, u.wal, R.Done(R.Store(ev.group)), v.wal);
    AnnouncedAll(site.pipeline, u.pipe, ev.group, ev.ks, ev.steps, v.pipe, u.wal.q);
    assert v.wal.q == u.wal.q + GroupQueue(ev.group);
    hide R.Step;
    AdmitRecords(u.wal.q, ev.group, u.pipe, u.sink.kept);
    MoreSources(u.stored, Members(ev.group), Everything(u.sink.now));
  }

  lemma AnnouncedAll(cfg: P.Config, s: P.State, group: Group, ks: seq<nat>, steps: seq<P.State>, t: P.State, q: Queue)
    requires Announced(cfg, s, group, ks, steps, t) && PipeOk(s) && Match(s.storage, q)
    ensures PipeOk(t) && Match(t.storage, q + GroupQueue(group)) && t.crew == s.crew
    ensures RecordsOf(q + GroupQueue(group)) == RecordsOf(q) + Members(group)
    ensures forall id :: id in q ==> id !in GroupQueue(group)
  {
    hide PipeOk, Match;
    AnnouncedMatches(cfg, s, group, ks, steps, t, q, |group|);
    assert group[..|group|] == group;
    AnnouncedNew(cfg, s, group, ks, steps, t, q, |group|);
  }

  lemma {:induction false} AnnouncedNew(cfg: P.Config, s: P.State, group: Group, ks: seq<nat>, steps: seq<P.State>, t: P.State, q: Queue, i: nat)
    requires Announced(cfg, s, group, ks, steps, t) && PipeOk(s) && Match(s.storage, q) && i <= |group|
    ensures forall id :: id in q ==> id !in GroupQueue(group[..i])
  {
    hide Exclusive, Alive, Accounted, Match, P.Step;
    if i > 0 {
      AnnouncedNew(cfg, s, group, ks, steps, t, q, i - 1);
      AnnouncedMatches(cfg, s, group, ks, steps, t, q, i - 1);
      assert AnnouncedAt(cfg, group, ks, steps, i - 1);
      AppendMatches(cfg, steps[i - 1], ks[i - 1], group[i - 1], steps[i], q + GroupQueue(group[..i - 1]));
      GroupQueueStep(group, i - 1);
    }
  }

  lemma {:induction false} GroupQueueIs(group: Group)
    ensures forall id :: id in GroupQueue(group) ==> GroupQueue(group)[id].record in group
  {
    if group != [] {
      GroupQueueIs(group[..|group| - 1]);
      assert forall r :: r in group[..|group| - 1] ==> r in group;
    }
  }

  lemma AdmitRecords(q: Queue, group: Group, s: P.State, kept: Kept)
    requires AllValid(q) && (forall r :: r in group ==> RecordAccepted(r)) && Delivered(s, q, kept)
    requires forall id :: id in q ==> id !in GroupQueue(group)
    ensures AllValid(q + GroupQueue(group)) && Delivered(s, q + GroupQueue(group), kept)
  {
    hide RecordAccepted, Covered;
    GroupQueueIs(group);
  }

  lemma MoreSources(stored: set<DiskRecord>, more: set<DiskRecord>, m: multiset<Span>)
    requires Sourced(stored, m)
    ensures Sourced(stored + more, m)
  {
    forall s | s in m ensures exists r :: r in stored + more && InRecord(r, s) {
      var r :| r in stored && InRecord(r, s);
      assert r in stored + more;
    }
  }

  // ---- a delivery --------------------------------------------------------------------------------------------------

  lemma CoveredMore(x: Kept, y: Kept, r: DiskRecord)
    requires Covered(x, r) && Everything(x) <= Everything(y)
    ensures Covered(y, r)
  {
    hide Covers, Everything;
    if r.envelope.spanBatch.Some? { CoversMore(Everything(x), Everything(y), r.envelope.spanBatch.value.spans); }
  }

  lemma DeliverStep(cfg: P.Config, s: P.State, w: nat, failed: bool, permanent: bool, t: P.State)
    requires P.Step(cfg, s, P.Deliver(w, failed, permanent), t)
    ensures w < |s.crew| == |t.crew| && t.storage == s.storage && t.crew[w].held == s.crew[w].held
    ensures t.crew[w].phase == (if failed then P.Failed(permanent) else P.Consumed) && s.crew[w].phase.Ready?
    ensures forall x :: 0 <= x < |s.crew| && x != w ==> t.crew[x] == s.crew[x]
  {
    hide P.Step, P.Counted;
    WorkerStep(cfg, s, P.Deliver(w, failed, permanent), t);
  }

  /** The batch of a delivery: active records, with valid envelopes. */
  lemma BatchValid(s: P.State, q: Queue, w: nat)
    requires PipeOk(s) && Match(s.storage, q) && AllValid(q) && w < |s.crew| && Busy(s.crew[w].phase)
    ensures forall id :: id in s.crew[w].held ==> id in q
    ensures AllAccepted(EnvelopesOf(q, s.crew[w].held))
  {
    hide Exclusive, Accounted, Early, Accepted;
    var held := s.crew[w].held;
    forall i | 0 <= i < |held| ensures held[i] in q && RecordAccepted(q[held[i]].record) { assert held[i] in held; }
  }

  lemma ConsumeJoined(site: Site, u: World, ev: Event, v: World)
    requires Joined(site, u) && Happens(site, u, ev, v) && ev.Consume?
    ensures Joined(site, v)
  {
    hide R.Safe, P.Step, Exclusive, Alive, Accounted, Match, Coherent, Everything, Covered, Paid, AllCovered, GrownFrom;
    var a := P.Deliver(ev.w, ev.failed, ev.permanent);
    PipeKept(site.pipeline, u.pipe, a, v.pipe);
    DeliverStep(site.pipeline, u.pipe, ev.w, ev.failed, ev.permanent, v.pipe);
    BatchValid(u.pipe, u.wal.q, ev.w);
    ConsumeDelivered(u, ev, v);
    forall r | r in u.acked ensures Covered(v.sink.kept, r) { CoveredMore(u.sink.kept, v.sink.kept, r); }
    ConsumeSourced(u, EnvelopesOf(u.wal.q, u.pipe.crew[ev.w].held), Everything(v.sink.now), u.pipe.crew[ev.w].held);
  }

  lemma ConsumeDelivered(u: World, ev: Event, v: World)
    requires ev.Consume? && Delivered(u.pipe, u.wal.q, u.sink.kept) && v.wal == u.wal && Everything(u.sink.kept) <= Everything(v.sink.kept)
    requires ev.w < |u.pipe.crew| == |v.pipe.crew| && v.pipe.crew[ev.w].held == u.pipe.crew[ev.w].held
    requires v.pipe.crew[ev.w].phase == if ev.failed then P.Failed(ev.permanent) else P.Consumed
    requires forall x :: 0 <= x < |u.pipe.crew| && x != ev.w ==> v.pipe.crew[x] == u.pipe.crew[x]
    requires forall id :: id in u.pipe.crew[ev.w].held ==> id in u.wal.q
    requires !ev.failed ==> AllCovered(Everything(v.sink.kept), EnvelopesOf(u.wal.q, u.pipe.crew[ev.w].held))
    ensures Delivered(v.pipe, v.wal.q, v.sink.kept)
  {
    hide Everything, Covers;
    forall x, id | 0 <= x < |v.pipe.crew| && v.pipe.crew[x].phase.Consumed? && id in v.pipe.crew[x].held
      ensures id in v.wal.q && Covered(v.sink.kept, v.wal.q[id].record)
    {
      if x == ev.w {
        var held := u.pipe.crew[ev.w].held;
        var i :| 0 <= i < |held| && held[i] == id;
        assert EnvelopesOf(u.wal.q, held)[i] == u.wal.q[id].record.envelope;
      } else {
        assert v.pipe.crew[x] == u.pipe.crew[x];
        CoveredMore(u.sink.kept, v.sink.kept, u.wal.q[id].record);
      }
    }
  }

  lemma ConsumeSourced(u: World, envelopes: seq<Envelope>, after: multiset<Span>, held: seq<nat>)
    requires Sourced(u.stored, Everything(u.sink.now)) && GrownFrom(Everything(u.sink.now), after, envelopes) && Balanced(u)
    requires envelopes == EnvelopesOf(u.wal.q, held) && forall id :: id in held ==> id in u.wal.q
    ensures Sourced(u.stored, after)
  {
    hide Everything;
    forall s | s in after ensures exists r :: r in u.stored && InRecord(r, s) {
      if s !in Everything(u.sink.now) {
        var i: nat :| i < |envelopes| && envelopes[i].spanBatch.Some? && s in envelopes[i].spanBatch.value.spans;
        assert held[i] in held;
        var r := u.wal.q[held[i]].record;
        assert r in RecordsOf(u.wal.q) && InRecord(r, s);
      }
    }
  }

  // ---- a batch that is finished -----------------------------------------------------------------------------------

  lemma MarksRecords(q: Queue, entries: seq<StateEntry>, q': Queue)
    requires Marks(q, entries, q') && Distinct(entries) && forall e :: e in entries ==> e.id in q
    ensures RecordsOf(q) == RecordsOf(q') + RecordsFor(q, entries, Ack) + RecordsFor(q, entries, Quarantine)
    ensures forall id :: id in q' ==> id in q && q'[id].record == q[id].record
  {
    forall id | id in q'
      ensures id in q && q'[id].record == q[id].record
    {
      if id in EntryIds(entries) {
        var e :| e in entries && e.id == id;
        assert e.kind == Retry;
      }
    }
    forall id | id in q ensures q[id].record in RecordsOf(q') + RecordsFor(q, entries, Ack) + RecordsFor(q, entries, Quarantine) {
      if id in q' {
        assert q'[id].record in RecordsOf(q');
      } else {
        var e :| e in entries && e.id == id;
        assert e.kind == Ack || e.kind == Quarantine;
      }
    }
  }

  /** What a call about one batch does to the queue that the pipeline sees. */
  /** What a storage call of the pipeline does to the storage that it sees. */
  lemma FinishStorage(cfg: P.Config, s: P.State, w: nat, kind: StateKind, t: P.State)
    requires P.Step(cfg, s, ActionOf(w, kind), t) && w < |s.crew|
    ensures t.storage == if kind == Retry then s.storage.(attempts := P.Counted(s.storage.attempts, s.crew[w].held))
                         else s.storage.(active := s.storage.active - Elements(s.crew[w].held))
  {
    hide P.Step, P.Counted, P.Hopeless, Elements;
    WorkerStep(cfg, s, ActionOf(w, kind), t);
  }

  /** What its entries do to the queue. */
  lemma FinishQueue(x: R.Live, kind: StateKind, held: seq<nat>, entries: seq<StateEntry>, q': Queue)
    requires Marks(x.q, entries, q') && EntriesOf(x, kind, held, entries) && EntryIds(entries) == Elements(held)
    ensures q'.Keys == if kind == Retry then x.q.Keys else x.q.Keys - Elements(held)
    ensures forall id :: id in q' && id in held ==> q'[id] == x.q[id].(attempts := x.q[id].attempts + 1)
    ensures forall id :: id in q' && id !in held ==> q'[id] == x.q[id]
  {
    hide Due, Distinct;
    assert forall id :: id in held <==> id in EntryIds(entries);
    forall id | id in x.q
      ensures id in held && kind != Retry ==> id !in q'
      ensures id in held && kind == Retry ==> id in q' && q'[id] == x.q[id].(attempts := x.q[id].attempts + 1)
      ensures id !in held ==> id in q' && q'[id] == x.q[id]
    {
      if id in held { var e :| e in entries && e.id == id; }
    }
  }

  lemma FinishMatches(cfg: P.Config, s: P.State, w: nat, kind: StateKind, t: P.State, x: R.Live, entries: seq<StateEntry>, q': Queue)
    requires P.Step(cfg, s, ActionOf(w, kind), t) && Match(s.storage, x.q) && w < |s.crew| && Marks(x.q, entries, q')
    requires EntriesOf(x, kind, s.crew[w].held, entries) && EntryIds(entries) == Elements(s.crew[w].held)
    ensures Match(t.storage, q')
  {
    hide P.Step, P.Counted, Marks, EntriesOf, EntryIds, ServiceKey;
    var held := s.crew[w].held;
    FinishStorage(cfg, s, w, kind, t);
    FinishQueue(x, kind, held, entries, q');
    if kind == Retry {
      forall id | id in x.q ensures id in t.storage.attempts && t.storage.attempts[id] == q'[id].attempts {
        CountedAt(s.storage.attempts, held, id);
      }
    }
  }

  lemma CountedAt(m: map<nat, nat>, ids: seq<nat>, id: nat)
    requires id in m
    ensures id in P.Counted(m, ids) && P.Counted(m, ids)[id] == m[id] + (if id in ids then 1 else 0)
  {}

  /** After the call no worker has a consumed batch that it did not have before, and this one has none. */
  lemma FinishPhase(cfg: P.Config, s: P.State, w: nat, kind: StateKind, t: P.State)
    requires P.Step(cfg, s, ActionOf(w, kind), t)
    ensures NoneConsumed(s, t) && w < |t.crew| && !t.crew[w].phase.Consumed? && w < |s.crew|
  {
    hide P.Step, P.Counted, Elements, P.Exhausted;
    WorkerStep(cfg, s, ActionOf(w, kind), t);
  }

  lemma FinishDelivered(s: P.State, w: nat, kind: StateKind, t: P.State, x: R.Live, entries: seq<StateEntry>, q': Queue, kept: Kept)
    requires Delivered(s, x.q, kept) && Exclusive(s) && NoneConsumed(s, t) && w < |s.crew| && !t.crew[w].phase.Consumed?
    requires Marks(x.q, entries, q') && EntriesOf(x, kind, s.crew[w].held, entries)
    ensures Delivered(t, q', kept)
  {
    hide Covered, Owned, Early, Due;
    HeldApart(s, w);
    hide Exclusive;
    forall y, id | 0 <= y < |t.crew| && t.crew[y].phase.Consumed? && id in t.crew[y].held ensures id in q' && Covered(kept, q'[id].record) {
      assert y != w && id in s.crew[y].held;
      NotMarked(x, kind, s.crew[w].held, entries, id);
    }
  }

  lemma NotMarked(x: R.Live, kind: StateKind, held: seq<nat>, entries: seq<StateEntry>, id: nat)
    requires EntriesOf(x, kind, held, entries) && id !in held
    ensures id !in EntryIds(entries)
  {
    hide Due;
  }

  /** The records that a call acknowledges have been counted. */
  lemma AckedCounted(site: Site, u: World, w: nat, kind: StateKind, entries: seq<StateEntry>)
    requires Delivered(u.pipe, u.wal.q, u.sink.kept) && AllCounted(u.acked, u.sink.kept)
    requires entries == [] || (Ripe(site.pipeline, u.pipe, w, kind) && forall e :: e in entries ==> e.kind == kind && e.id in u.pipe.crew[w].held)
    ensures AllCounted(u.acked + RecordsFor(u.wal.q, entries, Ack), u.sink.kept)
  {
    hide Covered;
    forall r | r in RecordsFor(u.wal.q, entries, Ack) ensures Covered(u.sink.kept, r) {
      var e :| e in entries && e.kind == Ack && e.id in u.wal.q && u.wal.q[e.id].record == r;
      assert u.pipe.crew[w].phase.Consumed?;
    }
  }

  lemma ValidMarked(q: Queue, entries: seq<StateEntry>, q': Queue)
    requires AllValid(q) && forall id :: id in q' ==> id in q && q'[id].record == q[id].record
    ensures AllValid(q')
  {}

  /** The pipeline never notes a retry that would use up the attempt limit of the log. */
  lemma RetriesBelowLimit(site: Site, u: World, w: nat, kind: StateKind, entries: seq<StateEntry>)
    requires site.Lawful() && R.Safe(site.codec, site.log, u.wal) && Match(u.pipe.storage, u.wal.q)
    requires Ripe(site.pipeline, u.pipe, w, kind) && forall e :: e in entries ==> EntryOf(u.wal, kind, u.pipe.crew[w].held, e)
    ensures BelowLimit(site.log.maxRecordAttempts, u.wal.m.active, entries)
  {
    hide R.Safe;
    forall e | e in entries && e.kind == Retry
      ensures e.id in u.wal.m.active && e.attempts == u.wal.m.active[e.id].attempts + 1 < site.log.maxRecordAttempts
    {
      R.ReadsQueue(site.codec, site.log, u.wal, e.id);
      assert P.Attempts(u.pipe.storage, e.id) == u.wal.q[e.id].attempts;
    }
  }

  /** Entries below the attempt limit keep the budget. */
  lemma {:induction false} MarksPaid(site: Site, x: R.Live, entries: seq<StateEntry>)
    requires R.Safe(site.codec, site.log, x) && Paid(site, x) && Distinct(entries) && (forall e :: e in entries ==> Due(x, e))
    requires BelowLimit(site.log.maxRecordAttempts, x.m.active, entries)
    ensures Paid(site, MarkAll(site.codec, x, entries))
  {
    hide R.Safe, Paid, MarkOne;
    if entries != [] {
      var init, last := entries[..|entries| - 1], entries[|entries| - 1];
      MarksPaid(site, x, init);
      MarkAllSafe(site.codec, site.log, x, init);
      EntryIdsStep(entries);
      assert last in entries;
      MarkPaid(site, MarkAll(site.codec, x, init), last);
    }
  }

  lemma MarkPaid(site: Site, x: R.Live, e: StateEntry)
    requires R.Safe(site.codec, site.log, x) && Paid(site, x) && Due(x, e)
    requires e.kind == Retry ==> e.attempts == x.m.active[e.id].attempts + 1 < site.log.maxRecordAttempts
    ensures Paid(site, MarkOne(site.codec, x, e))
  {
    hide R.Safe, Budgeted, LogEncodes;
    MarkOneSafe(site.codec, site.log, x, e);
    var k := Position(x.log, x.m.active[e.id].segmentID);
    var op := R.Mark(k, e);
    MarkIsOp(site.codec, site.log, x, e);
    R.OpBudgeted(site.codec, site.log, x, op);
  }

  lemma MarkIsOp(c: Codec, cfg: Config, x: R.Live, e: StateEntry)
    requires R.Safe(c, cfg, x) && Due(x, e) && LogEncodes(c, x.log) && x.log != []
    requires e.kind == Retry ==> e.attempts == x.m.active[e.id].attempts + 1 < cfg.maxRecordAttempts
    ensures var op := R.Mark(Position(x.log, x.m.active[e.id].segmentID), e);
            R.Enabled(c, cfg, x, op) && R.Thrifty(c, cfg, x, op) && MarkOne(c, x, e).log == R.LogAfter(c, x, op)
  {
    hide R.Safe, R.Enabled, LogEncodes, MarkedLog, Position;
    MarkEnabled(c, cfg, x, e);
    IndexIs(c, cfg, x);
  }

  lemma MarkEnabled(c: Codec, cfg: Config, x: R.Live, e: StateEntry)
    requires R.Safe(c, cfg, x) && Due(x, e)
    ensures var op := R.Mark(Position(x.log, x.m.active[e.id].segmentID), e); R.Enabled(c, cfg, x, op) && op.k < |x.log|
    ensures e.id in x.q && x.m.active[e.id].segmentID in x.m.segments && x.m.active[e.id].segmentID in x.disk.states
  {
    hide LogSound, Mirrors, Counters, Exact, R.Low;
    var k := EntrySound(c, cfg, x.m, x.disk, x.log, e);
    MarkOneSafe(c, cfg, x, e);
  }

  lemma IndexIs(c: Codec, cfg: Config, x: R.Live)
    requires R.Safe(c, cfg, x) && LogEncodes(c, x.log)
    ensures x.m.active == ActiveOf(c, x.log)
  {
    hide LogSound, Counters, Exact, R.Low, LogEncodes, Carries, ActiveOf, Infos, UsedBy, QuarantinedOf;
  }

  lemma FinishJoined(site: Site, u: World, ev: Event, v: World)
    requires site.Lawful() && Joined(site, u) && Happens(site, u, ev, v) && ev.Finish?
    ensures Joined(site, v)
  {
    hide R.Safe, P.Step, Exclusive, Alive, Accounted, Match, Coherent, Everything, Covered, Paid, P.Hopeless, MarkAll, Due, RecordsFor;
    var s, t, x, entries := u.pipe, v.pipe, u.wal, ev.entries;
    PipeKept(site.pipeline, s, ActionOf(ev.w, ev.kind), t);
    EntriesDue(x, ev.kind, s, ev.w, entries);
    MarkAllSafe(site.codec, site.log, x, entries);
    MarkAllQueue(site.codec, site.log, x, entries);
    FinishPhase(site.pipeline, s, ev.w, ev.kind, t);
    FinishMatches(site.pipeline, s, ev.w, ev.kind, t, x, entries, v.wal.q);
    FinishDelivered(s, ev.w, ev.kind, t, x, entries, v.wal.q, u.sink.kept);
    MarksRecords(x.q, entries, v.wal.q);
    ValidMarked(x.q, entries, v.wal.q);
    AckedCounted(site, u, ev.w, ev.kind, entries);
    RetriesBelowLimit(site, u, ev.w, ev.kind, entries);
    MarksPaid(site, x, entries);
  }

  lemma EntriesDue(x: R.Live, kind: StateKind, s: P.State, w: nat, entries: seq<StateEntry>)
    requires w < |s.crew| && EntriesOf(x, kind, s.crew[w].held, entries)
    ensures Distinct(entries) && forall e :: e in entries ==> Due(x, e) && e.kind == kind && e.id in s.crew[w].held && e.id in x.q
  {
    hide Due;
  }

  // ---- a crash -------------------------------------------------------------------------------------------------------

  /** The part of a call that was written before the crash. */
  lemma CallSoFar(site: Site, u: World, ev: Event)
    requires site.Lawful() && Joined(site, u) && ev.Crash?
    requires ev.entries == [] || (Ripe(site.pipeline, u.pipe, ev.w, ev.kind) && EntriesOf(u.wal, ev.kind, u.pipe.crew[ev.w].held, ev.entries))
    ensures var x := MarkAll(site.codec, u.wal, ev.entries);
            && R.Safe(site.codec, site.log, x) && Paid(site, x) && Distinct(ev.entries) && Marks(u.wal.q, ev.entries, x.q)
            && (ev.entries == [] || Ripe(site.pipeline, u.pipe, ev.w, ev.kind))
            && (forall e :: e in ev.entries ==> e.id in u.wal.q && e.kind == ev.kind && e.id in u.pipe.crew[ev.w].held)
            && (forall id :: id !in EntryIds(ev.entries) && id in u.wal.m.active ==> id in x.m.active && x.m.active[id] == u.wal.m.active[id])
  {
    hide R.Safe, PipeOk, Match, Coherent, Everything, Covered, Paid, P.Hopeless, Due;
    if ev.entries != [] {
      hide MarkAll;
      EntriesDue(u.wal, ev.kind, u.pipe, ev.w, ev.entries);
      MarkAllSafe(site.codec, site.log, u.wal, ev.entries);
      MarkAllQueue(site.codec, site.log, u.wal, ev.entries);
      RetriesBelowLimit(site, u, ev.w, ev.kind, ev.entries);
      MarksPaid(site, u.wal, ev.entries);
    }
  }

  /** What was being written keeps the budget. */
  lemma CutPaid(site: Site, u: World, ev: Event, v: World)
    requires site.Lawful() && Joined(site, u) && Happens(site, u, ev, v) && ev.Crash?
    ensures R.Safe(site.codec, site.log, v.wal) && Paid(site, v.wal)
  {
    hide PipeOk, Match, Coherent, Everything, Covered, R.Safe, R.Step, Budgeted, LogEncodes, MarkAll, Ripe, Due, Marks;
    var x := MarkAll(site.codec, u.wal, ev.entries);
    CallSoFar(site, u, ev);
    R.StepSafe(site.codec, site.log, x, R.Cut(ev.op, ev.at), v.wal);
    if ev.op.Mark? { CutThrifty(site, u, ev, x); }
    R.StepBudgeted(site.codec, site.log, x, R.Cut(ev.op, ev.at), v.wal);
  }

  lemma CutThrifty(site: Site, u: World, ev: Event, x: R.Live)
    requires site.Lawful() && R.Safe(site.codec, site.log, u.wal) && Match(u.pipe.storage, u.wal.q) && R.Safe(site.codec, site.log, x) && Paid(site, x)
    requires ev.Crash? && ev.op.Mark? && Cuttable(site, u, ev.w, ev.kind, ev.entries, ev.op)
    requires forall id :: id !in EntryIds(ev.entries) && id in u.wal.m.active ==> id in x.m.active && x.m.active[id] == u.wal.m.active[id]
    ensures R.Thrifty(site.codec, site.log, x, ev.op)
  {
    hide R.Safe, Match, Ripe, Budgeted, LogEncodes;
    RetriesBelowLimit(site, u, ev.w, ev.kind, [ev.op.e]);
    assert ev.op.e in [ev.op.e];
    IndexIs(site.codec, site.log, x);
  }

  /** What the log holds after the crash: the call as far as it was written, and the group if it was written whole. */
  lemma CutRecords(site: Site, u: World, ev: Event, v: World)
    requires site.Lawful() && Joined(site, u) && Happens(site, u, ev, v) && ev.Crash?
    ensures Balanced(v) && AllValid(v.wal.q) && AllCounted(v.acked, u.sink.kept)
  {
    hide P.Passes, RecordsOf, R.Enabled, FitsU32, ActionOf;
    hide AllValid, Guarded, EntryOf, MarkQueue, Finished;
    hide PipeOk, Match, Coherent, Everything, Covered, R.Safe, Paid, MarkAll, Ripe, Due, Marks, RecordsFor, RecordAccepted, R.Step, P.Initial;
    hide Sourced, Delivered, R.Durable, EntriesOf;
    var x := MarkAll(site.codec, u.wal, ev.entries);
    CallSoFar(site, u, ev);
    CutQueue(site.codec, site.log, x, ev.op, ev.at, v.wal);
    if ev.op.Mark? && R.Durable(site.codec, ev.op, ev.at) {
      CutMark(site, u, ev, x, v);
    } else {
      MarksRecords(u.wal.q, ev.entries, x.q);
      ValidMarked(u.wal.q, ev.entries, x.q);
      AckedCounted(site, u, ev.w, ev.kind, ev.entries);
      if ev.op.Store? && R.Durable(site.codec, ev.op, ev.at) { CutStore(site, ev.op.group, x, v); }
    }
  }

  lemma CutQueue(c: Codec, cfg: Config, x: R.Live, op: R.Op, at: nat, y: R.Live)
    requires R.Step(c, cfg, x, R.Cut(op, at), y)
    ensures !R.Durable(c, op, at) || op.Take? || op.Rotate? || op.Drop? ==> y.q == x.q
    ensures R.Durable(c, op, at) && op.Store? ==> y.q == x.q + GroupQueue(op.group) && R.Enabled(c, cfg, x, op)
    ensures R.Durable(c, op, at) && op.Mark? ==> R.Enabled(c, cfg, x, op) && y.q == if op.e.id in x.q then MarkQueue(x.q, op.e) else x.q
  {
    hide R.Enabled, R.Leaves, R.Reopens, R.LogAfter, R.Durable;
  }

  lemma CutMark(site: Site, u: World, ev: Event, x: R.Live, v: World)
    requires ev.Crash? && ev.op.Mark? && Balanced(u) && AllValid(u.wal.q) && AllCounted(u.acked, u.sink.kept) && Delivered(u.pipe, u.wal.q, u.sink.kept)
    requires Cuttable(site, u, ev.w, ev.kind, ev.entries, ev.op) && Marks(u.wal.q, ev.entries, x.q) && Distinct(ev.entries)
    requires forall e :: e in ev.entries ==> e.id in u.wal.q && e.kind == ev.kind && e.id in u.pipe.crew[ev.w].held
    requires v.wal.q == if ev.op.e.id in x.q then MarkQueue(x.q, ev.op.e) else x.q
    requires var written := ev.entries + [ev.op.e];
             v.stored == u.stored && v.acked == u.acked + RecordsFor(u.wal.q, written, Ack)
             && v.quarantined == u.quarantined + RecordsFor(u.wal.q, written, Quarantine)
    ensures Balanced(v) && AllValid(v.wal.q) && AllCounted(v.acked, u.sink.kept)
  {
    hide Covered, Ripe, Due, RecordsFor, RecordAccepted;
    var e, written := ev.op.e, ev.entries + [ev.op.e];
    assert forall other :: other in written <==> other in ev.entries || other == e;
    assert e.id in x.q by { assert e.id !in EntryIds(ev.entries); }
    MarksStep(u.wal.q, ev.entries, x.q, e);
    assert Distinct(written) by { LastDistinct(ev.entries, e); }
    MarksRecords(u.wal.q, written, v.wal.q);
    ValidMarked(u.wal.q, written, v.wal.q);
    hide Marks;
    AckedCounted(site, u, ev.w, ev.kind, written);
  }

  lemma LastDistinct(entries: seq<StateEntry>, e: StateEntry)
    requires Distinct(entries) && e.id !in EntryIds(entries)
    ensures Distinct(entries + [e])
  {
    forall i | 0 <= i < |entries| ensures entries[i].id != e.id { assert entries[i] in entries; }
  }

  lemma CutStore(site: Site, group: Group, x: R.Live, v: World)
    requires R.Safe(site.codec, site.log, x) && R.Enabled(site.codec, site.log, x, R.Store(group)) && v.wal.q == x.q + GroupQueue(group)
    requires AllValid(x.q) && forall r :: r in group ==> RecordAccepted(r)
    ensures RecordsOf(v.wal.q) == RecordsOf(x.q) + Members(group) && AllValid(v.wal.q)
  {
    hide R.Safe, RecordAccepted, Follows;
    GroupFresh(site.codec, site.log, x, group);
    GroupQueueIs(group);
    GroupRecords(x.q, group);
  }

  /** IDs of a group that may be stored are new and all different. */
  lemma GroupFresh(c: Codec, cfg: Config, x: R.Live, group: Group)
    requires R.Safe(c, cfg, x) && R.Enabled(c, cfg, x, R.Store(group))
    ensures forall r :: r in group ==> r.id !in x.q
    ensures forall i, j :: 0 <= i < j < |group| ==> group[i].id != group[j].id
  {
    hide Exact, LogSound, Mirrors, Follows, R.Low;
    SortedApart(x.m.ids, group);
  }

  lemma SortedApart(ids: seq<nat>, group: Group)
    requires Sorted(ids + GroupIds(group))
    ensures forall r :: r in group ==> r.id !in ids
    ensures forall i, j :: 0 <= i < j < |group| ==> group[i].id != group[j].id
  {
    var all := ids + GroupIds(group);
    forall i | 0 <= i < |group| ensures all[|ids| + i] == group[i].id { assert GroupIds(group)[i] == group[i].id; }
    forall r | r in group ensures r.id !in ids {
      var i :| 0 <= i < |group| && group[i] == r;
      forall k | 0 <= k < |ids| ensures ids[k] < r.id { assert all[k] < all[|ids| + i]; }
    }
  }

  lemma {:induction false} GroupRecords(q: Queue, group: Group)
    requires (forall r :: r in group ==> r.id !in q) && forall i, j :: 0 <= i < j < |group| ==> group[i].id != group[j].id
    ensures RecordsOf(q + GroupQueue(group)) == RecordsOf(q) + Members(group)
  {
    if group == [] {
      assert q + map[] == q;
    } else {
      var init, last := group[..|group| - 1], group[|group| - 1];
      assert group == init + [last];
      GroupRecords(q, init);
      GroupQueueKeys(init);
      QueueWithOne(q, GroupQueue(init), last.id, Delivery(last, 0));
      OneRecordMore(q + GroupQueue(init), last, init);
    }
  }

  lemma {:induction false} GroupQueueKeys(group: Group)
    ensures forall id :: id in GroupQueue(group) ==> exists r :: r in group && r.id == id
  {
    if group != [] {
      GroupQueueKeys(group[..|group| - 1]);
      assert forall r :: r in group[..|group| - 1] ==> r in group;
      assert group[|group| - 1] in group;
    }
  }

  lemma CrashFields(site: Site, u: World, ev: Event, v: World)
    requires Happens(site, u, ev, v) && ev.Crash?
    ensures P.Initial(site.pipeline, v.pipe) && Match(v.pipe.storage, v.wal.q) && v.sink == u.sink.(now := u.sink.kept) && u.stored <= v.stored
  {
    hide Match, MarkAll, Ripe, Due, R.Step, Cuttable, RecordsFor;
  }

  lemma CrashIdle(cfg: P.Config, s: P.State, q: Queue, kept: Kept)
    requires P.Initial(cfg, s)
    ensures Delivered(s, q, kept)
  {}

  lemma CrashSink(setup: Setup, x: SinkValue)
    requires Coherent(setup, x.file, x.kept, x.now)
    ensures Coherent(setup, x.file, x.kept, x.kept) && Everything(x.kept) <= Everything(x.now)
  {
    hide Fits, Everything;
  }

  lemma JoinedSink(site: Site, u: World)
    requires Joined(site, u)
    ensures Coherent(site.setup, u.sink.file, u.sink.kept, u.sink.now) && Sourced(u.stored, Everything(u.sink.now))
  {
    hide R.Safe, Paid, PipeOk, Match, Coherent, Everything, AllValid, Balanced, Delivered, AllCounted, Sourced;
  }

  lemma Together(site: Site, u: World)
    requires R.Safe(site.codec, site.log, u.wal) && Paid(site, u.wal) && PipeOk(u.pipe) && Match(u.pipe.storage, u.wal.q)
    requires Coherent(site.setup, u.sink.file, u.sink.kept, u.sink.now) && AllValid(u.wal.q) && Balanced(u)
    requires Delivered(u.pipe, u.wal.q, u.sink.kept) && AllCounted(u.acked, u.sink.kept) && Sourced(u.stored, Everything(u.sink.now))
    ensures Joined(site, u)
  {
    hide R.Safe, Paid, PipeOk, Match, Coherent, Everything, AllValid, Balanced, Delivered, AllCounted, Sourced;
  }

  lemma InitialOk(cfg: P.Config, s: P.State)
    requires P.Initial(cfg, s)
    ensures PipeOk(s)
  {
    hide P.Initial, Exclusive, Alive, Accounted;
    InitialOwners(cfg, s);
  }

  lemma CrashJoined(site: Site, u: World, ev: Event, v: World)
    requires site.Lawful() && Joined(site, u) && Happens(site, u, ev, v) && ev.Crash?
    ensures Joined(site, v)
  {
    hide *;
    CutPaid(site, u, ev, v);
    CutRecords(site, u, ev, v);
    CrashFields(site, u, ev, v);
    JoinedSink(site, u);
    InitialOk(site.pipeline, v.pipe);
    CrashIdle(site.pipeline, v.pipe, v.wal.q, v.sink.kept);
    CrashSink(site.setup, u.sink);
    LessSourced(u.stored, v.stored - u.stored, Everything(u.sink.now), Everything(u.sink.kept));
    assert u.stored + (v.stored - u.stored) == v.stored;
    Together(site, v);
  }

  lemma LessSourced(stored: set<DiskRecord>, more: set<DiskRecord>, m: multiset<Span>, less: multiset<Span>)
    requires Sourced(stored, m) && less <= m
    ensures Sourced(stored + more, less)
  {
    MoreSources(stored, more, m);
  }

  // ---- every event ---------------------------------------------------------------------------------------------------

  lemma EventJoined(site: Site, u: World, ev: Event, v: World)
    requires site.Lawful() && Joined(site, u) && Happens(site, u, ev, v)
    ensures Joined(site, v)
  {
    hide Joined, Happens;
    match ev
    case Admit(_, _, _) => AdmitJoined(site, u, ev, v);
    case Internal(_) => InternalJoined(site, u, ev, v);
    case Background(_) => BackgroundJoined(site, u, ev, v);
    case Consume(_, _, _) => ConsumeJoined(site, u, ev, v);
    case Finish(_, _, _) => FinishJoined(site, u, ev, v);
    case Crash(_, _, _, _, _) => CrashJoined(site, u, ev, v);
  }

  lemma StartJoined(site: Site, u: World)
    requires Begins(site, u)
    ensures Joined(site, u)
  {
    hide R.Safe, Match, Budgeted, LogEncodes, Exclusive, Alive, Accounted, Covered, Coherent, Everything;
    InitialOwners(site.pipeline, u.pipe);
  }
}
