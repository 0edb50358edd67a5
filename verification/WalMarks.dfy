/** Several checkpoint entries written together: what one call of Ack, MarkRetry or Quarantine does. */
module WalMarks {
  import opened Bytes
  import opened WalFormat
  import opened WalScan
  import opened WalLog
  import opened WalContents
  import opened WalOps
  import opened WalMemory
  import opened WalSteps
  import opened WalQueue
  import opened WalBudget
  import opened WalRuns

  /** The segment of the log with this ID. */
  function Position(log: Log, id: nat): (k: nat)
    ensures k < |log| ==> log[k].id == id
    ensures k == |log| ==> forall j :: 0 <= j < |log| ==> log[j].id != id
    ensures k <= |log|
  {
    if log == [] then 0
    else if log[|log| - 1].id == id then |log| - 1
    else
      var k := Position(log[..|log| - 1], id);
      if k < |log| - 1 then k else |log|
  }

  /** An entry that the source would write: its record is active and its fields fit the format. */
  ghost predicate Due(x: Live, e: StateEntry) {
    e.id in x.m.active && FitsU64(e.id) && FitsU32(e.attempts)
  }

  /** The log, memory, directory and queue after one entry. */
  ghost function MarkOne(c: Codec, x: Live, e: StateEntry): Live {
    if e.id in x.m.active && e.id in x.q && x.m.active[e.id].segmentID in x.m.segments
       && x.m.active[e.id].segmentID in x.disk.states && Position(x.log, x.m.active[e.id].segmentID) < |x.log|
    then
      var id := x.m.active[e.id].segmentID;
      Live(AfterEntry(x.m, e), WithState(x.disk, id, Entry(c, e)), MarkedLog(x.log, Position(x.log, id), e), MarkQueue(x.q, e))
    else x
  }

  ghost function MarkAll(c: Codec, x: Live, entries: seq<StateEntry>): Live {
    if entries == [] then x else MarkOne(c, MarkAll(c, x, entries[..|entries| - 1]), entries[|entries| - 1])
  }

  lemma MarkOneSafe(c: Codec, cfg: Config, x: Live, e: StateEntry)
    requires Safe(c, cfg, x) && Due(x, e)
    ensures Safe(c, cfg, MarkOne(c, x, e))
    ensures e.id in x.q && x.m.active[e.id].segmentID in x.m.segments && x.m.active[e.id].segmentID in x.disk.states
    ensures MarkOne(c, x, e).m == AfterEntry(x.m, e)
    ensures MarkOne(c, x, e).disk == WithState(x.disk, x.m.active[e.id].segmentID, Entry(c, e))
    ensures MarkOne(c, x, e).q == MarkQueue(x.q, e)
  {
    hide LogSound, Mirrors, Counters, Exact;
    var id := x.m.active[e.id].segmentID;
    var k := EntrySound(c, cfg, x.m, x.disk, x.log, e);
    var op := Op.Mark(Position(x.log, id), e);
    var m, disk := OpSafe(c, cfg, x, op);
  }

  /** The IDs of a list of entries. */
  function EntryIds(entries: seq<StateEntry>): set<nat> {
    set e | e in entries :: e.id
  }

  ghost predicate Distinct(entries: seq<StateEntry>) {
    forall i, j :: 0 <= i < j < |entries| ==> entries[i].id != entries[j].id
  }

  lemma EntryIdsStep(entries: seq<StateEntry>)
    requires entries != [] && Distinct(entries)
    ensures EntryIds(entries) == EntryIds(entries[..|entries| - 1]) + {entries[|entries| - 1].id}
    ensures entries[|entries| - 1].id !in EntryIds(entries[..|entries| - 1])
  {
    assert forall e :: e in entries <==> e in entries[..|entries| - 1] || e == entries[|entries| - 1];
  }

  /** Entries about different active records keep everything in agreement and leave the other records alone. */
  lemma {:induction false} MarkAllSafe(c: Codec, cfg: Config, x: Live, entries: seq<StateEntry>)
    requires Safe(c, cfg, x) && Distinct(entries) && forall e :: e in entries ==> Due(x, e)
    ensures Safe(c, cfg, MarkAll(c, x, entries))
    ensures forall id :: id !in EntryIds(entries) ==>
      && (id in MarkAll(c, x, entries).m.active <==> id in x.m.active)
      && (id in x.m.active ==> MarkAll(c, x, entries).m.active[id] == x.m.active[id])
  {
    hide Safe;
    if entries != [] {
      var init, last := entries[..|entries| - 1], entries[|entries| - 1];
      MarkAllSafe(c, cfg, x, init);
      EntryIdsStep(entries);
      assert last in entries;
      MarkOneSafe(c, cfg, MarkAll(c, x, init), last);
    }
  }

  /** What a list of entries about different records does to the queue, record by record. */
  ghost predicate Marks(q: Queue, entries: seq<StateEntry>, q': Queue) {
    && (forall id :: id !in EntryIds(entries) ==> (id in q' <==> id in q) && (id in q ==> q'[id] == q[id]))
    && (forall e :: e in entries && e.kind != Retry ==> e.id !in q')
    && (forall e :: e in entries && e.kind == Retry ==>
          e.id in q' && e.id in q && q'[e.id] == q[e.id].(attempts := e.attempts))
  }

  lemma {:induction false} MarkAllQueue(c: Codec, cfg: Config, x: Live, entries: seq<StateEntry>)
    requires Safe(c, cfg, x) && Distinct(entries) && forall e :: e in entries ==> Due(x, e)
    ensures Marks(x.q, entries, MarkAll(c, x, entries).q)
  {
    hide FitsU32, FitsU64, AfterEntry, EntryIds, Position;
    hide Safe;
    if entries != [] {
      var init, last := entries[..|entries| - 1], entries[|entries| - 1];
      MarkAllQueue(c, cfg, x, init);
      MarkAllSafe(c, cfg, x, init);
      EntryIdsStep(entries);
      assert last in entries;
      MarkOneSafe(c, cfg, MarkAll(c, x, init), last);
      MarksStep(x.q, init, MarkAll(c, x, init).q, last);
    }
  }

  lemma MarksStep(q: Queue, init: seq<StateEntry>, q': Queue, last: StateEntry)
    requires Marks(q, init, q') && last.id in q' && last.id !in EntryIds(init)
    ensures Marks(q, init + [last], MarkQueue(q', last))
  {
    var entries := init + [last];
    assert forall e :: e in entries <==> e in init || e == last;
    assert EntryIds(entries) == EntryIds(init) + {last.id};
    assert forall e :: e in init ==> e.id in EntryIds(init);
  }

  lemma {:induction false} MarkAllParts(c: Codec, x: Live, a: seq<StateEntry>, b: seq<StateEntry>)
    ensures MarkAll(c, x, a + b) == MarkAll(c, MarkAll(c, x, a), b)
    decreases |b|
  {
    if b == [] {
      assert a + b == a;
    } else {
      assert (a + b)[..|a + b| - 1] == a + b[..|b| - 1];
      MarkAllParts(c, x, a, b[..|b| - 1]);
    }
  }

  /** Entries about records of one segment append to that segment's checkpoint file. */
  lemma {:induction false} BatchDisk(c: Codec, cfg: Config, x: Live, batch: seq<StateEntry>, segmentID: nat)
    requires Safe(c, cfg, x) && Distinct(batch) && segmentID in x.disk.states
    requires forall e :: e in batch ==> Due(x, e) && x.m.active[e.id].segmentID == segmentID
    ensures MarkAll(c, x, batch).disk == WithState(x.disk, segmentID, EntriesBytes(c, batch))
  {
    hide Safe;
    if batch == [] {
      assert x.disk.states[segmentID] + [] == x.disk.states[segmentID];
      assert x.disk.states[segmentID := x.disk.states[segmentID]] == x.disk.states;
    } else {
      var init, last := batch[..|batch| - 1], batch[|batch| - 1];
      BatchDisk(c, cfg, x, init, segmentID);
      MarkAllSafe(c, cfg, x, init);
      EntryIdsStep(batch);
      assert last in batch;
      MarkOneSafe(c, cfg, MarkAll(c, x, init), last);
      AppendTwice(x.disk.states, segmentID, EntriesBytes(c, init), Entry(c, last));
    }
  }

  lemma AppendTwice(states: map<nat, seq<byte>>, id: nat, a: seq<byte>, b: seq<byte>)
    requires id in states
    ensures states[id := states[id] + a][id := states[id] + a + b] == states[id := states[id] + (a + b)]
  {
    assert states[id] + a + b == states[id] + (a + b);
  }

  // ---- what one call writes ------------------------------------------------------------------------------

  /** The arguments of `writeRecordStates` beside the records. */
  datatype Change = Change(kind: StateKind, reason: byte, increment: bool)

  function EntryFor(change: Change, id: nat, at: Metadata): StateEntry {
    StateEntry(change.kind, change.reason, id, at.attempts + if change.increment then 1 else 0)
  }

  /** The entries for the records of one segment, in the order in which the caller named them. */
  function Batch(active: map<nat, Metadata>, change: Change, ids: seq<nat>, segmentID: nat): seq<StateEntry> {
    if ids == [] then []
    else
      var id := ids[|ids| - 1];
      Batch(active, change, ids[..|ids| - 1], segmentID)
        + (if id in active && active[id].segmentID == segmentID then [EntryFor(change, id, active[id])] else [])
  }

  /** The entries of one call: segment after segment. */
  function Plan(active: map<nat, Metadata>, change: Change, ids: seq<nat>, segments: seq<nat>): seq<StateEntry> {
    if segments == [] then []
    else Plan(active, change, ids, segments[..|segments| - 1]) + Batch(active, change, ids, segments[|segments| - 1])
  }

  ghost predicate AllDifferent(ids: seq<nat>) {
    forall i, j :: 0 <= i < j < |ids| ==> ids[i] != ids[j]
  }

  lemma {:induction false} BatchIs(active: map<nat, Metadata>, change: Change, ids: seq<nat>, segmentID: nat)
    requires AllDifferent(ids)
    ensures Distinct(Batch(active, change, ids, segmentID))
    ensures forall e :: e in Batch(active, change, ids, segmentID) ==>
              e.id in ids && e.id in active && active[e.id].segmentID == segmentID && e == EntryFor(change, e.id, active[e.id])
    ensures forall id :: id in ids && id in active && active[id].segmentID == segmentID ==>
              EntryFor(change, id, active[id]) in Batch(active, change, ids, segmentID)
  {
    if ids != [] {
      var init, id := ids[..|ids| - 1], ids[|ids| - 1];
      BatchIs(active, change, init, segmentID);
      assert forall other :: other in ids <==> other in init || other == id;
      assert id !in init;
    }
  }

  lemma {:induction false} PlanIs(active: map<nat, Metadata>, change: Change, ids: seq<nat>, segments: seq<nat>)
    requires AllDifferent(ids) && AllDifferent(segments)
    ensures Distinct(Plan(active, change, ids, segments))
    ensures forall e :: e in Plan(active, change, ids, segments) ==>
              e.id in ids && e.id in active && active[e.id].segmentID in segments && e == EntryFor(change, e.id, active[e.id])
    ensures forall id :: id in ids && id in active && active[id].segmentID in segments ==>
              EntryFor(change, id, active[id]) in Plan(active, change, ids, segments)
  {
    hide Batch;
    if segments != [] {
      var init, last := segments[..|segments| - 1], segments[|segments| - 1];
      PlanIs(active, change, ids, init);
      BatchIs(active, change, ids, last);
      assert forall other :: other in segments <==> other in init || other == last;
      assert last !in init;
    }
  }

  /** The queue after one call: the named records that are in it change as the call says, the others do not. */
  ghost predicate Changed(q: Queue, change: Change, ids: seq<nat>, q': Queue) {
    && (forall id :: id !in ids ==> (id in q' <==> id in q) && (id in q ==> q'[id] == q[id]))
    && (forall id :: id in ids && change.kind != Retry ==> id !in q')
    && (forall id :: id in ids && change.kind == Retry ==>
          (id in q' <==> id in q)
          && (id in q ==> q'[id] == q[id].(attempts := q[id].attempts + if change.increment then 1 else 0)))
  }

  lemma PlanChanges(active: map<nat, Metadata>, change: Change, ids: seq<nat>, segments: seq<nat>, q: Queue, q': Queue)
    requires AllDifferent(ids) && AllDifferent(segments) && active.Keys == q.Keys
    requires forall id :: id in active ==> active[id].attempts == q[id].attempts
    requires forall id :: id in ids && id in active ==> active[id].segmentID in segments
    requires Marks(q, Plan(active, change, ids, segments), q')
    ensures Changed(q, change, ids, q')
  {
    hide Plan;
    var plan := Plan(active, change, ids, segments);
    PlanIs(active, change, ids, segments);
    forall id | id !in ids ensures id !in EntryIds(plan) {}
    forall id | id !in q ensures id !in EntryIds(plan) {}
  }

  // ---- the budget ---------------------------------------------------------------------------------------------

  /** Retries that leave at least one attempt. */
  ghost predicate BelowLimit(max: nat, active: map<nat, Metadata>, entries: seq<StateEntry>) {
    forall e :: e in entries && e.kind == Retry ==> e.id in active && e.attempts == active[e.id].attempts + 1 < max
  }

  /** Below the attempt limit, a call writes no more bytes than it releases. */
  lemma {:induction false} MarkAllBudget(c: Codec, cfg: Config, x: Live, entries: seq<StateEntry>)
    requires Safe(c, cfg, x) && Distinct(entries) && forall e :: e in entries ==> Due(x, e)
    requires BelowLimit(cfg.maxRecordAttempts, x.m.active, entries)
    ensures var m := MarkAll(c, x, entries).m; var max := cfg.maxRecordAttempts;
            && m.used == x.m.used + STATE_ENTRY * |entries|
            && m.used + Reserve(max, m.active) <= x.m.used + Reserve(max, x.m.active)
  {
    hide Safe, Reserve;
    if entries != [] {
      var init, last := entries[..|entries| - 1], entries[|entries| - 1];
      MarkAllBudget(c, cfg, x, init);
      MarkAllSafe(c, cfg, x, init);
      EntryIdsStep(entries);
      assert last in entries;
      MarkOneSafe(c, cfg, MarkAll(c, x, init), last);
      ReserveMarked(cfg.maxRecordAttempts, MarkAll(c, x, init).m.active, last);
    }
  }

  // ---- what the source relies on ---------------------------------------------------------------------------

  /** An active record is counted in its segment, its checkpoint file exists, and its numbers fit the format. */
  lemma ActiveCounted(c: Codec, cfg: Config, x: Live, id: nat)
    requires Safe(c, cfg, x) && id in x.m.active
    ensures x.m.active[id].segmentID in x.m.segments && x.m.segments[x.m.active[id].segmentID].activeRecords > 0
    ensures x.m.active[id].segmentID in x.disk.states
    ensures FitsU64(id) && FitsU32(x.m.active[id].attempts)
  {
    hide Counters, Carries, Settled, Infos, SegmentActive, SegmentQuarantined, UsedBy, QuarantinedOf, GoodSegment;
    var k := SegmentOf(c, cfg, x.m, x.log, id);
    HasSome(SegmentActive(c, x.log[k]), id);
    assert Holds(c, x.disk, x.log[k]);
    AttemptsFit(c, cfg, x.log, id);
    IdFits(c, cfg, x, id);
  }

  lemma HasSome(active: map<nat, Metadata>, id: nat)
    requires id in active
    ensures |active| > 0
  {}

  lemma IdFits(c: Codec, cfg: Config, x: Live, id: nat)
    requires Safe(c, cfg, x) && id in x.m.active
    ensures FitsU64(id)
  {
    hide Sound, Locates;
    assert Has(c, cfg.segmentBytes, x.disk.data, x.m.active[id], id, x.q[id]);
  }

  lemma AttemptsFit(c: Codec, cfg: Config, log: Log, id: nat)
    requires LogSound(c, cfg, log) && id in ActiveOf(c, log)
    ensures FitsU32(ActiveOf(c, log)[id].attempts)
  {
    hide GoodGroup, Settled;
    var k := ActiveSegment(c, log, id);
    var s := log[k];
    assert GoodSegment(c, cfg.segmentBytes, s);
    ActiveInIs(s.id, SegmentFrames(c, s), StatesOf(s.entries));
    StatesKeys(s.entries);
  }

  // ---- segment by segment --------------------------------------------------------------------------------------

  /** An entry of one call, still to be written: nothing written so far concerned its record. */
  ghost predicate Pending(active: map<nat, Metadata>, y: Live, change: Change, segmentID: nat, e: StateEntry) {
    && Due(y, e) && e.id in active && y.m.active[e.id] == active[e.id] && active[e.id].segmentID == segmentID
    && e == EntryFor(change, e.id, active[e.id])
  }

  /** The entries of one more segment, after those of the segments before it. */
  lemma PlanStep(c: Codec, cfg: Config, x: Live, change: Change, ids: seq<nat>, segments: seq<nat>, k: nat)
    requires Safe(c, cfg, x) && AllDifferent(ids) && AllDifferent(segments) && k < |segments|
    requires forall id :: id in ids && id in x.m.active ==> Due(x, EntryFor(change, id, x.m.active[id]))
    ensures var y := MarkAll(c, x, Plan(x.m.active, change, ids, segments[..k]));
            var batch := Batch(x.m.active, change, ids, segments[k]);
            && Safe(c, cfg, y) && MarkAll(c, x, Plan(x.m.active, change, ids, segments[..k + 1])) == MarkAll(c, y, batch)
            && Distinct(batch) && forall e :: e in batch ==> Pending(x.m.active, y, change, segments[k], e)
  {
    hide Safe, Batch, MarkAll;
    var before, batch := Plan(x.m.active, change, ids, segments[..k]), Batch(x.m.active, change, ids, segments[k]);
    PlanIs(x.m.active, change, ids, segments[..k]);
    BatchIs(x.m.active, change, ids, segments[k]);
    MarkAllSafe(c, cfg, x, before);
    MarkAllParts(c, x, before, batch);
    assert segments[..k + 1][..k] == segments[..k];
    forall e | e in batch ensures e.id !in EntryIds(before) {}
  }
}
