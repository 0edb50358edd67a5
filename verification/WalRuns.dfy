/**
 * Runs of the log: any sequence of operations and of crashes, each crash cutting an operation at any byte and followed
 * by recovery, which may itself be cut short. At every point of every run memory, disk and queue agree, so no committed record is lost, no finished
 * one comes back, and attempt counts survive.
 */
module WalRuns {
  import opened Bytes
  import opened Telemetry
  import opened WalFormat
  import opened WalScan
  import opened WalLog
  import opened WalRecovery
  import opened WalContents
  import opened WalOps
  import opened WalMemory
  import opened WalSteps
  import opened WalSegments
  import opened WalQueue
  import opened WalBudget
  import opened WalCrash
  import Maps
  import Sorting

  /** What the log does between two moments at which it can be observed; each but the first writes files. */
  datatype Op = Take | Store(group: Group) | Mark(k: nat, e: StateEntry) | Rotate(now: nat) | Drop(k: nat)

  /** An operation that completes, or one that a crash cuts after `at` bytes (or file operations). */
  datatype Event = Done(op: Op) | Cut(op: Op, at: nat)

  /** A running log, with two history variables: what its files mean, and the queue it stands for. */
  datatype Live = Live(m: Memory, disk: Disk, log: Log, q: Queue)

  /** Memory, disk and log agree and hold exactly the queue; no checkpoint file is newer than the current segment. */
  ghost predicate Safe(c: Codec, cfg: Config, x: Live) {
    && Sound(c, cfg, x.m, x.disk, x.log)
    && Carries(c, cfg.segmentBytes, x.m.active, x.disk.data, x.q)
    && Low(x.disk, x.log)
  }

  ghost predicate Low(disk: Disk, log: Log) {
    log != [] && forall id :: id in disk.states ==> id <= Last(log).id
  }

  /** When the source performs an operation. */
  ghost predicate Enabled(c: Codec, cfg: Config, x: Live, op: Op) {
    match op
    case Take => true
    case Store(group) =>
      && Follows(c, cfg.segmentBytes, x.log, group)
      && Sorted(x.m.ids + GroupIds(group)) && (forall id :: id in GroupIds(group) ==> id < x.m.nextID)
    case Mark(k, e) =>
      && e.id in x.m.active && FitsU64(e.id) && FitsU32(e.attempts)
      && k < |x.log| && x.m.active[e.id].segmentID == x.log[k].id
    case Rotate(_) => FitsU64(x.m.nextSegmentID)
    case Drop(k) => LogEncodes(c, x.log) && k < |x.log| - 1 && Spent(c, x.log[k])
  }

  ghost function LogAfter(c: Codec, x: Live, op: Op): Log {
    match op
    case Take => x.log
    case Store(group) => if x.log == [] then [] else Appended(x.log, group)
    case Mark(k, e) => if k < |x.log| then MarkedLog(x.log, k, e) else x.log
    case Rotate(now) => Rotated(x.log, x.m.nextSegmentID, now)
    case Drop(k) => if k < |x.log| then Without(x.log, k) else x.log
  }

  /** What an operation means for the queue: only commits and checkpoint entries change it. */
  ghost function QueueAfter(q: Queue, op: Op): Queue {
    match op
    case Take => q
    case Store(group) => q + GroupQueue(group)
    case Mark(k, e) => if e.id in q then MarkQueue(q, e) else q
    case Rotate(_) => q
    case Drop(_) => q
  }

  /** An operation carried out in memory and on disk. */
  ghost predicate Does(c: Codec, x: Live, op: Op, m: Memory, disk: Disk) {
    match op
    case Take => m == x.m.(nextID := x.m.nextID + 1) && disk == x.disk
    case Store(group) =>
      && x.m.current in x.m.segments && x.m.current in x.disk.data && AllEncode(c, group) && group != []
      && m == AfterCommit(c, x.m, group, x.m.segments[x.m.current].size)
      && disk == WithData(x.disk, x.m.current, GroupBytes(c, group))
    case Mark(k, e) =>
      && e.id in x.m.active && x.m.active[e.id].segmentID in x.m.segments && x.m.active[e.id].segmentID in x.disk.states
      && m == AfterEntry(x.m, e) && disk == WithState(x.disk, x.m.active[e.id].segmentID, Entry(c, e))
    case Rotate(now) =>
      && x.m.current in x.m.segments && m == AfterRotate(x.m)
      && disk == Put(x.disk, x.m.nextSegmentID, SegmentHeader(c, x.m.nextSegmentID, now), StateHeader(c, x.m.nextSegmentID))
    case Drop(k) =>
      && k < |x.m.segmentIDs| && x.m.segmentIDs[k] in x.m.segments
      && m == AfterDrop(x.m, k) && disk == Erase(x.disk, x.m.segmentIDs[k])
  }

  // ---- an operation that completes ---------------------------------------------------------------------

  lemma StoreSafe(c: Codec, cfg: Config, x: Live, op: Op) returns (m: Memory, disk: Disk)
    requires Safe(c, cfg, x) && op.Store? && Enabled(c, cfg, x, op)
    ensures Does(c, x, op, m, disk) && Safe(c, cfg, Live(m, disk, LogAfter(c, x, op), QueueAfter(x.q, op)))
  {
    var group := op.group;
    CommitSound(c, cfg, x.m, x.disk, x.log, group);
    InfoAt(c, x.log, x.m.current, |x.log| - 1);
    assert Holds(c, x.disk, x.log[|x.log| - 1]);
    m := AfterCommit(c, x.m, group, |DataBytes(c, Last(x.log))|);
    disk := WithData(x.disk, x.m.current, GroupBytes(c, group));
    AppendCarried(c, cfg.segmentBytes, x.m.active, x.disk.data, disk.data, x.m.current, group, x.q);
  }

  lemma MarkSafe(c: Codec, cfg: Config, x: Live, op: Op) returns (m: Memory, disk: Disk)
    requires Safe(c, cfg, x) && op.Mark? && Enabled(c, cfg, x, op)
    ensures Does(c, x, op, m, disk) && Safe(c, cfg, Live(m, disk, LogAfter(c, x, op), QueueAfter(x.q, op)))
  {
    hide Sound;
    var k, e := op.k, op.e;
    m, disk := MarkSound(c, cfg, x.m, x.disk, x.log, k, e);
    EntryCarried(c, cfg.segmentBytes, x.m.active, x.disk.data, x.q, e);
    SwapLow(x.disk, disk, x.log, k, WithEntry(x.log[k], e));
  }

  lemma MarkSound(c: Codec, cfg: Config, m: Memory, disk: Disk, log: Log, k: nat, e: StateEntry) returns (m': Memory, disk': Disk)
    requires Sound(c, cfg, m, disk, log) && e.id in m.active && FitsU64(e.id) && FitsU32(e.attempts)
    requires k < |log| && m.active[e.id].segmentID == log[k].id
    ensures log[k].id in m.segments && log[k].id in disk.states
    ensures m' == AfterEntry(m, e) && disk' == WithState(disk, log[k].id, Entry(c, e))
    ensures m'.active == Marked(m.active, e) && disk'.data == disk.data && disk'.states.Keys == disk.states.Keys
    ensures Sound(c, cfg, m', disk', MarkedLog(log, k, e))
  {
    hide LogSound, Mirrors, Counters, Exact;
    var j := EntrySound(c, cfg, m, disk, log, e);
    assert j == k by { SameSoundIndex(c, cfg, log, j, k); }
    m', disk' := AfterEntry(m, e), WithState(disk, log[k].id, Entry(c, e));
  }

  lemma SameSoundIndex(c: Codec, cfg: Config, log: Log, j: nat, k: nat)
    requires LogSound(c, cfg, log) && j < |log| && k < |log| && log[j].id == log[k].id
    ensures j == k
  {}

  lemma SwapLow(disk: Disk, disk': Disk, log: Log, k: nat, s: SegmentLog)
    requires Low(disk, log) && k < |log| && s.id == log[k].id && disk'.states.Keys == disk.states.Keys
    ensures Low(disk', Swap(log, k, s))
  {}

  lemma RotateSafe(c: Codec, cfg: Config, x: Live, op: Op) returns (m: Memory, disk: Disk)
    requires Safe(c, cfg, x) && op.Rotate? && Enabled(c, cfg, x, op)
    ensures Does(c, x, op, m, disk) && Safe(c, cfg, Live(m, disk, LogAfter(c, x, op), QueueAfter(x.q, op)))
  {
    var id, now := x.m.nextSegmentID, op.now;
    NewIsFresh(c, cfg, x.m, x.disk, x.log);
    StillCarried(c, cfg.segmentBytes, x.m.active, x.disk.data, x.disk.data[id := SegmentHeader(c, id, now)], x.q);
    RotatedLow(x.disk, x.log, id, now, SegmentHeader(c, id, now), StateHeader(c, id));
    m, disk := RotateBoth(c, cfg, x.m, x.disk, x.log, now);
  }

  lemma RotateBoth(c: Codec, cfg: Config, m: Memory, disk: Disk, log: Log, now: nat) returns (m': Memory, disk': Disk)
    requires Sound(c, cfg, m, disk, log) && FitsU64(m.nextSegmentID)
    ensures m.current in m.segments && m' == AfterRotate(m)
    ensures disk' == Put(disk, m.nextSegmentID, SegmentHeader(c, m.nextSegmentID, now), StateHeader(c, m.nextSegmentID))
    ensures Sound(c, cfg, m', disk', Rotated(log, m.nextSegmentID, now))
  {
    RotateSound(c, cfg, m, disk, log, now);
    m' := AfterRotate(m);
    disk' := Put(disk, m.nextSegmentID, SegmentHeader(c, m.nextSegmentID, now), StateHeader(c, m.nextSegmentID));
  }

  lemma RotatedLow(disk: Disk, log: Log, id: nat, now: nat, data: seq<byte>, state: seq<byte>)
    requires Low(disk, log) && Last(log).id < id
    ensures Low(Put(disk, id, data, state), Rotated(log, id, now))
  {}

  /** The next segment ID names no file yet. */
  lemma NewIsFresh(c: Codec, cfg: Config, m: Memory, disk: Disk, log: Log)
    requires Sound(c, cfg, m, disk, log) && Low(disk, log)
    ensures m.nextSegmentID !in disk.data && m.nextSegmentID !in disk.states && Last(log).id < m.nextSegmentID
  {
    forall s | s in log ensures s.id != m.nextSegmentID {
      var k :| 0 <= k < |log| && log[k] == s;
      assert log[k].id <= Last(log).id;
    }
  }

  lemma DropSafe(c: Codec, cfg: Config, x: Live, op: Op) returns (m: Memory, disk: Disk)
    requires Safe(c, cfg, x) && op.Drop? && Enabled(c, cfg, x, op)
    ensures Does(c, x, op, m, disk) && Safe(c, cfg, Live(m, disk, LogAfter(c, x, op), QueueAfter(x.q, op)))
  {
    hide Sound;
    var k := op.k;
    m, disk := DropBoth(c, cfg, x.m, x.disk, x.log, k);
    SpentNowhere(c, cfg, x.m, x.disk, x.log, k);
    DropCarried(c, cfg.segmentBytes, x.m.active, x.disk.data, x.log[k].id, x.q);
    WithoutLast(x.log, k);
  }

  lemma SpentNowhere(c: Codec, cfg: Config, m: Memory, disk: Disk, log: Log, k: nat)
    requires Sound(c, cfg, m, disk, log) && k < |log| && Spent(c, log[k])
    ensures forall id :: id in m.active ==> m.active[id].segmentID != log[k].id
  {
    forall id | id in m.active ensures m.active[id].segmentID != log[k].id { SpentUnused(c, log, k, id); }
  }

  lemma DropBoth(c: Codec, cfg: Config, m: Memory, disk: Disk, log: Log, k: nat) returns (m': Memory, disk': Disk)
    requires Sound(c, cfg, m, disk, log) && k < |log| - 1 && Spent(c, log[k])
    ensures |m.segmentIDs| == |log| && m.segmentIDs[k] == log[k].id && log[k].id in m.segments
    ensures m' == AfterDrop(m, k) && m'.active == m.active && disk' == Erase(disk, log[k].id)
    ensures Sound(c, cfg, m', disk', Without(log, k))
  {
    DropSound(c, cfg, m, disk, log, k);
    m', disk' := AfterDrop(m, k), Erase(disk, log[k].id);
  }

  /** Every enabled operation can be carried out, and keeps the log safe. */
  lemma OpSafe(c: Codec, cfg: Config, x: Live, op: Op) returns (m: Memory, disk: Disk)
    requires Safe(c, cfg, x) && Enabled(c, cfg, x, op)
    ensures Does(c, x, op, m, disk)
    ensures Safe(c, cfg, Live(m, disk, LogAfter(c, x, op), QueueAfter(x.q, op)))
  {
    match op
    case Take => m, disk := TakeSafe(c, cfg, x, op);
    case Store(_) => m, disk := StoreSafe(c, cfg, x, op);
    case Mark(_, _) => m, disk := MarkSafe(c, cfg, x, op);
    case Rotate(_) => m, disk := RotateSafe(c, cfg, x, op);
    case Drop(_) => m, disk := DropSafe(c, cfg, x, op);
  }

  lemma TakeSafe(c: Codec, cfg: Config, x: Live, op: Op) returns (m: Memory, disk: Disk)
    requires Safe(c, cfg, x) && op.Take?
    ensures Does(c, x, op, m, disk) && Safe(c, cfg, Live(m, disk, LogAfter(c, x, op), QueueAfter(x.q, op)))
  {
    hide Sound;
    m, disk := x.m.(nextID := x.m.nextID + 1), x.disk;
    TakeSound(c, cfg, x.m, x.disk, x.log);
  }

  lemma TakeSound(c: Codec, cfg: Config, m: Memory, disk: Disk, log: Log)
    requires Sound(c, cfg, m, disk, log)
    ensures Sound(c, cfg, m.(nextID := m.nextID + 1), disk, log)
  {
    TakeCounters(m, log);
    TakeMirrors(c, m, log);
  }

  lemma TakeCounters(m: Memory, log: Log)
    requires Counters(m, log)
    ensures Counters(m.(nextID := m.nextID + 1), log)
  {}

  lemma TakeMirrors(c: Codec, m: Memory, log: Log)
    requires LogEncodes(c, log) && log != [] && Mirrors(c, m, log)
    ensures Mirrors(c, m.(nextID := m.nextID + 1), log)
  {}

  // ---- an operation that a crash cuts ---------------------------------------------------------------------

  function Least(a: nat, b: nat): nat {
    if a < b then a else b
  }

  /** The directory that a crash leaves after `at` bytes of an append, or `at` renames or removals. */
  ghost predicate Leaves(c: Codec, x: Live, op: Op, at: nat, image: Disk) {
    match op
    case Take => image == x.disk
    case Store(group) =>
      && x.m.current in x.disk.data && AllEncode(c, group) && group != []
      && image == WithData(x.disk, x.m.current, GroupBytes(c, group)[..Least(at, |GroupBytes(c, group)|)])
    case Mark(k, e) =>
      && e.id in x.m.active && x.m.active[e.id].segmentID in x.disk.states
      && image == WithState(x.disk, x.m.active[e.id].segmentID, Entry(c, e)[..Least(at, STATE_ENTRY)])
    case Rotate(now) =>
      var id := x.m.nextSegmentID;
      && (at == 0 ==> image == x.disk)
      && (at == 1 ==> image == x.disk.(data := x.disk.data[id := SegmentHeader(c, id, now)]))
      && (at >= 2 ==> image == Put(x.disk, id, SegmentHeader(c, id, now), StateHeader(c, id)))
    case Drop(k) =>
      && k < |x.m.segmentIDs|
      && (at == 0 ==> image == x.disk)
      && (at == 1 ==> image == x.disk.(data := x.disk.data - {x.m.segmentIDs[k]}))
      && (at >= 2 ==> image == Erase(x.disk, x.m.segmentIDs[k]))
  }

  /** Whether what was written before the crash makes the operation last. */
  ghost predicate Durable(c: Codec, op: Op, at: nat) {
    match op
    case Take => false
    case Store(group) => AllEncode(c, group) && group != [] && at >= |GroupBytes(c, group)|
    case Mark(_, _) => at >= STATE_ENTRY
    case Rotate(_) => at >= 1
    case Drop(_) => at >= 1
  }

  /** Opening a directory: the segments its file names announce, recovered in order. */
  ghost predicate Reopens(c: Codec, cfg: Config, image: Disk, m: Memory, disk: Disk) {
    var ids := Sorting.Sort(image.data.Keys);
    var r := Recover(c, cfg.segmentBytes, image, ids);
    ids != [] && r.Some? && m == Reopened(r.value, ids) && disk == r.value.disk
  }

  /** A directory reopened as a log whose index and files hold a queue holds that queue again. */
  lemma ReopenSafe(c: Codec, cfg: Config, image: Disk, torn: Group, x: Live) returns (m: Memory, disk: Disk)
    requires Safe(c, cfg, x) && Crashed(c, cfg.segmentBytes, image, x.log, torn) && Low(image, x.log)
    ensures Reopens(c, cfg, image, m, disk) && Safe(c, cfg, Live(m, disk, x.log, x.q))
  {
    ReopenSound(c, cfg, image, x.log, torn);
    SegmentsFound(x.log, image);
    m := MemoryOf(c, x.log);
    disk := Recover(c, cfg.segmentBytes, image, SegmentIdsOf(x.log)).value.disk;
    SameData(c, x.disk, disk, x.log);
    RecoveredLow(c, cfg.segmentBytes, image, x.log, torn);
  }

  lemma SameData(c: Codec, a: Disk, b: Disk, log: Log)
    requires LogEncodes(c, log) && Exact(c, a, log) && Exact(c, b, log)
    ensures a.data == b.data
  {
    forall id | id in a.data ensures id in b.data && a.data[id] == b.data[id] { SameFile(c, a, b, log, id); }
    assert a.data.Keys == b.data.Keys;
  }

  lemma SameFile(c: Codec, a: Disk, b: Disk, log: Log, id: nat)
    requires LogEncodes(c, log) && Exact(c, a, log) && Exact(c, b, log) && id in a.data
    ensures id in b.data && a.data[id] == b.data[id]
  {
    var k := SegmentNamed(log, id);
    assert Holds(c, a, log[k]) && Holds(c, b, log[k]);
  }

  lemma SegmentNamed(log: Log, id: nat) returns (k: nat)
    requires id in SegmentKeys(log)
    ensures k < |log| && log[k].id == id
  {
    var s :| s in log && s.id == id;
    k :| 0 <= k < |log| && log[k] == s;
  }

  lemma LastIsHighest(log: Log)
    requires log != [] && forall i, j :: 0 <= i < j < |log| ==> log[i].id < log[j].id
    ensures forall id :: id in SegmentKeys(log) ==> id <= Last(log).id
  {
    forall s | s in log ensures s.id <= Last(log).id {
      var k :| 0 <= k < |log| && log[k] == s;
      assert log[k].id <= Last(log).id;
    }
  }

  lemma RecoveredLow(c: Codec, limit: nat, image: Disk, log: Log, torn: Group)
    requires Crashed(c, limit, image, log, torn) && Low(image, log)
    ensures var r := Recover(c, limit, image, SegmentIdsOf(log)); r.Some? && Low(r.value.disk, log)
  {
    LogRecovered(c, limit, image, log, torn);
    assert log[..|log|] == log;
    RepairedStates(c, image, log);
    LastIsHighest(log);
  }

  lemma {:induction false} RepairedStates(c: Codec, disk: Disk, log: Log)
    requires LogEncodes(c, log)
    ensures Repaired(c, disk, log).states.Keys <= disk.states.Keys + SegmentKeys(log)
  {
    if log != [] {
      RepairedStates(c, disk, log[..|log| - 1]);
      KeysStep(log);
    }
  }

  /** The log that survives a crash in the middle of an operation, and the part of a group that does not. */
  lemma CrashLeaves(c: Codec, cfg: Config, x: Live, op: Op, at: nat, image: Disk, y: Live) returns (torn: Group)
    requires Safe(c, cfg, x) && Enabled(c, cfg, x, op) && Leaves(c, x, op, at, image)
    requires Safe(c, cfg, y) && y.log == LogAfter(c, x, op) && Does(c, x, op, y.m, y.disk)
    ensures var log := if Durable(c, op, at) then y.log else x.log;
            Crashed(c, cfg.segmentBytes, image, log, torn) && Low(image, log)
  {
    hide LogSound, Mirrors, Counters, Exact, Crashed;
    IdleCrashed(c, cfg, x.disk, x.log);
    IdleCrashed(c, cfg, y.disk, y.log);
    torn := [];
    match op
    case Take =>
    case Store(group) => if !Durable(c, op, at) { torn := group; StoreCut(c, cfg, x, group, at, image); }
                         else { StoreWhole(c, x, group, at, image); }
    case Mark(k, e) => if !Durable(c, op, at) { MarkCut(c, cfg, x, k, e, at, image); } else { MarkWhole(c, x, k, e, at, image); }
    case Rotate(now) => if at == 1 { RotateCut(c, cfg, x, now, image); }
    case Drop(k) => if at == 1 { DropCut(c, cfg, x, k, image, y); }
  }

  lemma StoreCut(c: Codec, cfg: Config, x: Live, group: Group, at: nat, image: Disk)
    requires Safe(c, cfg, x) && Enabled(c, cfg, x, Store(group)) && Leaves(c, x, Store(group), at, image)
    requires !Durable(c, Store(group), at)
    ensures Crashed(c, cfg.segmentBytes, image, x.log, group) && Low(image, x.log)
  {
    CutCommit(c, cfg, x.disk, x.log, group, at);
  }

  lemma StoreWhole(c: Codec, x: Live, group: Group, at: nat, image: Disk)
    requires Leaves(c, x, Store(group), at, image) && Durable(c, Store(group), at)
    ensures image == WithData(x.disk, x.m.current, GroupBytes(c, group))
  {
    assert GroupBytes(c, group)[..|GroupBytes(c, group)|] == GroupBytes(c, group);
  }

  lemma MarkCut(c: Codec, cfg: Config, x: Live, k: nat, e: StateEntry, at: nat, image: Disk)
    requires Safe(c, cfg, x) && Enabled(c, cfg, x, Mark(k, e)) && Leaves(c, x, Mark(k, e), at, image) && at < STATE_ENTRY
    ensures Crashed(c, cfg.segmentBytes, image, x.log, []) && Low(image, x.log)
  {
    hide LogSound, Mirrors, Counters, Exact, Crashed, Carries;
    EntryCut(c, cfg, x.disk, x.log, k, e, at, image);
  }

  lemma EntryCut(c: Codec, cfg: Config, disk: Disk, log: Log, k: nat, e: StateEntry, at: nat, image: Disk)
    requires LogSound(c, cfg, log) && Exact(c, disk, log) && Low(disk, log) && k < |log| && at < STATE_ENTRY
    requires log[k].id in disk.states && image == WithState(disk, log[k].id, Entry(c, e)[..at])
    ensures Crashed(c, cfg.segmentBytes, image, log, []) && Low(image, log)
  {
    CutEntry(c, cfg, disk, log, k, e, at);
    assert image.states.Keys == disk.states.Keys;
  }

  lemma MarkWhole(c: Codec, x: Live, k: nat, e: StateEntry, at: nat, image: Disk)
    requires Leaves(c, x, Mark(k, e), at, image) && at >= STATE_ENTRY
    ensures image == WithState(x.disk, x.m.active[e.id].segmentID, Entry(c, e))
  {
    assert Entry(c, e)[..STATE_ENTRY] == Entry(c, e);
  }

  lemma RotateCut(c: Codec, cfg: Config, x: Live, now: nat, image: Disk)
    requires Safe(c, cfg, x) && Enabled(c, cfg, x, Rotate(now)) && Leaves(c, x, Rotate(now), 1, image)
    ensures Crashed(c, cfg.segmentBytes, image, LogAfter(c, x, Rotate(now)), []) && Low(image, LogAfter(c, x, Rotate(now)))
  {
    NewIsFresh(c, cfg, x.m, x.disk, x.log);
    CutRotate(c, cfg, x.disk, x.log, x.m.nextSegmentID, now);
  }

  lemma DropCut(c: Codec, cfg: Config, x: Live, k: nat, image: Disk, y: Live)
    requires Safe(c, cfg, x) && Enabled(c, cfg, x, Drop(k)) && Leaves(c, x, Drop(k), 1, image)
    requires Safe(c, cfg, y) && y.log == LogAfter(c, x, Drop(k))
    ensures Crashed(c, cfg.segmentBytes, image, y.log, []) && Low(image, y.log)
  {
    assert x.m.segmentIDs[k] == x.log[k].id;
    CutDrop(c, cfg, x.disk, x.log, k);
    WithoutLast(x.log, k);
  }

  /** What is there when recovery completes: the crashed directory, or what cutting recovery short made of it. */
  ghost predicate Retried(c: Codec, cfg: Config, image: Disk, midway: Disk) {
    midway == image || Interrupted(c, cfg.segmentBytes, image, Sorting.Sort(image.data.Keys), midway)
  }

  lemma RetriedCrashed(c: Codec, cfg: Config, image: Disk, log: Log, torn: Group, midway: Disk)
    requires Crashed(c, cfg.segmentBytes, image, log, torn) && Low(image, log) && Retried(c, cfg, image, midway)
    ensures Crashed(c, cfg.segmentBytes, midway, log, torn) && Low(midway, log)
  {
    hide Recover, Crashed;
    if midway != image {
      CrashedSegments(c, cfg.segmentBytes, image, log, torn);
      InterruptedCrashed(c, cfg.segmentBytes, image, log, torn, midway);
      RecoveredLow(c, cfg.segmentBytes, image, log, torn);
    }
  }

  lemma CrashedSegments(c: Codec, limit: nat, image: Disk, log: Log, torn: Group)
    requires Crashed(c, limit, image, log, torn)
    ensures Sorting.Sort(image.data.Keys) == SegmentIdsOf(log)
  {
    SegmentsFound(log, image);
  }

  /**
   * One crash: whatever was being written, and wherever it was cut, the directory reopens as one of the two queues,
   * also when recovery itself was cut short before.
   */
  lemma CrashSafe(c: Codec, cfg: Config, x: Live, op: Op, at: nat, image: Disk, midway: Disk) returns (m: Memory, disk: Disk)
    requires Safe(c, cfg, x) && Enabled(c, cfg, x, op) && Leaves(c, x, op, at, image) && Retried(c, cfg, image, midway)
    ensures Reopens(c, cfg, midway, m, disk)
    ensures Safe(c, cfg, if Durable(c, op, at) then Live(m, disk, LogAfter(c, x, op), QueueAfter(x.q, op))
                         else Live(m, disk, x.log, x.q))
  {
    hide Safe, Enabled, Leaves, Retried, Crashed, Low, Reopens, Does, Durable, LogAfter, QueueAfter;
    var m', disk' := OpSafe(c, cfg, x, op);
    var y := Live(m', disk', LogAfter(c, x, op), QueueAfter(x.q, op));
    var torn := CrashLeaves(c, cfg, x, op, at, image, y);
    var z := if Durable(c, op, at) then y else x;
    RetriedCrashed(c, cfg, image, z.log, torn, midway);
    m, disk := ReopenSafe(c, cfg, midway, torn, z);
  }

  // ---- runs ------------------------------------------------------------------------------------------------

  ghost predicate Step(c: Codec, cfg: Config, x: Live, event: Event, y: Live) {
    Enabled(c, cfg, x, event.op) &&
    match event
    case Done(op) => Does(c, x, op, y.m, y.disk) && y.log == LogAfter(c, x, op) && y.q == QueueAfter(x.q, op)
    case Cut(op, at) =>
      && (exists image, midway ::
            Leaves(c, x, op, at, image) && Retried(c, cfg, image, midway) && Reopens(c, cfg, midway, y.m, y.disk))
      && y.log == (if Durable(c, op, at) then LogAfter(c, x, op) else x.log)
      && y.q == (if Durable(c, op, at) then QueueAfter(x.q, op) else x.q)
  }

  ghost predicate Linked(c: Codec, cfg: Config, xs: seq<Live>, events: seq<Event>, i: nat)
    requires |xs| == |events| + 1 && i < |events|
  {
    Step(c, cfg, xs[i], events[i], xs[i + 1])
  }

  ghost predicate Run(c: Codec, cfg: Config, xs: seq<Live>, events: seq<Event>) {
    |xs| == |events| + 1 && forall i :: 0 <= i < |events| ==> Linked(c, cfg, xs, events, i)
  }

  lemma StepSafe(c: Codec, cfg: Config, x: Live, event: Event, y: Live)
    requires Safe(c, cfg, x) && Step(c, cfg, x, event, y)
    ensures Safe(c, cfg, y)
  {
    match event
    case Done(op) =>
      var m, disk := OpSafe(c, cfg, x, op);
      DoesOnce(c, x, op, m, disk, y.m, y.disk);
    case Cut(op, at) =>
      var image, midway :|
        Leaves(c, x, op, at, image) && Retried(c, cfg, image, midway) && Reopens(c, cfg, midway, y.m, y.disk);
      var m, disk := CrashSafe(c, cfg, x, op, at, image, midway);
      ReopensOnce(c, cfg, midway, m, disk, y.m, y.disk);
  }

  lemma DoesOnce(c: Codec, x: Live, op: Op, m: Memory, disk: Disk, m': Memory, disk': Disk)
    requires Does(c, x, op, m, disk) && Does(c, x, op, m', disk')
    ensures m == m' && disk == disk'
  {}

  lemma ReopensOnce(c: Codec, cfg: Config, image: Disk, m: Memory, disk: Disk, m': Memory, disk': Disk)
    requires Reopens(c, cfg, image, m, disk) && Reopens(c, cfg, image, m', disk')
    ensures m == m' && disk == disk'
  {}

  /** Safety over whole runs: at every point memory, disk and queue agree, whatever completed and whatever crashed. */
  lemma {:induction false} RunSafe(c: Codec, cfg: Config, xs: seq<Live>, events: seq<Event>, n: nat)
    requires Run(c, cfg, xs, events) && Safe(c, cfg, xs[0]) && n < |xs|
    ensures Safe(c, cfg, xs[n])
  {
    hide Safe;
    hide Step;
    if n > 0 {
      RunSafe(c, cfg, xs, events, n - 1);
      assert Linked(c, cfg, xs, events, n - 1);
      StepSafe(c, cfg, xs[n - 1], events[n - 1], xs[n]);
    }
  }

  /** What a reader sees: the active records are those of the queue, and each reads back as stored, with its attempts. */
  lemma ReadsQueue(c: Codec, cfg: Config, x: Live, id: nat)
    requires Safe(c, cfg, x)
    ensures id in x.m.active <==> id in x.q
    ensures id in x.q ==>
      var at := x.m.active[id];
      && at.segmentID in x.disk.data && at.size >= FRAME_HEADER && at.attempts == x.q[id].attempts
      && ReadRecord(c, x.disk.data[at.segmentID], id, at) == Some(x.q[id].record) && x.q[id].record.id == id
  {
    hide Mirrors, Counters, Exact, GoodLog, Settled;
    if id in x.q {
      assert Has(c, cfg.segmentBytes, x.disk.data, x.m.active[id], id, x.q[id]);
      LocatesReads(c, cfg.segmentBytes, x.disk.data[x.m.active[id].segmentID], x.m.active[id], x.q[id].record);
    }
  }

  /** The directory of a first start: one empty segment. */
  function Fresh(c: Codec, now: nat): Live {
    Live(Memory(1, 2, 1, map[1 := EMPTY_INFO], [1], map[], [], SEGMENT_HEADER + STATE_HEADER, 0),
         Disk(map[1 := SegmentHeader(c, 1, now)], map[1 := StateHeader(c, 1)]), [NewSegment(1, now)], map[])
  }

  lemma FreshIs(c: Codec, now: nat)
    ensures Fresh(c, now).disk.data == map[1 := SegmentHeader(c, 1, now)] && Fresh(c, now).disk.states == map[1 := StateHeader(c, 1)]
    ensures Fresh(c, now).q == map[]
  {}

  lemma FirstStart(c: Codec, cfg: Config, now: nat)
    requires c.Lawful() && cfg.Valid()
    ensures Safe(c, cfg, Fresh(c, now)) && LogEncodes(c, Fresh(c, now).log)
    ensures cfg.maxBytes >= SEGMENT_HEADER + STATE_HEADER <==> Affordable(c, cfg, Fresh(c, now).log)
    ensures cfg.maxBytes >= SEGMENT_HEADER + STATE_HEADER <==> Budgeted(c, cfg, Fresh(c, now).log)
  {
    hide DataBytes, CheckpointBytes, SegmentIds, SegmentActive, SegmentQuarantined, SegmentHeader, StateHeader, InfoOf;
    hide LogIds, Infos, ActiveOf, UsedBy, QuarantinedOf, LiveBytes;
    var x, s := Fresh(c, now), NewSegment(1, now);
    NewSegmentIs(c, 1, now);
    assert SegmentIdsOf(x.log) == [1] && SegmentKeys(x.log) == {1};
    FirstIndex(c, s);
    FirstBudget(c, cfg, s);
  }

  lemma FirstIndex(c: Codec, s: SegmentLog)
    requires Encodes(c, s.groups) && SegmentIds(s.groups) == [] && SegmentActive(c, s) == map[] && SegmentQuarantined(c, s) == 0
    ensures LogEncodes(c, [s]) && LogIds([s]) == [] && ActiveOf(c, [s]) == map[] && QuarantinedOf(c, [s]) == 0
    ensures Infos(c, [s], s.id) == map[s.id := InfoOf(c, s, false)]
    ensures UsedBy(c, [s]) == SegmentBytesUsed(c, s)
  {
    hide SegmentActive, SegmentQuarantined, InfoOf;
    assert [s][..0] == [];
    Maps.EmptyRight<nat, Metadata>(map[]);
  }

  lemma FirstBudget(c: Codec, cfg: Config, s: SegmentLog)
    requires LogEncodes(c, [s]) && ActiveOf(c, [s]) == map[]
    ensures Affordable(c, cfg, [s]) <==> SegmentBytesUsed(c, s) <= cfg.maxBytes
    ensures UsedBy(c, [s]) == SegmentBytesUsed(c, s) ==> (Budgeted(c, cfg, [s]) <==> SegmentBytesUsed(c, s) <= cfg.maxBytes)
  {
    hide ActiveOf;
    assert [s][..0] == [];
  }

  // ---- the budget over runs ------------------------------------------------------------------------------------

  /** The guards that keep the budget: what `commitGroup` checks, and the pipeline's rule for retries. */
  ghost predicate Thrifty(c: Codec, cfg: Config, x: Live, op: Op)
    requires LogEncodes(c, x.log) && x.log != []
  {
    var max := cfg.maxRecordAttempts;
    match op
    case Take => true
    case Store(group) =>
      && AllEncode(c, group) && group != []
      && UsedBy(c, x.log) + Reserve(max, ActiveOf(c, x.log)) + |GroupBytes(c, group)| + STATE_ENTRY * max * |group|
           <= cfg.maxBytes + Returning(c, x.log)
    case Mark(k, e) =>
      e.kind == Retry ==> e.id in ActiveOf(c, x.log) && e.attempts == ActiveOf(c, x.log)[e.id].attempts + 1 < max
    case Rotate(_) =>
      UsedBy(c, x.log) + Reserve(max, ActiveOf(c, x.log)) + SEGMENT_HEADER + STATE_HEADER
        - (if Spent(c, Last(x.log)) then SegmentBytesUsed(c, Last(x.log)) else 0) <= cfg.maxBytes
    case Drop(_) => true
  }

  lemma OpBudgeted(c: Codec, cfg: Config, x: Live, op: Op)
    requires Safe(c, cfg, x) && Enabled(c, cfg, x, op)
    requires LogEncodes(c, x.log) && x.log != [] && Budgeted(c, cfg, x.log) && Thrifty(c, cfg, x, op)
    ensures LogEncodes(c, LogAfter(c, x, op)) && LogAfter(c, x, op) != [] && Budgeted(c, cfg, LogAfter(c, x, op))
  {
    hide Mirrors, Counters, Exact, Carries, GoodLog, Settled, Budgeted, Returning, Follows, Low;
    match op
    case Take =>
    case Store(group) => CommitBudgeted(c, cfg, x.log, group);
    case Mark(k, e) => MarkBudgeted(c, cfg, x, k, e);
    case Rotate(now) =>
      assert Last(x.log).id < x.m.nextSegmentID by { NewIsFresh(c, cfg, x.m, x.disk, x.log); }
      RotateBudgeted(c, cfg, x.log, x.m.nextSegmentID, now);
    case Drop(k) => DropBudgeted(c, cfg, x.log, k);
  }

  lemma MarkBudgeted(c: Codec, cfg: Config, x: Live, k: nat, e: StateEntry)
    requires Safe(c, cfg, x) && Enabled(c, cfg, x, Mark(k, e)) && Budgeted(c, cfg, x.log) && Thrifty(c, cfg, x, Mark(k, e))
    ensures LogEncodes(c, MarkedLog(x.log, k, e)) && Budgeted(c, cfg, MarkedLog(x.log, k, e))
  {
    hide GoodLog, Counters, Exact, Carries, Budgeted, MarkedLog, Infos;
    var j := SegmentOf(c, cfg, x.m, x.log, e.id);
    assert j == k by { SameSoundIndex(c, cfg, x.log, j, k); }
    EntryBudgeted(c, cfg, x.log, k, e);
  }

  /**
   * Through every run whose operations pass their guards, crashes included, the budget holds: what memory counts as used
   * and the reserve are within the limit, up to a spent segment that a rotation has just closed.
   */
  lemma {:induction false} RunBudgeted(c: Codec, cfg: Config, xs: seq<Live>, events: seq<Event>, n: nat)
    requires Run(c, cfg, xs, events) && Safe(c, cfg, xs[0]) && n < |xs|
    requires LogEncodes(c, xs[0].log) && xs[0].log != [] && Budgeted(c, cfg, xs[0].log)
    requires forall i :: 0 <= i < |events| ==> GuardedAt(c, cfg, xs, events, i)
    ensures LogEncodes(c, xs[n].log) && xs[n].log != [] && Budgeted(c, cfg, xs[n].log)
    ensures WithinBudget(c, cfg, xs[n])
  {
    hide Budgeted, Thrifty, Step, Safe, WithinBudget;
    if n > 0 {
      RunBudgeted(c, cfg, xs, events, n - 1);
      RunSafe(c, cfg, xs, events, n - 1);
      assert Linked(c, cfg, xs, events, n - 1) && GuardedAt(c, cfg, xs, events, n - 1);
      StepBudgeted(c, cfg, xs[n - 1], events[n - 1], xs[n]);
    }
    RunSafe(c, cfg, xs, events, n);
    BudgetCounted(c, cfg, xs[n]);
  }

  /** Bytes in use and bytes held for the entries still to come are within the limit, but for a spent segment just closed. */
  ghost predicate WithinBudget(c: Codec, cfg: Config, x: Live) {
    && LogEncodes(c, x.log) && x.log != []
    && x.m.used + Reserve(cfg.maxRecordAttempts, x.m.active) <= cfg.maxBytes + Returning(c, x.log)
  }

  /** The bytes and records that the budget speaks of are those that memory counts. */
  lemma BudgetCounted(c: Codec, cfg: Config, x: Live)
    requires Safe(c, cfg, x) && LogEncodes(c, x.log) && x.log != [] && Budgeted(c, cfg, x.log)
    ensures WithinBudget(c, cfg, x)
  {
    hide LogSound, Exact, Carries, Low, Reserve, Returning;
  }

  lemma StepBudgeted(c: Codec, cfg: Config, x: Live, event: Event, y: Live)
    requires Safe(c, cfg, x) && Step(c, cfg, x, event, y) && LogEncodes(c, x.log) && x.log != []
    requires Budgeted(c, cfg, x.log) && Thrifty(c, cfg, x, event.op)
    ensures LogEncodes(c, y.log) && y.log != [] && Budgeted(c, cfg, y.log)
  {
    hide Safe, Enabled, Budgeted, Thrifty, Does, Leaves, Reopens, LogAfter, QueueAfter, LogEncodes;
    OpBudgeted(c, cfg, x, event.op);
  }

  ghost predicate GuardedAt(c: Codec, cfg: Config, xs: seq<Live>, events: seq<Event>, i: nat)
    requires i < |events| && i < |xs|
  {
    LogEncodes(c, xs[i].log) && xs[i].log != [] && Thrifty(c, cfg, xs[i], events[i].op)
  }

  /** Once compaction has removed every spent segment, what the files take and what is reserved stay within the limit. */
  lemma CompactedFits(c: Codec, cfg: Config, log: Log)
    requires LogEncodes(c, log) && log != [] && Affordable(c, cfg, log)
    requires forall k :: 0 <= k < |log| - 1 ==> !Spent(c, log[k])
    ensures UsedBy(c, log) + Reserve(cfg.maxRecordAttempts, ActiveOf(c, log)) <= cfg.maxBytes
  {
    hide Spent, Reserve;
    AllKept(c, log[..|log| - 1]);
  }

  lemma {:induction false} AllKept(c: Codec, segments: Log)
    requires LogEncodes(c, segments) && forall k :: 0 <= k < |segments| ==> !Spent(c, segments[k])
    ensures Total(Kept(c), segments) == UsedBy(c, segments)
  {
    hide Spent;
    if segments != [] {
      AllKept(c, segments[..|segments| - 1]);
      assert !Spent(c, segments[|segments| - 1]);
    }
  }

  // ---- a log that gave up ----------------------------------------------------------------------------------------

  /** A directory that reopens as this log, holding this queue: what a log must leave when it stops accepting work. */
  ghost predicate Recoverable(c: Codec, cfg: Config, image: Disk, log: Log, q: Queue) {
    exists m, disk, torn ::
      Safe(c, cfg, Live(m, disk, log, q)) && Crashed(c, cfg.segmentBytes, image, log, torn) && Low(image, log)
  }

  /** Any operation that fails part-way leaves a recoverable directory. */
  lemma FailureRecoverable(c: Codec, cfg: Config, x: Live, op: Op, at: nat, image: Disk)
    requires Safe(c, cfg, x) && Enabled(c, cfg, x, op) && Leaves(c, x, op, at, image)
    ensures if Durable(c, op, at) then Recoverable(c, cfg, image, LogAfter(c, x, op), QueueAfter(x.q, op))
            else Recoverable(c, cfg, image, x.log, x.q)
  {
    hide Safe, Enabled, Leaves, Does, LogAfter, QueueAfter, Crashed, Durable, Low;
    var m, disk := OpSafe(c, cfg, x, op);
    var y := Live(m, disk, LogAfter(c, x, op), QueueAfter(x.q, op));
    var torn := CrashLeaves(c, cfg, x, op, at, image, y);
    assert Safe(c, cfg, Live(x.m, x.disk, x.log, x.q));
  }

  lemma RecoverableReopens(c: Codec, cfg: Config, image: Disk, log: Log, q: Queue) returns (m: Memory, disk: Disk)
    requires Recoverable(c, cfg, image, log, q)
    ensures Reopens(c, cfg, image, m, disk) && Safe(c, cfg, Live(m, disk, log, q))
  {
    hide Safe, Crashed, Low, Reopens;
    var m0, disk0, torn :| Safe(c, cfg, Live(m0, disk0, log, q)) && Crashed(c, cfg.segmentBytes, image, log, torn) && Low(image, log);
    m, disk := ReopenSafe(c, cfg, image, torn, Live(m0, disk0, log, q));
  }
}
