/**
 * Crashes. Whatever operation was being written, and at whatever byte it was cut, the directory left behind reopens
 * as the queue from before the operation or, once the operation's bytes were all there, from after it.
 */
module WalCrash {
  import opened Bytes
  import opened Telemetry
  import opened WalFormat
  import opened WalScan
  import opened WalLog
  import opened WalRecovery
  import opened WalContents
  import opened WalOps
  import opened WalMemory
  import opened WalSteps
  import opened WalSegments
  import Sorting

  // ---- reopening -------------------------------------------------------------------------------------

  /** The fields of the log object once recovery has run: the last segment is reopened for appending. */
  function Reopened(index: Index, ids: seq<nat>): Memory
    requires ids != []
  {
    var current := ids[|ids| - 1];
    var segments :=
      if current in index.segments then index.segments[current := index.segments[current].(closed := false)]
      else index.segments;
    Memory(index.nextID, current + 1, current, segments, ids,
           index.active, Sorting.Sort(index.active.Keys), index.used, index.quarantined)
  }

  /** The memory that a log calls for. */
  function MemoryOf(c: Codec, log: Log): Memory
    requires LogEncodes(c, log) && log != []
  {
    Memory(NextAfterIds(1, LogIds(log)), Last(log).id + 1, Last(log).id, Infos(c, log, Last(log).id), SegmentIdsOf(log),
           ActiveOf(c, log), Sorting.Sort(ActiveOf(c, log).Keys), UsedBy(c, log), QuarantinedOf(c, log))
  }

  lemma {:induction false} NextAbove(next: nat, ids: seq<nat>)
    ensures NextAfterIds(next, ids) >= next && forall id :: id in ids ==> id < NextAfterIds(next, ids)
  {
    if ids != [] {
      NextAbove(next, ids[..|ids| - 1]);
      assert ids == ids[..|ids| - 1] + [ids[|ids| - 1]];
    }
  }

  /** Marking the last segment as current is all that distinguishes the bookkeeping of a running log. */
  lemma CurrentInfos(c: Codec, log: Log)
    requires LogEncodes(c, log) && log != [] && Last(log).id != 0
    requires forall i, j :: 0 <= i < j < |log| ==> log[i].id < log[j].id
    requires forall k :: 0 <= k < |log| ==> log[k].id != 0
    ensures Last(log).id in Infos(c, log, 0)
    ensures Infos(c, log, Last(log).id)
         == Infos(c, log, 0)[Last(log).id := Infos(c, log, 0)[Last(log).id].(closed := false)]
  {
    var init, last := log[..|log| - 1], Last(log);
    InfosStep(c, log, 0);
    InfosStep(c, log, last.id);
    InfosOthers(c, init, 0, last.id);
    Twice(Infos(c, init, 0), last.id, InfoOf(c, last, true), InfoOf(c, last, false));
  }

  lemma MemoryCounters(c: Codec, cfg: Config, log: Log)
    requires LogSound(c, cfg, log)
    ensures Counters(MemoryOf(c, log), log)
  {
    NextAbove(1, LogIds(log));
    ActiveKeys(c, log);
    assert GoodSegment(c, cfg.segmentBytes, Last(log));
  }

  lemma ReopenedIs(c: Codec, cfg: Config, log: Log, disk: Disk)
    requires LogSound(c, cfg, log)
    ensures SegmentIdsOf(log) != [] && Reopened(IndexOf(c, log, disk), SegmentIdsOf(log)) == MemoryOf(c, log)
  {
    hide ActiveOf, QuarantinedOf, Infos, UsedBy, LogIds, LogEncodes, Settled, Sorted;
    forall k | 0 <= k < |log| ensures log[k].id != 0 { assert GoodSegment(c, cfg.segmentBytes, log[k]); }
    CurrentInfos(c, log);
  }

  /** A crashed directory reopens in agreement with its log. */
  lemma ReopenSound(c: Codec, cfg: Config, disk: Disk, log: Log, torn: Group)
    requires LogSound(c, cfg, log) && Crashed(c, cfg.segmentBytes, disk, log, torn)
    ensures var ids := SegmentIdsOf(log);
            var r := Recover(c, cfg.segmentBytes, disk, ids);
            && r.Some? && ids != [] && r.value == IndexOf(c, log, r.value.disk)
            && Reopened(r.value, ids) == MemoryOf(c, log) && Sound(c, cfg, MemoryOf(c, log), r.value.disk, log)
  {
    TornRecovered(c, cfg.segmentBytes, disk, log, torn);
    var r := Recover(c, cfg.segmentBytes, disk, SegmentIdsOf(log)).value;
    ReopenedIs(c, cfg, log, r.disk);
    MemoryCounters(c, cfg, log);
  }

  /** Recovery finds the segments by their file names, sorted. */
  lemma SegmentsFound(log: Log, disk: Disk)
    requires disk.data.Keys == SegmentKeys(log) && forall i, j :: 0 <= i < j < |log| ==> log[i].id < log[j].id
    ensures Sorting.Sort(disk.data.Keys) == SegmentIdsOf(log)
  {
    var ids := SegmentIdsOf(log);
    forall s | s in log ensures s.id in ids {
      var k :| 0 <= k < |log| && log[k] == s;
      assert ids[k] == s.id;
    }
    forall id | id in ids ensures id in SegmentKeys(log) {
      var k :| 0 <= k < |ids| && ids[k] == id;
      assert log[k] in log;
    }
    Sorting.SortIsUnique(disk.data.Keys, ids);
  }

  // ---- what a crash leaves -----------------------------------------------------------------------------

  /** A crash between operations. */
  lemma IdleCrashed(c: Codec, cfg: Config, disk: Disk, log: Log)
    requires LogSound(c, cfg, log) && Exact(c, disk, log)
    ensures Crashed(c, cfg.segmentBytes, disk, log, [])
  {
    forall k | 0 <= k < |log|
      ensures log[k].id in disk.data && TornState(c, disk, log[k]) && disk.data[log[k].id] == DataBytes(c, log[k])
    {
      assert Holds(c, disk, log[k]);
    }
  }

  /** A crash while a group is being appended, before its last byte. */
  lemma CutCommit(c: Codec, cfg: Config, disk: Disk, log: Log, group: Group, at: nat)
    requires LogSound(c, cfg, log) && Exact(c, disk, log) && Follows(c, cfg.segmentBytes, log, group)
    requires AllEncode(c, group) && at < |GroupBytes(c, group)|
    ensures Last(log).id in disk.data
    ensures Crashed(c, cfg.segmentBytes, WithData(disk, Last(log).id, GroupBytes(c, group)[..at]), log, group)
  {
    IdleCrashed(c, cfg, disk, log);
    var id, bytes := Last(log).id, GroupBytes(c, group);
    assert Last(log) in log;
    var disk' := WithData(disk, id, bytes[..at]);
    forall k | 0 <= k < |log| ensures log[k].id in disk'.data && TornState(c, disk', log[k]) {
      assert TornState(c, disk, log[k]);
    }
    CutPrefix(DataBytes(c, Last(log)), bytes, at);
  }

  lemma CutPrefix(front: seq<byte>, bytes: seq<byte>, at: nat)
    requires at < |bytes|
    ensures front <= front + bytes[..at] <= front + bytes && front + bytes[..at] != front + bytes
  {
    assert |front + bytes[..at]| < |front + bytes|;
  }

  /** A crash while a checkpoint entry is being appended, before its last byte. */
  lemma CutEntry(c: Codec, cfg: Config, disk: Disk, log: Log, k: nat, e: StateEntry, at: nat)
    requires LogSound(c, cfg, log) && Exact(c, disk, log) && k < |log| && at < STATE_ENTRY
    ensures log[k].id in disk.states
    ensures Crashed(c, cfg.segmentBytes, WithState(disk, log[k].id, Entry(c, e)[..at]), log, [])
  {
    hide Big, CheckpointBytes, SegmentKeys, GoodSegment, GroupsBytes;
    IdleCrashed(c, cfg, disk, log);
    assert Holds(c, disk, log[k]);
    var disk' := WithState(disk, log[k].id, Entry(c, e)[..at]);
    forall j | 0 <= j < |log| ensures log[j].id in disk'.data && TornState(c, disk', log[j]) {
      assert TornState(c, disk, log[j]);
    }
  }

  /** A crash between the two renames that install a new segment: its checkpoint file is missing. */
  lemma CutRotate(c: Codec, cfg: Config, disk: Disk, log: Log, id: nat, now: nat)
    requires LogSound(c, cfg, log) && Exact(c, disk, log) && Last(log).id < id && FitsU64(id) && id !in disk.states
    ensures Crashed(c, cfg.segmentBytes, disk.(data := disk.data[id := SegmentHeader(c, id, now)]), Rotated(log, id, now), [])
  {
    RotatedLog(c, cfg, log, id, now);
    RotatedExact(c, cfg, disk, log, id, now);
    var whole := Put(disk, id, SegmentHeader(c, id, now), StateHeader(c, id));
    IdleCrashed(c, cfg, whole, Rotated(log, id, now));
    StateMissing(c, whole, disk.(data := whole.data), Rotated(log, id, now), |log|);
  }

  lemma StateMissing(c: Codec, disk: Disk, disk': Disk, log: Log, k: nat)
    requires log != [] && LogEncodes(c, log) && AllEncode(c, []) && Torn(c, disk, log, [])
    requires k < |log| && log[k].entries == [] && forall i, j :: 0 <= i < j < |log| ==> log[i].id < log[j].id
    requires disk'.data == disk.data && log[k].id !in disk'.states && disk.states == disk'.states[log[k].id := StateHeader(c, log[k].id)]
    ensures Torn(c, disk', log, [])
  {
    forall j | 0 <= j < |log| ensures log[j].id in disk'.data && TornState(c, disk', log[j]) {
      assert TornState(c, disk, log[j]);
      assert j != k ==> log[j].id != log[k].id;
    }
  }

  /** A crash between the two removals of a spent segment: its checkpoint file stays behind, ignored. */
  lemma CutDrop(c: Codec, cfg: Config, disk: Disk, log: Log, k: nat)
    requires LogSound(c, cfg, log) && Exact(c, disk, log) && k < |log| - 1
    requires LogSound(c, cfg, Without(log, k))
    ensures Crashed(c, cfg.segmentBytes, disk.(data := disk.data - {log[k].id}), Without(log, k), [])
  {
    var id, log', disk' := log[k].id, Without(log, k), disk.(data := disk.data - {log[k].id});
    WithoutExact(c, disk, log, k);
    forall j | 0 <= j < |log'| ensures Holds(c, disk', log'[j]) {
      assert Holds(c, Erase(disk, id), log'[j]);
    }
    IdleCrashed(c, cfg, disk', log');
  }
}
