/** What recovery finds, said without reference to how: exactly the committed records that are not finished, each readable. */
module WalExact {
  import opened Telemetry
  import opened WalFormat
  import opened WalScan
  import opened WalLog
  import opened WalContents
  import opened WalOps
  import opened WalMemory
  import opened WalRecovery
  import opened WalCrash
  import opened WalQueue
  import R = WalRuns

  /** The frame that the index gives for `id` is that of a record committed in the segment it names. */
  ghost predicate ReadsCommitted(c: Codec, log: Log, disk: Disk, id: nat, at: Metadata) {
    exists k: nat, record :: Stored(log, k, record) && record.id == id && log[k].id == at.segmentID
      && at.segmentID in disk.data && Locates(c, disk.data[at.segmentID], at, record)
  }

  /**
   * A crashed directory reopens with the one index that has every committed record without a final checkpoint entry, at
   * its attempt count, and nothing else; and each of its entries points at the frame of a committed record.
   */
  lemma RecoveredExactly(c: Codec, cfg: Config, image: Disk, log: Log, torn: Group)
    requires LogSound(c, cfg, log) && Crashed(c, cfg.segmentBytes, image, log, torn)
    ensures var r := Recover(c, cfg.segmentBytes, image, SegmentIdsOf(log));
            && r.Some? && Undelivered(r.value.active, AllPlaced(c, log), Latest(log))
            && (forall other :: Undelivered(other, AllPlaced(c, log), Latest(log)) ==> other == r.value.active)
            && (forall id :: id in r.value.active ==> ReadsCommitted(c, log, r.value.disk, id, r.value.active[id]))
  {
    hide GoodLog, Undelivered, AllPlaced, Latest, ReadsCommitted;
    ReopenSound(c, cfg, image, log, torn);
    var r := Recover(c, cfg.segmentBytes, image, SegmentIdsOf(log)).value;
    hide Recover, Crashed;
    var m := MemoryOf(c, log);
    LogSorted(c, cfg, log);
    ActiveOfIs(c, log);
    forall other | Undelivered(other, AllPlaced(c, log), Latest(log)) ensures other == ActiveOf(c, log) {
      UndeliveredUnique(other, ActiveOf(c, log), AllPlaced(c, log), Latest(log));
    }
    forall id | id in ActiveOf(c, log) ensures ReadsCommitted(c, log, r.disk, id, ActiveOf(c, log)[id]) {
      ActiveReads(c, cfg, m, r.disk, log, id);
    }
  }

  lemma LogSorted(c: Codec, cfg: Config, log: Log)
    requires LogSound(c, cfg, log)
    ensures LogEncodes(c, log) && Settled(log) && Sorted(LogIds(log))
  {}

  lemma ActiveReads(c: Codec, cfg: Config, m: Memory, disk: Disk, log: Log, id: nat)
    requires Sound(c, cfg, m, disk, log) && id in ActiveOf(c, log)
    ensures ReadsCommitted(c, log, disk, id, ActiveOf(c, log)[id])
  {
    var k := ActiveSegment(c, log, id);
    var s := log[k];
    assert Holds(c, disk, s);
    var record := SegmentReads(c, s, id);
    assert Stored(log, k, record);
    assert ActiveOf(c, log)[id] == SegmentActive(c, s)[id];
  }

  lemma SegmentReads(c: Codec, s: SegmentLog, id: nat) returns (record: DiskRecord)
    requires Encodes(c, s.groups) && id in SegmentActive(c, s)
    ensures record.id == id && SegmentActive(c, s)[id].segmentID == s.id && Locates(c, DataBytes(c, s), SegmentActive(c, s)[id], record)
    ensures exists j :: 0 <= j < |s.groups| && record in s.groups[j]
  {
    ActiveInIs(s.id, SegmentFrames(c, s), StatesOf(s.entries));
    record := ReadBack(c, s, id);
    SegmentNamed(s.id, SegmentFrames(c, s), id);
  }

  lemma SegmentNamed(segmentID: nat, frames: seq<Located>, id: nat)
    requires id in Placed(segmentID, frames)
    ensures Placed(segmentID, frames)[id].segmentID == segmentID
  {
    if id in Placed(segmentID, frames[..|frames| - 1]) { SegmentNamed(segmentID, frames[..|frames| - 1], id); }
  }

  /** The queue that a running log stands for is determined by what it has in memory and on disk. */
  lemma QueueDetermined(c: Codec, cfg: Config, x: R.Live, y: R.Live)
    requires R.Safe(c, cfg, x) && R.Safe(c, cfg, y) && x.m == y.m && x.disk == y.disk
    ensures x.q == y.q
  {
    hide GoodLog, Settled, Mirrors, Counters, Exact, Carries;
    CarriedOnce(c, cfg.segmentBytes, x.m.active, x.disk.data, x.q, y.q);
  }
}
