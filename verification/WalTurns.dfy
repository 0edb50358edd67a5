/** What each step of the log object relies on: rotation, compaction and the append of a group. */
module WalTurns {
  import opened Telemetry
  import opened WalFormat
  import opened WalScan
  import opened WalLog
  import opened WalContents
  import opened WalOps
  import opened WalMemory
  import opened WalSteps
  import opened WalSegments
  import opened WalQueue
  import opened WalBudget
  import opened WalCrash
  import opened WalRuns
  import opened WalRecovery
  import Sorting

  /** How far the operating system lets one group commit get. */
  datatype Io = Io(renames: nat, written: nat, synced: bool)

  datatype AppendError = Unencodable | Full | Failed

  /** The three ways in which opening a segment may end. */
  lemma RotateOutcomes(c: Codec, cfg: Config, x: Live, now: nat)
    requires Safe(c, cfg, x) && FitsU64(x.m.nextSegmentID)
    ensures x.m.current in x.m.segments
    ensures var id, data, state := x.m.nextSegmentID, SegmentHeader(c, x.m.nextSegmentID, now), StateHeader(c, x.m.nextSegmentID);
            && Recoverable(c, cfg, x.disk, x.log, x.q)
            && Recoverable(c, cfg, x.disk.(data := x.disk.data[id := data]), Rotated(x.log, id, now), x.q)
            && Safe(c, cfg, Live(AfterRotate(x.m), Put(x.disk, id, data, state), Rotated(x.log, id, now), x.q))
  {
    hide Safe, Recoverable;
    var op := Op.Rotate(now);
    var m, disk := OpSafe(c, cfg, x, op);
    FailureRecoverable(c, cfg, x, op, 0, x.disk);
    FailureRecoverable(c, cfg, x, op, 1, x.disk.(data := x.disk.data[x.m.nextSegmentID := SegmentHeader(c, x.m.nextSegmentID, now)]));
  }

  /** The test of the compaction loop finds exactly the spent segments that are not current. */
  lemma SpentTest(c: Codec, cfg: Config, x: Live, k: nat)
    requires Safe(c, cfg, x) && k < |x.m.segmentIDs|
    ensures LogEncodes(c, x.log) && |x.log| == |x.m.segmentIDs| && x.log[k].id == x.m.segmentIDs[k]
    ensures x.m.segmentIDs[k] in x.m.segments
    ensures var info := x.m.segments[x.m.segmentIDs[k]];
            (x.m.segmentIDs[k] == x.m.current || !info.closed || info.activeRecords > 0 || info.quarantinedRecords > 0)
            <==> !(k < |x.log| - 1 && Spent(c, x.log[k]))
    ensures x.m.segments[x.m.segmentIDs[k]].size == |DataBytes(c, x.log[k])|
    ensures x.m.segments[x.m.segmentIDs[k]].stateSize == |CheckpointBytes(c, x.log[k])|
  {
    hide Counters, Exact, Carries, Settled, GoodSegment, Infos, ActiveOf, QuarantinedOf, UsedBy, SegmentActive, SegmentQuarantined;
    InfoAt(c, x.log, x.m.current, k);
    if k < |x.log| - 1 { assert x.log[k].id < x.log[|x.log| - 1].id; }
    NoRecords(SegmentActive(c, x.log[k]));
  }

  lemma SafeLog(c: Codec, cfg: Config, x: Live)
    requires Safe(c, cfg, x)
    ensures LogEncodes(c, x.log) && x.log != [] && |x.log| == |x.m.segmentIDs|
  {
    hide Counters, Exact, Carries, Settled, Infos, ActiveOf, QuarantinedOf, UsedBy;
  }

  lemma NoRecords(active: map<nat, Metadata>)
    ensures |active| == 0 <==> active == map[]
  {}

  /** Removing a spent segment: what stays true, and what the loop needs to go on. */
  lemma DropTurn(c: Codec, cfg: Config, x: Live, k: nat)
    requires Safe(c, cfg, x) && LogEncodes(c, x.log) && k < |x.log| - 1 && Spent(c, x.log[k])
    ensures k < |x.m.segmentIDs| && x.m.segmentIDs[k] in x.m.segments
    ensures x.m.segments[x.m.segmentIDs[k]].size + x.m.segments[x.m.segmentIDs[k]].stateSize <= x.m.used
    ensures Safe(c, cfg, Live(AfterDrop(x.m, k), Erase(x.disk, x.m.segmentIDs[k]), Without(x.log, k), x.q))
    ensures LogEncodes(c, Without(x.log, k)) && Without(x.log, k) != [] && Last(Without(x.log, k)) == Last(x.log)
    ensures LiveBytes(c, Without(x.log, k)) == LiveBytes(c, x.log)
    ensures forall id :: id in LogIds(Without(x.log, k)) ==> id in LogIds(x.log)
  {
    hide Safe, LiveBytes, Spent;
    var m, disk := OpSafe(c, cfg, x, Op.Drop(k));
    SpentTest(c, cfg, x, k);
    LiveAfterDrop(c, x.log, k);
    WithoutLast(x.log, k);
    WithoutTotals(c, x.log, k);
    ElementsAppend(LogIds(x.log[..k]), SegmentIds(x.log[k].groups));
    UsedWithin(c, cfg, x, k);
  }

  lemma NextInList(kept: seq<nat>, all: seq<nat>, i: nat)
    requires i < |all|
    ensures (kept + all[i..])[|kept|] == all[i] && kept + [all[i]] + all[i + 1..] == kept + all[i..]
    ensures (kept + all[i..])[..|kept|] + (kept + all[i..])[|kept| + 1..] == kept + all[i + 1..]
  {
    assert (kept + all[i..])[..|kept|] == kept && (kept + all[i..])[|kept| + 1..] == all[i + 1..];
  }

  /** Of the first `k` segments, none but the current one is spent. */
  ghost predicate NoneSpent(c: Codec, log: Log, k: nat)
    requires LogEncodes(c, log)
  {
    forall j :: 0 <= j < k && j < |log| - 1 ==> !Spent(c, log[j])
  }

  lemma NoneLeft(c: Codec, log: Log, k: nat)
    requires LogEncodes(c, log) && NoneSpent(c, log, k) && |log| <= k
    ensures forall j :: 0 <= j < |log| - 1 ==> !Spent(c, log[j])
  {}

  lemma NoneSpentWithout(c: Codec, log: Log, k: nat)
    requires k < |log| - 1 && LogEncodes(c, log) && LogEncodes(c, Without(log, k)) && NoneSpent(c, log, k)
    ensures |Without(log, k)| == |log| - 1 && NoneSpent(c, Without(log, k), k)
  {
    hide Spent;
    forall j | 0 <= j < k ensures Without(log, k)[j] == log[j] {}
  }

  lemma UsedWithin(c: Codec, cfg: Config, x: Live, k: nat)
    requires Safe(c, cfg, x) && LogEncodes(c, x.log) && k < |x.log| && Spent(c, x.log[k])
    ensures |DataBytes(c, x.log[k])| + |CheckpointBytes(c, x.log[k])| <= x.m.used
  {
    hide Counters, Exact, Carries, LogSound, Infos, ActiveOf, QuarantinedOf, Spent;
    WithoutTotals(c, x.log, k);
  }

  /** A group whose IDs are above every ID in use and below the next fresh one. */
  ghost predicate Ready(c: Codec, cfg: Config, x: Live, group: Group) {
    && GoodGroup(c, cfg.segmentBytes, group)
    && (forall id, r :: id in LogIds(x.log) && r in group ==> id < r.id)
    && (forall id, r :: id in x.m.ids && r in group ==> id < r.id)
    && (forall r :: r in group ==> r.id < x.m.nextID)
  }

  lemma SortedJoin(a: seq<nat>, group: Group)
    requires Sorted(a) && (forall i, j :: 0 <= i < j < |group| ==> group[i].id < group[j].id)
    requires forall id, r :: id in a && r in group ==> id < r.id
    ensures Sorted(a + GroupIds(group)) && forall id :: id in GroupIds(group) ==> exists r :: r in group && r.id == id
  {
    var all := a + GroupIds(group);
    forall i, j | 0 <= i < j < |all| ensures all[i] < all[j] {
      if i < |a| <= j { assert a[i] in a && group[j - |a|] in group; }
    }
    forall id | id in GroupIds(group) ensures exists r :: r in group && r.id == id {
      var k :| 0 <= k < |group| && GroupIds(group)[k] == id;
      assert group[k] in group;
    }
  }

  lemma ReadyEnabled(c: Codec, cfg: Config, x: Live, group: Group)
    requires Safe(c, cfg, x) && Ready(c, cfg, x, group)
    ensures Enabled(c, cfg, x, Op.Store(group))
  {
    hide Mirrors, Exact, Carries, GoodSegment, Settled, LogIds;
    SortedJoin(LogIds(x.log), group);
    SortedJoin(x.m.ids, group);
  }

  /** The ways in which appending a group may end. */
  lemma StoreOutcomes(c: Codec, cfg: Config, x: Live, group: Group)
    requires Safe(c, cfg, x) && Ready(c, cfg, x, group)
    ensures AllEncode(c, group) && group != [] && x.log != []
    ensures x.m.current in x.m.segments && x.m.current in x.disk.data
    ensures Safe(c, cfg, Live(AfterCommit(c, x.m, group, x.m.segments[x.m.current].size),
                              WithData(x.disk, x.m.current, GroupBytes(c, group)), Appended(x.log, group), x.q + GroupQueue(group)))
    ensures Recoverable(c, cfg, WithData(x.disk, x.m.current, GroupBytes(c, group)), Appended(x.log, group), x.q + GroupQueue(group))
    ensures forall at :: 0 <= at < |GroupBytes(c, group)| ==>
              Recoverable(c, cfg, WithData(x.disk, x.m.current, GroupBytes(c, group)[..at]), x.log, x.q)
  {
    hide Safe, Recoverable, GoodGroup, GroupBytes, WithData;
    var op := Op.Store(group);
    ReadyEnabled(c, cfg, x, group);
    var m, disk := OpSafe(c, cfg, x, op);
    SafeLog(c, cfg, x);
    var n := |GroupBytes(c, group)|;
    assert GroupBytes(c, group)[..n] == GroupBytes(c, group);
    FailureRecoverable(c, cfg, x, op, n, disk);
    forall at | 0 <= at < n
      ensures Recoverable(c, cfg, WithData(x.disk, x.m.current, GroupBytes(c, group)[..at]), x.log, x.q)
    {
      FailureRecoverable(c, cfg, x, op, at, WithData(x.disk, x.m.current, GroupBytes(c, group)[..at]));
    }
  }

  /** The current segment, as the guard of `commitGroup` sees it. */
  lemma CurrentSegment(c: Codec, cfg: Config, x: Live)
    requires Safe(c, cfg, x)
    ensures LogEncodes(c, x.log) && x.log != [] && x.m.current in x.m.segments
    ensures var info := x.m.segments[x.m.current];
            && (info.activeRecords == 0 && info.quarantinedRecords == 0 <==> Spent(c, Last(x.log)))
            && info.size + info.stateSize == SegmentBytesUsed(c, Last(x.log))
    ensures LiveBytes(c, x.log) <= x.m.used
  {
    hide Counters, Exact, Carries, Settled, GoodSegment, Infos, ActiveOf, QuarantinedOf, SegmentActive, SegmentQuarantined;
    InfoAt(c, x.log, x.m.current, |x.log| - 1);
    NoRecords(SegmentActive(c, Last(x.log)));
    KeptWithin(c, x.log[..|x.log| - 1]);
  }

  lemma {:induction false} KeptWithin(c: Codec, segments: Log)
    requires LogEncodes(c, segments)
    ensures Total(Kept(c), segments) <= UsedBy(c, segments)
  {
    hide Spent;
    if segments != [] { KeptWithin(c, segments[..|segments| - 1]); }
  }

  /** Rotation and compaction realise the credit that the guard counted on. */
  lemma LiveAfterRotation(c: Codec, cfg: Config, x: Live, now: nat)
    requires Safe(c, cfg, x) && LogEncodes(c, x.log) && x.log != []
    ensures LogEncodes(c, Rotated(x.log, x.m.nextSegmentID, now))
    ensures LiveBytes(c, Rotated(x.log, x.m.nextSegmentID, now)) <= x.m.used + SEGMENT_HEADER + STATE_HEADER
              - (if Spent(c, Last(x.log)) then SegmentBytesUsed(c, Last(x.log)) else 0)
    ensures LogIds(Rotated(x.log, x.m.nextSegmentID, now)) == LogIds(x.log)
  {
    hide Safe, Spent, LiveBytes;
    LiveAfterRotate(c, x.log, x.m.nextSegmentID, now);
    CurrentSegment(c, cfg, x);
    NoMoreIds(x.log, x.m.nextSegmentID, now);
  }

  lemma NoMoreIds(log: Log, id: nat, now: nat)
    ensures LogIds(Rotated(log, id, now)) == LogIds(log)
  {
    assert Rotated(log, id, now)[..|log|] == log;
    assert LogIds(log) + [] == LogIds(log);
  }

  /** Once nothing spent is left, all bytes in use are live. */
  lemma LiveIsUsed(c: Codec, cfg: Config, x: Live)
    requires Safe(c, cfg, x) && LogEncodes(c, x.log) && x.log != [] && forall k :: 0 <= k < |x.log| - 1 ==> !Spent(c, x.log[k])
    ensures LiveBytes(c, x.log) == x.m.used
  {
    hide Counters, Exact, Carries, LogSound, Infos, ActiveOf, QuarantinedOf, Spent;
    AllKept(c, x.log[..|x.log| - 1]);
  }

  lemma NoNewRecords(c: Codec, segmentID: nat, base: nat)
    ensures AllEncode(c, []) && NewRecords(c, segmentID, [], base) == map[]
  {}

  lemma OneMoreTimes(k: nat, n: nat)
    ensures (k + 1) * n == k * n + n
  {}

  ghost predicate SizesWithin(segments: map<nat, SegmentInfo>, limit: nat) {
    forall id :: id in segments ==> segments[id].size <= limit
  }

  lemma GrownSize(segments: map<nat, SegmentInfo>, current: nat, n: nat, ids: seq<nat>, limit: nat)
    requires current in segments
    ensures segments[current].size + n <= limit && SizesWithin(segments, limit) ==>
              SizesWithin(segments[current := Grown(segments[current], n, ids)], limit)
  {}

  /** A committed group adds to the formula what `commitGroup` adds to the reserve. */
  lemma ReserveGrows(c: Codec, cfg: Config, x: Live, group: Group)
    requires Safe(c, cfg, x) && Ready(c, cfg, x, group)
    ensures AllEncode(c, group) && group != [] && x.m.current in x.m.segments
    ensures Reserve(cfg.maxRecordAttempts, AfterCommit(c, x.m, group, x.m.segments[x.m.current].size).active)
         == Reserve(cfg.maxRecordAttempts, x.m.active) + |group| * (cfg.maxRecordAttempts * STATE_ENTRY)
  {
    hide Safe, Reserve, NewRecords, Ready;
    CurrentSegment(c, cfg, x);
    NotYetActive(c, cfg, x, group);
    ReserveAfterCommit(c, cfg.maxRecordAttempts, x.m.active, x.m.current, group, x.m.segments[x.m.current].size);
    Reordered(STATE_ENTRY, cfg.maxRecordAttempts, |group|);
  }

  lemma Reordered(a: nat, b: nat, n: nat)
    ensures a * b * n == n * (b * a)
  {
    assert a * b == b * a;
  }

  lemma NotYetActive(c: Codec, cfg: Config, x: Live, group: Group)
    requires Safe(c, cfg, x) && Ready(c, cfg, x, group)
    ensures AllEncode(c, group) && group != [] && cfg.maxRecordAttempts >= 1
    ensures Sorted(GroupIds(group)) && Elements(GroupIds(group)) !! x.m.active.Keys
  {
    hide Mirrors, Exact, Carries, GoodLog, Settled, LogIds;
    SortedJoin([], group);
    assert [] + GroupIds(group) == GroupIds(group);
    forall id | id in GroupIds(group) ensures id !in x.m.ids {
      var r :| r in group && r.id == id;
    }
  }

  /** A group written to the current segment and taken into the index is a committed group. */
  lemma TakenIn(c: Codec, m: Memory, group: Group, base: nat, after: Memory)
    requires m.current in m.segments && AllEncode(c, group) && group != []
    requires var info, n := m.segments[m.current], |GroupBytes(c, group)|;
             after == m.(segments := m.segments[m.current := Grown(info.(size := info.size + n), 0, GroupIds(group))],
                         active := m.active + NewRecords(c, m.current, group, base), ids := m.ids + GroupIds(group), used := m.used + n)
    ensures after == AfterCommit(c, m, group, base)
    ensures after.segments == m.segments[m.current := Grown(m.segments[m.current], |GroupBytes(c, group)|, GroupIds(group))]
  {
    hide GroupBytes, NewRecords;
  }

  lemma StoredIds(c: Codec, cfg: Config, x: Live, group: Group)
    requires Safe(c, cfg, x) && Ready(c, cfg, x, group)
    ensures x.log != [] && LogIds(Appended(x.log, group)) == LogIds(x.log) + GroupIds(group)
  {
    hide Mirrors, Counters, Exact, Carries, LogIds, Appended;
    SafeLog(c, cfg, x);
    ReadyEnabled(c, cfg, x, group);
    AppendedLog(c, cfg, x.log, group);
  }

  lemma NewRecordsStep(c: Codec, segmentID: nat, group: Group, base: nat, k: nat)
    requires AllEncode(c, group) && k < |group|
    ensures AllEncode(c, group[..k]) && AllEncode(c, group[..k + 1])
    ensures NewRecords(c, segmentID, group[..k + 1], base)
         == NewRecords(c, segmentID, group[..k], base)
              [group[k].id := Metadata(segmentID, base + |FramesBytes(c, group[..k])|, |FrameOf(c, group[k])|, 0)]
    ensures FramesBytes(c, group[..k + 1]) == FramesBytes(c, group[..k]) + FrameOf(c, group[k])
    ensures GroupIds(group[..k + 1]) == GroupIds(group[..k]) + [group[k].id]
  {
    PlaceSteps(c, group, base, k);
    var frames := Place(c, group[..k + 1], base);
    assert frames[..|frames| - 1] == Place(c, group[..k], base);
    ActiveInStep(segmentID, frames, map[]);
  }

  // ---- opening -----------------------------------------------------------------------------------------------

  lemma HeldIs(c: Codec, cfg: Config, image: Disk, log: Log, q: Queue)
    requires Recoverable(c, cfg, image, log, q)
    ensures LogEncodes(c, log) && log != [] && image.data.Keys != {}
  {
    var m, disk, torn :| Safe(c, cfg, Live(m, disk, log, q)) && Crashed(c, cfg.segmentBytes, image, log, torn) && Low(image, log);
    hide Safe, LogEncodes, TornState, TornData, GoodLog;
    assert log[0].id in image.data;
  }

  lemma ReopensIs(c: Codec, cfg: Config, image: Disk, m: Memory, disk: Disk)
    requires Reopens(c, cfg, image, m, disk)
    ensures var ids := Sorting.Sort(image.data.Keys);
            var r := Recover(c, cfg.segmentBytes, image, ids);
            ids != [] && r.Some? && m == Reopened(r.value, ids) && disk == r.value.disk
  {
    hide Recover, Reopened;
  }

  lemma SameActive(c: Codec, cfg: Config, x: Live)
    requires Safe(c, cfg, x)
    ensures LogEncodes(c, x.log) && ActiveOf(c, x.log) == x.m.active
  {
    hide Counters, Exact, Carries, Settled, GoodLog, Infos, ActiveOf, QuarantinedOf, UsedBy;
  }
}
