/**
 * What a write-ahead log directory means: the segments a writer has printed, the files that hold them,
 * and the in-memory index that follows from them. Nothing here parses; this is the reference for recovery.
 */
module WalLog {
  import opened Bytes
  import opened Telemetry
  import opened WalFormat
  import opened WalScan

  type Group = seq<DiskRecord>

  /** One segment: the groups committed to its data file and the entries appended to its checkpoint file. */
  datatype SegmentLog = SegmentLog(id: nat, createdAt: nat, groups: seq<Group>, entries: seq<StateEntry>)

  type Log = seq<SegmentLog>

  /** The directory: data and checkpoint files by segment ID. */
  datatype Disk = Disk(data: map<nat, seq<byte>>, states: map<nat, seq<byte>>)

  /** `walRecordMetadata`. */
  datatype Metadata = Metadata(segmentID: nat, offset: nat, size: nat, attempts: nat)

  /** The bookkeeping fields of `walSegment`. */
  datatype SegmentInfo = SegmentInfo(
    size: nat, stateSize: nat, recordIDs: seq<nat>, activeRecords: nat, quarantinedRecords: nat, closed: bool)

  // ---- bytes -----------------------------------------------------------------------------------

  ghost predicate Encodes(c: Codec, groups: seq<Group>) {
    forall k :: 0 <= k < |groups| ==> AllEncode(c, groups[k]) && groups[k] != []
  }

  function GroupsBytes(c: Codec, groups: seq<Group>): seq<byte>
    requires Encodes(c, groups)
  {
    if groups == [] then [] else GroupsBytes(c, groups[..|groups| - 1]) + GroupBytes(c, groups[|groups| - 1])
  }

  function DataBytes(c: Codec, s: SegmentLog): (bytes: seq<byte>)
    requires Encodes(c, s.groups)
    ensures |bytes| == SEGMENT_HEADER + |GroupsBytes(c, s.groups)|
  {
    SegmentHeader(c, s.id, s.createdAt) + GroupsBytes(c, s.groups)
  }

  function EntriesBytes(c: Codec, entries: seq<StateEntry>): (bytes: seq<byte>)
    ensures |bytes| == STATE_ENTRY * |entries|
  {
    if entries == [] then [] else EntriesBytes(c, entries[..|entries| - 1]) + Entry(c, entries[|entries| - 1])
  }

  function CheckpointBytes(c: Codec, s: SegmentLog): (bytes: seq<byte>)
    ensures |bytes| == STATE_HEADER + STATE_ENTRY * |s.entries|
  {
    StateHeader(c, s.id) + EntriesBytes(c, s.entries)
  }

  // ---- identifiers -----------------------------------------------------------------------------

  ghost predicate Sorted(s: seq<nat>) {
    forall i, j :: 0 <= i < j < |s| ==> s[i] < s[j]
  }

  lemma ElementsAppend(a: seq<nat>, b: seq<nat>)
    ensures Elements(a + b) == Elements(a) + Elements(b)
  {}

  function GroupIds(group: Group): seq<nat> {
    seq(|group|, i requires 0 <= i < |group| => group[i].id)
  }

  /** `segment.recordIDs`: the committed record IDs in file order. */
  function SegmentIds(groups: seq<Group>): seq<nat> {
    if groups == [] then [] else SegmentIds(groups[..|groups| - 1]) + GroupIds(groups[|groups| - 1])
  }

  function LogIds(log: Log): seq<nat> {
    if log == [] then [] else LogIds(log[..|log| - 1]) + SegmentIds(log[|log| - 1].groups)
  }

  // ---- the index -------------------------------------------------------------------------------

  function PlaceGroups(c: Codec, groups: seq<Group>, base: nat): seq<seq<Located>>
    requires Encodes(c, groups)
  {
    if groups == [] then []
    else
      var init := groups[..|groups| - 1];
      PlaceGroups(c, init, base) + [Place(c, groups[|groups| - 1], base + |GroupsBytes(c, init)|)]
  }

  function Flat(groups: seq<seq<Located>>): seq<Located> {
    if groups == [] then [] else Flat(groups[..|groups| - 1]) + groups[|groups| - 1]
  }

  /** The frames of a segment, in file order, where the writer put them. */
  function SegmentFrames(c: Codec, s: SegmentLog): seq<Located>
    requires Encodes(c, s.groups)
  {
    Flat(PlaceGroups(c, s.groups, SEGMENT_HEADER))
  }

  /** The latest entry of each record: later entries win. */
  function StatesOf(entries: seq<StateEntry>): map<nat, StateEntry> {
    if entries == [] then map[] else StatesOf(entries[..|entries| - 1])[entries[|entries| - 1].id := entries[|entries| - 1]]
  }

  predicate Finished(states: map<nat, StateEntry>, id: nat) {
    id in states && (states[id].kind == Ack || states[id].kind == Quarantine)
  }

  function AttemptsIn(states: map<nat, StateEntry>, id: nat): nat {
    if id in states then states[id].attempts else 0
  }

  /** The records of a frame list that are still to be delivered. */
  function ActiveIn(segmentID: nat, frames: seq<Located>, states: map<nat, StateEntry>): map<nat, Metadata> {
    if frames == [] then map[]
    else
      var rest, f := ActiveIn(segmentID, frames[..|frames| - 1], states), frames[|frames| - 1];
      if Finished(states, f.record.id) then rest
      else rest[f.record.id := Metadata(segmentID, f.offset, f.size, AttemptsIn(states, f.record.id))]
  }

  function QuarantinedIn(frames: seq<Located>, states: map<nat, StateEntry>): nat {
    if frames == [] then 0
    else
      var id := frames[|frames| - 1].record.id;
      QuarantinedIn(frames[..|frames| - 1], states)
        + if id in states && states[id].kind == Quarantine then 1 else 0
  }

  function SegmentActive(c: Codec, s: SegmentLog): map<nat, Metadata>
    requires Encodes(c, s.groups)
  {
    ActiveIn(s.id, SegmentFrames(c, s), StatesOf(s.entries))
  }

  function SegmentQuarantined(c: Codec, s: SegmentLog): nat
    requires Encodes(c, s.groups)
  {
    QuarantinedIn(SegmentFrames(c, s), StatesOf(s.entries))
  }

  function InfoOf(c: Codec, s: SegmentLog, closed: bool): SegmentInfo
    requires Encodes(c, s.groups)
  {
    SegmentInfo(|DataBytes(c, s)|, |CheckpointBytes(c, s)|, SegmentIds(s.groups),
                |SegmentActive(c, s)|, SegmentQuarantined(c, s), closed)
  }

  ghost predicate LogEncodes(c: Codec, log: Log) {
    forall k :: 0 <= k < |log| ==> Encodes(c, log[k].groups)
  }

  /** Every record to be delivered, and where it is: committed and neither acknowledged nor quarantined. */
  function ActiveOf(c: Codec, log: Log): map<nat, Metadata>
    requires LogEncodes(c, log)
  {
    if log == [] then map[] else ActiveOf(c, log[..|log| - 1]) + SegmentActive(c, log[|log| - 1])
  }

  function QuarantinedOf(c: Codec, log: Log): nat
    requires LogEncodes(c, log)
  {
    if log == [] then 0 else QuarantinedOf(c, log[..|log| - 1]) + SegmentQuarantined(c, log[|log| - 1])
  }

  /** `usedBytes`: what the files of the log take. */
  function UsedBy(c: Codec, log: Log): nat
    requires LogEncodes(c, log)
  {
    if log == [] then 0
    else
      var last := log[|log| - 1];
      UsedBy(c, log[..|log| - 1]) + |DataBytes(c, last)| + |CheckpointBytes(c, last)|
  }

  function Infos(c: Codec, log: Log, current: nat): map<nat, SegmentInfo>
    requires LogEncodes(c, log)
  {
    if log == [] then map[]
    else
      var last := log[|log| - 1];
      Infos(c, log[..|log| - 1], current)[last.id := InfoOf(c, last, last.id != current)]
  }

  /** One more than the largest ID committed, as the recovery loop computes it. */
  function NextAfterIds(next: nat, ids: seq<nat>): nat {
    if ids == [] then next
    else
      var n := NextAfterIds(next, ids[..|ids| - 1]);
      if ids[|ids| - 1] >= n then ids[|ids| - 1] + 1 else n
  }

  // ---- well-formed logs and their disks ----------------------------------------------------------

  ghost predicate GoodSegment(c: Codec, limit: nat, s: SegmentLog) {
    && 0 < s.id && FitsU64(s.id)
    && (forall k :: 0 <= k < |s.groups| ==> GoodGroup(c, limit, s.groups[k]))
    && (forall k :: 0 <= k < |s.entries| ==> FitsU64(s.entries[k].id) && FitsU32(s.entries[k].attempts))
  }

  /** Segment IDs increase, record IDs increase in file order across the whole directory. */
  ghost predicate GoodLog(c: Codec, limit: nat, log: Log) {
    && log != []
    && (forall k :: 0 <= k < |log| ==> GoodSegment(c, limit, log[k]))
    && (forall i, j :: 0 <= i < j < |log| ==> log[i].id < log[j].id)
    && Sorted(LogIds(log))
  }

  function SegmentIdsOf(log: Log): seq<nat> {
    seq(|log|, k requires 0 <= k < |log| => log[k].id)
  }

  /** The segment IDs of a log. */
  function SegmentKeys(log: Log): set<nat> {
    set s | s in log :: s.id
  }

  /** The files of a segment hold exactly what its log printed. */
  ghost predicate Holds(c: Codec, disk: Disk, s: SegmentLog)
    requires Encodes(c, s.groups)
  {
    && s.id in disk.data && disk.data[s.id] == DataBytes(c, s)
    && s.id in disk.states && disk.states[s.id] == CheckpointBytes(c, s)
  }

  /** The directory holds exactly what the log printed. */
  ghost predicate Exact(c: Codec, disk: Disk, log: Log)
    requires LogEncodes(c, log)
  {
    disk.data.Keys == SegmentKeys(log) && forall k :: 0 <= k < |log| ==> Holds(c, disk, log[k])
  }

  /** A checkpoint file as a crash may leave it: complete entries, then less than one entry; or not there yet. */
  ghost predicate TornState(c: Codec, disk: Disk, s: SegmentLog) {
    if s.id in disk.states then
      CheckpointBytes(c, s) <= disk.states[s.id] && |disk.states[s.id]| < |CheckpointBytes(c, s)| + STATE_ENTRY
    else s.entries == []
  }

  /** A data file as a crash may leave it: the committed groups, then part of the group `torn` being written, if any. */
  ghost predicate TornData(c: Codec, data: seq<byte>, s: SegmentLog, torn: Group)
    requires Encodes(c, s.groups) && AllEncode(c, torn)
  {
    if torn == [] then data == DataBytes(c, s)
    else
      var whole := DataBytes(c, s) + GroupBytes(c, torn);
      DataBytes(c, s) <= data && data <= whole && data != whole
  }

  /** A group that could follow the log. */
  ghost predicate Follows(c: Codec, limit: nat, log: Log, group: Group) {
    GoodGroup(c, limit, group) && Sorted(LogIds(log) + GroupIds(group))
  }

  /** A directory after a crash: everything committed is there, with a torn tail in the last data file and in any checkpoint. */
  ghost predicate Torn(c: Codec, disk: Disk, log: Log, torn: Group)
    requires log != [] && LogEncodes(c, log) && AllEncode(c, torn)
  {
    && disk.data.Keys == SegmentKeys(log)
    && (forall k :: 0 <= k < |log| ==> log[k].id in disk.data && TornState(c, disk, log[k]))
    && (forall k :: 0 <= k < |log| - 1 ==> disk.data[log[k].id] == DataBytes(c, log[k]))
    && TornData(c, disk.data[log[|log| - 1].id], log[|log| - 1], torn)
  }

  /** A directory that a crash left behind: some log, torn in the group (if `torn` is one) or checkpoint entry being written. */
  ghost predicate Crashed(c: Codec, limit: nat, disk: Disk, log: Log, torn: Group) {
    && c.Lawful() && limit >= COMMIT_PAYLOAD
    && GoodLog(c, limit, log) && LogEncodes(c, log) && (torn == [] || Follows(c, limit, log, torn))
    && AllEncode(c, torn) && Torn(c, disk, log, torn)
  }

  // ---- sorted lists --------------------------------------------------------------------------------

  lemma SortedParts(a: seq<nat>, b: seq<nat>)
    requires Sorted(a + b)
    ensures Sorted(a) && Sorted(b)
    ensures forall x, y :: x in a && y in b ==> x < y
  {
    var s := a + b;
    assert forall i :: 0 <= i < |a| ==> s[i] == a[i];
    assert forall j :: 0 <= j < |b| ==> s[|a| + j] == b[j];
    forall x, y | x in a && y in b ensures x < y {
      var i :| 0 <= i < |a| && a[i] == x;
      var j :| 0 <= j < |b| && b[j] == y;
      assert s[i] < s[|a| + j];
    }
  }

  /** The three parts of a sorted list have nothing in common with the middle one. */
  lemma SortedApart(x: seq<nat>, s: seq<nat>, y: seq<nat>)
    requires Sorted(x + s + y)
    ensures Sorted(s) && Elements(x) !! Elements(s) && Elements(s) !! Elements(y)
  {
    SortedParts(x + s, y);
    SortedParts(x, s);
    ElementsAppend(x, s);
    assert forall id :: id in s ==> id in x + s;
  }

  lemma SortedPrefix(a: seq<nat>, b: seq<nat>)
    requires a <= b && Sorted(b)
    ensures Sorted(a)
  {}

  lemma PrefixAppend(front: seq<nat>, a: seq<nat>, b: seq<nat>)
    requires a <= b
    ensures front + a <= front + b
  {}

  lemma AppendAssociates(a: seq<nat>, b: seq<nat>, d: seq<nat>)
    ensures a + (b + d) == (a + b) + d
  {}

  lemma GroupIdsSet(group: Group)
    ensures Elements(GroupIds(group)) == RecordIds(group)
  {
    var ids := GroupIds(group);
    forall id | id in RecordIds(group) ensures id in ids {
      var k :| 0 <= k < |group| && group[k].id == id;
      assert ids[k] == id;
    }
  }

  // ---- the IDs of a frame list ---------------------------------------------------------------------

  function FrameIds(frames: seq<Located>): seq<nat> {
    seq(|frames|, k requires 0 <= k < |frames| => frames[k].record.id)
  }

  lemma FrameIdsOfGroup(c: Codec, group: Group, base: nat)
    requires AllEncode(c, group)
    ensures FrameIds(Place(c, group, base)) == GroupIds(group)
  {}

  lemma {:induction false} FrameIdsOfGroups(c: Codec, groups: seq<Group>, base: nat)
    requires Encodes(c, groups)
    ensures FrameIds(Flat(PlaceGroups(c, groups, base))) == SegmentIds(groups)
  {
    hide GroupsBytes, Place, AllEncode, FrameOf, CommitFrame;
    if groups != [] {
      var init, last := groups[..|groups| - 1], groups[|groups| - 1];
      FrameIdsOfGroups(c, init, base);
      FrameIdsOfGroup(c, last, base + |GroupsBytes(c, init)|);
      FlatStep(PlaceGroups(c, init, base), Place(c, last, base + |GroupsBytes(c, init)|));
    }
  }

  lemma FlatStep(front: seq<seq<Located>>, last: seq<Located>)
    ensures Flat(front + [last]) == Flat(front) + last
    ensures FrameIds(Flat(front + [last])) == FrameIds(Flat(front)) + FrameIds(last)
  {
    assert (front + [last])[..|front|] == front;
  }

  lemma IdsOfFrames(frames: seq<Located>)
    ensures Ids(frames) == Elements(FrameIds(frames))
  {
    var ids := FrameIds(frames);
    forall f | f in frames ensures f.record.id in ids {
      var k :| 0 <= k < |frames| && frames[k] == f;
      assert ids[k] == f.record.id;
    }
    forall id | id in ids ensures id in Ids(frames) {
      var k :| 0 <= k < |ids| && ids[k] == id;
      assert frames[k] in frames;
    }
  }
}
