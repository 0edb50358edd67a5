/** The write-ahead log object: its fields as the runtime keeps them, its methods as the runtime runs them. */
module Wal {
  import opened Bytes
  import opened Telemetry
  import opened WalFormat
  import opened WalScan
  import opened WalLog
  import opened WalOps
  import opened WalMemory
  import opened WalSteps
  import opened WalSegments
  import opened WalQueue
  import opened WalBudget
  import opened WalCrash
  import opened WalRuns
  import opened WalMarks
  import opened WalOpen
  import opened WalRecovery
  import opened WalTurns
  import opened WalCalls
  import opened WalRequests
  import opened WalReplies
  import Maps
  import Sorting

  class WAL {
    const codec: Codec
    const config: Config
    var faulted: bool
    var nextID: nat
    var nextSegmentID: nat
    var current: nat
    var segments: map<nat, SegmentInfo>
    var segmentIDs: seq<nat>
    var active: map<nat, Metadata>
    var ids: seq<nat>
    var usedBytes: nat
    var reservedBytes: nat
    var quarantined: nat
    var disk: Disk
    /** What the directory means, and the queue it stands for. */
    ghost var log: Log
    ghost var queue: Queue

    /** The object before recovery: `OpenWAL` has checked the limits and knows the directory. */
    constructor (codec: Codec, config: Config, directory: Disk)
      ensures this.codec == codec && this.config == config && disk == directory && Blank()
    {
      this.codec, this.config, disk := codec, config, directory;
      faulted, nextID, nextSegmentID, current := false, 1, 1, 0;
      segments, segmentIDs, active, ids := map[], [], map[], [];
      usedBytes, reservedBytes, quarantined := 0, 0, 0;
      log, queue := [], map[];
    }

    predicate Blank()
      reads this
    {
      && !faulted && nextID == 1 && nextSegmentID == 1 && segments == map[] && segmentIDs == [] && active == map[]
      && ids == [] && usedBytes == 0 && reservedBytes == 0 && quarantined == 0
    }

    function Mem(): Memory
      reads this
    {
      Memory(nextID, nextSegmentID, current, segments, segmentIDs, active, ids, usedBytes, quarantined)
    }

    ghost function Now(): Live
      reads this
    {
      Live(Mem(), disk, log, queue)
    }

    /** A working log agrees with its directory; one that has given up has left a directory that reopens. */
    ghost predicate Valid()
      reads this
    {
      if faulted then Recoverable(codec, config, disk, log, queue) else Safe(codec, config, Now())
    }

    /** What is reserved is what the active records may still write. */
    ghost predicate Funded()
      reads `reservedBytes, `active
    {
      reservedBytes == Reserve(config.maxRecordAttempts, active)
    }

    ghost predicate WithinBudget()
      reads this
    {
      usedBytes + reservedBytes <= config.maxBytes
    }

    /** Every data file is within the configured segment size and one header. */
    ghost predicate Bounded()
      reads `segments
    {
      SizesWithin(segments, config.segmentBytes + SEGMENT_HEADER)
    }

    // ---- opening ---------------------------------------------------------------------------------------

    /** The loop variables of recovery, as an index. */
    function Recovered(seen: set<nat>): Index
      reads this
    {
      Index(nextID, segments, active, quarantined, usedBytes, seen, disk)
    }

    /** One turn of the recovery loop: `recoverState`, then `recoverSegment`. */
    method RecoverSegment(id: nat, seen: set<nat>, isLast: bool) returns (ok: bool, seen': set<nat>)
      requires id in disk.data
      modifies `nextID, `segments, `active, `quarantined, `usedBytes, `disk
      ensures ok <==> RecoverTurn(codec, config.segmentBytes)(old(Recovered(seen)), id, isLast).Some?
      ensures ok ==> RecoverTurn(codec, config.segmentBytes)(old(Recovered(seen)), id, isLast) == Some(Recovered(seen'))
    {
      hide ScanCheckpoint, ScanSegment, Reaped, RecoverTurn;
      ok, seen' := false, seen;
      ghost var index := Recovered(seen);
      TurnAccepts(codec, config.segmentBytes, index, id, isLast);
      var data := disk.data[id];
      var checkpoint := ReadCheckpoint(codec, Lookup(disk.states, id), id);
      if checkpoint.BadCheckpoint? { return; }
      var start := Harvest([], 0, 0, nextID, active, quarantined);
      var damaged, h, committed, taken := ParseSegment(codec, config.segmentBytes, data, id, checkpoint.states, seen, start);
      if damaged { return; }
      if committed < |data| && !isLast { return; }
      TurnTaken(codec, config.segmentBytes, index, id, isLast, checkpoint.states, checkpoint.bytes, h, committed, taken);
      disk := Disk(disk.data[id := data[..committed]], disk.states[id := checkpoint.bytes]);
      segments := segments[id := SegmentInfo(committed, |checkpoint.bytes|, h.recordIDs, h.activeRecords, h.quarantinedRecords, true)];
      nextID, active, quarantined := h.nextID, h.active, h.quarantined;
      usedBytes := usedBytes + committed + |checkpoint.bytes|;
      ok, seen' := true, taken;
    }

    /** The sum over the active records at the end of recovery. */
    method SumReserve() returns (sum: nat)
      ensures sum == Reserve(config.maxRecordAttempts, active)
    {
      sum := 0;
      var rest := active;
      while rest != map[]
        invariant sum + Reserve(config.maxRecordAttempts, rest) == Reserve(config.maxRecordAttempts, active)
        decreases |rest|
      {
        var id :| id in rest;
        var remaining := config.maxRecordAttempts - rest[id].attempts;
        if remaining < 1 { remaining := 1; }
        ReserveWithout(config.maxRecordAttempts, rest, id);
        Maps.RemoveSize(rest, id);
        sum := sum + remaining * STATE_ENTRY;
        rest := rest - {id};
      }
    }

    /** The first segment of an empty directory. */
    method CreateFirst(now: nat)
      requires Blank() && disk.data == map[]
      modifies `disk, `segments, `segmentIDs, `usedBytes, `current, `nextSegmentID
      ensures Mem() == Fresh(codec, now).m
      ensures disk == Disk(Fresh(codec, now).disk.data, old(disk).states[1 := StateHeader(codec, 1)])
    {
      hide SegmentHeader, StateHeader;
      var header := EncodeSegmentHeader(codec, nextSegmentID, now);
      var state := EncodeStateHeader(codec, nextSegmentID);
      disk := Disk(disk.data[nextSegmentID := header[..]], disk.states[nextSegmentID := state[..]]);
      segments := segments[nextSegmentID := SegmentInfo(SEGMENT_HEADER, STATE_HEADER, [], 0, 0, false)];
      segmentIDs := segmentIDs + [nextSegmentID];
      usedBytes := usedBytes + SEGMENT_HEADER + STATE_HEADER;
      current := nextSegmentID;
      nextSegmentID := nextSegmentID + 1;
    }

    /** The loop of `recover`: segment after segment, in the order of their IDs. */
    method RecoverAll(list: seq<nat>) returns (ok: bool, seen: set<nat>)
      requires Blank() && forall id :: id in list ==> id in disk.data
      modifies `nextID, `segments, `active, `quarantined, `usedBytes, `disk
      ensures ok <==> WalRecovery.Recover(codec, config.segmentBytes, old(disk), list).Some?
      ensures ok ==> WalRecovery.Recover(codec, config.segmentBytes, old(disk), list) == Some(Recovered(seen))
    {
      hide RecoverTurn;
      seen := {};
      ghost var turn, start := RecoverTurn(codec, config.segmentBytes), Empty(disk);
      for k := 0 to |list|
        invariant disk.data.Keys == old(disk).data.Keys && Loop(turn, start, list, k) == Some(Recovered(seen))
      {
        assert list[k] in list;
        TurnKeeps(codec, config.segmentBytes, Recovered(seen), list[k], k + 1 == |list|);
        ok, seen := RecoverSegment(list[k], seen, k + 1 == |list|);
        if !ok {
          LoopRefused(turn, start, list, k + 1, |list|);
          return;
        }
      }
      ok := true;
    }

    /** `recover`: rebuilds the index from the files, or refuses damaged ones; an empty directory gets its first segment. */
    method Recover(now: nat) returns (ok: bool)
      requires Blank()
      modifies this
      ensures old(disk).data.Keys != {} ==>
        var ids := Sorting.Sort(old(disk).data.Keys);
        var r := WalRecovery.Recover(codec, config.segmentBytes, old(disk), ids);
        && (ok <==> r.Some?)
        && (ok ==> ids != [] && Mem() == Reopened(r.value, ids) && disk == r.value.disk && Funded())
      ensures old(disk).data == map[] ==>
        && ok && Mem() == Fresh(codec, now).m && Funded()
        && disk == Disk(Fresh(codec, now).disk.data, old(disk).states[1 := StateHeader(codec, 1)])
      ensures log == old(log) && queue == old(queue) && !faulted
    {
      hide Reopened, Mem, RecoverTurn, Loop, Fresh, StateHeader, SegmentHeader, Big, Sorting.Max, Sorting.Increasing;
      var list := Sorting.Sort(disk.data.Keys);
      if |list| == 0 {
        NoSegments(disk);
        CreateFirst(now);
        return true;
      }
      var seen;
      ok, seen := RecoverAll(list);
      if !ok { return; }
      LastRecovered(codec, config.segmentBytes, old(disk), list);
      Finish(list, seen);
    }

    /** The end of `recover`: the last segment is reopened, the reserve summed up, the search index sorted. */
    method Finish(list: seq<nat>, ghost seen: set<nat>)
      requires list != [] && list[|list| - 1] in segments
      modifies `segmentIDs, `current, `nextSegmentID, `segments, `reservedBytes, `ids
      ensures Mem() == Reopened(old(Recovered(seen)), list) && Funded()
    {
      hide Reserve;
      segmentIDs := list;
      current := segmentIDs[|segmentIDs| - 1];
      nextSegmentID := current + 1;
      segments := segments[current := segments[current].(closed := false)];
      reservedBytes := SumReserve();
      ids := Sorting.Sort(active.Keys);
    }

    // ---- segments ------------------------------------------------------------------------------------

    /** `installSegment`, and the rest of `rotateLocked` once the files are there. */
    method Install(id: nat)
      requires current in segments && id == nextSegmentID
      modifies `segments, `segmentIDs, `usedBytes, `nextSegmentID, `current
      ensures Mem() == AfterRotate(old(Mem())) && current in segments && segments[current].size == SEGMENT_HEADER
      ensures old(Bounded()) ==> Bounded()
      ensures nextSegmentID == old(nextSegmentID) + 1
    {
      segments := segments[current := segments[current].(closed := true)];
      segments := segments[id := SegmentInfo(SEGMENT_HEADER, STATE_HEADER, [], 0, 0, false)];
      segmentIDs := segmentIDs + [id];
      usedBytes := usedBytes + SEGMENT_HEADER + STATE_HEADER;
      if id >= nextSegmentID { nextSegmentID := id + 1; }
      current := id;
    }

    /** `rotateLocked`: opens a new current segment, or gives up after `renames` of its two files. */
    method Rotate(now: nat, renames: nat)
      requires !faulted && Safe(codec, config, Now()) && FitsU64(nextSegmentID)
      modifies this
      ensures Valid() && queue == old(queue) && reservedBytes == old(reservedBytes) && active == old(active)
      ensures faulted <==> renames < 2
      ensures nextID == old(nextID) && nextSegmentID <= old(nextSegmentID) + 1
      ensures !faulted ==> Mem() == AfterRotate(old(Mem())) && log == Rotated(old(log), old(nextSegmentID), now)
      ensures !faulted ==> current in segments && segments[current].size == SEGMENT_HEADER && (old(Bounded()) ==> Bounded())
    {
      hide Safe, Recoverable, SegmentHeader, StateHeader, Rotated, AfterRotate, Bounded;
      RotateOutcomes(codec, config, Now(), now);
      var id := nextSegmentID;
      var header := EncodeSegmentHeader(codec, id, now);
      var state := EncodeStateHeader(codec, id);
      if renames == 0 { faulted := true; return; }
      disk := disk.(data := disk.data[id := header[..]]);
      log := Rotated(log, id, now);
      if renames == 1 { faulted := true; return; }
      disk := disk.(states := disk.states[id := state[..]]);
      Install(id);
    }
  
    /** The fields of the log while the list of segment IDs is being rebuilt. */
    ghost function Rebuilding(list: seq<nat>): Live
      reads `nextID, `nextSegmentID, `current, `segments, `active, `ids, `usedBytes, `quarantined, `disk, `log, `queue
    {
      Live(Memory(nextID, nextSegmentID, current, segments, list, active, ids, usedBytes, quarantined), disk, log, queue)
    }

    lemma Rebuilt()
      ensures Rebuilding(segmentIDs) == Now()
    {}

    /** Removes the two files of a spent segment and forgets it. */
    method RemoveSegment(id: nat, ghost list: seq<nat>, ghost k: nat)
      requires !faulted && Safe(codec, config, Rebuilding(list)) && LogEncodes(codec, log)
      requires k < |list| && k < |log| - 1 && list[k] == id && Spent(codec, log[k])
      modifies `segments, `usedBytes, `disk, `log
      ensures Safe(codec, config, Rebuilding(list[..k] + list[k + 1..]))
      ensures LogEncodes(codec, log) && LogEncodes(codec, old(log)) && log == Without(old(log), k) && log != []
      ensures Last(log) == Last(old(log)) && LiveBytes(codec, log) == LiveBytes(codec, old(log))
      ensures forall id :: id in LogIds(log) ==> id in LogIds(old(log))
      ensures old(Bounded()) ==> Bounded()
      ensures segments == old(segments) - {id}
    {
      hide Safe, LiveBytes, Spent, LogIds, Encodes;
      DropTurn(codec, config, Rebuilding(list), k);
      usedBytes := usedBytes - (segments[id].size + segments[id].stateSize);
      disk := Disk(disk.data - {id}, disk.states - {id});
      segments := segments - {id};
      log := Without(log, k);
    }

    /** The segment that the compaction loop looks at, and what its test means. */
    method Segment(id: nat, ghost list: seq<nat>, ghost k: nat) returns (info: SegmentInfo)
      requires Safe(codec, config, Rebuilding(list)) && k < |list| && list[k] == id
      ensures LogEncodes(codec, log) && |log| == |list|
      ensures (id == current || !info.closed || info.activeRecords > 0 || info.quarantinedRecords > 0)
              <==> !(k < |log| - 1 && Spent(codec, log[k]))
    {
      hide Safe, Spent, Encodes;
      SpentTest(codec, config, Rebuilding(list), k);
      info := segments[id];
    }

    /** The body of the compaction loop: the segment stays, or its files go. */
    method Visit(id: nat, ghost list: seq<nat>, ghost k: nat) returns (kept: bool)
      requires !faulted && Safe(codec, config, Rebuilding(list)) && LogEncodes(codec, log) && log != []
      requires k < |list| == |log| && list[k] == id && current in segments && NoneSpent(codec, log, k)
      modifies `segments, `usedBytes, `disk, `log
      ensures Safe(codec, config, Rebuilding(if kept then list else list[..k] + list[k + 1..]))
      ensures LogEncodes(codec, log) && LogEncodes(codec, old(log)) && log != []
      ensures |log| == if kept then |list| else |list| - 1
      ensures Last(log) == Last(old(log)) && LiveBytes(codec, log) == LiveBytes(codec, old(log))
      ensures forall id :: id in LogIds(log) ==> id in LogIds(old(log))
      ensures NoneSpent(codec, log, if kept then k + 1 else k)
      ensures old(Bounded()) ==> Bounded()
      ensures current in segments && segments[current] == old(segments[current])
    {
      hide Last, SegmentIds, SegmentBytesUsed, DataBytes, CheckpointBytes;
      hide Safe, LiveBytes, Spent, LogIds, Encodes, Bounded;
      var segment := Segment(id, list, k);
      kept := id == current || !segment.closed || segment.activeRecords > 0 || segment.quarantinedRecords > 0;
      if !kept {
        ghost var before := log;
        RemoveSegment(id, list, k);
        NoneSpentWithout(codec, before, k);
      }
    }

    /** `compactSegmentsLocked`: removes the files of every segment that holds nothing to deliver and no evidence. */
    method CompactSegments()
      requires !faulted && Safe(codec, config, Now())
      modifies `segments, `segmentIDs, `usedBytes, `disk, `log
      ensures Safe(codec, config, Now())
      ensures LogEncodes(codec, log) && log != [] && LogEncodes(codec, old(log)) && old(log) != []
      ensures Last(log) == Last(old(log)) && LiveBytes(codec, log) == LiveBytes(codec, old(log))
      ensures forall id :: id in LogIds(log) ==> id in LogIds(old(log))
      ensures forall k :: 0 <= k < |log| - 1 ==> !Spent(codec, log[k])
      ensures old(Bounded()) ==> Bounded()
      ensures old(current in segments) && current in segments && segments[current] == old(segments[current])
    {
      hide Last, SegmentIds, SegmentBytesUsed, DataBytes, CheckpointBytes;
      hide Safe, LiveBytes, Spent, LogIds, Encodes, Without, Bounded;
      CurrentSegment(codec, config, Now());
      SafeLog(codec, config, Now());
      Rebuilt();
      assert NoneSpent(codec, log, 0);
      hide Rebuilding, Now, Mem, NoneSpent;
      var all, remaining := segmentIDs, [];
      assert [] + all[0..] == all;
      for i := 0 to |all|
        invariant Safe(codec, config, Rebuilding(remaining + all[i..]))
        invariant LogEncodes(codec, log) && log != [] && |remaining| + |all| - i == |log|
        invariant Last(log) == Last(old(log)) && LiveBytes(codec, log) == LiveBytes(codec, old(log))
        invariant forall id :: id in LogIds(log) ==> id in LogIds(old(log))
        invariant NoneSpent(codec, log, |remaining|)
        invariant old(Bounded()) ==> Bounded()
        invariant current in segments && segments[current] == old(segments[current])
      {
        var id := all[i];
        ghost var list, k := remaining + all[i..], |remaining|;
        NextInList(remaining, all, i);
        var kept := Visit(id, list, k);
        if kept { remaining := remaining + [id]; }
      }
      assert remaining + all[|all|..] == remaining;
      segmentIDs := remaining;
      Rebuilt();
      NoneLeft(codec, log, |remaining|);
    }
  
    // ---- appending -----------------------------------------------------------------------------------

    /** The bytes of a group: its frames, then the commit marker over them. */
    method Encode(group: Group, frames: seq<seq<byte>>) returns (encoded: seq<byte>)
      requires AllEncode(codec, group) && group != [] && |frames| == |group|
      requires forall k :: 0 <= k < |group| ==> frames[k] == FrameOf(codec, group[k])
      ensures encoded == GroupBytes(codec, group)
    {
      var data: seq<byte> := [];
      for k := 0 to |frames|
        invariant AllEncode(codec, group[..k]) && data == FramesBytes(codec, group[..k])
      {
        PlaceSteps(codec, group, 0, k);
        data := data + frames[k];
      }
      assert group[..|group|] == group;
      var mark := CommitMark(group[0].id, group[|group| - 1].id, |group|, |data|, codec.crc(data));
      var commit := EncodeCommitFrame(codec, mark);
      encoded := data + commit[..];
    }

    /** Appends a group to the current data file and, once it is synced, takes its records into the index. */
    method Write(group: Group, frames: seq<seq<byte>>, encoded: seq<byte>, io: Io)
      requires !faulted && Safe(codec, config, Now()) && Ready(codec, config, Now(), group)
      requires AllEncode(codec, group) && group != [] && |frames| == |group| && encoded == GroupBytes(codec, group)
      requires forall k :: 0 <= k < |group| ==> frames[k] == FrameOf(codec, group[k])
      modifies this
      ensures Valid()
      ensures faulted <==> io.written < |encoded| || !io.synced
      ensures faulted ==> queue == if io.written < |encoded| then old(queue) else old(queue) + GroupQueue(group)
      ensures nextID == old(nextID) && nextSegmentID == old(nextSegmentID)
      ensures !faulted ==>
        && queue == old(queue) + GroupQueue(group) && old(log) != [] && log == Appended(old(log), group)
        && old(current in segments) && Mem() == AfterCommit(codec, old(Mem()), group, old(segments[current].size))
        && current == old(current) && disk == WithData(old(disk), current, encoded) && usedBytes == old(usedBytes) + |encoded|
        && (forall id :: id in LogIds(log) ==> id in LogIds(old(log)) || id in GroupIds(group)) && ids == old(ids) + GroupIds(group)
        && reservedBytes == old(reservedBytes) + |group| * (config.maxRecordAttempts * STATE_ENTRY)
        && (old(Funded()) ==> Funded())
        && (old(Bounded()) && old(segments[current].size) + |encoded| <= config.segmentBytes + SEGMENT_HEADER ==> Bounded())
    {
      hide Safe, Recoverable, GroupBytes, GoodGroup, LogIds, NewRecords, Appended, GroupQueue, Ready, Grown, SizesWithin, Reserve;
      hide FrameOf, AllEncode, AfterCommit, WithData;
      ghost var x := Now();
      StoreOutcomes(codec, config, x, group);
      var base := segments[current].size;
      Land(group, encoded, io);
      if faulted { return; }
      TakeIn(group, frames, base);
      TakenIn(codec, x.m, group, base, Mem());
      ReserveGrows(codec, config, x, group);
      GrownSize(x.m.segments, current, |encoded|, GroupIds(group), config.segmentBytes + SEGMENT_HEADER);
      StoredIds(codec, config, x, group);
    }

    /** The bytes of a group reach the current data file and are synced, or not. */
    method Land(group: Group, encoded: seq<byte>, io: Io)
      requires !faulted && Safe(codec, config, Now()) && Ready(codec, config, Now(), group)
      requires AllEncode(codec, group) && group != [] && encoded == GroupBytes(codec, group)
      modifies `disk, `segments, `usedBytes, `log, `queue, `faulted
      ensures faulted <==> io.written < |encoded| || !io.synced
      ensures faulted ==> Recoverable(codec, config, disk, log, queue)
      ensures faulted ==> queue == if io.written < |encoded| then old(queue) else old(queue) + GroupQueue(group)
      ensures !faulted ==>
        && old(log) != [] && log == Appended(old(log), group) && queue == old(queue) + GroupQueue(group)
        && old(current in segments) && disk == WithData(old(disk), current, encoded) && usedBytes == old(usedBytes) + |encoded|
        && segments == old(segments)[current := old(segments[current]).(size := old(segments[current]).size + |encoded|)]
    {
      hide Safe, Recoverable, GroupBytes, GoodGroup, Appended, GroupQueue, Ready, AllEncode, AfterCommit, WithData;
      ghost var x := Now();
      StoreOutcomes(codec, config, x, group);
      var written := if io.written < |encoded| then io.written else |encoded|;
      Append(encoded[..written]);
      if written < |encoded| { faulted := true; return; }
      assert encoded[..written] == encoded;
      log := Appended(log, group);
      queue := queue + GroupQueue(group);
      if !io.synced { faulted := true; }
    }

    /** The write to the current data file and its accounting. */
    method Append(bytes: seq<byte>)
      requires current in segments && current in disk.data
      modifies `disk, `segments, `usedBytes
      ensures disk == WithData(old(disk), current, bytes)
      ensures segments == old(segments)[current := old(segments[current]).(size := old(segments[current]).size + |bytes|)]
      ensures usedBytes == old(usedBytes) + |bytes|
    {
      disk := disk.(data := disk.data[current := disk.data[current] + bytes]);
      segments := segments[current := segments[current].(size := segments[current].size + |bytes|)];
      usedBytes := usedBytes + |bytes|;
    }

    /** The loop over the committed records at the end of `commitGroup`. */
    method TakeIn(group: Group, frames: seq<seq<byte>>, base: nat)
      requires current in segments && AllEncode(codec, group) && |frames| == |group|
      requires forall k :: 0 <= k < |group| ==> frames[k] == FrameOf(codec, group[k])
      modifies `active, `ids, `segments, `reservedBytes
      ensures active == old(active) + NewRecords(codec, current, group, base) && ids == old(ids) + GroupIds(group)
      ensures segments == old(segments)[current := Grown(old(segments[current]), 0, GroupIds(group))]
      ensures reservedBytes == old(reservedBytes) + |group| * (config.maxRecordAttempts * STATE_ENTRY)
    {
      hide NewRecords, FrameOf, AllEncode, Place, DataFrame, Frame;
      var offset := base;
      assert group[..0] == [];
      NoNewRecords(codec, current, base);
      for k := 0 to |group|
        invariant AllEncode(codec, group[..k]) && offset == base + |FramesBytes(codec, group[..k])|
        invariant current in segments && segments[current] == Grown(old(segments[current]), 0, GroupIds(group[..k]))
        invariant segments == old(segments)[current := segments[current]]
        invariant active == old(active) + NewRecords(codec, current, group[..k], base)
        invariant ids == old(ids) + GroupIds(group[..k])
        invariant reservedBytes == old(reservedBytes) + k * (config.maxRecordAttempts * STATE_ENTRY)
      {
        NewRecordsStep(codec, current, group, base, k);
        OneMoreTimes(k, config.maxRecordAttempts * STATE_ENTRY);
        var info := segments[current];
        Maps.UpdateRight(old(active), NewRecords(codec, current, group[..k], base), group[k].id, Metadata(current, offset, |frames[k]|, 0));
        active := active[group[k].id := Metadata(current, offset, |frames[k]|, 0)];
        ids := ids + [group[k].id];
        segments := segments[current := info.(recordIDs := info.recordIDs + [group[k].id], activeRecords := info.activeRecords + 1)];
        reservedBytes := reservedBytes + config.maxRecordAttempts * STATE_ENTRY;
        offset := offset + |frames[k]|;
      }
      assert group[..|group|] == group;
    }
  
    /** `needsRotation` in `commitGroup`. */
    predicate NeedsRotation(size: nat)
      reads this
      requires current in segments
    {
      segments[current].size > SEGMENT_HEADER && segments[current].size + size > config.segmentBytes
    }

    /** `projected` in `commitGroup`: bytes in use and reserved, were the group admitted. */
    function Projected(size: nat, records: nat): int
      reads this
      requires current in segments
    {
      var info := segments[current];
      usedBytes + reservedBytes + size + records * (config.maxRecordAttempts * STATE_ENTRY)
        + (if !NeedsRotation(size) then 0
           else if info.activeRecords == 0 && info.quarantinedRecords == 0
           then SEGMENT_HEADER + STATE_HEADER - (info.size + info.stateSize)
           else SEGMENT_HEADER + STATE_HEADER)
    }

    /** The rotation inside `commitGroup`, and the compaction that follows it. */
    method RotateAndCompact(now: nat, renames: nat, ghost group: Group, ghost floor: nat)
      requires !faulted && Safe(codec, config, Now()) && FitsU64(nextSegmentID) && Ready(codec, config, Now(), group)
      modifies this
      ensures Valid() && queue == old(queue) && reservedBytes == old(reservedBytes) && active == old(active)
      ensures faulted <==> renames < 2
      ensures !faulted ==> Ready(codec, config, Now(), group) && current in segments && old(current in segments)
      ensures !faulted ==> segments[current].size == SEGMENT_HEADER && (old(Bounded()) ==> Bounded())
      ensures !faulted && old(Below(Now(), floor)) ==> Below(Now(), floor)
      ensures nextID == old(nextID) && nextSegmentID <= old(nextSegmentID) + 1
      ensures !faulted ==>
        var info := old(segments[current]);
        usedBytes <= old(usedBytes) + SEGMENT_HEADER + STATE_HEADER
          - (if info.activeRecords == 0 && info.quarantinedRecords == 0 then info.size + info.stateSize else 0)
    {
      hide Safe, Recoverable, LiveBytes, Spent, GoodGroup, LogIds, LogEncodes;
      ghost var x := Now();
      CurrentSegment(codec, config, x);
      LiveAfterRotation(codec, config, x, now);
      Rotate(now, renames);
      if faulted { return; }
      CompactSegments();
      LiveIsUsed(codec, config, Now());
      CurrentSegment(codec, config, Now());
    }

    /** `commitGroup`. */
    method CommitGroup(group: Group, frames: seq<seq<byte>>, now: nat, io: Io, ghost floor: nat, ghost next: nat)
      returns (error: Option<AppendError>)
      requires Valid() && AllEncode(codec, group) && group != [] && |frames| == |group| && FitsU64(nextSegmentID)
      requires forall k :: 0 <= k < |group| ==> frames[k] == FrameOf(codec, group[k])
      requires !faulted ==> Ready(codec, config, Now(), group) && Below(Now(), floor)
      requires floor <= next <= nextID && forall r :: r in group ==> r.id < next
      modifies this
      ensures Valid() && (old(faulted) ==> faulted)
      ensures nextID == old(nextID) && nextSegmentID <= old(nextSegmentID) + 1 && (!faulted ==> Below(Now(), next))
      ensures error == None ==> !faulted && queue == old(queue) + GroupQueue(group)
      ensures error.Some? ==> error.value == if faulted then Failed else Full
      ensures error == Some(Full) ==> Now() == old(Now()) && reservedBytes == old(reservedBytes)
      ensures !old(faulted) ==>
        old(current in segments)
        && (error == Some(Full) <==> old(Projected(|GroupBytes(codec, group)|, |group|)) > config.maxBytes)
      ensures faulted ==> queue == old(queue) || queue == old(queue) + GroupQueue(group)
      ensures old(faulted) ==> queue == old(queue)
      ensures error == None ==> WithinBudget() && (old(Funded()) ==> Funded())
      ensures !faulted && old(Bounded()) && |GroupBytes(codec, group)| <= config.segmentBytes ==> Bounded()
      ensures var most := old(usedBytes + reservedBytes) + |GroupBytes(codec, group)| + |group| * (config.maxRecordAttempts * STATE_ENTRY)
                            + SEGMENT_HEADER + STATE_HEADER;
              (error == Some(Full) ==> most > config.maxBytes) && (error == None ==> usedBytes + reservedBytes <= most)
      ensures error == Some(Failed) && !old(faulted) ==> !Completes(io, |GroupBytes(codec, group)|)
      ensures error == None && old(current in segments) && old(segments[current].size) + |GroupBytes(codec, group)| <= config.segmentBytes ==>
        current == old(current) && disk == WithData(old(disk), current, GroupBytes(codec, group))
    {
      hide Safe, Recoverable, GroupBytes, GoodGroup, LogIds, Appended, AfterCommit, GroupQueue, Ready, Spent, LiveBytes, Reserve, Bounded, GroupIds, WithData;
      var encoded := Encode(group, frames);
      if faulted { return Some(Failed); }
      CurrentSegment(codec, config, Now());
      if Projected(|encoded|, |group|) > config.maxBytes { return Some(Full); }
      if NeedsRotation(|encoded|) {
        RotateAndCompact(now, io.renames, group, floor);
        if faulted { return Some(Failed); }
      }
      ghost var x := Now();
      Write(group, frames, encoded, io);
      if !faulted { StillBelow(x, Now(), group, floor, next); }
      error := if faulted then Some(Failed) else None;
    }
  
    // ---- checkpoints -----------------------------------------------------------------------------------

    /** `consumeReserveLocked`. */
    method ConsumeReserve(bytes: nat)
      modifies `reservedBytes
      ensures reservedBytes == if old(reservedBytes) >= bytes then old(reservedBytes) - bytes else 0
    {
      reservedBytes := if bytes <= reservedBytes then reservedBytes - bytes else 0;
    }

    /** `releaseRecordReserveLocked`. */
    method ReleaseRecordReserve(attempts: nat)
      modifies `reservedBytes
      ensures var cost := STATE_ENTRY * EntriesLeft(config.maxRecordAttempts, attempts);
              reservedBytes == if old(reservedBytes) >= cost then old(reservedBytes) - cost else 0
    {
      var remaining := config.maxRecordAttempts - attempts;
      if remaining < 1 { remaining := 1; }
      ConsumeReserve(remaining * STATE_ENTRY);
    }

    /** The effect of one written entry on the index. */
    method Settle(segmentID: nat, e: StateEntry)
      requires e.id in active && segmentID in segments && segments[segmentID].activeRecords > 0
      modifies `active, `segments, `quarantined, `reservedBytes
      ensures active == Marked(old(active), e)
      ensures segments == old(segments)[segmentID := Noted(old(segments[segmentID]), e).(stateSize := old(segments[segmentID]).stateSize)]
      ensures quarantined == old(quarantined) + (if e.kind == Quarantine then 1 else 0)
      ensures var cost := STATE_ENTRY * if e.kind == Retry then 1 else EntriesLeft(config.maxRecordAttempts, old(active[e.id].attempts));
              reservedBytes == if old(reservedBytes) >= cost then old(reservedBytes) - cost else 0
      ensures old(Funded()) && (e.kind == Retry ==> e.attempts == old(active[e.id]).attempts + 1 < config.maxRecordAttempts) ==> Funded()
      ensures old(Bounded()) ==> Bounded()
    {
      hide Reserve;
      var at, info := active[e.id], segments[segmentID];
      ReserveMarked(config.maxRecordAttempts, active, e);
      match e.kind
      case Retry =>
        ConsumeReserve(STATE_ENTRY);
        active := active[e.id := at.(attempts := e.attempts)];
        segments := segments[segmentID := info];
      case Ack =>
        ReleaseRecordReserve(at.attempts);
        active := active - {e.id};
        segments := segments[segmentID := info.(activeRecords := info.activeRecords - 1)];
      case Quarantine =>
        ReleaseRecordReserve(at.attempts);
        active := active - {e.id};
        segments := segments[segmentID := info.(activeRecords := info.activeRecords - 1, quarantinedRecords := info.quarantinedRecords + 1)];
        quarantined := quarantined + 1;
    }
  
    /** The loop body over one segment at the end of `writeRecordStates`. */
    method SettleBatch(segmentID: nat, batch: seq<StateEntry>, ghost x: Live)
      requires Safe(codec, config, x) && Mem() == x.m && Distinct(batch) && segmentID in segments
      requires forall e :: e in batch ==> Due(x, e) && x.m.active[e.id].segmentID == segmentID
      modifies `active, `segments, `quarantined, `reservedBytes, `usedBytes
      ensures Mem() == MarkAll(codec, x, batch).m
      ensures old(Funded()) && BelowLimit(config.maxRecordAttempts, x.m.active, batch) ==> Funded()
      ensures old(Bounded()) ==> Bounded()
    {
      hide Safe, Reserve, MarkAll, AfterEntry, Funded, Marked, Noted;
      assert batch[..0] == [];
      segments := segments[segmentID := segments[segmentID].(stateSize := segments[segmentID].stateSize + STATE_ENTRY * |batch|)];
      usedBytes := usedBytes + STATE_ENTRY * |batch|;
      NoneMarked(codec, x);
      assert old(Bounded()) ==> Bounded();
      hide Bounded;
      for j := 0 to |batch|
        invariant Settling(Mem(), MarkAll(codec, x, batch[..j]).m, segmentID, |batch| - j)
        invariant old(Funded()) && BelowLimit(config.maxRecordAttempts, x.m.active, batch) ==> Funded()
        invariant old(Bounded()) ==> Bounded()
      {
        SettleEntry(segmentID, batch, j, x);
      }
      assert batch[..|batch|] == batch;
      SettledAll(Mem(), MarkAll(codec, x, batch).m, segmentID);
    }

    /** Entry `j` of the batch, unless its record is no longer active. */
    method SettleEntry(segmentID: nat, batch: seq<StateEntry>, j: nat, ghost x: Live)
      requires Safe(codec, config, x) && Distinct(batch) && j < |batch|
      requires forall e :: e in batch ==> Due(x, e) && x.m.active[e.id].segmentID == segmentID
      requires Settling(Mem(), MarkAll(codec, x, batch[..j]).m, segmentID, |batch| - j)
      modifies `active, `segments, `quarantined, `reservedBytes
      ensures Settling(Mem(), MarkAll(codec, x, batch[..j + 1]).m, segmentID, |batch| - j - 1)
      ensures old(Funded()) && BelowLimit(config.maxRecordAttempts, x.m.active, batch) ==> Funded()
      ensures old(Bounded()) ==> Bounded()
    {
      hide Safe, Reserve, MarkAll, AfterEntry, Funded, Marked, Noted, Bounded;
      var e := batch[j];
      ghost var m := Mem();
      BatchStep(codec, config, x, batch, j);
      if e.id in active {
        Settle(segmentID, e);
        SettlingStep(m, MarkAll(codec, x, batch[..j]).m, Mem(), segmentID, |batch| - j, e);
      }
    }
  
    /** The first loop of `writeRecordStates`: entries by segment, or the record that was retried too often. */
    method GroupBySegment(records: seq<nat>, change: Change) returns (bySegment: map<nat, seq<StateEntry>>, exceeded: bool)
      ensures exceeded <==> Exceeds(active, change, records)
      ensures !exceeded ==> Grouped(active, change, records, bySegment)
    {
      hide Batch;
      bySegment, exceeded := map[], false;
      for i := 0 to |records|
        invariant Grouped(active, change, records[..i], bySegment) && !Exceeds(active, change, records[..i])
      {
        var id := records[i];
        assert records[..i + 1] == records[..i] + [id] && id in records;
        GroupedStep(active, change, records[..i], id, bySegment);
        if id in active {
          var at := active[id];
          if change.increment && at.attempts + 1 > MAX_ATTEMPTS { return bySegment, true; }
          var batch := if at.segmentID in bySegment then bySegment[at.segmentID] else [];
          bySegment := bySegment[at.segmentID := batch + [EntryFor(change, id, at)]];
        }
      }
      assert records[..|records|] == records;
    }

    method EncodeBatch(batch: seq<StateEntry>) returns (bytes: seq<byte>)
      ensures bytes == EntriesBytes(codec, batch)
    {
      bytes := [];
      for j := 0 to |batch|
        invariant bytes == EntriesBytes(codec, batch[..j])
      {
        var entry := EncodeEntry(codec, batch[j]);
        assert batch[..j + 1][..j] == batch[..j];
        bytes := bytes + entry[..];
      }
      assert batch[..|batch|] == batch;
    }

    /** The second loop: one append and sync per segment. */
    method AppendBatches(order: seq<nat>, bySegment: map<nat, seq<StateEntry>>, records: seq<nat>, change: Change, ghost x: Live)
      requires Safe(codec, config, x) && disk == x.disk && AllDifferent(records) && AllDifferent(order)
      requires !Exceeds(x.m.active, change, records) && Grouped(x.m.active, change, records, bySegment)
      requires forall segmentID :: segmentID in order ==> segmentID in bySegment
      modifies `disk
      ensures disk == MarkAll(codec, x, Plan(x.m.active, change, records, order)).disk
    {
      hide Safe, MarkAll, Batch, EntriesBytes, Exceeds, Pending;
      NoneMarked(codec, x);
      for k := 0 to |order|
        invariant disk == MarkAll(codec, x, Plan(x.m.active, change, records, order[..k])).disk
      {
        var segmentID := order[k];
        assert segmentID in order;
        BatchAppended(codec, config, x, change, records, order, k);
        var encoded := EncodeBatch(bySegment[segmentID]);
        disk := disk.(states := disk.states[segmentID := disk.states[segmentID] + encoded]);
      }
      assert order[..|order|] == order;
    }

    /** The third loop: the index follows. */
    method SettleBatches(order: seq<nat>, bySegment: map<nat, seq<StateEntry>>, records: seq<nat>, change: Change, ghost x: Live)
      requires Safe(codec, config, x) && Mem() == x.m && AllDifferent(records) && AllDifferent(order)
      requires !Exceeds(x.m.active, change, records) && Grouped(x.m.active, change, records, bySegment)
      requires forall segmentID :: segmentID in order ==> segmentID in bySegment
      modifies `active, `segments, `quarantined, `reservedBytes, `usedBytes
      ensures Mem() == MarkAll(codec, x, Plan(x.m.active, change, records, order)).m
      ensures old(Funded()) && RetriesLeft(config.maxRecordAttempts, x.m.active, change, records) ==> Funded()
      ensures old(Bounded()) ==> Bounded()
    {
      hide Safe, MarkAll, Batch, EntriesBytes, Funded, Exceeds, Due, Bounded;
      NoneMarked(codec, x);
      for k := 0 to |order|
        invariant Mem() == MarkAll(codec, x, Plan(x.m.active, change, records, order[..k])).m
        invariant old(Funded()) && RetriesLeft(config.maxRecordAttempts, x.m.active, change, records) ==> Funded()
        invariant old(Bounded()) ==> Bounded()
      {
        var segmentID := order[k];
        assert segmentID in order;
        ghost var y := MarkAll(codec, x, Plan(x.m.active, change, records, order[..k]));
        BatchAppended(codec, config, x, change, records, order, k);
        RetriesBelow(config.maxRecordAttempts, x, y, change, records, segmentID);
        SettleBatch(segmentID, bySegment[segmentID], y);
      }
      assert order[..|order|] == order;
    }
  
    /** `writeRecordStates`: what Ack, MarkRetry and Quarantine do to the records they name. */
    method WriteRecordStates(records: seq<nat>, change: Change) returns (error: Option<StateError>)
      requires Valid() && AllDifferent(records)
      modifies `disk, `active, `ids, `segments, `quarantined, `reservedBytes, `usedBytes, `log, `queue
      ensures Valid()
      ensures error == Some(Broken) <==> records != [] && faulted
      ensures error == Some(RetryCountExceeded) <==> !faulted && old(Exceeds(active, change, records))
      ensures error.Some? || faulted ==> Now() == old(Now()) && reservedBytes == old(reservedBytes)
      ensures error == None && !faulted ==> Changed(old(queue), change, records, queue)
      ensures error == None && old(Funded()) && old(RetriesLeft(config.maxRecordAttempts, active, change, records)) ==>
                Funded() && (old(WithinBudget()) ==> WithinBudget())
      ensures old(Bounded()) ==> Bounded()
    {
      hide Safe, Recoverable, Grouped, Bounded, RetriesLeft, Changed, Reserve;
      if |records| == 0 {
        if !faulted { NothingChanged(codec, config, Now(), change); }
        return None;
      }
      if faulted { return Some(Broken); }
      var bySegment, exceeded := GroupBySegment(records, change);
      if exceeded { return Some(RetryCountExceeded); }
      WriteBatches(records, change, bySegment);
      CompactRecordIndex();
      return None;
    }

    /** The loops of `writeRecordStates` over segments: the entries are written, then the index follows. */
    method WriteBatches(records: seq<nat>, change: Change, bySegment: map<nat, seq<StateEntry>>)
      requires !faulted && Safe(codec, config, Now()) && AllDifferent(records)
      requires !Exceeds(active, change, records) && Grouped(active, change, records, bySegment)
      modifies `disk, `active, `segments, `quarantined, `reservedBytes, `usedBytes, `log, `queue
      ensures Safe(codec, config, Now()) && Changed(old(queue), change, records, queue)
      ensures old(Funded()) && old(RetriesLeft(config.maxRecordAttempts, active, change, records)) ==>
                Funded() && (old(WithinBudget()) ==> WithinBudget())
      ensures old(Bounded()) ==> Bounded()
    {
      hide Safe, MarkAll, Batch, Plan, Reserve, Bounded, Grouped, Exceeds, RetriesLeft, Changed;
      ghost var x := Now();
      var order := Sorting.Sort(bySegment.Keys);
      IncreasingDiffer(order);
      AppendBatches(order, bySegment, records, change, x);
      SettleBatches(order, bySegment, records, change, x);
      CallDone(codec, config, x, change, records, order, bySegment);
      if RetriesLeft(config.maxRecordAttempts, x.m.active, change, records) { CallBudget(codec, config, x, change, records, order); }
      ghost var y := MarkAll(codec, x, Plan(x.m.active, change, records, order));
      log, queue := y.log, y.q;
      assert Now() == y;
    }

    /** `compactRecordIndexLocked`. */
    method CompactRecordIndex()
      requires !faulted && Safe(codec, config, Now())
      modifies `ids
      ensures Safe(codec, config, Now())
      ensures if old(|ids|) < 1024 || old(|ids|) <= |active| * 2 then ids == old(ids) else Elements(ids) == active.Keys
    {
      hide Safe;
      if |ids| < 1024 || |ids| <= |active| * 2 { return; }
      var kept: seq<nat> := [];
      for i := 0 to |ids|
        invariant kept == Filtered(active, ids[..i])
      {
        assert ids[..i + 1][..i] == ids[..i];
        if ids[i] in active { kept := kept + [ids[i]]; }
      }
      assert ids[..|ids|] == ids;
      IndexSorted(codec, config, Now());
      FilteredIs(active, ids);
      ShorterIndex(codec, config, Now(), kept);
      ids := kept;
    }

    /** `NextAfter`: the delivery of the queue with the least ID above the cursor. */
    method NextAfter(after: nat) returns (next: Next)
      requires Valid()
      ensures next == Unreadable <==> faulted
      ensures next == Nothing ==> forall id :: id in queue ==> id <= after
      ensures next.Found? ==>
        && next.record.id in queue && next.record.id > after && queue[next.record.id] == Delivery(next.record, next.attempts)
        && forall id :: id in queue && id > after ==> id >= next.record.id
    {
      hide Safe, Recoverable, ReadRecord;
      if faulted { return Unreadable; }
      IndexSorted(codec, config, Now());
      var start := Search(ids, after);
      var index := start;
      while index < |ids|
        invariant start <= index <= |ids|
        invariant forall k :: start <= k < index ==> ids[k] !in active
      {
        var id := ids[index];
        if id in active {
          ReadsQueue(codec, config, Now(), id);
          LeastAbove(codec, config, Now(), after, start, index);
          var at := active[id];
          var record := ReadRecord(codec, disk.data[at.segmentID], id, at);
          return Found(record.value, at.attempts);
        }
        index := index + 1;
      }
      LeastAbove(codec, config, Now(), after, start, index);
      return Nothing;
    }
  
    // ---- append requests -----------------------------------------------------------------------------

    /** Commits the group being filled, if it has any record. */
    method CommitFilled(group: Group, frames: seq<seq<byte>>, now: nat, io: Io, ghost bytes: nat, ghost floor: nat, ghost next: nat)
      returns (error: Option<AppendError>, ghost extra: Group)
      requires Valid() && config.Valid() && FitsU32(|group|) && FitsU64(nextSegmentID)
      requires !faulted ==> Below(Now(), floor)
      requires Filling(codec, config, group, bytes, floor, next) && floor <= next <= nextID
      requires |frames| == |group| && forall k :: 0 <= k < |group| ==> frames[k] == FrameOf(codec, group[k])
      modifies this
      ensures Valid() && (old(faulted) ==> faulted) && nextID == old(nextID) && nextSegmentID <= old(nextSegmentID) + 1
      ensures !faulted ==> Below(Now(), next)
      ensures queue == old(queue) + (if error == None then GroupQueue(group) else map[]) + GroupQueue(extra)
      ensures !faulted ==> extra == []
      ensures old(faulted) ==> extra == [] && (error == None <==> group == [])
      ensures error == None ==> faulted == old(faulted)
      ensures !faulted && old(Funded()) ==> Funded()
      ensures !faulted && old(WithinBudget()) ==> WithinBudget()
      ensures !faulted && old(Bounded()) && (group == [] || bytes + FRAME_HEADER + COMMIT_PAYLOAD <= config.segmentBytes) ==> Bounded()
      ensures Costs(config, DraftCost(config.maxRecordAttempts, Draft([], group, frames, bytes)), old(usedBytes + reservedBytes),
                    usedBytes + reservedBytes, old(faulted), faulted, io, error)
    {
      hide Safe, Recoverable, Below, Reserve, Bounded, FrameOf, Printable, GroupBytes;
      hide Costs, DraftCost, Completes, GroupQueue, FramesBytes;
      extra := [];
      NothingQueued(queue);
      NothingCosts(config, DraftCost(config.maxRecordAttempts, Draft([], group, frames, bytes)), usedBytes + reservedBytes, faulted, io);
      if |group| == 0 {
        if !faulted { BelowMore(Now(), floor, next); }
        return None, [];
      }
      if !faulted { FilledReady(codec, config, Now(), group, bytes, floor, next); }
      ghost var x := Now();
      GroupSize(codec, group);
      error := CommitGroup(group, frames, now, io, floor, next);
      CommitCosts(config, Draft([], group, frames, bytes), |GroupBytes(codec, group)|, x.m.used + old(reservedBytes), usedBytes + reservedBytes,
                  old(faulted), faulted, io, error);
      if faulted && queue != x.q { extra := group; }
    }
  
    /** Refuses every request from `i` on: the group before them could not be committed. */
    method RefuseRest(error: AppendError, replies: array<seq<Reply>>, i: nat, requests: seq<Request>, ghost lo: nat, ghost hi: nat,
                      ghost room: bool)
      requires Told(requests, replies[..], [], i, lo, hi) && i <= replies.Length
      requires Reasoned(codec, requests, replies[..], lo, room, faulted)
      requires (error == Full && !room) || (error == Failed && faulted)
      modifies replies
      ensures Told(requests, replies[..], [], replies.Length, lo, hi)
      ensures Reasoned(codec, requests, replies[..], lo, room, faulted)
      ensures Successes(replies[..]) == Successes(old(replies[..]))
    {
      hide Told, Successes, Reasoned;
      for q := i to replies.Length
        invariant Told(requests, replies[..], [], q, lo, hi) && Reasoned(codec, requests, replies[..], lo, room, faulted)
        invariant Successes(replies[..]) == Successes(old(replies[..]))
      {
        ghost var before := replies[..];
        ToldAtOnce(requests, before, [], q, lo, hi, error);
        ReasonedSize(codec, requests, before, lo, room, faulted);
        RefusedReasoned(codec, requests, before, lo, room, faulted, q, error);
        replies[q] := [Refused(error)];
        assert replies[..] == before[q := [Refused(error)]];
      }
    }

    /** The `flush` closure of `processAppendRequests`. */
    method Flush(requests: seq<Request>, d: Draft, replies: array<seq<Reply>>, i: nat, now: nat, io: Io,
                 ghost q0: Queue, ghost lo: nat, ghost floor: nat, ghost next: nat, ghost room: bool)
      returns (error: Option<AppendError>, ghost extra: Group)
      requires queue == q0 + GroupQueue(Successes(replies[..]))
      requires Reasoned(codec, requests, replies[..], lo, room, faulted) && Waits(requests, lo, d)
      requires room && !faulted ==> usedBytes + reservedBytes + DraftCost(config.maxRecordAttempts, d) <= config.maxBytes
      requires Valid() && config.Valid() && FitsU32(|requests|) && FitsU64(nextSegmentID)
      requires (!faulted ==> Below(Now(), floor)) && lo <= floor <= next <= nextID && Drafted(codec, config, requests, d, floor, next)
      requires Told(requests, replies[..], d.slots, i, lo, floor)
      modifies this, replies
      ensures Valid() && nextID == old(nextID) && nextSegmentID <= old(nextSegmentID) + 1
      ensures Told(requests, replies[..], [], i, lo, next)
      ensures queue == q0 + GroupQueue(Successes(replies[..])) + GroupQueue(extra)
      ensures !faulted ==> extra == [] && queue == q0 + GroupQueue(Successes(replies[..])) && Below(Now(), next)
      ensures error == None ==> faulted == old(faulted)
      ensures old(faulted) ==> faulted && extra == [] && Successes(replies[..]) == Successes(old(replies[..]))
      ensures !faulted && old(Funded()) ==> Funded()
      ensures !faulted && old(WithinBudget()) ==> WithinBudget()
      ensures !faulted && old(Bounded()) && (forall r :: r in requests ==> Small(codec, config, r)) ==> Bounded()
      ensures Reasoned(codec, requests, replies[..], lo, room, faulted)
      ensures error.Some? ==> (error.value == Full && !faulted && !room) || (error.value == Failed && faulted)
      ensures faulted && !old(faulted) ==> !Completes(io, DraftCost(config.maxRecordAttempts, d))
      ensures error == None && !faulted ==> usedBytes + reservedBytes <= old(usedBytes + reservedBytes) + DraftCost(config.maxRecordAttempts, d)
    {
      hide Reasoned, Waits, AnsweredBy;
      hide Safe, Recoverable, Below, Bounded, Answered, Faithful, Successes, Filling, Waiting, Numbered, Funded, Small;
      ghost var before := replies[..];
      if forall r :: r in requests ==> Small(codec, config, r) { SmallDraft(codec, config, requests, d, floor, next); }
      NumberedJoin(codec, config, Successes(before), lo, floor, d.group, d.bytes, next);
      if !faulted { BelowMore(Now(), floor, next); }
      error, extra := CommitFilled(d.group, d.frames, now, io, d.bytes, floor, next);
      assert Successes(before) + [] == Successes(before);
      QueueTold(q0, Successes(before), d.group, extra);
      ReasonedBroken(codec, requests, before, lo, room, old(faulted), faulted);
      Answer(d.slots, d.group, error, replies, i, requests);
      GroupReasoned(codec, requests, before, replies[..], lo, room, faulted, d, error);
    }

  
    /**
     * `processAppendRequests`: gives each request the next ID, packs consecutive records into groups that fit a
     * segment, commits each group and answers each request exactly once. A log that has faulted refuses them all.
     */
    method ProcessAppendRequests(requests: seq<Request>, now: nat, io: seq<Io>) returns (replies: array<seq<Reply>>, ghost extra: Group)
      requires Valid() && config.Valid() && nextID > 0
      requires |io| == |requests| + 1 && FitsU32(|requests|)
      requires FitsU64(nextID + |requests|) && FitsU64(nextSegmentID + |requests|)
      requires forall r :: r in requests ==> Acceptable(codec, config, r)
      modifies this
      ensures fresh(replies) && replies.Length == |requests| && Valid()
      ensures forall q :: 0 <= q < |requests| ==> |replies[q]| == 1
      ensures Faithful(requests, replies[..])
      ensures queue == old(queue) + GroupQueue(Successes(replies[..])) + GroupQueue(extra) && (!faulted ==> extra == [])
      ensures old(faulted) ==> faulted && extra == [] && Successes(replies[..]) == []
      ensures Sorted(GroupIds(Successes(replies[..]))) && forall r :: r in Successes(replies[..]) ==> old(nextID) <= r.id < nextID
      ensures !faulted && old(Funded()) ==> Funded()
      ensures !faulted && old(WithinBudget()) ==> WithinBudget()
      ensures !faulted && old(Bounded()) && (forall r :: r in requests ==> Small(codec, config, r)) ==> Bounded()
      ensures Explained(codec, config, old(usedBytes + reservedBytes), requests, replies[..], old(nextID), faulted)
      ensures !old(faulted) && AllComplete(io, old(NeedFrom(codec, config.maxRecordAttempts, requests, nextID, 0))) ==> !faulted
    {
      hide Serving, Reasoned, AllComplete, Completes, NeedFrom, Explained, Faithful, Packs, DataFrame;
      hide Safe, Recoverable, Below, Bounded, Successes, Drafted, Funded, Small, Told, Acceptable, GroupQueue;
      ghost var total := NeedFrom(codec, config.maxRecordAttempts, requests, nextID, 0);
      ghost var room := usedBytes + reservedBytes + total <= config.maxBytes;
      replies := new seq<Reply>[|requests|](_ => []);
      extra := [];
      var d := NO_DRAFT;
      ghost var lo: nat, floor: nat := nextID, nextID;
      if !faulted { SafeBelow(codec, config, Now()); }
      NothingDrafted(codec, config, requests, floor, nextID);
      NothingTold(requests, replies[..], lo);
      NothingQueued(queue);
      ServingStarts(codec, config, usedBytes + reservedBytes, faulted, requests, replies[..], lo);
      for i := 0 to |requests|
        invariant Valid() && faulted == old(faulted) && (!faulted ==> Below(Now(), floor))
        invariant faulted ==> Successes(replies[..]) == []
        invariant nextID == lo + i && lo <= floor <= nextID && nextSegmentID <= old(nextSegmentID) + i && |d.group| <= i
        invariant Drafted(codec, config, requests, d, floor, nextID) && Told(requests, replies[..], d.slots, i, lo, floor)
        invariant queue == old(queue) + GroupQueue(Successes(replies[..]))
        invariant Serving(codec, config, usedBytes + reservedBytes, faulted, requests, replies[..], d, i, lo, room, total)
        invariant !faulted && old(Funded()) ==> Funded()
        invariant !faulted && old(WithinBudget()) ==> WithinBudget()
        invariant !faulted && old(Bounded()) && (forall r :: r in requests ==> Small(codec, config, r)) ==> Bounded()
      {
        assert requests[i] in requests;
        var error;
        if AllComplete(io, total) { CompletesAt(io, total, i); }
        d, error, floor, extra := Admit(requests, d, replies, i, now, io[i], old(queue), lo, floor, room, total);
        if error.Some? {
          RefuseRest(error.value, replies, i, requests, lo, nextID, room);
          ToldAll(requests, replies[..], lo, nextID);
          ReasonedExplained(codec, config, old(usedBytes + reservedBytes), requests, replies[..], lo, room, faulted);
          return;
        }
      }
      ServingFlush(codec, config, usedBytes + reservedBytes, faulted, requests, replies[..], d, |requests|, lo, room, total);
      if AllComplete(io, total) { CompletesAt(io, total, |requests|); }
      var _, more := Flush(requests, d, replies, |requests|, now, io[|requests|], old(queue), lo, floor, nextID, room);
      extra := more;
      ToldAll(requests, replies[..], lo, nextID);
      CompletesLess(io[|requests|], total, DraftCost(config.maxRecordAttempts, d));
      ReasonedExplained(codec, config, old(usedBytes + reservedBytes), requests, replies[..], lo, room, faulted);
    }

    /** The loop body of `processAppendRequests`: the next ID, the encoding, and a flush if the frame no longer fits. */
    method Admit(requests: seq<Request>, d: Draft, replies: array<seq<Reply>>, i: nat, now: nat, io: Io,
                 ghost q0: Queue, ghost lo: nat, ghost floor: nat, ghost room: bool, ghost total: nat)
      returns (d': Draft, error: Option<AppendError>, ghost floor': nat, ghost extra: Group)
      requires nextID == lo + i && Serving(codec, config, usedBytes + reservedBytes, faulted, requests, replies[..], d, i, lo, room, total)
      requires i < |requests| == replies.Length && FitsU32(|requests|) && Acceptable(codec, config, requests[i])
      requires Valid() && config.Valid() && FitsU64(nextSegmentID)
      requires 0 < lo <= floor <= nextID && FitsU64(nextID) && (!faulted ==> Below(Now(), floor)) && |d.group| <= i
      requires Drafted(codec, config, requests, d, floor, nextID) && Told(requests, replies[..], d.slots, i, lo, floor)
      requires queue == q0 + GroupQueue(Successes(replies[..]))
      modifies this, replies
      ensures Valid() && nextID == old(nextID) + 1 && nextSegmentID <= old(nextSegmentID) + 1
      ensures queue == q0 + GroupQueue(Successes(replies[..])) + GroupQueue(extra) && (!faulted ==> extra == [])
      ensures error.Some? ==> Told(requests, replies[..], [], i, lo, nextID)
      ensures error == None ==>
        && faulted == old(faulted) && (!faulted ==> Below(Now(), floor')) && floor <= floor' <= nextID && |d'.group| <= i + 1
        && Drafted(codec, config, requests, d', floor', nextID) && Told(requests, replies[..], d'.slots, i + 1, lo, floor')
        && queue == q0 + GroupQueue(Successes(replies[..]))
      ensures old(faulted) ==> faulted && extra == [] && Successes(replies[..]) == Successes(old(replies[..]))
      ensures !faulted && old(Funded()) ==> Funded()
      ensures !faulted && old(WithinBudget()) ==> WithinBudget()
      ensures !faulted && old(Bounded()) && (forall r :: r in requests ==> Small(codec, config, r)) ==> Bounded()
      ensures error == None ==> Serving(codec, config, usedBytes + reservedBytes, faulted, requests, replies[..], d', i + 1, lo, room, total)
      ensures error.Some? ==> Reasoned(codec, requests, replies[..], lo, room, faulted)
      ensures error.Some? ==> (error.value == Full && !faulted && !room) || (error.value == Failed && faulted)
      ensures faulted && !old(faulted) ==> !Completes(io, total)
      ensures error == None ==>
        Packs(config.segmentBytes, d, DataFrame(codec, DiskRecord(old(nextID), requests[i].enqueuedAt, requests[i].envelope)), i, d')
    {
      hide Serving;
      hide Safe, Recoverable, Below, Bounded, Successes, Drafted, Funded, Small, Told, Acceptable, Printable;
      hide GroupQueue, Filling, Frame, FrameHeader, FramesBytes;
      d', error, floor', extra := d, None, floor, [];
      var id := nextID;
      if !faulted { IdTaken(codec, config, Now(), floor); }
      nextID := nextID + 1;
      QueueTold(q0, Successes(replies[..]), [], []);
      var record := DiskRecord(id, requests[i].enqueuedAt, requests[i].envelope);
      var encoded := DataFrame(codec, record);
      if encoded == None {
        ToldAtOnce(requests, replies[..], d.slots, i, lo, floor, Unencodable);
        ghost var before := replies[..];
        ServingSkips(codec, config, usedBytes + reservedBytes, faulted, requests, before, d, i, lo, room, total);
        replies[i] := [Refused(Unencodable)];
        assert replies[..] == before[i := [Refused(Unencodable)]];
        DraftMoves(codec, config, requests, d, floor, id, nextID);
        return;
      }
      var frame := encoded.value;
      if |d.group| > 0 && d.bytes + |frame| + FRAME_HEADER + COMMIT_PAYLOAD > config.segmentBytes {
        ghost var before, spent := replies[..], usedBytes + reservedBytes;
        ServingFlush(codec, config, spent, faulted, requests, before, d, i, lo, room, total);
        error, extra := Flush(requests, d, replies, i, now, io, q0, lo, floor, id, room);
        ToldMore(requests, replies[..], i, lo, id);
        if error.Some? { return; }
        ServingFlushed(codec, config, spent, usedBytes + reservedBytes, faulted, requests, before, replies[..], d, i, lo, room, total);
        d', floor' := NO_DRAFT, id;
        NothingDrafted(codec, config, requests, floor', id);
      }
      RequestPrintable(codec, config, requests[i], id);
      DraftGrows(codec, config, requests, d', floor', i, record, frame);
      ToldLater(requests, replies[..], d'.slots, i, lo, floor');
      ServingGrows(codec, config, usedBytes + reservedBytes, faulted, requests, replies[..], d', i, lo, room, total, frame);
      d' := Draft(d'.slots + [i], d'.group + [record], d'.frames + [frame], d'.bytes + |frame|);
    }
  
    /** Recovery of a directory that holds a queue, or of one that holds nothing yet. */
    method Load(now: nat, ghost held: Log, ghost q: Queue) returns (ok: bool)
      requires Blank() && config.Valid() && codec.Lawful()
      requires disk == Disk(map[], map[]) || Recoverable(codec, config, disk, held, q)
      modifies this
      ensures ok && !faulted && Safe(codec, config, Now()) && Funded()
      ensures old(disk) == Disk(map[], map[]) ==> queue == map[] && log == Fresh(codec, now).log
      ensures old(disk) != Disk(map[], map[]) ==> queue == q && log == held
    {
      hide Safe, Recoverable, Reserve, Reopens, Fresh, Reopened;
      ghost var before := disk;
      if disk == Disk(map[], map[]) {
        FirstStart(codec, config, now);
        ok := Recover(now);
        log, queue := Fresh(codec, now).log, map[];
        FreshIs(codec, now);
        assert Now() == Fresh(codec, now);
      } else {
        HeldIs(codec, config, disk, held, q);
        ghost var m, d := RecoverableReopens(codec, config, disk, held, q);
        ReopensIs(codec, config, disk, m, d);
        ok := Recover(now);
        log, queue := held, q;
        assert Now() == Live(m, d, held, q);
      }
    }

    /**
     * `OpenWAL` on a directory that a working log, a failed one or a crash has left: it accepts the directory, serves
     * exactly the queue that the directory holds, removes what is spent, and is within its budget again.
     */
    method Open(now: nat, ghost held: Log, ghost q: Queue) returns (ok: bool)
      requires Blank() && config.Valid() && codec.Lawful()
      requires disk == Disk(map[], map[]) || Recoverable(codec, config, disk, held, q)
      modifies this
      ensures ok && !faulted && Safe(codec, config, Now()) && Funded()
      ensures queue == if old(disk) == Disk(map[], map[]) then map[] else q
      ensures LogEncodes(codec, log) && forall k :: 0 <= k < |log| - 1 ==> !Spent(codec, log[k])
      ensures old(disk) == Disk(map[], map[]) ==> (WithinBudget() <==> config.maxBytes >= SEGMENT_HEADER + STATE_HEADER)
      ensures old(disk) != Disk(map[], map[]) ==>
                LogEncodes(codec, held) && held != [] && (WithinBudget() <==> Affordable(codec, config, held))
    {
      hide Safe, Recoverable, Reserve, LiveBytes, Spent, Fresh;
      FirstStart(codec, config, now);
      ok := Load(now, held, q);
      SameActive(codec, config, Now());
      CompactSegments();
      LiveIsUsed(codec, config, Now());
    }
  }
}
