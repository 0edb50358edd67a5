/** Reopening a directory: what recovery computes from raw bytes, and that it rebuilds the log a crash left behind. */
module WalRecovery {
  import opened Bytes
  import opened Telemetry
  import opened WalFormat
  import opened WalScan
  import opened WalLog

  // ---- the computation ---------------------------------------------------------------------------

  type EntryDecoder = seq<byte> -> Result<StateEntry, FormatError>

  function EntrySlot(data: seq<byte>, k: nat): seq<byte>
    requires STATE_HEADER + (k + 1) * STATE_ENTRY <= |data|
  {
    data[STATE_HEADER + k * STATE_ENTRY..STATE_HEADER + (k + 1) * STATE_ENTRY]
  }

  /** The first `n` entries of a checkpoint file; none if one of them is damaged. */
  function ReadStates(decode: EntryDecoder, data: seq<byte>, n: nat): Option<map<nat, StateEntry>>
    requires STATE_HEADER + n * STATE_ENTRY <= |data|
  {
    if n == 0 then Some(map[])
    else
      match (ReadStates(decode, data, n - 1), decode(EntrySlot(data, n - 1)))
      case (Some(states), Ok(entry)) => Some(states[entry.id := entry])
      case (_, _) => None
  }

  function Decoder(c: Codec): EntryDecoder {
    s => DecodeEntry(c, s)
  }

  function CompleteEntries(data: seq<byte>): (n: nat)
    requires |data| >= STATE_HEADER
    ensures STATE_HEADER + n * STATE_ENTRY <= |data| < STATE_HEADER + (n + 1) * STATE_ENTRY
  {
    (|data| - STATE_HEADER) / STATE_ENTRY
  }

  datatype Checkpoint = BadCheckpoint | Checkpoint(states: map<nat, StateEntry>, bytes: seq<byte>)

  /** `recoverState`: a missing file is created, an incomplete last entry is cut off. */
  function ScanCheckpoint(c: Codec, file: Option<seq<byte>>, segmentID: nat): (r: Checkpoint)
    ensures r.Checkpoint? ==> |r.bytes| >= STATE_HEADER
  {
    var data := if file.Some? then file.value else StateHeader(c, segmentID);
    if |data| < STATE_HEADER || DecodeStateHeader(c, data[..STATE_HEADER], segmentID).Some? then BadCheckpoint
    else
      var n := CompleteEntries(data);
      match ReadStates(Decoder(c), data, n)
      case None => BadCheckpoint
      case Some(states) => Checkpoint(states, data[..STATE_HEADER + n * STATE_ENTRY])
  }

  /** The fields that the recovery loop fills, and the directory as it has repaired it so far. */
  datatype Index = Index(
    nextID: nat,
    segments: map<nat, SegmentInfo>,
    active: map<nat, Metadata>,
    quarantined: nat,
    used: nat,
    seen: set<nat>,
    disk: Disk)

  /** One segment taken into the index: its record IDs, the active ones among them, how many are quarantined. */
  function Add(index: Index, segmentID: nat, ids: seq<nat>, found: map<nat, Metadata>, bad: nat,
               data: seq<byte>, stateBytes: seq<byte>): Index
  {
    Index(
      NextAfterIds(index.nextID, ids),
      index.segments[segmentID := SegmentInfo(|data|, |stateBytes|, ids, |found|, bad, true)],
      index.active + found,
      index.quarantined + bad,
      index.used + |data| + |stateBytes|,
      index.seen + Elements(ids),
      Disk(index.disk.data[segmentID := data], index.disk.states[segmentID := stateBytes]))
  }

  function Absorb(index: Index, segmentID: nat, frames: seq<Located>, states: map<nat, StateEntry>,
                  data: seq<byte>, stateBytes: seq<byte>): Index
  {
    Add(index, segmentID, FrameIds(frames), ActiveIn(segmentID, frames, states), QuarantinedIn(frames, states), data, stateBytes)
  }

  function Lookup(m: map<nat, seq<byte>>, id: nat): Option<seq<byte>> {
    if id in m then Some(m[id]) else None
  }

  /** What recovery keeps of the two files of a segment: frames and states, and the bytes before any torn tail. */
  datatype Contents = Contents(frames: seq<Located>, states: map<nat, StateEntry>, data: seq<byte>, stateBytes: seq<byte>)

  /** `recoverState` and `recoverSegment`; only the last segment may have an uncommitted tail. */
  function ReadFiles(c: Codec, limit: nat, data: seq<byte>, state: Option<seq<byte>>, id: nat, seen: set<nat>, isLast: bool): Option<Contents> {
    match ScanCheckpoint(c, state, id)
    case BadCheckpoint => None
    case Checkpoint(states, bytes) =>
      match ScanSegment(c, limit, data, id, seen)
      case Corrupt => None
      case Parsed(groups, committed) =>
        if committed < |data| && !isLast then None
        else Some(Contents(Flat(groups), states, data[..committed], bytes))
  }

  /** One turn of the recovery loop. */
  function RecoverOne(c: Codec, limit: nat, index: Index, id: nat, isLast: bool): Option<Index>
    requires id in index.disk.data
  {
    match ReadFiles(c, limit, index.disk.data[id], Lookup(index.disk.states, id), id, index.seen, isLast)
    case None => None
    case Some(k) => Some(Absorb(index, id, k.frames, k.states, k.data, k.stateBytes))
  }

  function Empty(disk: Disk): Index {
    Index(1, map[], map[], 0, 0, {}, disk)
  }

  type Turn = (Index, nat, bool) -> Option<Index>

  /** The first `k` turns of a loop over segment IDs that stops at the first refusal. */
  function Loop(turn: Turn, start: Index, ids: seq<nat>, k: nat): Option<Index>
    requires k <= |ids|
  {
    if k == 0 then Some(start)
    else match Loop(turn, start, ids, k - 1)
      case None => None
      case Some(index) => turn(index, ids[k - 1], k == |ids|)
  }

  function RecoverTurn(c: Codec, limit: nat): Turn {
    (index: Index, id: nat, isLast: bool) =>
      if id in index.disk.data then RecoverOne(c, limit, index, id, isLast) else None
  }

  /** The recovery of a directory with at least one segment; none means that it refuses damaged committed data. */
  function Recover(c: Codec, limit: nat, disk: Disk, ids: seq<nat>): Option<Index> {
    Loop(RecoverTurn(c, limit), Empty(disk), ids, |ids|)
  }

  // ---- checkpoints -------------------------------------------------------------------------------

  lemma {:induction false} EntriesPrefix(c: Codec, entries: seq<StateEntry>, n: nat)
    requires n <= |entries|
    ensures EntriesBytes(c, entries[..n]) <= EntriesBytes(c, entries)
  {
    if n == |entries| {
      assert entries[..n] == entries;
    } else {
      var init := entries[..|entries| - 1];
      EntriesPrefix(c, init, n);
      assert init[..n] == entries[..n];
    }
  }

  lemma EntryAt(c: Codec, data: seq<byte>, s: SegmentLog, n: nat)
    requires n < |s.entries| && CheckpointBytes(c, s) <= data
    ensures STATE_HEADER + (n + 1) * STATE_ENTRY <= |data| && EntrySlot(data, n) == Entry(c, s.entries[n])
  {
    var head, all, init := StateHeader(c, s.id), EntriesBytes(c, s.entries), EntriesBytes(c, s.entries[..n]);
    EntriesPrefix(c, s.entries, n + 1);
    assert s.entries[..n + 1][..n] == s.entries[..n];
    EntryAmong(data, head, all, init, Entry(c, s.entries[n]));
  }

  lemma EntryAmong(data: seq<byte>, head: seq<byte>, all: seq<byte>, init: seq<byte>, last: seq<byte>)
    requires head + all <= data && init + last <= all
    ensures |head| + |init| + |last| <= |data|
    ensures data[|head| + |init|..|head| + |init| + |last|] == last
  {
    var whole := head + all;
    assert data[0..|whole|] == whole;
    assert whole[|head|..|head| + |all|] == all;
    Overlay(all, 0, init + last, |init| + |last|, |init|, |init| + |last|);
    Overlay(whole, |head|, all, |all|, |init|, |init| + |last|);
    Overlay(data, 0, whole, |whole|, |head| + |init|, |head| + |init| + |last|);
  }

  lemma {:induction false} StatesRead(decode: EntryDecoder, data: seq<byte>, entries: seq<StateEntry>, n: nat)
    requires STATE_HEADER + |entries| * STATE_ENTRY <= |data| && n <= |entries|
    requires forall k :: 0 <= k < |entries| ==> decode(EntrySlot(data, k)) == Ok(entries[k])
    ensures ReadStates(decode, data, n) == Some(StatesOf(entries[..n]))
  {
    if n == 0 {
      assert entries[..0] == [];
    } else {
      StatesRead(decode, data, entries, n - 1);
      assert entries[..n][..n - 1] == entries[..n - 1];
    }
  }

  /** Whatever partial entry follows, or if the file is missing because it is still empty, recovery reads the segment's entries. */
  lemma CheckpointRecovered(c: Codec, limit: nat, disk: Disk, s: SegmentLog)
    requires c.Lawful() && GoodSegment(c, limit, s) && TornState(c, disk, s)
    ensures ScanCheckpoint(c, Lookup(disk.states, s.id), s.id) == Checkpoint(StatesOf(s.entries), CheckpointBytes(c, s))
  {
    var data := if s.id in disk.states then disk.states[s.id] else StateHeader(c, s.id);
    StateHeaderFirst(c, s, data);
    forall k | 0 <= k < |s.entries| ensures Decoder(c)(EntrySlot(data, k)) == Ok(s.entries[k]) {
      EntryAt(c, data, s, k);
      EntryRoundTrip(c, s.entries[k]);
    }
    StatesRead(Decoder(c), data, s.entries, |s.entries|);
    assert s.entries[..|s.entries|] == s.entries;
    assert CompleteEntries(data) == |s.entries|;
  }

  lemma StateHeaderFirst(c: Codec, s: SegmentLog, data: seq<byte>)
    requires c.Lawful() && FitsU64(s.id)
    requires CheckpointBytes(c, s) <= data || (data == StateHeader(c, s.id) && s.entries == [])
    ensures CheckpointBytes(c, s) <= data && data[..|CheckpointBytes(c, s)|] == CheckpointBytes(c, s)
    ensures DecodeStateHeader(c, data[..STATE_HEADER], s.id) == None
  {
    var whole := CheckpointBytes(c, s);
    if s.entries == [] && data == StateHeader(c, s.id) { assert whole == data + []; }
    assert data[..STATE_HEADER] == whole[..STATE_HEADER] == StateHeader(c, s.id);
    StateHeaderRoundTrip(c, s.id, s.id);
  }

  /**
   * A checkpoint write that stops part-way without a crash leaves its bytes in the file, and the log goes on. When the
   * next entry follows them, recovery reads the 24 bytes at the place of the first of the two, a mixture unless `part` is
   * empty; it refuses the directory unless they decode, and then never sees the entry that was written.
   */
  lemma ShortWrite(c: Codec, limit: nat, s: SegmentLog, part: seq<byte>, e: StateEntry)
    requires c.Lawful() && GoodSegment(c, limit, s) && |part| < STATE_ENTRY && FitsU64(e.id) && FitsU32(e.attempts)
    ensures var data := CheckpointBytes(c, s) + part + Entry(c, e);
            ScanCheckpoint(c, Some(data), s.id) ==
              match DecodeEntry(c, part + Entry(c, e)[..STATE_ENTRY - |part|])
              case Err(_) => BadCheckpoint
              case Ok(other) => Checkpoint(StatesOf(s.entries + [other]), data[..|CheckpointBytes(c, s)| + STATE_ENTRY])
    ensures part == [] ==> DecodeEntry(c, part + Entry(c, e)[..STATE_ENTRY - |part|]) == Ok(e)
  {
    hide Entry, DecodeEntry, GoodGroup, DecodeStateHeader;
    var whole, n := CheckpointBytes(c, s), |s.entries|;
    var data, mix := whole + part + Entry(c, e), part + Entry(c, e)[..STATE_ENTRY - |part|];
    StateHeaderFirst(c, s, data);
    forall k | 0 <= k < n ensures Decoder(c)(EntrySlot(data, k)) == Ok(s.entries[k]) {
      EntryAt(c, data, s, k);
      EntryRoundTrip(c, s.entries[k]);
    }
    assert CompleteEntries(data) == n + 1;
    MixedSlot(whole, part, Entry(c, e));
    assert EntrySlot(data, n) == mix;
    StatesRead(Decoder(c), data, s.entries, n);
    assert s.entries[..n] == s.entries;
    StatesStep(s.entries, DecodeEntry(c, mix));
    if part == [] {
      assert mix == Entry(c, e);
      EntryRoundTrip(c, e);
    }
  }

  lemma MixedSlot(whole: seq<byte>, part: seq<byte>, entry: seq<byte>)
    requires |part| <= |entry|
    ensures (whole + part + entry)[|whole|..|whole| + |entry|] == part + entry[..|entry| - |part|]
    ensures whole <= whole + part + entry
  {}

  lemma StatesStep(entries: seq<StateEntry>, r: Result<StateEntry, FormatError>)
    ensures r.Ok? ==> StatesOf(entries + [r.value]) == StatesOf(entries)[r.value.id := r.value]
  {
    if r.Ok? { assert (entries + [r.value])[..|entries|] == entries; }
  }

  // ---- segments ----------------------------------------------------------------------------------

  /** The parser's state after the first `k` groups of a segment. */
  function AfterGroups(c: Codec, groups: seq<Group>, k: nat, seen: set<nat>): ScanState
    requires Encodes(c, groups) && k <= |groups|
  {
    var end := SEGMENT_HEADER + |GroupsBytes(c, groups[..k])|;
    ScanState(end, end, [], PlaceGroups(c, groups[..k], SEGMENT_HEADER), seen + Elements(SegmentIds(groups[..k])))
  }

  lemma {:induction false} GroupsPrefix(c: Codec, groups: seq<Group>, k: nat)
    requires Encodes(c, groups) && k <= |groups|
    ensures Encodes(c, groups[..k]) && GroupsBytes(c, groups[..k]) <= GroupsBytes(c, groups)
    decreases |groups|
  {
    if k == |groups| {
      assert groups[..k] == groups;
    } else {
      var init := groups[..|groups| - 1];
      GroupsPrefix(c, init, k);
      assert init[..k] == groups[..k];
    }
  }

  lemma {:induction false} SegmentIdsPrefix(groups: seq<Group>, k: nat)
    requires k <= |groups|
    ensures SegmentIds(groups[..k]) <= SegmentIds(groups)
    decreases |groups|
  {
    if k == |groups| {
      assert groups[..k] == groups;
    } else {
      var init := groups[..|groups| - 1];
      SegmentIdsPrefix(init, k);
      assert init[..k] == groups[..k];
    }
  }

  /** Group `k` of a segment file: where it starts and what is there. */
  lemma GroupAt(c: Codec, data: seq<byte>, s: SegmentLog, k: nat)
    requires Encodes(c, s.groups) && k < |s.groups| && DataBytes(c, s) <= data
    ensures Encodes(c, s.groups[..k]) && Encodes(c, s.groups[..k + 1])
    ensures var at, n := SEGMENT_HEADER + |GroupsBytes(c, s.groups[..k])|, |GroupBytes(c, s.groups[k])|;
            && at + n <= |data| && data[at..at + n] == GroupBytes(c, s.groups[k])
            && at + n == SEGMENT_HEADER + |GroupsBytes(c, s.groups[..k + 1])|
  {
    hide Encodes, AllEncode, FramesBytes, FrameOf, Frame;
    GroupsPrefix(c, s.groups, k);
    GroupsPrefix(c, s.groups, k + 1);
    assert s.groups[..k + 1][..k] == s.groups[..k];
    EntryAmong(data, SegmentHeader(c, s.id, s.createdAt), GroupsBytes(c, s.groups),
               GroupsBytes(c, s.groups[..k]), GroupBytes(c, s.groups[k]));
  }

  lemma FreshGroup(ids: seq<nat>, groups: seq<Group>, k: nat, seen: set<nat>)
    requires k < |groups| && Sorted(ids + SegmentIds(groups)) && seen == Elements(ids)
    ensures (seen + Elements(SegmentIds(groups[..k]))) !! RecordIds(groups[k])
  {
    var before, here := SegmentIds(groups[..k]), GroupIds(groups[k]);
    SegmentIdsPrefix(groups, k + 1);
    SegmentIdsStep(groups, k);
    PrefixAppend(ids, SegmentIds(groups[..k + 1]), SegmentIds(groups));
    SortedPrefix(ids + (before + here), ids + SegmentIds(groups));
    AppendAssociates(ids, before, here);
    SortedParts(ids + before, here);
    ElementsAppend(ids, before);
    GroupIdsSet(groups[k]);
  }

  lemma SegmentIdsStep(groups: seq<Group>, k: nat)
    requires k < |groups|
    ensures SegmentIds(groups[..k + 1]) == SegmentIds(groups[..k]) + GroupIds(groups[k])
  {
    assert groups[..k + 1][..k] == groups[..k];
  }

  /** One committed group takes the parser from the end of group `k` to the end of group `k + 1`. */
  lemma ScanOneGroup(c: Codec, limit: nat, data: seq<byte>, s: SegmentLog, k: nat, ids: seq<nat>, seen: set<nat>)
    requires c.Lawful() && limit >= COMMIT_PAYLOAD && Encodes(c, s.groups)
    requires k < |s.groups| && GoodGroup(c, limit, s.groups[k]) && DataBytes(c, s) <= data
    requires seen == Elements(ids) && Sorted(ids + SegmentIds(s.groups))
    ensures AfterGroups(c, s.groups, k, seen).offset <= |data| && AfterGroups(c, s.groups, k + 1, seen).offset <= |data|
    ensures ScanFrom(c, limit, data, AfterGroups(c, s.groups, k, seen))
         == ScanFrom(c, limit, data, AfterGroups(c, s.groups, k + 1, seen))
  {
    hide Encodes, FramesBytes, GroupsBytes, AllEncode, Place, ValidCommit, FrameOf, FitsU64;
    GroupAt(c, data, s, k);
    FreshGroup(ids, s.groups, k, seen);
    AfterOneMore(c, s.groups, k, seen);
    FromGroupStart(c, limit, data, AfterGroups(c, s.groups, k, seen), s.groups[k]);
  }

  lemma FromGroupStart(c: Codec, limit: nat, data: seq<byte>, st: ScanState, group: Group)
    requires c.Lawful() && limit >= COMMIT_PAYLOAD && GoodGroup(c, limit, group)
    requires st.offset == st.committed && st.pending == [] && st.seen !! RecordIds(group)
    requires st.committed + |GroupBytes(c, group)| <= |data|
    requires data[st.committed..st.committed + |GroupBytes(c, group)|] == GroupBytes(c, group)
    ensures ScanFrom(c, limit, data, st) == ScanFrom(c, limit, data, AfterGroup(c, st, group))
  {
    assert group[..0] == [];
    ScanGroup(c, limit, data, st, group, 0);
  }

  /** The committed groups take the parser from the first byte after the header to the end of the last commit. */
  lemma {:induction false} ScanGroups(c: Codec, limit: nat, data: seq<byte>, s: SegmentLog, k: nat, ids: seq<nat>, seen: set<nat>)
    requires c.Lawful() && limit >= COMMIT_PAYLOAD && Encodes(c, s.groups)
    requires forall j :: 0 <= j < |s.groups| ==> GoodGroup(c, limit, s.groups[j])
    requires k <= |s.groups| && DataBytes(c, s) <= data
    requires seen == Elements(ids) && Sorted(ids + SegmentIds(s.groups))
    ensures AfterGroups(c, s.groups, k, seen).offset <= |data|
    ensures ScanFrom(c, limit, data, Start(seen)) == ScanFrom(c, limit, data, AfterGroups(c, s.groups, k, seen))
  {
    if k == 0 {
      AtStart(c, s.groups, seen);
    } else {
      ScanGroups(c, limit, data, s, k - 1, ids, seen);
      ScanOneGroup(c, limit, data, s, k - 1, ids, seen);
    }
  }

  lemma AtStart(c: Codec, groups: seq<Group>, seen: set<nat>)
    requires Encodes(c, groups)
    ensures AfterGroups(c, groups, 0, seen) == Start(seen)
  {
    assert groups[..0] == [];
  }

  lemma AfterOneMore(c: Codec, groups: seq<Group>, k: nat, seen: set<nat>)
    requires Encodes(c, groups) && k < |groups|
    ensures AfterGroup(c, AfterGroups(c, groups, k, seen), groups[k]) == AfterGroups(c, groups, k + 1, seen)
  {
    assert groups[..k + 1][..k] == groups[..k];
    GroupIdsSet(groups[k]);
    var before, here := SegmentIds(groups[..k]), GroupIds(groups[k]);
    assert SegmentIds(groups[..k + 1]) == before + here;
    ElementsAppend(before, here);
  }

  /** The parse of a segment file is what the writer committed, whatever part of one more group follows. */
  lemma SegmentRecovered(c: Codec, limit: nat, data: seq<byte>, s: SegmentLog, torn: Group, ids: seq<nat>, seen: set<nat>)
    requires c.Lawful() && limit >= COMMIT_PAYLOAD && GoodSegment(c, limit, s) && Encodes(c, s.groups)
    requires (torn == [] || GoodGroup(c, limit, torn)) && AllEncode(c, torn) && TornData(c, data, s, torn)
    requires seen == Elements(ids) && Sorted(ids + SegmentIds(s.groups))
    requires torn != [] ==> Sorted(ids + SegmentIds(s.groups) + GroupIds(torn))
    ensures ScanSegment(c, limit, data, s.id, seen)
         == Parsed(PlaceGroups(c, s.groups, SEGMENT_HEADER), |DataBytes(c, s)|)
    ensures data[..|DataBytes(c, s)|] == DataBytes(c, s)
  {
    hide PlaceGroups, AfterGroups, GroupBytes, GroupsBytes, FrameOf;
    SegmentHeaderFirst(c, s, data);
    ScanGroups(c, limit, data, s, |s.groups|, ids, seen);
    TailRecovered(c, limit, data, s, torn, ids, seen);
    ScanAfterHeader(c, limit, data, s.id, seen, Parsed(PlaceGroups(c, s.groups, SEGMENT_HEADER), |DataBytes(c, s)|));
  }

  lemma ScanAfterHeader(c: Codec, limit: nat, data: seq<byte>, segmentID: nat, seen: set<nat>, scan: Scan)
    requires |data| >= SEGMENT_HEADER && DecodeSegmentHeader(c, data[..SEGMENT_HEADER], segmentID) == None
    requires ScanFrom(c, limit, data, Start(seen)) == scan
    ensures ScanSegment(c, limit, data, segmentID, seen) == scan
  {}

  /** What follows the last commit of a segment file is nothing, or a part of one more group. */
  lemma TailRecovered(c: Codec, limit: nat, data: seq<byte>, s: SegmentLog, torn: Group, ids: seq<nat>, seen: set<nat>)
    requires c.Lawful() && limit >= COMMIT_PAYLOAD && Encodes(c, s.groups)
    requires (torn == [] || GoodGroup(c, limit, torn)) && AllEncode(c, torn) && TornData(c, data, s, torn)
    requires seen == Elements(ids)
    requires torn != [] ==> Sorted(ids + SegmentIds(s.groups) + GroupIds(torn))
    ensures AfterGroups(c, s.groups, |s.groups|, seen).offset <= |data|
    ensures ScanFrom(c, limit, data, AfterGroups(c, s.groups, |s.groups|, seen))
         == Parsed(PlaceGroups(c, s.groups, SEGMENT_HEADER), |DataBytes(c, s)|)
  {
    var bytes, st := DataBytes(c, s), AfterGroups(c, s.groups, |s.groups|, seen);
    assert s.groups[..|s.groups|] == s.groups;
    if data == bytes {
      EndOfFile(c, limit, data, st);
    } else {
      SortedParts(ids + SegmentIds(s.groups), GroupIds(torn));
      ElementsAppend(ids, SegmentIds(s.groups));
      GroupIdsSet(torn);
      TornTail(c, limit, data, bytes, st, torn);
    }
  }

  lemma EndOfFile(c: Codec, limit: nat, data: seq<byte>, st: ScanState)
    requires st.offset == st.committed == |data| && st.pending == []
    ensures ScanFrom(c, limit, data, st) == Parsed(st.groups, |data|)
  {}

  lemma SegmentHeaderFirst(c: Codec, s: SegmentLog, data: seq<byte>)
    requires c.Lawful() && FitsU64(s.id) && Encodes(c, s.groups) && DataBytes(c, s) <= data
    ensures DecodeSegmentHeader(c, data[..SEGMENT_HEADER], s.id) == None
  {
    assert data[..SEGMENT_HEADER] == DataBytes(c, s)[..SEGMENT_HEADER] == SegmentHeader(c, s.id, s.createdAt);
    SegmentHeaderRoundTrip(c, s.id, s.createdAt, s.id);
  }

  lemma TornTail(c: Codec, limit: nat, data: seq<byte>, bytes: seq<byte>, st: ScanState, torn: Group)
    requires c.Lawful() && limit >= COMMIT_PAYLOAD && GoodGroup(c, limit, torn)
    requires bytes <= data && data <= bytes + GroupBytes(c, torn) && data != bytes + GroupBytes(c, torn)
    requires st.offset == st.committed == |bytes| && st.pending == [] && st.seen !! RecordIds(torn)
    ensures ScanFrom(c, limit, data, st) == Parsed(st.groups, st.committed)
  {
    var whole := bytes + GroupBytes(c, torn);
    assert data == whole[..|data|];
    assert data[|bytes|..|data|] == GroupBytes(c, torn)[..|data| - |bytes|];
    assert torn[..0] == [];
    ScanTornGroup(c, limit, data, st, torn, 0);
  }

  // ---- the whole directory -------------------------------------------------------------------------

  /** The index of a log: what recovery must rebuild, computed without parsing. */
  function IndexOf(c: Codec, log: Log, disk: Disk): Index
    requires LogEncodes(c, log)
  {
    Index(NextAfterIds(1, LogIds(log)), Infos(c, log, 0), ActiveOf(c, log), QuarantinedOf(c, log), UsedBy(c, log),
          Elements(LogIds(log)), disk)
  }

  lemma {:induction false} NextAfterAppend(next: nat, a: seq<nat>, b: seq<nat>)
    ensures NextAfterIds(next, a + b) == NextAfterIds(NextAfterIds(next, a), b)
  {
    if b == [] {
      assert a + b == a;
    } else {
      var init := b[..|b| - 1];
      NextAfterAppend(next, a, init);
      assert (a + b)[..|a + b| - 1] == a + init;
    }
  }

  /** How the parts of a log's index grow by one segment. */
  lemma IndexStep(c: Codec, log: Log, k: nat)
    requires LogEncodes(c, log) && k < |log|
    ensures LogEncodes(c, log[..k]) && LogEncodes(c, log[..k + 1])
    ensures LogIds(log[..k + 1]) == LogIds(log[..k]) + SegmentIds(log[k].groups)
    ensures Infos(c, log[..k + 1], 0) == Infos(c, log[..k], 0)[log[k].id := InfoOf(c, log[k], log[k].id != 0)]
    ensures ActiveOf(c, log[..k + 1]) == ActiveOf(c, log[..k]) + SegmentActive(c, log[k])
    ensures QuarantinedOf(c, log[..k + 1]) == QuarantinedOf(c, log[..k]) + SegmentQuarantined(c, log[k])
    ensures UsedBy(c, log[..k + 1]) == UsedBy(c, log[..k]) + |DataBytes(c, log[k])| + |CheckpointBytes(c, log[k])|
  {
    assert log[..k + 1][..k] == log[..k];
  }

  /** Adding what the next segment holds extends the index of the log by that segment. */
  lemma AddSegment(c: Codec, log: Log, k: nat, disk: Disk)
    requires LogEncodes(c, log) && k < |log| && log[k].id != 0
    ensures LogEncodes(c, log[..k]) && LogEncodes(c, log[..k + 1])
    ensures Add(IndexOf(c, log[..k], disk), log[k].id, SegmentIds(log[k].groups), SegmentActive(c, log[k]),
                SegmentQuarantined(c, log[k]), DataBytes(c, log[k]), CheckpointBytes(c, log[k]))
         == IndexOf(c, log[..k + 1], RepairSegment(c, disk, log[k]))
  {
    hide DataBytes, SegmentHeader, Elements, GroupIds, GroupsBytes, GroupBytes, PlaceGroups, Entry;
    IndexStep(c, log, k);
    NextAfterAppend(1, LogIds(log[..k]), SegmentIds(log[k].groups));
    ElementsAppend(LogIds(log[..k]), SegmentIds(log[k].groups));
  }

  lemma AbsorbPrinted(c: Codec, log: Log, k: nat, disk: Disk)
    requires LogEncodes(c, log) && k < |log| && log[k].id != 0
    ensures LogEncodes(c, log[..k]) && LogEncodes(c, log[..k + 1])
    ensures Absorb(IndexOf(c, log[..k], disk), log[k].id, SegmentFrames(c, log[k]),
                   StatesOf(log[k].entries), DataBytes(c, log[k]), CheckpointBytes(c, log[k]))
         == IndexOf(c, log[..k + 1], RepairSegment(c, disk, log[k]))
  {
    FrameIdsOfGroups(c, log[k].groups, SEGMENT_HEADER);
    AddSegment(c, log, k, disk);
  }

  function RepairSegment(c: Codec, disk: Disk, s: SegmentLog): Disk
    requires Encodes(c, s.groups)
  {
    Disk(disk.data[s.id := DataBytes(c, s)], disk.states[s.id := CheckpointBytes(c, s)])
  }

  /** The directory after the loop has repaired the first `k` segments. */
  function Repaired(c: Codec, disk: Disk, log: Log): Disk
    requires LogEncodes(c, log)
  {
    if log == [] then disk
    else
      RepairSegment(c, Repaired(c, disk, log[..|log| - 1]), log[|log| - 1])
  }

  lemma {:induction false} RepairedLater(c: Codec, disk: Disk, log: Log, k: nat, id: nat)
    requires LogEncodes(c, log) && k <= |log| && forall j :: 0 <= j < k ==> log[j].id != id
    ensures LogEncodes(c, log[..k])
    ensures var d := Repaired(c, disk, log[..k]);
            && (id in d.data <==> id in disk.data) && (id in d.data ==> d.data[id] == disk.data[id])
            && (id in d.states <==> id in disk.states) && (id in d.states ==> d.states[id] == disk.states[id])
  {
    if k > 0 {
      RepairedLater(c, disk, log, k - 1, id);
      assert log[..k][..k - 1] == log[..k - 1];
    }
  }

  lemma {:induction false} LogIdsPrefix(log: Log, k: nat)
    requires k <= |log|
    ensures LogIds(log[..k]) <= LogIds(log)
    decreases |log|
  {
    if k == |log| {
      assert log[..k] == log;
    } else {
      var init := log[..|log| - 1];
      LogIdsPrefix(init, k);
      assert init[..k] == log[..k];
    }
  }

  lemma SegmentSorted(log: Log, k: nat)
    requires k < |log| && Sorted(LogIds(log))
    ensures Sorted(LogIds(log[..k]) + SegmentIds(log[k].groups))
    ensures k == |log| - 1 ==> LogIds(log[..k]) + SegmentIds(log[k].groups) == LogIds(log)
  {
    LogIdsPrefix(log, k + 1);
    LogIdsNext(log, k);
    SortedPrefix(LogIds(log[..k + 1]), LogIds(log));
    if k == |log| - 1 { assert log[..k + 1] == log; }
  }

  lemma LogIdsNext(log: Log, k: nat)
    requires k < |log|
    ensures LogIds(log[..k + 1]) == LogIds(log[..k]) + SegmentIds(log[k].groups)
  {
    assert log[..k + 1][..k] == log[..k];
  }

  /** What the loop holds after the first `k` segments of a log. */
  function RecoveredTo(c: Codec, disk: Disk, log: Log, k: nat): Index
    requires k <= |log| && LogEncodes(c, log)
  {
    IndexOf(c, log[..k], Repaired(c, disk, log[..k]))
  }

  /** Turn `j` of the loop leads from one given index to the next. */
  ghost predicate Leads(turn: Turn, ids: seq<nat>, at: nat -> Index, j: nat)
    requires j < |ids|
  {
    turn(at(j), ids[j], j + 1 == |ids|) == Some(at(j + 1))
  }

  /** If each turn leads from one index to the next, the loop goes through all of them. */
  lemma {:induction false} TurnsCompose(turn: Turn, ids: seq<nat>, at: nat -> Index, k: nat)
    requires k <= |ids| && forall j: nat :: j < |ids| ==> Leads(turn, ids, at, j)
    ensures Loop(turn, at(0), ids, k) == Some(at(k))
  {
    if k > 0 {
      TurnsCompose(turn, ids, at, k - 1);
      assert Leads(turn, ids, at, k - 1);
    }
  }

  lemma NothingRecovered(c: Codec, disk: Disk, log: Log)
    requires LogEncodes(c, log)
    ensures RecoveredTo(c, disk, log, 0) == Empty(disk)
  {
    assert log[..0] == [];
  }

  lemma LogRecovered(c: Codec, limit: nat, disk: Disk, log: Log, torn: Group)
    requires Crashed(c, limit, disk, log, torn)
    ensures Recover(c, limit, disk, SegmentIdsOf(log)) == Some(RecoveredTo(c, disk, log, |log|))
  {
    var ids, turn := SegmentIdsOf(log), RecoverTurn(c, limit);
    var at := (k: nat) => if k <= |log| && LogEncodes(c, log) then RecoveredTo(c, disk, log, k) else Empty(disk);
    forall j: nat | j < |ids| ensures Leads(turn, ids, at, j) {
      TurnRecovered(c, limit, disk, log, torn, j);
    }
    NothingRecovered(c, disk, log);
    TurnsCompose(turn, ids, at, |ids|);
  }

  lemma TurnRecovered(c: Codec, limit: nat, disk: Disk, log: Log, torn: Group, k: nat)
    requires Crashed(c, limit, disk, log, torn) && k < |log|
    ensures log[k].id in RecoveredTo(c, disk, log, k).disk.data
    ensures RecoverOne(c, limit, RecoveredTo(c, disk, log, k), log[k].id, k + 1 == |log|)
         == Some(RecoveredTo(c, disk, log, k + 1))
  {
    ReadyForTurn(c, limit, disk, log, torn, k);
    OneRecovered(c, limit, Repaired(c, disk, log[..k]), log, torn, k);
    RepairedStep(c, disk, log, k);
  }

  lemma RepairedStep(c: Codec, disk: Disk, log: Log, k: nat)
    requires k < |log| && LogEncodes(c, log)
    ensures LogEncodes(c, log[..k]) && LogEncodes(c, log[..k + 1])
    ensures Repaired(c, disk, log[..k + 1]) == RepairSegment(c, Repaired(c, disk, log[..k]), log[k])
  {
    assert log[..k + 1][..k] == log[..k];
  }

  /** The loop finds segment `k` as the crash left it: repairing the earlier ones did not touch its files. */
  lemma ReadyForTurn(c: Codec, limit: nat, disk: Disk, log: Log, torn: Group, k: nat)
    requires GoodLog(c, limit, log) && LogEncodes(c, log) && AllEncode(c, torn)
    requires (torn == [] || Follows(c, limit, log, torn)) && Torn(c, disk, log, torn) && k < |log|
    ensures LogEncodes(c, log[..k]) && GoodSegment(c, limit, log[k])
    ensures Sorted(LogIds(log[..k]) + SegmentIds(log[k].groups))
    ensures k == |log| - 1 && torn != [] ==> Sorted(LogIds(log[..k]) + SegmentIds(log[k].groups) + GroupIds(torn))
    ensures var d := Repaired(c, disk, log[..k]);
            && log[k].id in d.data && TornState(c, d, log[k])
            && if k < |log| - 1 then d.data[log[k].id] == DataBytes(c, log[k])
               else TornData(c, d.data[log[k].id], log[k], torn)
  {
    SegmentSorted(log, k);
    RepairedLater(c, disk, log, k, log[k].id);
    assert TornState(c, disk, log[k]);
    assert log[k].id in disk.data;
  }

  lemma OneRecovered(c: Codec, limit: nat, disk: Disk, log: Log, torn: Group, k: nat)
    requires c.Lawful() && limit >= COMMIT_PAYLOAD && LogEncodes(c, log)
    requires k < |log| && LogEncodes(c, log[..k]) && GoodSegment(c, limit, log[k])
    requires (torn == [] || GoodGroup(c, limit, torn)) && AllEncode(c, torn)
    requires Sorted(LogIds(log[..k]) + SegmentIds(log[k].groups))
    requires k == |log| - 1 && torn != [] ==> Sorted(LogIds(log[..k]) + SegmentIds(log[k].groups) + GroupIds(torn))
    requires log[k].id in disk.data && TornState(c, disk, log[k])
    requires if k < |log| - 1 then disk.data[log[k].id] == DataBytes(c, log[k])
             else TornData(c, disk.data[log[k].id], log[k], torn)
    ensures LogEncodes(c, log[..k + 1])
    ensures RecoverOne(c, limit, IndexOf(c, log[..k], disk), log[k].id, k + 1 == |log|)
         == Some(IndexOf(c, log[..k + 1], RepairSegment(c, disk, log[k])))
  {
    var s := log[k];
    CheckpointRecovered(c, limit, disk, s);
    SegmentRecovered(c, limit, disk.data[s.id], s, if k == |log| - 1 then torn else [], LogIds(log[..k]), Elements(LogIds(log[..k])));
    AbsorbPrinted(c, log, k, disk);
  }

  /**
   * Crash recovery: a directory that holds a log, torn at any byte of the group being written and of any
   * checkpoint entry, reopens with the index of that log and is left holding exactly that log.
   */
  lemma TornRecovered(c: Codec, limit: nat, disk: Disk, log: Log, torn: Group)
    requires Crashed(c, limit, disk, log, torn)
    ensures var r := Recover(c, limit, disk, SegmentIdsOf(log));
            r.Some? && r.value == IndexOf(c, log, r.value.disk) && Exact(c, r.value.disk, log)
  {
    LogRecovered(c, limit, disk, log, torn);
    assert log[..|log|] == log;
    RepairedHolds(c, disk, log, |log|);
    RepairedKeys(c, disk, log, |log|);
  }

  lemma {:induction false} RepairedHolds(c: Codec, disk: Disk, log: Log, k: nat)
    requires LogEncodes(c, log) && k <= |log| && forall i, j :: 0 <= i < j < |log| ==> log[i].id < log[j].id
    ensures LogEncodes(c, log[..k])
    ensures forall j :: 0 <= j < k ==> Holds(c, Repaired(c, disk, log[..k]), log[j])
  {
    hide CheckpointBytes, EntriesBytes, AllEncode, GroupsBytes, StateHeader;
    if k > 0 {
      RepairedHolds(c, disk, log, k - 1);
      assert log[..k][..k - 1] == log[..k - 1];
    }
  }

  lemma {:induction false} RepairedKeys(c: Codec, disk: Disk, log: Log, k: nat)
    requires LogEncodes(c, log) && k <= |log| && SegmentKeys(log) <= disk.data.Keys
    ensures LogEncodes(c, log[..k])
    ensures Repaired(c, disk, log[..k]).data.Keys == disk.data.Keys
  {
    if k > 0 {
      RepairedKeys(c, disk, log, k - 1);
      assert log[..k][..k - 1] == log[..k - 1];
      assert log[k - 1] in log;
    }
  }

  // ---- recovering twice ------------------------------------------------------------------------

  /** Cutting a checkpoint at its last complete entry is final. */
  lemma CheckpointIsStable(c: Codec, file: Option<seq<byte>>, segmentID: nat)
    requires ScanCheckpoint(c, file, segmentID).Checkpoint?
    ensures var r := ScanCheckpoint(c, file, segmentID); ScanCheckpoint(c, Some(r.bytes), segmentID) == r
  {
    var data, bytes := if file.Some? then file.value else StateHeader(c, segmentID), ScanCheckpoint(c, file, segmentID).bytes;
    var n := CompleteEntries(data);
    assert bytes[..STATE_HEADER] == data[..STATE_HEADER];
    assert CompleteEntries(bytes) == n;
    StatesOfPrefix(Decoder(c), data, bytes, n);
    assert bytes[..|bytes|] == bytes;
  }

  lemma {:induction false} StatesOfPrefix(decode: EntryDecoder, data: seq<byte>, bytes: seq<byte>, n: nat)
    requires STATE_HEADER + n * STATE_ENTRY <= |bytes| && bytes <= data
    ensures ReadStates(decode, bytes, n) == ReadStates(decode, data, n)
  {
    if n > 0 {
      StatesOfPrefix(decode, data, bytes, n - 1);
      assert EntrySlot(bytes, n - 1) == EntrySlot(data, n - 1);
    }
  }

  lemma ReadFilesIsStable(c: Codec, limit: nat, data: seq<byte>, state: Option<seq<byte>>, id: nat, seen: set<nat>, isLast: bool)
    requires ReadFiles(c, limit, data, state, id, seen, isLast).Some?
    ensures var r := ReadFiles(c, limit, data, state, id, seen, isLast);
            ReadFiles(c, limit, r.value.data, Some(r.value.stateBytes), id, seen, isLast) == r
  {
    CheckpointIsStable(c, state, id);
    TruncationIsStable(c, limit, data, id, seen);
    var cut := ReadFiles(c, limit, data, state, id, seen, isLast).value.data;
    assert cut[..|cut|] == cut;
  }

  lemma AbsorbElsewhere(index: Index, id: nat, k: Contents, disk: Disk)
    requires id in disk.data && disk.data[id] == k.data && id in disk.states && disk.states[id] == k.stateBytes
    ensures Absorb(index.(disk := disk), id, k.frames, k.states, k.data, k.stateBytes)
         == Absorb(index, id, k.frames, k.states, k.data, k.stateBytes).(disk := disk)
  {
    assert disk.data[id := k.data] == disk.data;
    assert disk.states[id := k.stateBytes] == disk.states;
  }

  /** A turn that finds the repaired files of a segment repeats what the turn that repaired them computed. */
  lemma TurnRepeats(c: Codec, limit: nat, index: Index, id: nat, isLast: bool, disk: Disk)
    requires RecoverTurn(c, limit)(index, id, isLast).Some?
    requires var next := RecoverTurn(c, limit)(index, id, isLast).value;
             && id in disk.data && disk.data[id] == next.disk.data[id]
             && id in disk.states && disk.states[id] == next.disk.states[id]
    ensures var next := RecoverTurn(c, limit)(index, id, isLast).value;
            RecoverTurn(c, limit)(index.(disk := disk), id, isLast) == Some(next.(disk := disk))
  {
    var data, state := index.disk.data[id], Lookup(index.disk.states, id);
    ReadFilesIsStable(c, limit, data, state, id, index.seen, isLast);
    AbsorbElsewhere(index, id, ReadFiles(c, limit, data, state, id, index.seen, isLast).value, disk);
  }

  lemma LoopStep(turn: Turn, start: Index, ids: seq<nat>, k: nat)
    requires k < |ids| && Loop(turn, start, ids, k + 1).Some?
    ensures Loop(turn, start, ids, k).Some?
    ensures turn(Loop(turn, start, ids, k).value, ids[k], k + 1 == |ids|) == Loop(turn, start, ids, k + 1)
  {}

  /** A loop that got to the end got through each of its turns. */
  lemma {:induction false} LoopPrefix(turn: Turn, start: Index, ids: seq<nat>, k: nat, n: nat)
    requires k <= n <= |ids| && Loop(turn, start, ids, n).Some?
    ensures Loop(turn, start, ids, k).Some?
    decreases n - k
  {
    if k < n {
      LoopPrefix(turn, start, ids, k + 1, n);
      LoopStep(turn, start, ids, k);
    }
  }

  /** Each turn writes the two files of its own segment only. */
  ghost predicate OwnFilesOnly(turn: Turn) {
    forall index, id, isLast :: turn(index, id, isLast).Some? ==> OnlyWrote(index.disk, turn(index, id, isLast).value.disk, id)
  }

  ghost predicate OnlyWrote(before: Disk, after: Disk, id: nat) {
    && id in after.data && id in after.states
    && after == Disk(before.data[id := after.data[id]], before.states[id := after.states[id]])
  }

  lemma RecoverWritesOwn(c: Codec, limit: nat)
    ensures OwnFilesOnly(RecoverTurn(c, limit))
  {}

  ghost predicate SameFiles(a: Disk, b: Disk, id: nat) {
    && id in a.data && id in b.data && a.data[id] == b.data[id]
    && id in a.states && id in b.states && a.states[id] == b.states[id]
  }

  /** Turns from `k` on leave the files of earlier segments alone. */
  lemma {:induction false} LaterTurnsKeep(turn: Turn, start: Index, ids: seq<nat>, k: nat, n: nat)
    requires OwnFilesOnly(turn) && Sorted(ids) && k < n <= |ids| && Loop(turn, start, ids, n).Some?
    ensures Loop(turn, start, ids, k + 1).Some?
    ensures SameFiles(Loop(turn, start, ids, k + 1).value.disk, Loop(turn, start, ids, n).value.disk, ids[k])
    decreases n
  {
    LoopStep(turn, start, ids, n - 1);
    assert OnlyWrote(Loop(turn, start, ids, n - 1).value.disk, Loop(turn, start, ids, n).value.disk, ids[n - 1]);
    if k < n - 1 {
      LaterTurnsKeep(turn, start, ids, k, n - 1);
      assert ids[k] < ids[n - 1];
    }
  }

  /** A turn run against the final directory instead of the one it repaired gives the same index. */
  ghost predicate Repeats(turn: Turn) {
    forall index, id, isLast, disk {:trigger turn(index.(disk := disk), id, isLast)} ::
      turn(index, id, isLast).Some? && SameFiles(turn(index, id, isLast).value.disk, disk, id) ==>
        turn(index.(disk := disk), id, isLast) == Some(turn(index, id, isLast).value.(disk := disk))
  }

  lemma RecoverRepeats(c: Codec, limit: nat)
    ensures Repeats(RecoverTurn(c, limit))
  {
    var turn := RecoverTurn(c, limit);
    forall index, id, isLast, disk |
      turn(index, id, isLast).Some? && SameFiles(turn(index, id, isLast).value.disk, disk, id)
      ensures turn(index.(disk := disk), id, isLast) == Some(turn(index, id, isLast).value.(disk := disk))
    {
      TurnRepeats(c, limit, index, id, isLast, disk);
    }
  }

  lemma {:induction false} RepeatPrefix(turn: Turn, start: Index, ids: seq<nat>, k: nat)
    requires OwnFilesOnly(turn) && Repeats(turn) && Sorted(ids) && k <= |ids| && Loop(turn, start, ids, |ids|).Some?
    ensures Loop(turn, start, ids, k).Some?
    ensures var final := Loop(turn, start, ids, |ids|).value.disk;
            Loop(turn, start.(disk := final), ids, k) == Some(Loop(turn, start, ids, k).value.(disk := final))
  {
    LoopPrefix(turn, start, ids, k, |ids|);
    if k > 0 {
      RepeatPrefix(turn, start, ids, k - 1);
      LoopStep(turn, start, ids, k - 1);
      LaterTurnsKeep(turn, start, ids, k - 1, |ids|);
    }
  }

  /**
   * Recovery is idempotent on every directory it accepts: run again on what it left, it accepts that too,
   * computes the same index and changes no byte.
   */
  lemma RecoverTwice(c: Codec, limit: nat, disk: Disk, ids: seq<nat>)
    requires Sorted(ids) && Recover(c, limit, disk, ids).Some?
    ensures var r := Recover(c, limit, disk, ids); Recover(c, limit, r.value.disk, ids) == r
  {
    RecoverWritesOwn(c, limit);
    RecoverRepeats(c, limit);
    RepeatPrefix(RecoverTurn(c, limit), Empty(disk), ids, |ids|);
  }

  // ---- a crash during recovery -------------------------------------------------------------------

  /** `midway` between two maps of files: each file as it was or as it became, and none gone. */
  ghost predicate BetweenFiles(before: map<nat, seq<byte>>, after: map<nat, seq<byte>>, midway: map<nat, seq<byte>>) {
    && before.Keys <= midway.Keys
    && forall id :: id in midway ==>
         (id in before && midway[id] == before[id]) || (id in after && midway[id] == after[id])
  }

  /** A directory after some of the writes that its recovery makes, each of which replaces or cuts one file. */
  ghost predicate Interrupted(c: Codec, limit: nat, disk: Disk, ids: seq<nat>, midway: Disk) {
    var r := Recover(c, limit, disk, ids);
    && r.Some? && midway.data.Keys == disk.data.Keys
    && BetweenFiles(disk.data, r.value.disk.data, midway.data)
    && BetweenFiles(disk.states, r.value.disk.states, midway.states)
  }

  /** A crash during recovery leaves the same log, torn as before: the next recovery finds the same records. */
  lemma InterruptedCrashed(c: Codec, limit: nat, disk: Disk, log: Log, torn: Group, midway: Disk)
    requires Crashed(c, limit, disk, log, torn) && Interrupted(c, limit, disk, SegmentIdsOf(log), midway)
    ensures Crashed(c, limit, midway, log, torn)
    ensures Recover(c, limit, midway, SegmentIdsOf(log)).Some?
    ensures var again, r := Recover(c, limit, midway, SegmentIdsOf(log)).value, Recover(c, limit, disk, SegmentIdsOf(log)).value;
            again.(disk := r.disk) == r
  {
    hide Exact, FramesBytes, GroupsBytes, Encodes, GoodSegment;
    hide Recover, IndexOf, Follows, DataBytes, CheckpointBytes, GroupBytes;
    TornRecovered(c, limit, disk, log, torn);
    var r := Recover(c, limit, disk, SegmentIdsOf(log)).value;
    forall k | 0 <= k < |log| ensures log[k].id in midway.data && TornState(c, midway, log[k]) {
      assert Holds(c, r.disk, log[k]) && TornState(c, disk, log[k]);
    }
    forall k | 0 <= k < |log| - 1 ensures midway.data[log[k].id] == DataBytes(c, log[k]) {
      assert Holds(c, r.disk, log[k]);
    }
    LastMidway(c, disk, r.disk, log, torn, midway);
    TornRecovered(c, limit, midway, log, torn);
    IndexDisk(c, log, Recover(c, limit, midway, SegmentIdsOf(log)).value.disk, r.disk);
  }

  lemma LastMidway(c: Codec, disk: Disk, after: Disk, log: Log, torn: Group, midway: Disk)
    requires log != [] && LogEncodes(c, log) && AllEncode(c, torn) && Torn(c, disk, log, torn) && Exact(c, after, log)
    requires midway.data.Keys == disk.data.Keys && BetweenFiles(disk.data, after.data, midway.data)
    ensures var s := log[|log| - 1]; s.id in midway.data && TornData(c, midway.data[s.id], s, torn)
  {
    hide DataBytes, GroupBytes;
    assert Holds(c, after, log[|log| - 1]);
    if torn != [] { assert |GroupBytes(c, torn)| > 0; }
  }

  lemma IndexDisk(c: Codec, log: Log, a: Disk, b: Disk)
    requires LogEncodes(c, log)
    ensures IndexOf(c, log, a).(disk := b) == IndexOf(c, log, b)
  {}

  /** Recovery leaves alone the files of segments that it does not find. */
  lemma StraysKept(c: Codec, limit: nat, disk: Disk, log: Log, torn: Group, id: nat)
    requires Crashed(c, limit, disk, log, torn) && id !in SegmentKeys(log)
    ensures var r := Recover(c, limit, disk, SegmentIdsOf(log));
            r.Some? && (id in r.value.disk.states <==> id in disk.states)
            && (id in disk.states ==> r.value.disk.states[id] == disk.states[id])
  {
    hide Recover, GoodLog, Torn, Repaired, LogEncodes, SegmentIdsOf;
    LogRecovered(c, limit, disk, log, torn);
    assert forall j :: 0 <= j < |log| ==> log[j] in log;
    assert log[..|log|] == log;
    RepairedLater(c, disk, log, |log|, id);
  }

  lemma SameRepairs(c: Codec, limit: nat, disk: Disk, log: Log, torn: Group, midway: Disk, id: nat)
    requires Crashed(c, limit, disk, log, torn) && Interrupted(c, limit, disk, SegmentIdsOf(log), midway)
    requires Recover(c, limit, midway, SegmentIdsOf(log)).Some?
    ensures var a, b := Recover(c, limit, midway, SegmentIdsOf(log)).value.disk, Recover(c, limit, disk, SegmentIdsOf(log)).value.disk;
            && (id in a.data ==> id in b.data && a.data[id] == b.data[id])
            && (id in a.states ==> (id in b.states && a.states[id] == b.states[id])
                                   || (id in midway.states && a.states[id] == midway.states[id]))
  {
    hide Recover, IndexOf, GoodLog, Torn, DataBytes, CheckpointBytes;
    InterruptedCrashed(c, limit, disk, log, torn, midway);
    TornRecovered(c, limit, disk, log, torn);
    TornRecovered(c, limit, midway, log, torn);
    if id in SegmentKeys(log) {
      var s :| s in log && s.id == id;
      var k :| 0 <= k < |log| && log[k] == s;
      assert Holds(c, Recover(c, limit, disk, SegmentIdsOf(log)).value.disk, log[k]);
      assert Holds(c, Recover(c, limit, midway, SegmentIdsOf(log)).value.disk, log[k]);
    } else {
      StraysKept(c, limit, midway, log, torn, id);
    }
  }

  /** However often recovery is cut short, what it leaves is a directory that the first of them could have left. */
  lemma InterruptedAgain(c: Codec, limit: nat, disk: Disk, log: Log, torn: Group, midway: Disk, later: Disk)
    requires Crashed(c, limit, disk, log, torn) && Interrupted(c, limit, disk, SegmentIdsOf(log), midway)
    requires Interrupted(c, limit, midway, SegmentIdsOf(log), later)
    ensures Interrupted(c, limit, disk, SegmentIdsOf(log), later)
  {
    hide Crashed, Recover;
    forall id ensures
      var a, b := Recover(c, limit, midway, SegmentIdsOf(log)).value.disk, Recover(c, limit, disk, SegmentIdsOf(log)).value.disk;
      && (id in a.data ==> id in b.data && a.data[id] == b.data[id])
      && (id in a.states ==> (id in b.states && a.states[id] == b.states[id])
                             || (id in midway.states && a.states[id] == midway.states[id]))
    {
      SameRepairs(c, limit, disk, log, torn, midway, id);
    }
  }
}
