/** The four steps that change a running log, and that each keeps memory, disk and log in agreement. */
module WalSteps {
  import opened Bytes
  import opened Telemetry
  import opened WalFormat
  import opened WalScan
  import opened WalLog
  import opened WalContents
  import opened WalOps
  import opened WalMemory
  import Maps

  // ---- a group committed ---------------------------------------------------------------------------

  /** The bookkeeping of the last segment after a group, computed from the old bookkeeping. */
  lemma GroupInfo(c: Codec, s: SegmentLog, group: Group)
    requires Encodes(c, s.groups) && AllEncode(c, group) && group != []
    requires Sorted(SegmentIds(s.groups) + GroupIds(group))
    requires Elements(GroupIds(group)) !! StatesOf(s.entries).Keys
    ensures Encodes(c, WithGroup(s, group).groups)
    ensures InfoOf(c, WithGroup(s, group), false) == Grown(InfoOf(c, s, false), |GroupBytes(c, group)|, GroupIds(group))
  {
    GroupAdded(c, s, group);
    var n := |DataBytes(c, s)|;
    NewRecordsKeys(c, s.id, group, n);
    SortedParts(SegmentIds(s.groups), GroupIds(group));
    ActiveInIs(s.id, SegmentFrames(c, s), StatesOf(s.entries));
    SegmentPlacedKeys(c, s);
    Maps.UnionSize(SegmentActive(c, s), NewRecords(c, s.id, group, n));
    SortedCount(GroupIds(group));
    assert |NewRecords(c, s.id, group, n)| == |NewRecords(c, s.id, group, n).Keys|;
  }

  lemma {:induction false} SortedCount(ids: seq<nat>)
    requires Sorted(ids)
    ensures |Elements(ids)| == |ids|
  {
    if ids != [] {
      var init, last := ids[..|ids| - 1], ids[|ids| - 1];
      SortedCount(init);
      assert ids == init + [last];
      ElementsAppend(init, [last]);
      assert Elements([last]) == {last};
      assert last !in Elements(init);
    }
  }

  lemma CommitMirrors(c: Codec, cfg: Config, m: Memory, log: Log, group: Group)
    requires LogSound(c, cfg, log) && Mirrors(c, m, log) && Follows(c, cfg.segmentBytes, log, group)
    requires LogSound(c, cfg, Appended(log, group))
    ensures m.current in m.segments
    ensures Mirrors(c, AfterCommit(c, m, group, |DataBytes(c, Last(log))|), Appended(log, group))
  {
    AppendedLog(c, cfg, log, group);
    LastSorted(log, group);
    CommitTotals(c, log, group);
    CommitInfos(c, log, group, m.current);
    SwapIds(log, |log| - 1, WithGroup(Last(log), group));
  }

  /** What a group adds to the active records, the quarantine count and the bytes in use. */
  lemma CommitTotals(c: Codec, log: Log, group: Group)
    requires LogEncodes(c, log) && log != [] && AllEncode(c, group) && group != []
    requires Elements(GroupIds(group)) !! StatesOf(Last(log).entries).Keys
    ensures LogEncodes(c, Appended(log, group))
    ensures ActiveOf(c, Appended(log, group))
         == ActiveOf(c, log) + NewRecords(c, Last(log).id, group, |DataBytes(c, Last(log))|)
    ensures QuarantinedOf(c, Appended(log, group)) == QuarantinedOf(c, log)
    ensures UsedBy(c, Appended(log, group)) == UsedBy(c, log) + |GroupBytes(c, group)|
  {
    var s := Last(log);
    GroupAdded(c, s, group);
    var x := SplitLast(c, log, WithGroup(s, group));
    Maps.Associates(x.active, SegmentActive(c, s), NewRecords(c, s.id, group, |DataBytes(c, s)|));
  }

  lemma CommitInfos(c: Codec, log: Log, group: Group, current: nat)
    requires LogEncodes(c, log) && log != [] && AllEncode(c, group) && group != []
    requires forall i, j :: 0 <= i < j < |log| ==> log[i].id < log[j].id
    requires current == Last(log).id && Sorted(SegmentIds(Last(log).groups) + GroupIds(group))
    requires Elements(GroupIds(group)) !! StatesOf(Last(log).entries).Keys
    ensures LogEncodes(c, Appended(log, group)) && current in Infos(c, log, current)
    ensures Infos(c, Appended(log, group), current)
         == Infos(c, log, current)[current := Grown(Infos(c, log, current)[current], |GroupBytes(c, group)|, GroupIds(group))]
  {
    InfoAt(c, log, current, |log| - 1);
    GroupInfo(c, Last(log), group);
    SwapInfos(c, log, |log| - 1, WithGroup(Last(log), group), current);
  }

  /** The IDs of the last segment and of a group that follows the log are increasing. */
  lemma LastSorted(log: Log, group: Group)
    requires log != [] && Sorted(LogIds(log) + GroupIds(group))
    ensures Sorted(SegmentIds(Last(log).groups) + GroupIds(group))
  {
    AppendAssociates(LogIds(log[..|log| - 1]), SegmentIds(Last(log).groups), GroupIds(group));
    SortedParts(LogIds(log[..|log| - 1]), SegmentIds(Last(log).groups) + GroupIds(group));
  }

  lemma CommitCounters(c: Codec, cfg: Config, m: Memory, log: Log, group: Group)
    requires LogSound(c, cfg, log) && Mirrors(c, m, log) && Counters(m, log) && Follows(c, cfg.segmentBytes, log, group)
    requires m.current in m.segments
    requires Sorted(m.ids + GroupIds(group)) && forall id :: id in GroupIds(group) ==> id < m.nextID
    requires LogIds(Appended(log, group)) == LogIds(log) + GroupIds(group)
    ensures Counters(AfterCommit(c, m, group, |DataBytes(c, Last(log))|), Appended(log, group))
  {
    hide GroupIds, Mirrors, Elements, NewRecords, Infos;
    NewRecordsKeys(c, m.current, group, |DataBytes(c, Last(log))|);
    ElementsAppend(m.ids, GroupIds(group));
  }

  /** The directory after the group's bytes are appended to the last data file. */
  function WithData(disk: Disk, id: nat, bytes: seq<byte>): Disk
    requires id in disk.data
  {
    disk.(data := disk.data[id := disk.data[id] + bytes])
  }

  lemma CommitExact(c: Codec, cfg: Config, disk: Disk, log: Log, group: Group)
    requires LogSound(c, cfg, log) && Exact(c, disk, log) && Follows(c, cfg.segmentBytes, log, group)
    requires LogSound(c, cfg, Appended(log, group))
    ensures Last(log).id in disk.data
    ensures Exact(c, WithData(disk, Last(log).id, GroupBytes(c, group)), Appended(log, group))
  {
    hide SegmentKeys, Place, CommitFrame, GoodGroup, FramesBytes;
    var k, s := |log| - 1, Last(log);
    assert Holds(c, disk, log[k]);
    SliceEncodes(c, log, k);
    GroupPrinted(c, s, group);
    SwapExact(c, disk, log, k, WithGroup(s, group), disk.data[s.id] + GroupBytes(c, group), disk.states[s.id]);
    assert disk.states[s.id := disk.states[s.id]] == disk.states;
  }

  /** Committing a group whose IDs are fresh keeps memory, disk and log in agreement. */
  lemma CommitSound(c: Codec, cfg: Config, m: Memory, disk: Disk, log: Log, group: Group)
    requires Sound(c, cfg, m, disk, log) && Follows(c, cfg.segmentBytes, log, group)
    requires Sorted(m.ids + GroupIds(group)) && forall id :: id in GroupIds(group) ==> id < m.nextID
    ensures m.current in m.segments && Last(log).id in disk.data
    ensures LogEncodes(c, log) && Encodes(c, Last(log).groups)
    ensures Sound(c, cfg, AfterCommit(c, m, group, |DataBytes(c, Last(log))|),
                  WithData(disk, Last(log).id, GroupBytes(c, group)), Appended(log, group))
  {
    AppendedLog(c, cfg, log, group);
    CommitMirrors(c, cfg, m, log, group);
    CommitCounters(c, cfg, m, log, group);
    CommitExact(c, cfg, disk, log, group);
  }

  // ---- a checkpoint entry ------------------------------------------------------------------------

  function MarkedLog(log: Log, k: nat, e: StateEntry): Log
    requires k < |log|
  {
    Swap(log, k, WithEntry(log[k], e))
  }

  /** The bookkeeping of a segment after one entry about an active record. */
  function Noted(info: SegmentInfo, e: StateEntry): SegmentInfo {
    info.(
      stateSize := info.stateSize + STATE_ENTRY,
      activeRecords := if e.kind == Retry || info.activeRecords == 0 then info.activeRecords else info.activeRecords - 1,
      quarantinedRecords := info.quarantinedRecords + (if e.kind == Quarantine then 1 else 0))
  }

  /** The memory after one entry about an active record: file size, counters and the record itself. */
  function AfterEntry(m: Memory, e: StateEntry): Memory
    requires e.id in m.active && m.active[e.id].segmentID in m.segments
  {
    var id := m.active[e.id].segmentID;
    var info := m.segments[id];
    m.(segments := m.segments[id := Noted(info, e)],
       active := Marked(m.active, e),
       used := m.used + STATE_ENTRY,
       quarantined := m.quarantined + (if e.kind == Quarantine then 1 else 0))
  }

  lemma EntryInfo(c: Codec, s: SegmentLog, e: StateEntry, closed: bool)
    requires Encodes(c, s.groups) && Sorted(SegmentIds(s.groups)) && e.id in SegmentActive(c, s)
    ensures var info := InfoOf(c, s, closed);
            && (e.kind != Retry ==> info.activeRecords > 0)
            && InfoOf(c, WithEntry(s, e), closed) == Noted(info, e)
  {
    EntryAdded(c, s, e);
    if e.kind == Retry {
      Maps.UpdateSize(SegmentActive(c, s), e.id, SegmentActive(c, s)[e.id].(attempts := e.attempts));
    } else {
      Maps.RemoveSize(SegmentActive(c, s), e.id);
    }
  }

  /** Marking a record of the middle of three disjoint maps marks it in their union. */
  lemma MarkedMiddle(a: map<nat, Metadata>, b: map<nat, Metadata>, d: map<nat, Metadata>, e: StateEntry)
    requires e.id in b && e.id !in a && e.id !in d
    ensures a + Marked(b, e) + d == Marked(a + b + d, e)
  {
    if e.kind == Retry {
      Maps.UpdateMiddle(a, b, d, e.id, b[e.id].(attempts := e.attempts));
    } else {
      Maps.RemoveMiddle(a, b, d, e.id);
    }
  }

  lemma SegmentOf(c: Codec, cfg: Config, m: Memory, log: Log, id: nat) returns (k: nat)
    requires LogSound(c, cfg, log) && Mirrors(c, m, log) && id in m.active
    ensures k < |log| && m.active[id].segmentID == log[k].id
    ensures id in SegmentActive(c, log[k]) && log[k].id in m.segments
    ensures m.segments[log[k].id] == InfoOf(c, log[k], log[k].id != m.current)
    ensures Sorted(SegmentIds(log[k].groups)) && id in Elements(SegmentIds(log[k].groups))
  {
    k := ActiveSegment(c, log, id);
    InfoAt(c, log, m.current, k);
    var x, y := SplitAt(c, log, k, log[k]);
    SortedApart(x.ids, SegmentIds(log[k].groups), y.ids);
  }

  lemma MarkedSound(c: Codec, cfg: Config, log: Log, k: nat, e: StateEntry)
    requires LogSound(c, cfg, log) && k < |log|
    requires e.id in Elements(SegmentIds(log[k].groups)) && FitsU64(e.id) && FitsU32(e.attempts)
    ensures LogSound(c, cfg, MarkedLog(log, k, e)) && LogIds(MarkedLog(log, k, e)) == LogIds(log)
  {
    var s := log[k];
    var x, y := SplitAt(c, log, k, WithEntry(s, e));
    WithEntryGood(c, cfg.segmentBytes, s, e);
    SwapGood(c, cfg.segmentBytes, log, k, WithEntry(s, e));
    EntryPrinted(c, s, e);
    SwapSettled(log, k, WithEntry(s, e));
  }

  lemma WithEntryGood(c: Codec, limit: nat, s: SegmentLog, e: StateEntry)
    requires GoodSegment(c, limit, s) && FitsU64(e.id) && FitsU32(e.attempts)
    ensures GoodSegment(c, limit, WithEntry(s, e))
  {}

  lemma EntryMirrors(c: Codec, cfg: Config, m: Memory, log: Log, k: nat, e: StateEntry)
    requires LogSound(c, cfg, log) && Mirrors(c, m, log) && k < |log|
    requires e.id in m.active && m.active[e.id].segmentID == log[k].id && log[k].id in m.segments
    requires m.segments[log[k].id] == InfoOf(c, log[k], log[k].id != m.current)
    requires e.id in SegmentActive(c, log[k]) && Sorted(SegmentIds(log[k].groups))
    requires e.id in Elements(SegmentIds(log[k].groups))
    ensures LogEncodes(c, MarkedLog(log, k, e))
    ensures Mirrors(c, AfterEntry(m, e), MarkedLog(log, k, e))
  {
    EntryTotals(c, log, k, e);
    EntryInfos(c, log, k, e, m.current);
    SwapIds(log, k, WithEntry(log[k], e));
    NotedMirrors(c, m, log, MarkedLog(log, k, e), e);
  }

  lemma NotedMirrors(c: Codec, m: Memory, log: Log, log': Log, e: StateEntry)
    requires LogEncodes(c, log) && log != [] && LogEncodes(c, log') && log' != [] && Mirrors(c, m, log)
    requires e.id in m.active && m.active[e.id].segmentID in m.segments
    requires Last(log').id == Last(log).id && SegmentIdsOf(log') == SegmentIdsOf(log)
    requires var id := m.active[e.id].segmentID; Infos(c, log', m.current) == m.segments[id := Noted(m.segments[id], e)]
    requires ActiveOf(c, log') == Marked(m.active, e)
    requires QuarantinedOf(c, log') == m.quarantined + (if e.kind == Quarantine then 1 else 0)
    requires UsedBy(c, log') == m.used + STATE_ENTRY
    ensures Mirrors(c, AfterEntry(m, e), log')
  {}

  lemma EntryInfos(c: Codec, log: Log, k: nat, e: StateEntry, current: nat)
    requires LogEncodes(c, log) && k < |log| && e.id in SegmentActive(c, log[k]) && Sorted(SegmentIds(log[k].groups))
    requires forall i, j :: 0 <= i < j < |log| ==> log[i].id < log[j].id
    ensures LogEncodes(c, MarkedLog(log, k, e)) && log[k].id in Infos(c, log, current)
    ensures Infos(c, MarkedLog(log, k, e), current)
         == Infos(c, log, current)[log[k].id := Noted(Infos(c, log, current)[log[k].id], e)]
  {
    InfoAt(c, log, current, k);
    EntryInfo(c, log[k], e, log[k].id != current);
    SwapInfos(c, log, k, WithEntry(log[k], e), current);
  }

  /** What an entry changes in the active records, the quarantine count and the bytes in use. */
  lemma EntryTotals(c: Codec, log: Log, k: nat, e: StateEntry)
    requires LogEncodes(c, log) && k < |log| && Sorted(LogIds(log))
    requires e.id in SegmentActive(c, log[k]) && e.id in Elements(SegmentIds(log[k].groups))
    ensures LogEncodes(c, MarkedLog(log, k, e)) && e.id in ActiveOf(c, log)
    ensures ActiveOf(c, MarkedLog(log, k, e)) == Marked(ActiveOf(c, log), e)
    ensures QuarantinedOf(c, MarkedLog(log, k, e)) == QuarantinedOf(c, log) + (if e.kind == Quarantine then 1 else 0)
    ensures UsedBy(c, MarkedLog(log, k, e)) == UsedBy(c, log) + STATE_ENTRY
  {
    var s := log[k];
    var x, y := SplitAt(c, log, k, WithEntry(s, e));
    SortedApart(x.ids, SegmentIds(s.groups), y.ids);
    EntryAdded(c, s, e);
    MarkedMiddle(x.active, SegmentActive(c, s), y.active, e);
  }

  /** The directory after entry bytes are appended to a checkpoint file. */
  function WithState(disk: Disk, id: nat, bytes: seq<byte>): Disk
    requires id in disk.states
  {
    disk.(states := disk.states[id := disk.states[id] + bytes])
  }

  lemma EntryExact(c: Codec, cfg: Config, disk: Disk, log: Log, k: nat, e: StateEntry)
    requires LogSound(c, cfg, log) && Exact(c, disk, log) && k < |log|
    ensures LogEncodes(c, MarkedLog(log, k, e)) && log[k].id in disk.states
    ensures Exact(c, WithState(disk, log[k].id, Entry(c, e)), MarkedLog(log, k, e))
  {
    var s := log[k];
    assert Holds(c, disk, log[k]);
    SliceEncodes(c, log, k);
    EntryPrinted(c, s, e);
    SwapEncodes(c, log, k, WithEntry(s, e));
    SwapExact(c, disk, log, k, WithEntry(s, e), disk.data[s.id], disk.states[s.id] + Entry(c, e));
    assert disk.data[s.id := disk.data[s.id]] == disk.data;
  }

  /** One checkpoint entry about an active record keeps memory, disk and log in agreement. */
  lemma EntrySound(c: Codec, cfg: Config, m: Memory, disk: Disk, log: Log, e: StateEntry) returns (k: nat)
    requires Sound(c, cfg, m, disk, log) && e.id in m.active && FitsU64(e.id) && FitsU32(e.attempts)
    ensures k < |log| && m.active[e.id].segmentID == log[k].id && log[k].id in m.segments && log[k].id in disk.states
    ensures Sound(c, cfg, AfterEntry(m, e), WithState(disk, log[k].id, Entry(c, e)), MarkedLog(log, k, e))
  {
    hide LogSound, SegmentIds, Exact, SegmentKeys, GoodLog;
    k := SegmentOf(c, cfg, m, log, e.id);
    EntryMirrors(c, cfg, m, log, k, e);
    MarkedSound(c, cfg, log, k, e);
    EntryExact(c, cfg, disk, log, k, e);
  }
}
