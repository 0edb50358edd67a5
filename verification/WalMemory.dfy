/** The in-memory state of a running log, what it must agree with on disk, and why each step keeps the agreement. */
module WalMemory {
  import opened Bytes
  import opened Telemetry
  import opened WalFormat
  import opened WalScan
  import opened WalLog
  import opened WalContents
  import opened WalOps

  datatype Config = Config(maxBytes: nat, segmentBytes: nat, maxBatchRecords: nat, maxRecordAttempts: nat) {
    /** The limits that `OpenWAL` insists on. */
    predicate Valid() {
      && maxBytes >= 1 && maxBatchRecords >= 1 && maxRecordAttempts >= 1
      && SEGMENT_HEADER + 2 * FRAME_HEADER <= segmentBytes < 0x1_0000_0000
    }
  }

  /** The fields of the log object that the mutex protects. */
  datatype Memory = Memory(
    nextID: nat,
    nextSegmentID: nat,
    current: nat,
    segments: map<nat, SegmentInfo>,
    segmentIDs: seq<nat>,
    active: map<nat, Metadata>,
    ids: seq<nat>,
    used: nat,
    quarantined: nat)

  ghost predicate LogSound(c: Codec, cfg: Config, log: Log) {
    c.Lawful() && cfg.Valid() && GoodLog(c, cfg.segmentBytes, log) && LogEncodes(c, log) && Settled(log)
  }

  /** The index is that of the log. */
  ghost predicate Mirrors(c: Codec, m: Memory, log: Log)
    requires LogEncodes(c, log) && log != []
  {
    && m.current == log[|log| - 1].id
    && m.segmentIDs == SegmentIdsOf(log)
    && m.segments == Infos(c, log, m.current)
    && m.active == ActiveOf(c, log)
    && m.quarantined == QuarantinedOf(c, log)
    && m.used == UsedBy(c, log)
  }

  /** Fresh IDs are above everything in use; the search index is sorted and covers the active records. */
  ghost predicate Counters(m: Memory, log: Log) {
    && (forall id :: id in LogIds(log) ==> id < m.nextID)
    && m.current < m.nextSegmentID && FitsU64(m.current)
    && Sorted(m.ids) && m.active.Keys <= Elements(m.ids) && (forall id :: id in m.ids ==> id < m.nextID)
  }

  /** Memory, disk and log agree. */
  ghost predicate Sound(c: Codec, cfg: Config, m: Memory, disk: Disk, log: Log) {
    LogSound(c, cfg, log) && Mirrors(c, m, log) && Counters(m, log) && Exact(c, disk, log)
  }

  // ---- one segment replaced ------------------------------------------------------------------------

  function Swap(log: Log, k: nat, s: SegmentLog): Log
    requires k < |log|
  {
    log[k := s]
  }

  lemma SwapIsParts(log: Log, k: nat, s: SegmentLog)
    requires k < |log|
    ensures Swap(log, k, s) == log[..k] + [s] + log[k + 1..]
    ensures log == log[..k] + [log[k]] + log[k + 1..]
  {}

  /** Everything the index says about a log, split around one segment. */
  lemma Around(c: Codec, a: Log, s: SegmentLog, b: Log, current: nat)
    requires LogEncodes(c, a) && Encodes(c, s.groups) && LogEncodes(c, b)
    ensures var log := a + [s] + b;
            && LogEncodes(c, log)
            && LogIds(log) == LogIds(a) + SegmentIds(s.groups) + LogIds(b)
            && ActiveOf(c, log) == ActiveOf(c, a) + SegmentActive(c, s) + ActiveOf(c, b)
            && QuarantinedOf(c, log) == QuarantinedOf(c, a) + SegmentQuarantined(c, s) + QuarantinedOf(c, b)
            && UsedBy(c, log) == UsedBy(c, a) + |DataBytes(c, s)| + |CheckpointBytes(c, s)| + UsedBy(c, b)
            && Infos(c, log, current) == Infos(c, a, current)[s.id := InfoOf(c, s, s.id != current)] + Infos(c, b, current)
  {
    var front := a + [s];
    PartsEncode(c, a, [s]);
    PartsEncode(c, front, b);
    assert front[..|front| - 1] == a && front[|front| - 1] == s;
    LogIdsParts(front, b);
    ActiveParts(c, front, b);
    QuarantinedParts(c, front, b);
    UsedParts(c, front, b);
    InfosParts(c, front, b, current);
    ActiveStep(c, front);
    InfosStep(c, front, current);
  }

  lemma SliceEncodes(c: Codec, log: Log, k: nat)
    requires LogEncodes(c, log) && k < |log|
    ensures LogEncodes(c, log[..k]) && LogEncodes(c, log[k + 1..]) && Encodes(c, log[k].groups)
  {}

  /** Replacing a segment's contents keeps the log well formed if its new contents are and the IDs stay sorted. */
  lemma SwapGood(c: Codec, limit: nat, log: Log, k: nat, s: SegmentLog)
    requires GoodLog(c, limit, log) && k < |log|
    requires s.id == log[k].id && GoodSegment(c, limit, s) && Sorted(LogIds(Swap(log, k, s)))
    ensures GoodLog(c, limit, Swap(log, k, s))
  {
    var log' := Swap(log, k, s);
    forall j | 0 <= j < |log'| ensures GoodSegment(c, limit, log'[j]) && log'[j].id == log[j].id {
      if j != k { assert log'[j] == log[j]; }
    }
  }

  lemma SwapSettled(log: Log, k: nat, s: SegmentLog)
    requires Settled(log) && k < |log| && StatesOf(s.entries).Keys <= Elements(SegmentIds(s.groups))
    ensures Settled(Swap(log, k, s))
  {
    var log' := Swap(log, k, s);
    forall j | 0 <= j < |log'| ensures StatesOf(log'[j].entries).Keys <= Elements(SegmentIds(log'[j].groups)) {
      if j != k { assert log'[j] == log[j]; }
    }
  }

  /** The directory with both files of one segment set. */
  function Put(disk: Disk, id: nat, data: seq<byte>, state: seq<byte>): Disk {
    Disk(disk.data[id := data], disk.states[id := state])
  }

  lemma HoldsElsewhere(c: Codec, disk: Disk, id: nat, data: seq<byte>, state: seq<byte>, s: SegmentLog)
    requires Encodes(c, s.groups) && Holds(c, disk, s) && s.id != id
    ensures Holds(c, Put(disk, id, data, state), s)
  {}

  /** Writing the new contents of one segment to its files is all that its replacement needs on disk. */
  lemma SwapExact(c: Codec, disk: Disk, log: Log, k: nat, s: SegmentLog, data: seq<byte>, state: seq<byte>)
    requires LogEncodes(c, log) && k < |log| && Exact(c, disk, log)
    requires forall i, j :: 0 <= i < j < |log| ==> log[i].id < log[j].id
    requires s.id == log[k].id && Encodes(c, s.groups) && LogEncodes(c, Swap(log, k, s))
    requires data == DataBytes(c, s) && state == CheckpointBytes(c, s)
    ensures Exact(c, Put(disk, s.id, data, state), Swap(log, k, s))
  {
    forall j | 0 <= j < |log| ensures Holds(c, Put(disk, s.id, data, state), Swap(log, k, s)[j]) {
      if j != k { HoldsElsewhere(c, disk, s.id, data, state, log[j]); }
    }
    SwapKeys(log, k, s);
    PutKeys(disk, log, k, data, state);
  }

  lemma PutKeys(disk: Disk, log: Log, k: nat, data: seq<byte>, state: seq<byte>)
    requires k < |log| && disk.data.Keys == SegmentKeys(log)
    ensures Put(disk, log[k].id, data, state).data.Keys == SegmentKeys(log)
  {
    assert log[k] in log;
  }

  lemma SwapKeys(log: Log, k: nat, s: SegmentLog)
    requires k < |log| && s.id == log[k].id
    ensures SegmentKeys(Swap(log, k, s)) == SegmentKeys(log)
  {
    var log' := Swap(log, k, s);
    forall t | t in log' ensures t.id in SegmentKeys(log) {
      var j :| 0 <= j < |log'| && log'[j] == t;
      assert log[j] in log && log[j].id == t.id;
    }
    forall t | t in log ensures t.id in SegmentKeys(log') {
      var j :| 0 <= j < |log| && log[j] == t;
      assert log'[j] in log' && log'[j].id == t.id;
    }
  }

  lemma SwapIds(log: Log, k: nat, s: SegmentLog)
    requires k < |log| && s.id == log[k].id
    ensures SegmentIdsOf(Swap(log, k, s)) == SegmentIdsOf(log)
  {
    var log' := Swap(log, k, s);
    assert forall j :: 0 <= j < |log| && j != k ==> log'[j] == log[j];
  }

  lemma SwapEncodes(c: Codec, log: Log, k: nat, s: SegmentLog)
    requires LogEncodes(c, log) && k < |log| && Encodes(c, s.groups)
    ensures LogEncodes(c, Swap(log, k, s))
  {}

  /** The bookkeeping after replacing one segment. */
  lemma SwapInfos(c: Codec, log: Log, k: nat, s: SegmentLog, current: nat)
    requires LogEncodes(c, log) && k < |log| && s.id == log[k].id && Encodes(c, s.groups)
    requires forall i, j :: 0 <= i < j < |log| ==> log[i].id < log[j].id
    ensures LogEncodes(c, Swap(log, k, s))
    ensures Infos(c, Swap(log, k, s), current) == Infos(c, log, current)[s.id := InfoOf(c, s, s.id != current)]
  {
    var a, b := log[..k], log[k + 1..];
    SliceEncodes(c, log, k);
    SwapIsParts(log, k, s);
    Around(c, a, log[k], b, current);
    Around(c, a, s, b, current);
    InfosKeys(c, b, current);
    assert s.id !in SegmentKeys(b);
    Overwrite(Infos(c, a, current), Infos(c, b, current), s.id,
              InfoOf(c, log[k], s.id != current), InfoOf(c, s, s.id != current));
  }

  lemma Overwrite<K, V>(a: map<K, V>, b: map<K, V>, k: K, v: V, w: V)
    requires k !in b
    ensures a[k := w] + b == (a[k := v] + b)[k := w]
  {}

  /** What the segments on one side of a given one contribute to the index. */
  datatype Part = Part(ids: seq<nat>, active: map<nat, Metadata>, quarantined: nat, used: nat)

  /** The index of a log around one segment, before and after that segment is replaced. */
  lemma SplitAt(c: Codec, log: Log, k: nat, s: SegmentLog) returns (x: Part, y: Part)
    requires LogEncodes(c, log) && k < |log| && Encodes(c, s.groups)
    ensures LogEncodes(c, Swap(log, k, s)) && Encodes(c, log[k].groups)
    ensures LogIds(log) == x.ids + SegmentIds(log[k].groups) + y.ids
    ensures LogIds(Swap(log, k, s)) == x.ids + SegmentIds(s.groups) + y.ids
    ensures ActiveOf(c, log) == x.active + SegmentActive(c, log[k]) + y.active
    ensures ActiveOf(c, Swap(log, k, s)) == x.active + SegmentActive(c, s) + y.active
    ensures QuarantinedOf(c, log) == x.quarantined + SegmentQuarantined(c, log[k]) + y.quarantined
    ensures QuarantinedOf(c, Swap(log, k, s)) == x.quarantined + SegmentQuarantined(c, s) + y.quarantined
    ensures UsedBy(c, log) == x.used + |DataBytes(c, log[k])| + |CheckpointBytes(c, log[k])| + y.used
    ensures UsedBy(c, Swap(log, k, s)) == x.used + |DataBytes(c, s)| + |CheckpointBytes(c, s)| + y.used
    ensures x.active.Keys <= Elements(x.ids) && y.active.Keys <= Elements(y.ids)
    ensures k == |log| - 1 ==> y == Part([], map[], 0, 0)
  {
    var a, b := log[..k], log[k + 1..];
    SliceEncodes(c, log, k);
    SwapIsParts(log, k, s);
    Around(c, a, log[k], b, 0);
    Around(c, a, s, b, 0);
    ActiveKeys(c, a);
    ActiveKeys(c, b);
    x := Part(LogIds(a), ActiveOf(c, a), QuarantinedOf(c, a), UsedBy(c, a));
    y := Part(LogIds(b), ActiveOf(c, b), QuarantinedOf(c, b), UsedBy(c, b));
  }

  /** The same for the last segment, which nothing follows. */
  lemma SplitLast(c: Codec, log: Log, s: SegmentLog) returns (x: Part)
    requires LogEncodes(c, log) && log != [] && Encodes(c, s.groups)
    ensures LogEncodes(c, Swap(log, |log| - 1, s)) && Encodes(c, log[|log| - 1].groups)
    ensures ActiveOf(c, log) == x.active + SegmentActive(c, log[|log| - 1])
    ensures ActiveOf(c, Swap(log, |log| - 1, s)) == x.active + SegmentActive(c, s)
    ensures QuarantinedOf(c, log) == x.quarantined + SegmentQuarantined(c, log[|log| - 1])
    ensures QuarantinedOf(c, Swap(log, |log| - 1, s)) == x.quarantined + SegmentQuarantined(c, s)
    ensures UsedBy(c, log) == x.used + |DataBytes(c, log[|log| - 1])| + |CheckpointBytes(c, log[|log| - 1])|
    ensures UsedBy(c, Swap(log, |log| - 1, s)) == x.used + |DataBytes(c, s)| + |CheckpointBytes(c, s)|
  {
    var a := log[..|log| - 1];
    assert Swap(log, |log| - 1, s)[..|log| - 1] == a;
    x := Part([], ActiveOf(c, a), QuarantinedOf(c, a), UsedBy(c, a));
  }

  lemma ActiveKeys(c: Codec, log: Log)
    requires LogEncodes(c, log)
    ensures ActiveOf(c, log).Keys <= Elements(LogIds(log))
  {
    forall id | id in ActiveOf(c, log) ensures id in LogIds(log) {
      var k := ActiveSegment(c, log, id);
    }
  }

  // ---- committing a group --------------------------------------------------------------------------

  function Last(log: Log): SegmentLog
    requires log != []
  {
    log[|log| - 1]
  }

  /** The log with a group committed to its last segment. */
  function Appended(log: Log, group: Group): Log
    requires log != []
  {
    Swap(log, |log| - 1, WithGroup(Last(log), group))
  }

  /** The bookkeeping of a segment after `n` more bytes with these records. */
  function Grown(info: SegmentInfo, n: nat, ids: seq<nat>): SegmentInfo {
    info.(size := info.size + n, recordIDs := info.recordIDs + ids, activeRecords := info.activeRecords + |ids|)
  }

  /** The memory after a group commit: `commitGroup` after the sync. */
  function AfterCommit(c: Codec, m: Memory, group: Group, offset: nat): Memory
    requires m.current in m.segments && AllEncode(c, group) && group != []
  {
    var info := m.segments[m.current];
    m.(segments := m.segments[m.current := Grown(info, |GroupBytes(c, group)|, GroupIds(group))],
       active := m.active + NewRecords(c, m.current, group, offset),
       ids := m.ids + GroupIds(group),
       used := m.used + |GroupBytes(c, group)|)
  }

  lemma AppendedLog(c: Codec, cfg: Config, log: Log, group: Group)
    requires LogSound(c, cfg, log) && Follows(c, cfg.segmentBytes, log, group)
    ensures LogSound(c, cfg, Appended(log, group))
    ensures LogIds(Appended(log, group)) == LogIds(log) + GroupIds(group)
    ensures Elements(GroupIds(group)) !! StatesOf(Last(log).entries).Keys
    ensures Elements(GroupIds(group)) !! Elements(LogIds(log))
  {
    var k, s := |log| - 1, Last(log);
    var s' := WithGroup(s, group);
    GroupPrinted(c, s, group);
    var x, y := SplitAt(c, log, k, s');
    FreshBeyond(x.ids, SegmentIds(s.groups), GroupIds(group));
    WithGroupGood(c, cfg.segmentBytes, s, group);
    SwapGood(c, cfg.segmentBytes, log, k, s');
    SwapSettled(log, k, s');
  }

  lemma FreshBeyond(x: seq<nat>, here: seq<nat>, added: seq<nat>)
    requires Sorted(x + here + [] + added)
    ensures x + (here + added) + [] == x + here + [] + added
    ensures Elements(added) !! Elements(here) && Elements(added) !! Elements(x + here + [])
    ensures Elements(here) <= Elements(here + added)
  {
    AppendAssociates(x, here, added);
    assert x + here + [] == x + here;
    SortedParts(x + here, added);
    ElementsAppend(x, here);
  }

  lemma WithGroupGood(c: Codec, limit: nat, s: SegmentLog, group: Group)
    requires GoodSegment(c, limit, s) && GoodGroup(c, limit, group)
    ensures GoodSegment(c, limit, WithGroup(s, group))
  {}
}
