/** Opening a segment and removing one that holds nothing any more. */
module WalSegments {
  import opened Bytes
  import opened Telemetry
  import opened WalFormat
  import opened WalLog
  import opened WalContents
  import opened WalOps
  import opened WalMemory
  import Maps

  // ---- rotation ----------------------------------------------------------------------------------

  function NewSegment(id: nat, now: nat): SegmentLog {
    SegmentLog(id, now, [], [])
  }

  function Rotated(log: Log, id: nat, now: nat): Log {
    log + [NewSegment(id, now)]
  }

  const EMPTY_INFO := SegmentInfo(SEGMENT_HEADER, STATE_HEADER, [], 0, 0, false)

  /** The memory after `rotateLocked`. */
  function AfterRotate(m: Memory): Memory
    requires m.current in m.segments
  {
    var id := m.nextSegmentID;
    m.(nextSegmentID := id + 1,
       current := id,
       segments := m.segments[m.current := m.segments[m.current].(closed := true)][id := EMPTY_INFO],
       segmentIDs := m.segmentIDs + [id],
       used := m.used + SEGMENT_HEADER + STATE_HEADER)
  }

  lemma NewSegmentIs(c: Codec, id: nat, now: nat)
    ensures var s := NewSegment(id, now);
            && Encodes(c, s.groups) && DataBytes(c, s) == SegmentHeader(c, id, now) && CheckpointBytes(c, s) == StateHeader(c, id)
            && SegmentIds(s.groups) == [] && SegmentActive(c, s) == map[] && SegmentQuarantined(c, s) == 0
            && InfoOf(c, s, false) == EMPTY_INFO && StatesOf(s.entries) == map[]
  {
    var s := NewSegment(id, now);
    assert GroupsBytes(c, s.groups) == [] && EntriesBytes(c, s.entries) == [];
    assert SegmentHeader(c, id, now) + [] == SegmentHeader(c, id, now);
    assert StateHeader(c, id) + [] == StateHeader(c, id);
    assert PlaceGroups(c, s.groups, SEGMENT_HEADER) == [];
  }

  lemma RotatedLog(c: Codec, cfg: Config, log: Log, id: nat, now: nat)
    requires LogSound(c, cfg, log) && Last(log).id < id && FitsU64(id)
    ensures LogSound(c, cfg, Rotated(log, id, now)) && LogIds(Rotated(log, id, now)) == LogIds(log)
    ensures ActiveOf(c, Rotated(log, id, now)) == ActiveOf(c, log)
    ensures QuarantinedOf(c, Rotated(log, id, now)) == QuarantinedOf(c, log)
    ensures UsedBy(c, Rotated(log, id, now)) == UsedBy(c, log) + SEGMENT_HEADER + STATE_HEADER
  {
    hide SegmentActive, StateHeader, GoodSegment, Big, GroupsBytes;
    var log', s := Rotated(log, id, now), NewSegment(id, now);
    NewSegmentIs(c, id, now);
    assert log'[..|log|] == log && log'[|log|] == s;
    PartsEncode(c, log, [s]);
    ActiveStep(c, log');
    Maps.EmptyRight(ActiveOf(c, log));
    assert LogIds(log) + [] == LogIds(log);
    RotatedSegments(c, cfg, log, id, now);
  }

  lemma RotatedSegments(c: Codec, cfg: Config, log: Log, id: nat, now: nat)
    requires LogSound(c, cfg, log) && Last(log).id < id && FitsU64(id)
    ensures Settled(Rotated(log, id, now))
    ensures forall j :: 0 <= j <= |log| ==> GoodSegment(c, cfg.segmentBytes, Rotated(log, id, now)[j])
    ensures forall i, j :: 0 <= i < j <= |log| ==> Rotated(log, id, now)[i].id < Rotated(log, id, now)[j].id
  {
    var log' := Rotated(log, id, now);
    NewSegmentIs(c, id, now);
    forall j | 0 <= j <= |log|
      ensures GoodSegment(c, cfg.segmentBytes, log'[j])
      ensures StatesOf(log'[j].entries).Keys <= Elements(SegmentIds(log'[j].groups))
    {
      if j < |log| { assert log'[j] == log[j] && GoodSegment(c, cfg.segmentBytes, log[j]); }
    }
    forall i, j | 0 <= i < j <= |log| ensures log'[i].id < log'[j].id {
      assert log'[i] == log[i] && log[i].id <= Last(log).id;
    }
  }

  lemma RotatedInfos(c: Codec, cfg: Config, log: Log, id: nat, now: nat)
    requires LogSound(c, cfg, log) && Last(log).id < id
    ensures LogEncodes(c, Rotated(log, id, now))
    ensures Last(log).id in Infos(c, log, Last(log).id)
    ensures Infos(c, Rotated(log, id, now), id)
         == Infos(c, log, Last(log).id)[Last(log).id := Infos(c, log, Last(log).id)[Last(log).id].(closed := true)][id := EMPTY_INFO]
  {
    var log', init, last := Rotated(log, id, now), log[..|log| - 1], Last(log);
    NewSegmentIs(c, id, now);
    PartsEncode(c, log, [NewSegment(id, now)]);
    assert log'[..|log|] == log;
    InfosStep(c, log', id);
    InfosStep(c, log, id);
    InfosStep(c, log, last.id);
    InfosOthers(c, init, id, last.id);
    Twice(Infos(c, init, id), last.id, InfoOf(c, last, false), InfoOf(c, last, true));
  }

  lemma Twice<K, V>(m: map<K, V>, k: K, v: V, w: V)
    ensures m[k := v][k := w] == m[k := w]
  {}

  lemma RotatedExact(c: Codec, cfg: Config, disk: Disk, log: Log, id: nat, now: nat)
    requires LogSound(c, cfg, log) && Exact(c, disk, log) && Last(log).id < id
    ensures LogEncodes(c, Rotated(log, id, now))
    ensures Exact(c, Put(disk, id, SegmentHeader(c, id, now), StateHeader(c, id)), Rotated(log, id, now))
  {
    hide SegmentHeader, DataBytes, SegmentKeys, SegmentFrames, GroupIds;
    var log', data, state := Rotated(log, id, now), SegmentHeader(c, id, now), StateHeader(c, id);
    NewSegmentIs(c, id, now);
    PartsEncode(c, log, [NewSegment(id, now)]);
    forall k | 0 <= k < |log'| ensures Holds(c, Put(disk, id, data, state), log'[k]) {
      if k < |log| { RotatedHolds(c, disk, log, k, id, data, state); }
    }
    RotatedKeys(log, id, now);
  }

  lemma RotatedKeys(log: Log, id: nat, now: nat)
    ensures SegmentKeys(Rotated(log, id, now)) == SegmentKeys(log) + {id}
  {
    assert Rotated(log, id, now)[..|log|] == log;
    KeysStep(Rotated(log, id, now));
  }

  lemma RotatedHolds(c: Codec, disk: Disk, log: Log, k: nat, id: nat, data: seq<byte>, state: seq<byte>)
    requires LogEncodes(c, log) && Exact(c, disk, log) && k < |log| && Last(log).id < id
    requires forall i, j :: 0 <= i < j < |log| ==> log[i].id < log[j].id
    ensures Encodes(c, log[k].groups) && Holds(c, Put(disk, id, data, state), log[k])
  {
    assert log[k].id <= Last(log).id;
    HoldsElsewhere(c, disk, id, data, state, log[k]);
  }

  /** Opening a new segment keeps memory, disk and log in agreement. */
  lemma RotateSound(c: Codec, cfg: Config, m: Memory, disk: Disk, log: Log, now: nat)
    requires Sound(c, cfg, m, disk, log) && FitsU64(m.nextSegmentID)
    ensures m.current in m.segments
    ensures Sound(c, cfg, AfterRotate(m),
                  Put(disk, m.nextSegmentID, SegmentHeader(c, m.nextSegmentID, now), StateHeader(c, m.nextSegmentID)),
                  Rotated(log, m.nextSegmentID, now))
  {
    var id := m.nextSegmentID;
    RotatedLog(c, cfg, log, id, now);
    RotatedInfos(c, cfg, log, id, now);
    RotatedExact(c, cfg, disk, log, id, now);
    RotatedIds(log, id, now);
  }

  lemma RotatedIds(log: Log, id: nat, now: nat)
    ensures SegmentIdsOf(Rotated(log, id, now)) == SegmentIdsOf(log) + [id]
  {}

  // ---- compaction --------------------------------------------------------------------------------

  /** A segment whose files may go: nothing in it is to be delivered or kept as evidence. */
  ghost predicate Spent(c: Codec, s: SegmentLog)
    requires Encodes(c, s.groups)
  {
    SegmentActive(c, s) == map[] && SegmentQuarantined(c, s) == 0
  }

  function Without(log: Log, k: nat): Log
    requires k < |log|
  {
    log[..k] + log[k + 1..]
  }

  /** The memory after one segment is removed. */
  function AfterDrop(m: Memory, k: nat): Memory
    requires k < |m.segmentIDs| && m.segmentIDs[k] in m.segments
  {
    var id := m.segmentIDs[k];
    var size := m.segments[id].size + m.segments[id].stateSize;
    m.(segments := m.segments - {id},
       segmentIDs := m.segmentIDs[..k] + m.segmentIDs[k + 1..],
       used := if size <= m.used then m.used - size else 0)
  }

  function Erase(disk: Disk, id: nat): Disk {
    Disk(disk.data - {id}, disk.states - {id})
  }

  lemma WithoutTotals(c: Codec, log: Log, k: nat)
    requires LogEncodes(c, log) && k < |log| && Spent(c, log[k])
    ensures LogEncodes(c, Without(log, k))
    ensures ActiveOf(c, Without(log, k)) == ActiveOf(c, log)
    ensures QuarantinedOf(c, Without(log, k)) == QuarantinedOf(c, log)
    ensures UsedBy(c, log) == UsedBy(c, Without(log, k)) + |DataBytes(c, log[k])| + |CheckpointBytes(c, log[k])|
    ensures LogIds(Without(log, k)) == LogIds(log[..k]) + LogIds(log[k + 1..])
    ensures LogIds(log) == LogIds(log[..k]) + SegmentIds(log[k].groups) + LogIds(log[k + 1..])
  {
    var a, b := log[..k], log[k + 1..];
    SliceEncodes(c, log, k);
    PartsEncode(c, a, b);
    SwapIsParts(log, k, log[k]);
    Around(c, a, log[k], b, 0);
    LogIdsParts(a, b);
    ActiveParts(c, a, b);
    QuarantinedParts(c, a, b);
    UsedParts(c, a, b);
    Maps.EmptyRight(ActiveOf(c, a));
  }

  lemma WithoutInfos(c: Codec, log: Log, k: nat, current: nat)
    requires LogEncodes(c, log) && k < |log| && forall i, j :: 0 <= i < j < |log| ==> log[i].id < log[j].id
    ensures LogEncodes(c, Without(log, k))
    ensures Infos(c, Without(log, k), current) == Infos(c, log, current) - {log[k].id}
  {
    var a, b := log[..k], log[k + 1..];
    SliceEncodes(c, log, k);
    PartsEncode(c, a, b);
    SwapIsParts(log, k, log[k]);
    Around(c, a, log[k], b, current);
    InfosParts(c, a, b, current);
    InfosKeys(c, a, current);
    InfosKeys(c, b, current);
    assert log[k].id !in SegmentKeys(a) && log[k].id !in SegmentKeys(b);
    Removed(Infos(c, a, current), Infos(c, b, current), log[k].id, InfoOf(c, log[k], log[k].id != current));
  }

  lemma Removed<K, V>(a: map<K, V>, b: map<K, V>, k: K, v: V)
    requires k !in a && k !in b
    ensures a + b == (a[k := v] + b) - {k}
  {}

  /** The segment that comes to index `j` when segment `k` is removed. */
  function Shift(k: nat, j: nat): nat {
    if j < k then j else j + 1
  }

  lemma WithoutAt(log: Log, k: nat, j: nat)
    requires k < |log| && j < |log| - 1
    ensures Without(log, k)[j] == log[Shift(k, j)]
  {}

  lemma WithoutGood(c: Codec, cfg: Config, log: Log, k: nat, x: seq<nat>, here: seq<nat>, y: seq<nat>)
    requires LogSound(c, cfg, log) && k < |log| - 1
    requires LogIds(Without(log, k)) == x + y && LogIds(log) == x + here + y
    ensures LogSound(c, cfg, Without(log, k))
    ensures forall id :: id in LogIds(Without(log, k)) ==> id in LogIds(log)
  {
    SortedGap(x, here, y);
    WithoutSegments(c, cfg, log, k);
    MakeSound(c, cfg, Without(log, k));
  }

  lemma WithoutLast(log: Log, k: nat)
    requires k < |log| - 1
    ensures Without(log, k) != [] && Last(Without(log, k)) == Last(log)
  {}

  lemma MakeSound(c: Codec, cfg: Config, log: Log)
    requires c.Lawful() && cfg.Valid() && log != [] && LogEncodes(c, log) && Settled(log) && Sorted(LogIds(log))
    requires forall j :: 0 <= j < |log| ==> GoodSegment(c, cfg.segmentBytes, log[j])
    requires forall i, j :: 0 <= i < j < |log| ==> log[i].id < log[j].id
    ensures LogSound(c, cfg, log)
  {}

  lemma WithoutSegments(c: Codec, cfg: Config, log: Log, k: nat)
    requires LogSound(c, cfg, log) && k < |log| - 1
    ensures LogEncodes(c, Without(log, k)) && Settled(Without(log, k))
    ensures forall j :: 0 <= j < |log| - 1 ==> GoodSegment(c, cfg.segmentBytes, Without(log, k)[j])
    ensures forall i, j :: 0 <= i < j < |log| - 1 ==> Without(log, k)[i].id < Without(log, k)[j].id
  {
    var log' := Without(log, k);
    forall j | 0 <= j < |log'|
      ensures GoodSegment(c, cfg.segmentBytes, log'[j]) && Encodes(c, log'[j].groups)
      ensures StatesOf(log'[j].entries).Keys <= Elements(SegmentIds(log'[j].groups))
    {
      WithoutAt(log, k, j);
      assert GoodSegment(c, cfg.segmentBytes, log[Shift(k, j)]);
    }
    forall i, j | 0 <= i < j < |log'| ensures log'[i].id < log'[j].id {
      WithoutAt(log, k, i);
      WithoutAt(log, k, j);
    }
  }

  lemma SortedGap(a: seq<nat>, s: seq<nat>, b: seq<nat>)
    requires Sorted(a + s + b)
    ensures Sorted(a + b) && forall id :: id in a + b ==> id in a + s + b
  {
    var all := a + s + b;
    forall i | 0 <= i < |a + b| ensures (a + b)[i] == all[if i < |a| then i else i + |s|] {}
    forall i, j | 0 <= i < j < |a + b| ensures (a + b)[i] < (a + b)[j] {
      var i', j' := if i < |a| then i else i + |s|, if j < |a| then j else j + |s|;
      assert all[i'] < all[j'];
    }
  }

  lemma WithoutKeys(log: Log, k: nat)
    requires k < |log| && forall i, j :: 0 <= i < j < |log| ==> log[i].id < log[j].id
    ensures SegmentKeys(Without(log, k)) == SegmentKeys(log) - {log[k].id}
  {
    var log' := Without(log, k);
    forall s | s in log' ensures s in log && s.id != log[k].id {
      var j :| 0 <= j < |log'| && log'[j] == s;
      WithoutAt(log, k, j);
      assert log[Shift(k, j)].id != log[k].id;
    }
    forall s | s in log && s.id != log[k].id ensures s in log' { WithoutHas(log, k, s); }
  }

  lemma WithoutHas(log: Log, k: nat, s: SegmentLog)
    requires k < |log| && s in log && s != log[k]
    ensures s in Without(log, k)
  {
    var j :| 0 <= j < |log| && log[j] == s;
    assert Without(log, k)[if j < k then j else j - 1] == s;
  }

  lemma WithoutIds(log: Log, k: nat)
    requires k < |log|
    ensures SegmentIdsOf(Without(log, k)) == SegmentIdsOf(log)[..k] + SegmentIdsOf(log)[k + 1..]
  {
    forall j | 0 <= j < |log| - 1 ensures Without(log, k)[j] == log[Shift(k, j)] { WithoutAt(log, k, j); }
  }

  lemma WithoutExact(c: Codec, disk: Disk, log: Log, k: nat)
    requires LogEncodes(c, log) && Exact(c, disk, log) && k < |log| && LogEncodes(c, Without(log, k))
    requires forall i, j :: 0 <= i < j < |log| ==> log[i].id < log[j].id
    ensures Exact(c, Erase(disk, log[k].id), Without(log, k))
  {
    WithoutKeys(log, k);
    var log', id := Without(log, k), log[k].id;
    forall j | 0 <= j < |log'| ensures Holds(c, Erase(disk, id), log'[j]) {
      WithoutAt(log, k, j);
      assert log[Shift(k, j)].id != id;
      HoldsWithout(c, disk, id, log[Shift(k, j)]);
    }
  }

  lemma HoldsWithout(c: Codec, disk: Disk, id: nat, s: SegmentLog)
    requires Encodes(c, s.groups) && Holds(c, disk, s) && s.id != id
    ensures Holds(c, Erase(disk, id), s)
  {}

  lemma DropMirrors(c: Codec, cfg: Config, m: Memory, log: Log, k: nat)
    requires LogSound(c, cfg, log) && Mirrors(c, m, log) && k < |log| - 1 && Spent(c, log[k])
    requires LogSound(c, cfg, Without(log, k)) && Last(Without(log, k)) == Last(log)
    ensures |m.segmentIDs| == |log| && m.segmentIDs[k] == log[k].id && log[k].id in m.segments
    ensures Mirrors(c, AfterDrop(m, k), Without(log, k))
  {
    WithoutTotals(c, log, k);
    WithoutInfos(c, log, k, m.current);
    WithoutIds(log, k);
    InfoAt(c, log, m.current, k);
  }

  /** Removing a spent segment other than the current one keeps memory, disk and log in agreement. */
  lemma DropSound(c: Codec, cfg: Config, m: Memory, disk: Disk, log: Log, k: nat)
    requires Sound(c, cfg, m, disk, log) && k < |log| - 1 && Spent(c, log[k])
    ensures |m.segmentIDs| == |log| && m.segmentIDs[k] == log[k].id && log[k].id in m.segments
    ensures Sound(c, cfg, AfterDrop(m, k), Erase(disk, log[k].id), Without(log, k))
  {
    WithoutTotals(c, log, k);
    WithoutGood(c, cfg, log, k, LogIds(log[..k]), SegmentIds(log[k].groups), LogIds(log[k + 1..]));
    WithoutLast(log, k);
    DropMirrors(c, cfg, m, log, k);
    WithoutExact(c, disk, log, k);
  }
}
