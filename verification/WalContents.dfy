/**
 * What the index of a log says, record by record: a record is active exactly when it was committed and its latest
 * checkpoint entry neither acknowledges nor quarantines it, and it carries the attempt count of that entry.
 */
module WalContents {
  import opened Bytes
  import opened Telemetry
  import opened WalFormat
  import opened WalScan
  import opened WalLog

  // ---- one segment -------------------------------------------------------------------------------

  /** Where every committed record of a frame list lies, delivered or not. */
  function Placed(segmentID: nat, frames: seq<Located>): map<nat, Metadata> {
    ActiveIn(segmentID, frames, map[])
  }

  lemma {:induction false} ActiveInIs(segmentID: nat, frames: seq<Located>, states: map<nat, StateEntry>)
    ensures forall id :: id in ActiveIn(segmentID, frames, states) <==>
              id in Placed(segmentID, frames) && !Finished(states, id)
    ensures forall id :: id in ActiveIn(segmentID, frames, states) ==>
              ActiveIn(segmentID, frames, states)[id] == Placed(segmentID, frames)[id].(attempts := AttemptsIn(states, id))
  {
    if frames != [] {
      ActiveInIs(segmentID, frames[..|frames| - 1], states);
    }
  }

  lemma {:induction false} PlacedIs(segmentID: nat, frames: seq<Located>)
    ensures forall id :: id in Placed(segmentID, frames) <==> id in Ids(frames)
    ensures forall id :: id in Placed(segmentID, frames) ==>
              Placed(segmentID, frames)[id].segmentID == segmentID && Placed(segmentID, frames)[id].attempts == 0
  {
    if frames != [] {
      var init, last := frames[..|frames| - 1], frames[|frames| - 1];
      PlacedIs(segmentID, init);
      assert frames == init + [last];
      assert Ids(frames) == Ids(init) + {last.record.id} by {
        assert last in frames;
        assert forall f :: f in frames <==> f in init || f == last;
      }
    }
  }

  /** The records of a segment, by ID. */
  function SegmentPlaced(c: Codec, s: SegmentLog): map<nat, Metadata>
    requires Encodes(c, s.groups)
  {
    Placed(s.id, SegmentFrames(c, s))
  }

  lemma SegmentPlacedKeys(c: Codec, s: SegmentLog)
    requires Encodes(c, s.groups)
    ensures SegmentPlaced(c, s).Keys == Elements(SegmentIds(s.groups))
  {
    FrameIdsOfGroups(c, s.groups, SEGMENT_HEADER);
    IdsOfFrames(SegmentFrames(c, s));
    PlacedIs(s.id, SegmentFrames(c, s));
  }

  // ---- a whole log -------------------------------------------------------------------------------

  /** Every committed record of the log, by ID. */
  function AllPlaced(c: Codec, log: Log): map<nat, Metadata>
    requires LogEncodes(c, log)
  {
    if log == [] then map[] else AllPlaced(c, log[..|log| - 1]) + SegmentPlaced(c, log[|log| - 1])
  }

  /** The latest checkpoint entry of each record. */
  function Latest(log: Log): map<nat, StateEntry> {
    if log == [] then map[] else Latest(log[..|log| - 1]) + StatesOf(log[|log| - 1].entries)
  }

  /** A checkpoint file speaks of the records of its own segment only. */
  ghost predicate Settled(log: Log) {
    forall k :: 0 <= k < |log| ==> StatesOf(log[k].entries).Keys <= Elements(SegmentIds(log[k].groups))
  }

  /** Entry lists only name IDs their state map has. */
  lemma {:induction false} StatesKeys(entries: seq<StateEntry>)
    ensures forall k :: 0 <= k < |entries| ==> entries[k].id in StatesOf(entries)
    ensures forall id :: id in StatesOf(entries) ==> StatesOf(entries)[id].id == id && StatesOf(entries)[id] in entries
  {
    if entries != [] { StatesKeys(entries[..|entries| - 1]); }
  }

  lemma {:induction false} PlacedKeys(c: Codec, log: Log)
    requires LogEncodes(c, log)
    ensures AllPlaced(c, log).Keys == Elements(LogIds(log))
  {
    if log != [] {
      var init, last := log[..|log| - 1], log[|log| - 1];
      PlacedKeys(c, init);
      SegmentPlacedKeys(c, last);
      ElementsAppend(LogIds(init), SegmentIds(last.groups));
    }
  }

  lemma {:induction false} LatestKeys(log: Log)
    requires Settled(log)
    ensures Latest(log).Keys <= Elements(LogIds(log))
  {
    if log != [] {
      var init, last := log[..|log| - 1], log[|log| - 1];
      assert Settled(init);
      LatestKeys(init);
      ElementsAppend(LogIds(init), SegmentIds(last.groups));
    }
  }

  /** `active` is `placed` without the finished records, with the attempts of the latest entries. */
  ghost predicate Undelivered(active: map<nat, Metadata>, placed: map<nat, Metadata>, states: map<nat, StateEntry>) {
    && (forall id :: id in active <==> id in placed && !Finished(states, id))
    && (forall id :: id in active ==> active[id] == placed[id].(attempts := AttemptsIn(states, id)))
  }

  /** The index of a log is exactly its committed records that are not finished, with their attempt counts. */
  lemma {:induction false} ActiveOfIs(c: Codec, log: Log)
    requires LogEncodes(c, log) && Settled(log) && Sorted(LogIds(log))
    ensures Undelivered(ActiveOf(c, log), AllPlaced(c, log), Latest(log))
  {
    if log != [] {
      var init, last := log[..|log| - 1], log[|log| - 1];
      assert Settled(init);
      SortedParts(LogIds(init), SegmentIds(last.groups));
      ActiveOfIs(c, init);
      ActiveInIs(last.id, SegmentFrames(c, last), StatesOf(last.entries));
      SegmentPlacedKeys(c, last);
      PlacedKeys(c, init);
      LatestKeys(init);
      assert AllPlaced(c, init).Keys !! SegmentPlaced(c, last).Keys;
      UnionIs(ActiveOf(c, init), AllPlaced(c, init), Latest(init),
              SegmentActive(c, last), SegmentPlaced(c, last), StatesOf(last.entries));
    }
  }

  lemma UnionIs(a: map<nat, Metadata>, p: map<nat, Metadata>, s: map<nat, StateEntry>,
                a': map<nat, Metadata>, p': map<nat, Metadata>, s': map<nat, StateEntry>)
    requires Undelivered(a, p, s) && Undelivered(a', p', s')
    requires p.Keys !! p'.Keys && s.Keys <= p.Keys && s'.Keys <= p'.Keys
    ensures Undelivered(a + a', p + p', s + s')
  {}

  /** The same statement determines the index: two maps that satisfy it are equal. */
  lemma UndeliveredUnique(a: map<nat, Metadata>, b: map<nat, Metadata>, placed: map<nat, Metadata>, states: map<nat, StateEntry>)
    requires Undelivered(a, placed, states) && Undelivered(b, placed, states)
    ensures a == b
  {
    assert a.Keys == b.Keys;
  }

  // ---- reading a record back -----------------------------------------------------------------------

  /** A record committed in segment `k` of the log. */
  ghost predicate Stored(log: Log, k: nat, record: DiskRecord) {
    k < |log| && exists j :: 0 <= j < |log[k].groups| && record in log[k].groups[j]
  }

  /** The frame of a committed record lies in its data file where the index says. */
  ghost predicate Locates(c: Codec, data: seq<byte>, at: Metadata, record: DiskRecord) {
    && c.marshal(record).Some?
    && at.size == |FrameOf(c, record)| && at.offset + at.size <= |data|
    && data[at.offset..at.offset + at.size] == FrameOf(c, record)
  }

  ghost predicate FramesIn(c: Codec, data: seq<byte>, frames: seq<Located>) {
    forall k :: 0 <= k < |frames| ==>
      && c.marshal(frames[k].record).Some?
      && frames[k].size == |FrameOf(c, frames[k].record)| && frames[k].offset + frames[k].size <= |data|
      && data[frames[k].offset..frames[k].offset + frames[k].size] == FrameOf(c, frames[k].record)
  }

  lemma {:induction false} PlaceFrames(c: Codec, data: seq<byte>, group: Group, base: nat)
    requires AllEncode(c, group) && base + |FramesBytes(c, group)| <= |data|
    requires data[base..base + |FramesBytes(c, group)|] == FramesBytes(c, group)
    ensures FramesIn(c, data, Place(c, group, base))
    decreases |group|
  {
    if group != [] {
      var init, last := group[..|group| - 1], group[|group| - 1];
      var bytes, n := FramesBytes(c, group), |FramesBytes(c, init)|;
      assert bytes[..|bytes|] == bytes;
      Overlay(data, base, bytes, |bytes|, 0, n);
      Overlay(data, base, bytes, |bytes|, n, |bytes|);
      PlaceFrames(c, data, init, base);
    }
  }

  lemma {:induction false} PlaceGroupsFrames(c: Codec, data: seq<byte>, groups: seq<Group>, base: nat)
    requires Encodes(c, groups) && base + |GroupsBytes(c, groups)| <= |data|
    requires data[base..base + |GroupsBytes(c, groups)|] == GroupsBytes(c, groups)
    ensures FramesIn(c, data, Flat(PlaceGroups(c, groups, base)))
    decreases |groups|
  {
    hide Place, GroupsBytes, FrameOf, GroupBytes, DataFrame;
    if groups != [] {
      var init, last := groups[..|groups| - 1], groups[|groups| - 1];
      var n := |GroupsBytes(c, init)|;
      LastGroup(c, data, groups, base);
      PlaceGroupsFrames(c, data, init, base);
      PlaceFrames(c, data, last, base + n);
      FramesInBoth(c, data, PlaceGroups(c, init, base), Place(c, last, base + n));
    }
  }

  lemma FramesInBoth(c: Codec, data: seq<byte>, front: seq<seq<Located>>, last: seq<Located>)
    requires FramesIn(c, data, Flat(front)) && FramesIn(c, data, last)
    ensures FramesIn(c, data, Flat(front + [last]))
  {
    FlatStep(front, last);
  }

  lemma LastGroup(c: Codec, data: seq<byte>, groups: seq<Group>, base: nat)
    requires Encodes(c, groups) && groups != [] && base + |GroupsBytes(c, groups)| <= |data|
    requires data[base..base + |GroupsBytes(c, groups)|] == GroupsBytes(c, groups)
    ensures var init, last := groups[..|groups| - 1], groups[|groups| - 1];
            var n, f := |GroupsBytes(c, init)|, |FramesBytes(c, last)|;
            && Encodes(c, init) && base + n + f <= |data|
            && data[base..base + n] == GroupsBytes(c, init)
            && data[base + n..base + n + f] == FramesBytes(c, last)
  {
    var init, last := groups[..|groups| - 1], groups[|groups| - 1];
    GroupParts(c, last);
    Split(data, base, GroupsBytes(c, init), GroupBytes(c, last), |FramesBytes(c, last)|);
  }

  lemma Split(data: seq<byte>, base: nat, front: seq<byte>, back: seq<byte>, f: nat)
    requires base + |front + back| <= |data| && data[base..base + |front + back|] == front + back && f <= |back|
    ensures data[base..base + |front|] == front
    ensures data[base + |front|..base + |front| + f] == back[0..f]
  {
    var bytes := front + back;
    assert bytes[..|bytes|] == bytes;
    Overlay(data, base, bytes, |bytes|, 0, |front|);
    Overlay(data, base, bytes, |bytes|, |front|, |front| + f);
  }

  lemma {:induction false} PlacedLocates(c: Codec, data: seq<byte>, segmentID: nat, frames: seq<Located>, id: nat)
    requires FramesIn(c, data, frames) && id in Placed(segmentID, frames)
    ensures exists k :: 0 <= k < |frames| && frames[k].record.id == id
                     && Locates(c, data, Placed(segmentID, frames)[id], frames[k].record)
  {
    var init, last := frames[..|frames| - 1], frames[|frames| - 1];
    if last.record.id != id {
      assert FramesIn(c, data, init);
      PlacedLocates(c, data, segmentID, init, id);
      var k :| 0 <= k < |init| && init[k].record.id == id && Locates(c, data, Placed(segmentID, init)[id], init[k].record);
      assert frames[k] == init[k];
    } else {
      assert Locates(c, data, Placed(segmentID, frames)[id], frames[|frames| - 1].record);
    }
  }

  lemma {:induction false} FrameStored(c: Codec, groups: seq<Group>, base: nat, f: Located)
    requires Encodes(c, groups) && f in Flat(PlaceGroups(c, groups, base))
    ensures exists j :: 0 <= j < |groups| && f.record in groups[j]
  {
    hide GroupsBytes, Place, GroupBytes, FramesBytes, MarkOf;
    var init, last := groups[..|groups| - 1], groups[|groups| - 1];
    var at := base + |GroupsBytes(c, init)|;
    FlatStep(PlaceGroups(c, init, base), Place(c, last, at));
    if f in Flat(PlaceGroups(c, init, base)) {
      FrameStored(c, init, base, f);
      var j :| 0 <= j < |init| && f.record in init[j];
      assert f.record in groups[j];
    } else {
      var k :| 0 <= k < |Place(c, last, at)| && Place(c, last, at)[k] == f;
      assert f.record == last[k];
      assert f.record in groups[|groups| - 1];
    }
  }

  /** Reading where the index points gives a committed record with that ID. */
  lemma ReadBack(c: Codec, s: SegmentLog, id: nat) returns (record: DiskRecord)
    requires Encodes(c, s.groups) && id in SegmentPlaced(c, s)
    ensures record.id == id && Locates(c, DataBytes(c, s), SegmentPlaced(c, s)[id], record)
    ensures exists j :: 0 <= j < |s.groups| && record in s.groups[j]
  {
    hide Encodes, GroupsBytes, FrameOf, CommitFrame, DataFrame;
    var data, frames := DataBytes(c, s), SegmentFrames(c, s);
    assert data[SEGMENT_HEADER..SEGMENT_HEADER + |GroupsBytes(c, s.groups)|] == GroupsBytes(c, s.groups);
    PlaceGroupsFrames(c, data, s.groups, SEGMENT_HEADER);
    PlacedLocates(c, data, s.id, frames, id);
    var k :| 0 <= k < |frames| && frames[k].record.id == id && Locates(c, data, SegmentPlaced(c, s)[id], frames[k].record);
    record := frames[k].record;
    FrameStored(c, s.groups, SEGMENT_HEADER, frames[k]);
  }
}
