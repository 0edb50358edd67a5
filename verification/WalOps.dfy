/** How the index of a log changes when a group is committed, a checkpoint entry appended, a segment opened or removed. */
module WalOps {
  import opened Bytes
  import opened Telemetry
  import opened WalFormat
  import opened WalScan
  import opened WalLog
  import opened WalContents
  import Maps

  // ---- logs in two parts ---------------------------------------------------------------------------

  lemma PartsEncode(c: Codec, a: Log, b: Log)
    ensures LogEncodes(c, a + b) <==> LogEncodes(c, a) && LogEncodes(c, b)
  {
    if LogEncodes(c, a + b) {
      forall k | 0 <= k < |a| ensures Encodes(c, a[k].groups) { assert a[k] == (a + b)[k]; }
      forall k | 0 <= k < |b| ensures Encodes(c, b[k].groups) { assert b[k] == (a + b)[|a| + k]; }
    }
  }

  lemma {:induction false} LogIdsParts(a: Log, b: Log)
    ensures LogIds(a + b) == LogIds(a) + LogIds(b)
  {
    if b == [] {
      assert a + b == a;
    } else {
      assert (a + b)[..|a + b| - 1] == a + b[..|b| - 1];
      LogIdsParts(a, b[..|b| - 1]);
      AppendAssociates(LogIds(a), LogIds(b[..|b| - 1]), SegmentIds(b[|b| - 1].groups));
    }
  }

  lemma ActiveStep(c: Codec, log: Log)
    requires LogEncodes(c, log) && log != []
    ensures LogEncodes(c, log[..|log| - 1])
    ensures ActiveOf(c, log) == ActiveOf(c, log[..|log| - 1]) + SegmentActive(c, log[|log| - 1])
  {}

  lemma {:induction false} ActiveParts(c: Codec, a: Log, b: Log)
    requires LogEncodes(c, a) && LogEncodes(c, b) && LogEncodes(c, a + b)
    ensures ActiveOf(c, a + b) == ActiveOf(c, a) + ActiveOf(c, b)
    decreases b
  {
    if b == [] {
      assert a + b == a;
    } else {
      var init, last := b[..|b| - 1], b[|b| - 1];
      assert (a + b)[..|a + b| - 1] == a + init && (a + b)[|a + b| - 1] == last;
      PartsEncode(c, a, init);
      ActiveParts(c, a, init);
      ActiveStep(c, b);
      ActiveStep(c, a + b);
      Maps.Associates(ActiveOf(c, a), ActiveOf(c, init), SegmentActive(c, last));
    }
  }

  lemma {:induction false} QuarantinedParts(c: Codec, a: Log, b: Log)
    requires LogEncodes(c, a) && LogEncodes(c, b) && LogEncodes(c, a + b)
    ensures QuarantinedOf(c, a + b) == QuarantinedOf(c, a) + QuarantinedOf(c, b)
  {
    if b == [] {
      assert a + b == a;
    } else {
      var init := b[..|b| - 1];
      assert (a + b)[..|a + b| - 1] == a + init;
      PartsEncode(c, a, init);
      QuarantinedParts(c, a, init);
    }
  }

  lemma {:induction false} UsedParts(c: Codec, a: Log, b: Log)
    requires LogEncodes(c, a) && LogEncodes(c, b) && LogEncodes(c, a + b)
    ensures UsedBy(c, a + b) == UsedBy(c, a) + UsedBy(c, b)
  {
    if b == [] {
      assert a + b == a;
    } else {
      var init := b[..|b| - 1];
      assert (a + b)[..|a + b| - 1] == a + init;
      PartsEncode(c, a, init);
      UsedParts(c, a, init);
    }
  }

  lemma InfosStep(c: Codec, log: Log, current: nat)
    requires LogEncodes(c, log) && log != []
    ensures LogEncodes(c, log[..|log| - 1])
    ensures Infos(c, log, current)
         == Infos(c, log[..|log| - 1], current)[log[|log| - 1].id := InfoOf(c, log[|log| - 1], log[|log| - 1].id != current)]
  {}

  lemma {:induction false} InfosParts(c: Codec, a: Log, b: Log, current: nat)
    requires LogEncodes(c, a) && LogEncodes(c, b) && LogEncodes(c, a + b)
    ensures Infos(c, a + b, current) == Infos(c, a, current) + Infos(c, b, current)
    decreases b
  {
    if b == [] {
      assert a + b == a;
    } else {
      var init, last := b[..|b| - 1], b[|b| - 1];
      assert (a + b)[..|a + b| - 1] == a + init && (a + b)[|a + b| - 1] == last;
      PartsEncode(c, a, init);
      InfosParts(c, a, init, current);
      InfosStep(c, b, current);
      InfosStep(c, a + b, current);
      Maps.UpdateRight(Infos(c, a, current), Infos(c, init, current), last.id, InfoOf(c, last, last.id != current));
    }
  }

  lemma {:induction false} InfosKeys(c: Codec, log: Log, current: nat)
    requires LogEncodes(c, log)
    ensures Infos(c, log, current).Keys == SegmentKeys(log)
  {
    if log != [] {
      var init, last := log[..|log| - 1], log[|log| - 1];
      InfosKeys(c, init, current);
      InfosStep(c, log, current);
      KeysStep(log);
      assert Infos(c, log, current).Keys == Infos(c, init, current).Keys + {last.id};
    }
  }

  lemma KeysStep(log: Log)
    requires log != []
    ensures SegmentKeys(log) == SegmentKeys(log[..|log| - 1]) + {log[|log| - 1].id}
  {
    var init, last := log[..|log| - 1], log[|log| - 1];
    assert forall s :: s in log <==> s in init || s == last;
  }

  /** The bookkeeping of segment `k` is found under its ID. */
  lemma {:induction false} InfoAt(c: Codec, log: Log, current: nat, k: nat)
    requires LogEncodes(c, log) && k < |log| && forall i, j :: 0 <= i < j < |log| ==> log[i].id < log[j].id
    ensures log[k].id in Infos(c, log, current)
    ensures Infos(c, log, current)[log[k].id] == InfoOf(c, log[k], log[k].id != current)
  {
    if k < |log| - 1 { InfoAt(c, log[..|log| - 1], current, k); }
  }

  /** Only the current segment of the bookkeeping depends on which one is current. */
  lemma {:induction false} InfosOthers(c: Codec, log: Log, current: nat, other: nat)
    requires LogEncodes(c, log) && forall k :: 0 <= k < |log| ==> log[k].id != current && log[k].id != other
    ensures Infos(c, log, current) == Infos(c, log, other)
  {
    if log != [] { InfosOthers(c, log[..|log| - 1], current, other); }
  }

  /** An active record is one of a known segment, and that segment's index has it. */
  lemma {:induction false} ActiveSegment(c: Codec, log: Log, id: nat) returns (k: nat)
    requires LogEncodes(c, log) && id in ActiveOf(c, log)
    ensures k < |log| && id in SegmentActive(c, log[k]) && ActiveOf(c, log)[id] == SegmentActive(c, log[k])[id]
    ensures ActiveOf(c, log)[id].segmentID == log[k].id
    ensures id in Elements(SegmentIds(log[k].groups)) && id in LogIds(log)
  {
    var init, last := log[..|log| - 1], log[|log| - 1];
    if id in SegmentActive(c, last) {
      k := |log| - 1;
      ActiveInIs(last.id, SegmentFrames(c, last), StatesOf(last.entries));
      PlacedIs(last.id, SegmentFrames(c, last));
      SegmentPlacedKeys(c, last);
    } else {
      k := ActiveSegment(c, init, id);
    }
  }

  // ---- a committed group -----------------------------------------------------------------------

  function WithGroup(s: SegmentLog, group: Group): SegmentLog {
    s.(groups := s.groups + [group])
  }

  lemma {:induction false} ActiveInParts(segmentID: nat, a: seq<Located>, b: seq<Located>, states: map<nat, StateEntry>)
    ensures ActiveIn(segmentID, a + b, states) == ActiveIn(segmentID, a, states) + ActiveIn(segmentID, b, states)
    decreases b
  {
    if b == [] {
      assert a + b == a;
    } else {
      var init, f := b[..|b| - 1], b[|b| - 1];
      assert (a + b)[..|a + b| - 1] == a + init && (a + b)[|a + b| - 1] == f;
      ActiveInParts(segmentID, a, init, states);
      ActiveInStep(segmentID, a + b, states);
      ActiveInStep(segmentID, b, states);
      if !Finished(states, f.record.id) {
        Maps.UpdateRight(ActiveIn(segmentID, a, states), ActiveIn(segmentID, init, states), f.record.id,
                         Metadata(segmentID, f.offset, f.size, AttemptsIn(states, f.record.id)));
      }
    }
  }

  lemma ActiveInStep(segmentID: nat, frames: seq<Located>, states: map<nat, StateEntry>)
    requires frames != []
    ensures var rest, f := ActiveIn(segmentID, frames[..|frames| - 1], states), frames[|frames| - 1];
            ActiveIn(segmentID, frames, states) ==
              (if Finished(states, f.record.id) then rest
               else rest[f.record.id := Metadata(segmentID, f.offset, f.size, AttemptsIn(states, f.record.id))])
  {}

  lemma {:induction false} QuarantinedParts2(a: seq<Located>, b: seq<Located>, states: map<nat, StateEntry>)
    ensures QuarantinedIn(a + b, states) == QuarantinedIn(a, states) + QuarantinedIn(b, states)
    decreases b
  {
    if b == [] {
      assert a + b == a;
    } else {
      assert (a + b)[..|a + b| - 1] == a + b[..|b| - 1];
      QuarantinedParts2(a, b[..|b| - 1], states);
    }
  }

  lemma {:induction false} NewFrames(segmentID: nat, frames: seq<Located>, states: map<nat, StateEntry>)
    requires Ids(frames) !! states.Keys
    ensures ActiveIn(segmentID, frames, states) == Placed(segmentID, frames) && QuarantinedIn(frames, states) == 0
  {
    if frames != [] {
      var init, last := frames[..|frames| - 1], frames[|frames| - 1];
      assert last in frames && last.record.id in Ids(frames);
      assert forall f :: f in init ==> f in frames;
      NewFrames(segmentID, init, states);
    }
  }

  /** The records of a group, where they lie when it is written at `offset` of a segment. */
  function NewRecords(c: Codec, segmentID: nat, group: Group, offset: nat): map<nat, Metadata>
    requires AllEncode(c, group)
  {
    Placed(segmentID, Place(c, group, offset))
  }

  lemma NewRecordsKeys(c: Codec, segmentID: nat, group: Group, offset: nat)
    requires AllEncode(c, group)
    ensures NewRecords(c, segmentID, group, offset).Keys == Elements(GroupIds(group))
    ensures forall id :: id in NewRecords(c, segmentID, group, offset) ==>
              NewRecords(c, segmentID, group, offset)[id].segmentID == segmentID
              && NewRecords(c, segmentID, group, offset)[id].attempts == 0
  {
    PlacedIs(segmentID, Place(c, group, offset));
    PlaceIds(c, group, offset);
    GroupIdsSet(group);
  }

  /** A group committed to a segment adds its records, unattempted, and changes nothing else in it. */
  lemma GroupAdded(c: Codec, s: SegmentLog, group: Group)
    requires Encodes(c, s.groups) && AllEncode(c, group) && group != []
    requires Elements(GroupIds(group)) !! StatesOf(s.entries).Keys
    ensures Encodes(c, WithGroup(s, group).groups)
    ensures var s' := WithGroup(s, group);
            && DataBytes(c, s') == DataBytes(c, s) + GroupBytes(c, group)
            && SegmentIds(s'.groups) == SegmentIds(s.groups) + GroupIds(group)
            && SegmentActive(c, s') == SegmentActive(c, s) + NewRecords(c, s.id, group, |DataBytes(c, s)|)
            && SegmentQuarantined(c, s') == SegmentQuarantined(c, s)
  {
    hide GroupBytes, GroupIds, Place, GroupsBytes, PlaceGroups;
    var n := |DataBytes(c, s)|;
    GroupPrinted(c, s, group);
    var here := Place(c, group, n);
    PlaceIds(c, group, n);
    GroupIdsSet(group);
    NewFrames(s.id, here, StatesOf(s.entries));
    ActiveInParts(s.id, SegmentFrames(c, s), here, StatesOf(s.entries));
    QuarantinedParts2(SegmentFrames(c, s), here, StatesOf(s.entries));
  }

  lemma GroupPrinted(c: Codec, s: SegmentLog, group: Group)
    requires Encodes(c, s.groups) && AllEncode(c, group) && group != []
    ensures Encodes(c, WithGroup(s, group).groups)
    ensures var s' := WithGroup(s, group);
            && DataBytes(c, s') == DataBytes(c, s) + GroupBytes(c, group)
            && SegmentIds(s'.groups) == SegmentIds(s.groups) + GroupIds(group)
            && SegmentFrames(c, s') == SegmentFrames(c, s) + Place(c, group, |DataBytes(c, s)|)
  {
    hide GroupBytes, Place, Big, CommitFrame, Frame;
    GroupsStep(c, s.groups, group);
    FlatStep(PlaceGroups(c, s.groups, SEGMENT_HEADER), Place(c, group, |DataBytes(c, s)|));
    BytesAssociate(SegmentHeader(c, s.id, s.createdAt), GroupsBytes(c, s.groups), GroupBytes(c, group));
  }

  lemma BytesAssociate(a: seq<byte>, b: seq<byte>, d: seq<byte>)
    ensures a + (b + d) == (a + b) + d
  {}

  lemma EncodesStep(c: Codec, groups: seq<Group>, group: Group)
    requires Encodes(c, groups) && AllEncode(c, group) && group != []
    ensures Encodes(c, groups + [group]) && (groups + [group])[..|groups|] == groups
  {}

  lemma GroupBytesStep(c: Codec, groups: seq<Group>, group: Group)
    requires Encodes(c, groups) && AllEncode(c, group) && group != [] && Encodes(c, groups + [group])
    ensures GroupsBytes(c, groups + [group]) == GroupsBytes(c, groups) + GroupBytes(c, group)
    ensures SegmentIds(groups + [group]) == SegmentIds(groups) + GroupIds(group)
  {
    hide GroupBytes, GroupIds, AllEncode;
    var all := groups + [group];
    assert all[|all| - 1] == group && all[..|all| - 1] == groups;
  }

  lemma PlacesStep(c: Codec, groups: seq<Group>, group: Group, base: nat)
    requires Encodes(c, groups) && AllEncode(c, group) && group != [] && Encodes(c, groups + [group])
    ensures PlaceGroups(c, groups + [group], base) == PlaceGroups(c, groups, base) + [Place(c, group, base + |GroupsBytes(c, groups)|)]
  {
    hide GroupsBytes, Place, AllEncode;
    var all := groups + [group];
    assert all[|all| - 1] == group && all[..|all| - 1] == groups;
  }

  lemma GroupsStep(c: Codec, groups: seq<Group>, group: Group)
    requires Encodes(c, groups) && AllEncode(c, group) && group != []
    ensures Encodes(c, groups + [group])
    ensures GroupsBytes(c, groups + [group]) == GroupsBytes(c, groups) + GroupBytes(c, group)
    ensures SegmentIds(groups + [group]) == SegmentIds(groups) + GroupIds(group)
    ensures PlaceGroups(c, groups + [group], SEGMENT_HEADER)
         == PlaceGroups(c, groups, SEGMENT_HEADER) + [Place(c, group, SEGMENT_HEADER + |GroupsBytes(c, groups)|)]
  {
    hide Encodes, GroupsBytes, SegmentIds, PlaceGroups, Place, AllEncode;
    EncodesStep(c, groups, group);
    GroupBytesStep(c, groups, group);
    PlacesStep(c, groups, group, SEGMENT_HEADER);
  }

  // ---- a checkpoint entry ------------------------------------------------------------------------

  function WithEntry(s: SegmentLog, e: StateEntry): SegmentLog {
    s.(entries := s.entries + [e])
  }

  /** What an entry does to the map of active records. */
  function Marked(active: map<nat, Metadata>, e: StateEntry): map<nat, Metadata>
    requires e.id in active
  {
    if e.kind == Retry then active[e.id := active[e.id].(attempts := e.attempts)] else active - {e.id}
  }

  lemma {:induction false} QuarantinedMarked(frames: seq<Located>, states: map<nat, StateEntry>, e: StateEntry)
    requires forall i, j :: 0 <= i < j < |frames| ==> frames[i].record.id != frames[j].record.id
    requires e.id !in states || states[e.id].kind != Quarantine
    ensures QuarantinedIn(frames, states[e.id := e])
         == QuarantinedIn(frames, states) + (if e.id in Ids(frames) && e.kind == Quarantine then 1 else 0)
  {
    if frames != [] {
      var init, last := frames[..|frames| - 1], frames[|frames| - 1];
      QuarantinedMarked(init, states, e);
      assert forall f :: f in frames <==> f in init || f == last;
      if last.record.id == e.id {
        assert e.id !in Ids(init);
      }
    }
  }

  lemma DistinctFrames(frames: seq<Located>)
    requires Sorted(FrameIds(frames))
    ensures forall i, j :: 0 <= i < j < |frames| ==> frames[i].record.id != frames[j].record.id
  {
    var ids := FrameIds(frames);
    forall i, j | 0 <= i < j < |frames| ensures frames[i].record.id != frames[j].record.id {
      assert ids[i] < ids[j];
    }
  }

  /** An entry about an active record changes that record as its kind says, and the quarantine count accordingly. */
  lemma EntryAdded(c: Codec, s: SegmentLog, e: StateEntry)
    requires Encodes(c, s.groups) && Sorted(SegmentIds(s.groups)) && e.id in SegmentActive(c, s)
    ensures var s' := WithEntry(s, e);
            && CheckpointBytes(c, s') == CheckpointBytes(c, s) + Entry(c, e)
            && SegmentActive(c, s') == Marked(SegmentActive(c, s), e)
            && SegmentQuarantined(c, s') == SegmentQuarantined(c, s) + (if e.kind == Quarantine then 1 else 0)
            && StatesOf(s'.entries) == StatesOf(s.entries)[e.id := e]
  {
    var frames := SegmentFrames(c, s);
    EntryPrinted(c, s, e);
    FrameIdsOfGroups(c, s.groups, SEGMENT_HEADER);
    FramesMarked(s.id, frames, StatesOf(s.entries), e);
  }

  lemma EntryPrinted(c: Codec, s: SegmentLog, e: StateEntry)
    ensures CheckpointBytes(c, WithEntry(s, e)) == CheckpointBytes(c, s) + Entry(c, e)
    ensures StatesOf(WithEntry(s, e).entries) == StatesOf(s.entries)[e.id := e]
  {
    assert (s.entries + [e])[..|s.entries|] == s.entries;
  }

  lemma FramesMarked(segmentID: nat, frames: seq<Located>, states: map<nat, StateEntry>, e: StateEntry)
    requires Sorted(FrameIds(frames)) && e.id in ActiveIn(segmentID, frames, states)
    ensures ActiveIn(segmentID, frames, states[e.id := e]) == Marked(ActiveIn(segmentID, frames, states), e)
    ensures QuarantinedIn(frames, states[e.id := e]) == QuarantinedIn(frames, states) + (if e.kind == Quarantine then 1 else 0)
  {
    ActiveInIs(segmentID, frames, states);
    ActiveInIs(segmentID, frames, states[e.id := e]);
    PlacedIs(segmentID, frames);
    MarkedIs(ActiveIn(segmentID, frames, states), ActiveIn(segmentID, frames, states[e.id := e]),
             Placed(segmentID, frames), states, e);
    DistinctFrames(frames);
    QuarantinedMarked(frames, states, e);
  }

  lemma MarkedIs(active: map<nat, Metadata>, active': map<nat, Metadata>, placed: map<nat, Metadata>,
                 states: map<nat, StateEntry>, e: StateEntry)
    requires Undelivered(active, placed, states) && Undelivered(active', placed, states[e.id := e])
    requires e.id in active
    ensures active' == Marked(active, e)
  {
    var expected := Marked(active, e);
    forall id ensures id in active' <==> id in expected {}
    assert active'.Keys == expected.Keys;
  }
}
