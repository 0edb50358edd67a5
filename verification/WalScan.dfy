/** Parsing a segment file, and why the parser undoes the printer for any crash point in the last group. */
module WalScan {
  import opened Bytes
  import opened Telemetry
  import opened WalFormat

  /** A data frame the parser accepted: what it stores and where it lies. */
  datatype Located = Located(record: DiskRecord, offset: nat, size: nat)

  /** The parser's variables: next byte, end of the last commit, frames since then, committed groups, IDs taken. */
  datatype ScanState = ScanState(
    offset: nat,
    committed: nat,
    pending: seq<Located>,
    groups: seq<seq<Located>>,
    seen: set<nat>)

  /** Either committed bytes are damaged, or the file is `committed` good bytes and an uncommitted tail. */
  datatype Scan = Corrupt | Parsed(groups: seq<seq<Located>>, committed: nat)

  datatype Step = Tail | Bad | Next(info: FrameInfo, payload: seq<byte>)

  function Ids(frames: seq<Located>): set<nat> {
    set f | f in frames :: f.record.id
  }

  function NextFrame(c: Codec, limit: nat, data: seq<byte>, offset: nat): (step: Step)
    requires offset <= |data|
    ensures step.Next? ==> offset + FRAME_HEADER + |step.payload| <= |data|
  {
    if |data| - offset < FRAME_HEADER then Tail
    else match DecodeFrameHeader(c, data[offset..offset + FRAME_HEADER])
      case Err(_) => Bad
      case Ok(info) =>
        if info.payloadSize > limit || |data| - offset < FRAME_HEADER + info.payloadSize then Tail
        else
          var payload := data[offset + FRAME_HEADER..offset + FRAME_HEADER + info.payloadSize];
          if c.crc(payload) != info.checksum then Bad else Next(info, payload)
  }

  function ValidCommit(c: Codec, mark: CommitMark, pending: seq<Located>, encoded: seq<byte>, sequence: nat): bool {
    && pending != [] && mark.count == |pending| && sequence == mark.lastID
    && mark.firstID == pending[0].record.id && mark.lastID == pending[|pending| - 1].record.id
    && mark.dataBytes == |encoded| && c.crc(encoded) == mark.checksum
  }

  datatype Progress = Done(scan: Scan) | Move(next: ScanState)

  /** One turn of the parsing loop. */
  function Advance(c: Codec, limit: nat, data: seq<byte>, st: ScanState): (progress: Progress)
    requires st.committed <= st.offset <= |data|
    ensures progress.Move? ==>
      st.offset < progress.next.offset <= |data| && st.committed <= progress.next.committed <= progress.next.offset
    ensures progress.Done? && progress.scan.Parsed? ==> st.committed <= progress.scan.committed <= |data|
  {
    if st.offset == |data| then
      Done(Parsed(st.groups, if st.pending == [] then |data| else st.committed))
    else match NextFrame(c, limit, data, st.offset)
      case Tail => Done(Parsed(st.groups, st.committed))
      case Bad => Done(Corrupt)
      case Next(info, payload) =>
        if info.kind == Data then
          if info.sequence in st.seen || info.sequence in Ids(st.pending) then Done(Corrupt)
          else match DecodeRecord(c, payload, info.sequence)
            case Err(_) => Done(Corrupt)
            case Ok(record) => Move(AddFrame(st, Located(record, st.offset, FRAME_HEADER + |payload|)))
        else match DecodeCommit(payload)
          case None => Done(Corrupt)
          case Some(mark) =>
            if ValidCommit(c, mark, st.pending, data[st.committed..st.offset], info.sequence)
            then Move(CloseGroup(st, st.offset + FRAME_HEADER + |payload|)) else Done(Corrupt)
  }

  /** The parse of the rest of the file, one frame at a time. */
  function ScanFrom(c: Codec, limit: nat, data: seq<byte>, st: ScanState): (scan: Scan)
    requires st.committed <= st.offset <= |data|
    ensures scan.Parsed? ==> st.committed <= scan.committed <= |data|
    decreases |data| - st.offset
  {
    match Advance(c, limit, data, st)
    case Done(scan) => scan
    case Move(next) => ScanFrom(c, limit, data, next)
  }

  function AddFrame(st: ScanState, frame: Located): ScanState {
    st.(offset := st.offset + frame.size, pending := st.pending + [frame])
  }

  function CloseGroup(st: ScanState, end: nat): ScanState {
    ScanState(end, end, [], st.groups + [st.pending], st.seen + Ids(st.pending))
  }

  function Start(seen: set<nat>): ScanState {
    ScanState(SEGMENT_HEADER, SEGMENT_HEADER, [], [], seen)
  }

  /** The parse of a whole segment file, header included. */
  function ScanSegment(c: Codec, limit: nat, data: seq<byte>, segmentID: nat, seen: set<nat>): (scan: Scan)
    ensures scan.Parsed? ==> SEGMENT_HEADER <= scan.committed <= |data|
  {
    if |data| < SEGMENT_HEADER || DecodeSegmentHeader(c, data[..SEGMENT_HEADER], segmentID).Some? then Corrupt
    else ScanFrom(c, limit, data, Start(seen))
  }

  // ---- recovering twice ------------------------------------------------------------------------

  /** Cutting the file at the committed offset changes nothing and leaves no tail: for every byte string. */
  lemma {:induction false} TruncationIsStable(c: Codec, limit: nat, data: seq<byte>, segmentID: nat, seen: set<nat>)
    requires ScanSegment(c, limit, data, segmentID, seen).Parsed?
    ensures var scan := ScanSegment(c, limit, data, segmentID, seen);
            ScanSegment(c, limit, data[..scan.committed], segmentID, seen) == scan
  {
    var scan := ScanSegment(c, limit, data, segmentID, seen);
    var cut := data[..scan.committed];
    assert cut[..SEGMENT_HEADER] == data[..SEGMENT_HEADER];
    CutAfterCommit(c, limit, data, Start(seen));
  }

  lemma {:induction false} CutAfterCommit(c: Codec, limit: nat, data: seq<byte>, st: ScanState)
    requires st.committed <= st.offset <= |data|
    requires st.pending == [] <==> st.committed == st.offset
    requires ScanFrom(c, limit, data, st).Parsed?
    ensures var scan := ScanFrom(c, limit, data, st);
            (scan.committed > st.committed || st.pending == []) ==>
              st.offset <= scan.committed && ScanFrom(c, limit, data[..scan.committed], st) == scan
    ensures var scan := ScanFrom(c, limit, data, st);
            scan.committed == st.committed ==> scan.groups == st.groups
    decreases |data| - st.offset
  {
    match Advance(c, limit, data, st)
    case Done(_) =>
    case Move(next) =>
      CutAfterCommit(c, limit, data, next);
      var scan := ScanFrom(c, limit, data, st);
      if scan.committed > st.committed { AdvanceIsLocal(c, limit, data, st, scan.committed); }
  }

  /** A turn of the loop looks at nothing beyond the frame it consumes. */
  lemma AdvanceIsLocal(c: Codec, limit: nat, data: seq<byte>, st: ScanState, cut: nat)
    requires st.committed <= st.offset <= |data| && cut <= |data|
    requires var p := Advance(c, limit, data, st); p.Move? && p.next.offset <= cut
    ensures Advance(c, limit, data[..cut], st) == Advance(c, limit, data, st)
  {
    var step := NextFrame(c, limit, data, st.offset);
    var end := st.offset + FRAME_HEADER + |step.payload|;
    assert end <= cut;
    NextFrameIsLocal(c, limit, data, st.offset, cut);
    assert data[..cut][st.committed..st.offset] == data[st.committed..st.offset];
  }

  lemma NextFrameIsLocal(c: Codec, limit: nat, data: seq<byte>, offset: nat, cut: nat)
    requires offset <= |data| && cut <= |data|
    requires var step := NextFrame(c, limit, data, offset); step.Next? && offset + FRAME_HEADER + |step.payload| <= cut
    ensures NextFrame(c, limit, data[..cut], offset) == NextFrame(c, limit, data, offset)
  {
    var end := offset + FRAME_HEADER + |NextFrame(c, limit, data, offset).payload|;
    assert data[..cut][offset..offset + FRAME_HEADER] == data[offset..offset + FRAME_HEADER];
    assert data[..cut][offset + FRAME_HEADER..end] == data[offset + FRAME_HEADER..end];
  }

  // ---- the printer -----------------------------------------------------------------------------

  /** A record the format can carry: it encodes, its payload is within the parser's limit, its fields fit. */
  ghost predicate Printable(c: Codec, limit: nat, record: DiskRecord) {
    && c.marshal(record).Some? && |c.marshal(record).value| <= limit
    && FitsU32(FRAME_HEADER + |c.marshal(record).value|)
    && 0 < record.id && FitsU64(record.id) && record.enqueuedAt > 0
  }

  function FrameOf(c: Codec, record: DiskRecord): (s: seq<byte>)
    requires c.marshal(record).Some?
    ensures |s| >= FRAME_HEADER
  {
    DataFrame(c, record).value
  }

  ghost predicate AllEncode(c: Codec, group: seq<DiskRecord>) {
    forall k :: 0 <= k < |group| ==> c.marshal(group[k]).Some?
  }

  /** The data frames of a group, one after the other. */
  function FramesBytes(c: Codec, group: seq<DiskRecord>): seq<byte>
    requires AllEncode(c, group)
  {
    if group == [] then [] else FramesBytes(c, group[..|group| - 1]) + FrameOf(c, group[|group| - 1])
  }

  function MarkOf(c: Codec, group: seq<DiskRecord>): CommitMark
    requires AllEncode(c, group) && group != []
  {
    var bytes := FramesBytes(c, group);
    CommitMark(group[0].id, group[|group| - 1].id, |group|, |bytes|, c.crc(bytes))
  }

  /** What one group commit writes: the frames, then the commit marker that covers them. */
  function GroupBytes(c: Codec, group: seq<DiskRecord>): (s: seq<byte>)
    requires AllEncode(c, group) && group != []
    ensures |s| == |FramesBytes(c, group)| + FRAME_HEADER + COMMIT_PAYLOAD
  {
    FramesBytes(c, group) + CommitFrame(c, MarkOf(c, group))
  }

  function RecordIds(group: seq<DiskRecord>): set<nat> {
    set r | r in group :: r.id
  }

  /** A group as the writer builds it: non-empty, printable, with increasing IDs, its length fields within 32 bits. */
  ghost predicate GoodGroup(c: Codec, limit: nat, group: seq<DiskRecord>) {
    && group != [] && FitsU32(|group|)
    && (forall k :: 0 <= k < |group| ==> Printable(c, limit, group[k]))
    && (forall i, j :: 0 <= i < j < |group| ==> group[i].id < group[j].id)
    && FitsU32(|FramesBytes(c, group)|)
  }

  /** Where the frames of a group lie when its first byte is at `base`. */
  function Place(c: Codec, group: seq<DiskRecord>, base: nat): (frames: seq<Located>)
    requires AllEncode(c, group)
    ensures |frames| == |group|
    ensures forall k :: 0 <= k < |group| ==> frames[k].record == group[k]
  {
    if group == [] then []
    else
      var init := group[..|group| - 1];
      var last := group[|group| - 1];
      Place(c, init, base) + [Located(last, base + |FramesBytes(c, init)|, |FrameOf(c, last)|)]
  }

  lemma PlaceIds(c: Codec, group: seq<DiskRecord>, base: nat)
    requires AllEncode(c, group)
    ensures Ids(Place(c, group, base)) == RecordIds(group)
  {
    var frames := Place(c, group, base);
    forall r | r in group ensures r.id in Ids(frames) {
      var k :| 0 <= k < |group| && group[k] == r;
      assert frames[k] in frames;
    }
    forall f | f in frames ensures f.record in group {
      var k :| 0 <= k < |frames| && frames[k] == f;
    }
  }

  lemma {:induction false} PlaceSteps(c: Codec, group: seq<DiskRecord>, base: nat, k: nat)
    requires AllEncode(c, group) && k < |group|
    ensures AllEncode(c, group[..k]) && AllEncode(c, group[..k + 1])
    ensures FramesBytes(c, group[..k + 1]) == FramesBytes(c, group[..k]) + FrameOf(c, group[k])
    ensures Place(c, group[..k + 1], base)
         == Place(c, group[..k], base) + [Located(group[k], base + |FramesBytes(c, group[..k])|, |FrameOf(c, group[k])|)]
  {
    assert group[..k + 1][..k] == group[..k];
  }

  /** The bytes of the first `k` frames are a prefix of the bytes of the group. */
  lemma {:induction false} FramesPrefix(c: Codec, group: seq<DiskRecord>, k: nat)
    requires AllEncode(c, group) && k <= |group|
    ensures AllEncode(c, group[..k]) && FramesBytes(c, group[..k]) <= FramesBytes(c, group)
    decreases |group|
  {
    if k == |group| {
      assert group[..k] == group;
    } else {
      var init := group[..|group| - 1];
      FramesPrefix(c, init, k);
      assert init[..k] == group[..k];
    }
  }

  // ---- one printed frame -------------------------------------------------------------------------

  lemma PrintedFrame(c: Codec, limit: nat, data: seq<byte>, offset: nat, kind: FrameKind, sequence: nat, payload: seq<byte>)
    requires c.Lawful() && FitsU64(sequence) && FitsU32(|payload|) && |payload| <= limit
    requires offset + FRAME_HEADER + |payload| <= |data|
    requires data[offset..offset + FRAME_HEADER + |payload|] == Frame(c, kind, sequence, payload)
    ensures NextFrame(c, limit, data, offset) == Next(FrameInfo(kind, sequence, |payload|, c.crc(payload)), payload)
  {
    var frame := Frame(c, kind, sequence, payload);
    assert data[offset..offset + FRAME_HEADER] == frame[..FRAME_HEADER] == FrameHeader(c, kind, sequence, payload);
    assert data[offset + FRAME_HEADER..offset + FRAME_HEADER + |payload|] == frame[FRAME_HEADER..] == payload;
    FrameHeaderRoundTrip(c, kind, sequence, payload);
  }

  lemma TornFrame(c: Codec, limit: nat, data: seq<byte>, offset: nat, kind: FrameKind, sequence: nat, payload: seq<byte>)
    requires c.Lawful() && FitsU64(sequence) && FitsU32(|payload|)
    requires offset <= |data| < offset + FRAME_HEADER + |payload|
    requires data[offset..|data|] == Frame(c, kind, sequence, payload)[..|data| - offset]
    ensures NextFrame(c, limit, data, offset) == Tail
  {
    if |data| - offset >= FRAME_HEADER {
      var frame := Frame(c, kind, sequence, payload);
      SliceOfSlice(data, offset, |data|, 0, FRAME_HEADER);
      assert data[offset..offset + FRAME_HEADER] == frame[..|data| - offset][..FRAME_HEADER]
          == frame[..FRAME_HEADER] == FrameHeader(c, kind, sequence, payload);
      FrameHeaderRoundTrip(c, kind, sequence, payload);
    }
  }

  // ---- one printed group -------------------------------------------------------------------------

  ghost predicate AtFrame(c: Codec, st: ScanState, group: seq<DiskRecord>, k: nat)
    requires AllEncode(c, group) && k <= |group|
  {
    && AllEncode(c, group[..k])
    && st.offset == st.committed + |FramesBytes(c, group[..k])|
    && st.pending == Place(c, group[..k], st.committed)
    && st.seen !! RecordIds(group)
  }

  function AfterGroup(c: Codec, st: ScanState, group: seq<DiskRecord>): ScanState
    requires AllEncode(c, group) && group != []
  {
    var end := st.committed + |GroupBytes(c, group)|;
    ScanState(end, end, [], st.groups + [Place(c, group, st.committed)], st.seen + RecordIds(group))
  }

  /** The ID of frame `k` is new to the parser. */
  lemma FreshId(c: Codec, limit: nat, st: ScanState, group: seq<DiskRecord>, k: nat)
    requires GoodGroup(c, limit, group) && k < |group| && AtFrame(c, st, group, k)
    ensures group[k].id !in st.seen && group[k].id !in Ids(st.pending)
  {
    PlaceIds(c, group[..k], st.committed);
    assert group[k].id in RecordIds(group);
  }

  lemma NextAtFrame(c: Codec, st: ScanState, group: seq<DiskRecord>, k: nat)
    requires AllEncode(c, group) && k < |group| && AtFrame(c, st, group, k)
    ensures AtFrame(c, Consumed(c, st, group, k), group, k + 1)
  {
    PlaceSteps(c, group, st.committed, k);
  }

  /** The parser takes one printed data frame as the writer meant it. */
  lemma StepRecord(c: Codec, limit: nat, data: seq<byte>, st: ScanState, record: DiskRecord)
    requires c.Lawful() && Printable(c, limit, record)
    requires record.id !in st.seen && record.id !in Ids(st.pending)
    requires var end := st.offset + |FrameOf(c, record)|;
             st.committed <= st.offset && end <= |data| && data[st.offset..end] == FrameOf(c, record)
    ensures Advance(c, limit, data, st) == Move(AddFrame(st, Located(record, st.offset, |FrameOf(c, record)|)))
  {
    PrintedFrame(c, limit, data, st.offset, Data, record.id, c.marshal(record).value);
  }

  /** The parser accepts the commit marker of the group it has just read. */
  lemma StepCommit(c: Codec, limit: nat, data: seq<byte>, st: ScanState, group: seq<DiskRecord>)
    requires c.Lawful() && limit >= COMMIT_PAYLOAD && GoodGroup(c, limit, group)
    requires AtFrame(c, st, group, |group|)
    requires st.committed + |GroupBytes(c, group)| <= |data|
    requires data[st.committed..st.committed + |GroupBytes(c, group)|] == GroupBytes(c, group)
    ensures st.committed <= st.offset < |data|
    ensures Advance(c, limit, data, st) == Move(AfterGroup(c, st, group))
  {
    var whole, n := GroupBytes(c, group), |FramesBytes(c, group)|;
    assert group[..|group|] == group;
    GroupParts(c, group);
    assert whole[..|whole|] == whole;
    Overlay(data, st.committed, whole, |whole|, 0, n);
    Overlay(data, st.committed, whole, |whole|, n, |whole|);
    AcceptMark(c, limit, data, st, group);
  }

  lemma GroupParts(c: Codec, group: seq<DiskRecord>)
    requires AllEncode(c, group) && group != []
    ensures var n := |FramesBytes(c, group)|;
            GroupBytes(c, group)[0..n] == FramesBytes(c, group) && GroupBytes(c, group)[n..] == CommitFrame(c, MarkOf(c, group))
  {}

  lemma AcceptMark(c: Codec, limit: nat, data: seq<byte>, st: ScanState, group: seq<DiskRecord>)
    requires c.Lawful() && limit >= COMMIT_PAYLOAD && GoodGroup(c, limit, group)
    requires st.committed <= st.offset && st.pending == Place(c, group, st.committed)
    requires st.offset == st.committed + |FramesBytes(c, group)|
    requires st.offset + FRAME_HEADER + COMMIT_PAYLOAD <= |data|
    requires data[st.committed..st.offset] == FramesBytes(c, group)
    requires data[st.offset..st.offset + FRAME_HEADER + COMMIT_PAYLOAD] == CommitFrame(c, MarkOf(c, group))
    ensures Advance(c, limit, data, st) == Move(AfterGroup(c, st, group))
  {
    hide CommitPayload, FramesBytes, FitsU64, DecodeCommit, DataFrame;
    var mark := MarkOf(c, group);
    CommitRoundTrip(mark);
    PrintedFrame(c, limit, data, st.offset, Commit, mark.lastID, CommitPayload(mark));
    PlaceIds(c, group, st.committed);
  }

  lemma LastPart(whole: seq<byte>, bytes: seq<byte>, init: seq<byte>, last: seq<byte>)
    requires init + last <= bytes && |bytes| <= |whole| && whole[0..|bytes|] == bytes
    ensures whole[|init|..|init| + |last|] == last
  {
    Overlay(bytes, 0, init + last, |init| + |last|, |init|, |init| + |last|);
    Overlay(whole, 0, bytes, |bytes|, |init|, |init| + |last|);
    assert bytes[..|bytes|] == bytes;
  }

  /** Frame `k` of a group lies between the ends of its first `k` and its first `k + 1` frames. */
  lemma FrameInGroup(c: Codec, group: seq<DiskRecord>, k: nat)
    requires AllEncode(c, group) && k < |group|
    ensures AllEncode(c, group[..k]) && AllEncode(c, group[..k + 1])
    ensures var lo, hi := |FramesBytes(c, group[..k])|, |FramesBytes(c, group[..k + 1])|;
            lo + |FrameOf(c, group[k])| == hi <= |FramesBytes(c, group)|
            && GroupBytes(c, group)[lo..hi] == FrameOf(c, group[k])
  {
    PlaceSteps(c, group, 0, k);
    FramesPrefix(c, group, k + 1);
    GroupParts(c, group);
    var lo, hi := |FramesBytes(c, group[..k])|, |FramesBytes(c, group[..k + 1])|;
    LastPart(GroupBytes(c, group), FramesBytes(c, group), FramesBytes(c, group[..k]), FrameOf(c, group[k]));
  }

  /** The state after frame `k` of a group. */
  function Consumed(c: Codec, st: ScanState, group: seq<DiskRecord>, k: nat): ScanState
    requires AllEncode(c, group) && k < |group|
  {
    AddFrame(st, Located(group[k], st.offset, |FrameOf(c, group[k])|))
  }

  /** If the first `p` bytes of a group follow the last commit and frame `k` is among them, the parser consumes it. */
  lemma ConsumeFrame(c: Codec, limit: nat, wide: nat, data: seq<byte>, st: ScanState, group: seq<DiskRecord>, k: nat, p: nat)
    requires c.Lawful() && GoodGroup(c, wide, group) && k < |group| && Printable(c, limit, group[k])
    requires AtFrame(c, st, group, k)
    requires p <= |GroupBytes(c, group)| && st.committed + p <= |data|
    requires data[st.committed..st.committed + p] == GroupBytes(c, group)[..p]
    requires |FramesBytes(c, group[..k])| + |FrameOf(c, group[k])| <= p
    ensures AtFrame(c, Consumed(c, st, group, k), group, k + 1)
    ensures st.committed <= st.offset && st.offset < Consumed(c, st, group, k).offset <= st.committed + p
    ensures Advance(c, limit, data, st) == Move(Consumed(c, st, group, k))
  {
    FrameInGroup(c, group, k);
    Overlay(data, st.committed, GroupBytes(c, group), p, |FramesBytes(c, group[..k])|, |FramesBytes(c, group[..k + 1])|);
    FreshId(c, wide, st, group, k);
    StepRecord(c, limit, data, st, group[k]);
    NextAtFrame(c, st, group, k);
  }

  /** The parser's limit on payloads, which the writer does not check. */
  ghost predicate WithinLimit(c: Codec, limit: nat, group: seq<DiskRecord>)
    requires AllEncode(c, group)
  {
    forall k :: 0 <= k < |group| ==> |c.marshal(group[k]).value| <= limit
  }

  /** A whole frame whose payload is above the limit is taken for a torn one. */
  lemma OversizeFrame(c: Codec, limit: nat, data: seq<byte>, offset: nat, record: DiskRecord)
    requires c.Lawful() && c.marshal(record).Some? && limit < |c.marshal(record).value|
    requires FitsU32(|c.marshal(record).value|) && FitsU64(record.id)
    requires var end := offset + |FrameOf(c, record)|; end <= |data| && data[offset..end] == FrameOf(c, record)
    ensures NextFrame(c, limit, data, offset) == Tail
  {
    var payload := c.marshal(record).value;
    var frame := Frame(c, Data, record.id, payload);
    assert data[offset..offset + FRAME_HEADER] == frame[..FRAME_HEADER] == FrameHeader(c, Data, record.id, payload);
    FrameHeaderRoundTrip(c, Data, record.id, payload);
  }

  lemma OversizeInGroup(c: Codec, limit: nat, wide: nat, data: seq<byte>, st: ScanState, group: seq<DiskRecord>, k: nat)
    requires c.Lawful() && GoodGroup(c, wide, group) && k < |group| && AtFrame(c, st, group, k)
    requires limit < |c.marshal(group[k]).value|
    requires st.committed + |GroupBytes(c, group)| <= |data|
    requires data[st.committed..st.committed + |GroupBytes(c, group)|] == GroupBytes(c, group)
    ensures st.committed <= st.offset < |data|
    ensures Advance(c, limit, data, st) == Done(Parsed(st.groups, st.committed))
  {
    hide GroupBytes, FramesBytes, DecodeRecord, FrameOf, DecodeFrameHeader;
    var whole := GroupBytes(c, group);
    FrameInGroup(c, group, k);
    assert whole[..|whole|] == whole;
    Overlay(data, st.committed, whole, |whole|, |FramesBytes(c, group[..k])|, |FramesBytes(c, group[..k + 1])|);
    OversizeFrame(c, limit, data, st.offset, group[k]);
  }

  /** A group that is wholly in the file, with its marker, is read as committed exactly when each payload is within
      the limit; otherwise the parse ends before it, and recovery cuts the group and all that follows. */
  lemma {:induction false} GroupReadIff(c: Codec, limit: nat, wide: nat, data: seq<byte>, st: ScanState, group: seq<DiskRecord>, k: nat)
    requires c.Lawful() && limit >= COMMIT_PAYLOAD && GoodGroup(c, wide, group) && k <= |group|
    requires AtFrame(c, st, group, k)
    requires WithinLimit(c, limit, group[..k])
    requires st.committed + |GroupBytes(c, group)| <= |data|
    requires data[st.committed..st.committed + |GroupBytes(c, group)|] == GroupBytes(c, group)
    ensures st.committed <= st.offset <= |data|
    ensures ScanFrom(c, limit, data, st)
         == if WithinLimit(c, limit, group) then ScanFrom(c, limit, data, AfterGroup(c, st, group))
            else Parsed(st.groups, st.committed)
    decreases |group| - k
  {
    hide AtFrame, FitsU32, Advance, DataFrame, ValidCommit, CommitPayload, CloseGroup, DecodeRecord;
    var whole := GroupBytes(c, group);
    if k == |group| {
      assert group[..k] == group;
      StepCommit(c, limit, data, st, group);
    } else if |c.marshal(group[k]).value| <= limit {
      FrameInGroup(c, group, k);
      assert whole[..|whole|] == whole;
      ConsumeFrame(c, limit, wide, data, st, group, k, |whole|);
      GroupReadIff(c, limit, wide, data, Consumed(c, st, group, k), group, k + 1);
    } else {
      OversizeInGroup(c, limit, wide, data, st, group, k);
    }
  }

  /** A whole group in the file takes the parser from its first byte to the state with that group committed. */
  lemma ScanGroup(c: Codec, limit: nat, data: seq<byte>, st: ScanState, group: seq<DiskRecord>, k: nat)
    requires c.Lawful() && limit >= COMMIT_PAYLOAD && GoodGroup(c, limit, group) && k <= |group|
    requires AtFrame(c, st, group, k)
    requires st.committed + |GroupBytes(c, group)| <= |data|
    requires data[st.committed..st.committed + |GroupBytes(c, group)|] == GroupBytes(c, group)
    ensures st.committed <= st.offset <= |data|
    ensures ScanFrom(c, limit, data, st) == ScanFrom(c, limit, data, AfterGroup(c, st, group))
  {
    hide AtFrame, FitsU32, ScanFrom, FramesBytes, GroupBytes, AfterGroup;
    GroupReadIff(c, limit, limit, data, st, group, k);
  }

  /** A proper prefix of a group is a tail, wherever it was cut. */
  lemma {:induction false} ScanTornGroup(c: Codec, limit: nat, data: seq<byte>, st: ScanState, group: seq<DiskRecord>, k: nat)
    requires c.Lawful() && limit >= COMMIT_PAYLOAD && GoodGroup(c, limit, group) && k <= |group|
    requires AtFrame(c, st, group, k)
    requires st.committed <= st.offset <= |data| < st.committed + |GroupBytes(c, group)|
    requires data[st.committed..|data|] == GroupBytes(c, group)[..|data| - st.committed]
    ensures ScanFrom(c, limit, data, st) == Parsed(st.groups, st.committed)
    decreases |group| - k
  {
    hide GroupBytes, NextFrame, MarkOf, CommitFrame, CommitPayload;
    hide FrameOf, RecordIds, Ids, DataFrame, Frame;
    if st.offset == |data| {
    } else if k < |group| {
      FrameInGroup(c, group, k);
      var p := |data| - st.committed;
      if p < |FramesBytes(c, group[..k + 1])| {
        TornRecord(c, limit, data, st, group, k);
      } else {
        ConsumeFrame(c, limit, limit, data, st, group, k, p);
        ScanTornGroup(c, limit, data, Consumed(c, st, group, k), group, k + 1);
      }
    } else {
      assert group[..k] == group;
      TornCommit(c, limit, data, st, group);
    }
  }

  lemma TornRecord(c: Codec, limit: nat, data: seq<byte>, st: ScanState, group: seq<DiskRecord>, k: nat)
    requires c.Lawful() && GoodGroup(c, limit, group) && k < |group| && AtFrame(c, st, group, k)
    requires st.committed <= st.offset < |data| < st.offset + |FrameOf(c, group[k])|
    requires |data| - st.committed <= |GroupBytes(c, group)|
    requires data[st.committed..|data|] == GroupBytes(c, group)[..|data| - st.committed]
    ensures NextFrame(c, limit, data, st.offset) == Tail
  {
    var whole, p := GroupBytes(c, group), |data| - st.committed;
    FrameInGroup(c, group, k);
    var lo, hi := |FramesBytes(c, group[..k])|, |FramesBytes(c, group[..k + 1])|;
    Overlay(data, st.committed, whole, p, lo, p);
    SliceOfSlice(whole, lo, hi, 0, p - lo);
    TornFrame(c, limit, data, st.offset, Data, group[k].id, c.marshal(group[k]).value);
  }

  lemma TornCommit(c: Codec, limit: nat, data: seq<byte>, st: ScanState, group: seq<DiskRecord>)
    requires c.Lawful() && GoodGroup(c, limit, group)
    requires st.committed + |FramesBytes(c, group)| == st.offset < |data| < st.committed + |GroupBytes(c, group)|
    requires data[st.committed..|data|] == GroupBytes(c, group)[..|data| - st.committed]
    ensures NextFrame(c, limit, data, st.offset) == Tail
  {
    hide FramesBytes, Big, FrameOf, Frame, FrameHeader;
    var whole, mark, n, p := GroupBytes(c, group), MarkOf(c, group), |FramesBytes(c, group)|, |data| - st.committed;
    GroupParts(c, group);
    Overlay(data, st.committed, whole, p, n, p);
    SliceOfSlice(whole, n, |whole|, 0, p - n);
    TornFrame(c, limit, data, st.offset, Commit, mark.lastID, CommitPayload(mark));
  }
}
