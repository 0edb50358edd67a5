/**
 * What the readers of the log accept, exactly: a header, a frame or an entry is taken only if it is one that a writer could
 * have printed, so that nothing else ever counts as committed.
 */
module WalAccept {
  import opened Bytes
  import opened Telemetry
  import opened WalFormat
  import opened WalScan
  import opened WalLog
  import opened WalRecovery

  // ---- numbers and checksums ---------------------------------------------------------------------------------

  /** A byte string is the printed form of the number that it denotes. */
  lemma {:induction false} BigOfNumber(s: seq<byte>)
    ensures Big(Number(s), |s|) == s && Number(s) < Capacity(|s|)
  {
    if s != [] {
      var init := s[..|s| - 1];
      BigOfNumber(init);
      assert Number(s) / 256 == Number(init) && Number(s) % 256 == s[|s| - 1] as int;
      assert s == init + [s[|s| - 1]];
    }
  }

  /** A header whose last four bytes are the checksum of the others. */
  lemma Checked(c: Codec, s: seq<byte>, n: nat)
    requires |s| == n + 4 && c.crc(s[..n]) == Number(s[n..n + 4])
    ensures s == s[..n] + Big(c.crc(s[..n]), 4)
  {
    BigOfNumber(s[n..n + 4]);
    assert s == s[..n] + s[n..n + 4];
  }

  // ---- headers -----------------------------------------------------------------------------------------------

  /** The segment headers that are accepted for a segment are those printed for it, at whatever time. */
  lemma SegmentHeaderIff(c: Codec, s: seq<byte>, id: nat)
    requires c.Lawful() && FitsU64(id)
    ensures DecodeSegmentHeader(c, s, id) == None <==> exists createdAt :: FitsU64(createdAt) && s == SegmentHeader(c, id, createdAt)
  {
    if DecodeSegmentHeader(c, s, id) == None {
      hide SegmentHeaderBody;
      Checked(c, s, 28);
      Capacities();
      BigOfNumber(s[20..28]);
      SegmentBody(s, id);
      assert s == SegmentHeader(c, id, Number(s[20..28]));
    }
    if createdAt :| FitsU64(createdAt) && s == SegmentHeader(c, id, createdAt) { SegmentHeaderRoundTrip(c, id, createdAt, id); }
  }

  lemma SegmentBody(s: seq<byte>, id: nat)
    requires |s| == SEGMENT_HEADER && s[..8] == SEGMENT_MAGIC
    requires Number(s[8..10]) == 1 && Number(s[10..12]) == SEGMENT_HEADER && Number(s[12..20]) == id
    ensures s[..28] == SegmentHeaderBody(id, Number(s[20..28]))
  {
    hide Number, Big;
    BigOfNumber(s[8..10]);
    BigOfNumber(s[10..12]);
    BigOfNumber(s[12..20]);
    BigOfNumber(s[20..28]);
    assert s[..28] == s[..8] + s[8..10] + s[10..12] + s[12..20] + s[20..28];
  }

  /** The checkpoint headers that are accepted for a segment are the one printed for it. */
  lemma StateHeaderIff(c: Codec, s: seq<byte>, id: nat)
    requires c.Lawful() && FitsU64(id)
    ensures DecodeStateHeader(c, s, id) == None <==> s == StateHeader(c, id)
  {
    if DecodeStateHeader(c, s, id) == None {
      hide StateHeaderBody;
      Checked(c, s, 20);
      StateBody(s, id);
    }
    StateHeaderRoundTrip(c, id, id);
  }

  lemma StateBody(s: seq<byte>, id: nat)
    requires |s| == STATE_HEADER && s[..8] == STATE_MAGIC
    requires Number(s[8..10]) == 1 && Number(s[10..12]) == STATE_HEADER && Number(s[12..20]) == id
    ensures s[..20] == StateHeaderBody(id)
  {
    hide Number, Big;
    BigOfNumber(s[8..10]);
    BigOfNumber(s[10..12]);
    BigOfNumber(s[12..20]);
    assert s[..20] == s[..8] + s[8..10] + s[10..12] + s[12..20];
  }

  // ---- frame headers -----------------------------------------------------------------------------------------

  function PaddedBody(info: FrameInfo, pad: seq<byte>): seq<byte> {
    FRAME_MAGIC + [1, KindByte(info.kind)] + pad + Big(info.payloadSize, 4) + Big(info.sequence, 8) + Big(info.checksum, 4)
  }

  /** A frame header, whatever its two reserved bytes are. */
  function PaddedHeader(c: Codec, info: FrameInfo, pad: seq<byte>): seq<byte> {
    PaddedBody(info, pad) + Big(c.crc(PaddedBody(info, pad)), 4)
  }

  ghost predicate FitsFrame(info: FrameInfo) {
    FitsU64(info.sequence) && FitsU32(info.payloadSize) && FitsU32(info.checksum)
  }

  /** The frame headers that are read as something are those printed for it, up to the reserved bytes. */
  lemma FrameHeaderIff(c: Codec, s: seq<byte>, info: FrameInfo)
    requires c.Lawful()
    ensures DecodeFrameHeader(c, s) == Ok(info) <==> FitsFrame(info) && exists pad :: |pad| == 2 && s == PaddedHeader(c, info, pad)
  {
    if DecodeFrameHeader(c, s) == Ok(info) {
      hide PaddedBody;
      Checked(c, s, 24);
      PaddedBodyRead(s, info);
      assert s == PaddedHeader(c, info, s[6..8]);
    }
    if FitsFrame(info) && exists pad :: |pad| == 2 && s == PaddedHeader(c, info, pad) {
      var pad :| |pad| == 2 && s == PaddedHeader(c, info, pad);
      PaddedHeaderRead(c, info, pad);
    }
  }

  lemma PaddedBodyRead(s: seq<byte>, info: FrameInfo)
    requires |s| == FRAME_HEADER && s[..4] == FRAME_MAGIC && s[4] == 1 && s[5] == KindByte(info.kind)
    requires Number(s[8..12]) == info.payloadSize && Number(s[12..20]) == info.sequence && Number(s[20..24]) == info.checksum
    ensures s[..24] == PaddedBody(info, s[6..8]) && FitsFrame(info)
  {
    hide Number, Big;
    Capacities();
    BigOfNumber(s[8..12]);
    BigOfNumber(s[12..20]);
    BigOfNumber(s[20..24]);
    assert s[4..6] == [1, KindByte(info.kind)];
    assert s[..24] == s[..4] + s[4..6] + s[6..8] + s[8..12] + s[12..20] + s[20..24];
  }

  lemma PaddedHeaderRead(c: Codec, info: FrameInfo, pad: seq<byte>)
    requires c.Lawful() && FitsFrame(info) && |pad| == 2
    ensures DecodeFrameHeader(c, PaddedHeader(c, info, pad)) == Ok(info)
  {
    var s, body := PaddedHeader(c, info, pad), PaddedBody(info, pad);
    Capacities();
    BigRoundTrip(info.payloadSize, 4); BigRoundTrip(info.sequence, 8); BigRoundTrip(info.checksum, 4); BigRoundTrip(c.crc(body), 4);
    PaddedFields(c, info, pad);
    hide Big, Number, PaddedHeader, PaddedBody;
    assert s[4] == s[4..6][0] && s[5] == s[4..6][1];
  }

  lemma PaddedFields(c: Codec, info: FrameInfo, pad: seq<byte>)
    requires |pad| == 2
    ensures var s, body := PaddedHeader(c, info, pad), PaddedBody(info, pad);
            && |s| == FRAME_HEADER && s[..24] == body && s[24..28] == Big(c.crc(body), 4)
            && s[..4] == FRAME_MAGIC && s[4..6] == [1, KindByte(info.kind)]
            && s[8..12] == Big(info.payloadSize, 4) && s[12..20] == Big(info.sequence, 8) && s[20..24] == Big(info.checksum, 4)
  {
    hide Big;
  }

  // ---- commit markers and checkpoint entries -------------------------------------------------------------------

  ghost predicate FitsMark(mark: CommitMark) {
    FitsU64(mark.firstID) && FitsU64(mark.lastID) && FitsU32(mark.count) && FitsU32(mark.dataBytes) && FitsU32(mark.checksum)
  }

  lemma CommitIff(payload: seq<byte>, mark: CommitMark)
    ensures DecodeCommit(payload) == Some(mark) <==> FitsMark(mark) && payload == CommitPayload(mark)
  {
    if DecodeCommit(payload) == Some(mark) {
      Capacities();
      BigOfNumber(payload[0..8]);
      BigOfNumber(payload[8..16]);
      BigOfNumber(payload[16..20]);
      BigOfNumber(payload[20..24]);
      BigOfNumber(payload[24..28]);
      hide Big, Number;
      assert payload == payload[0..8] + payload[8..16] + payload[16..20] + payload[20..24] + payload[24..28];
    }
    if FitsMark(mark) { CommitRoundTrip(mark); }
  }

  function PaddedEntryBody(e: StateEntry, pad: byte): seq<byte> {
    ENTRY_MAGIC + [1, StateByte(e.kind), e.reason, pad] + Big(e.id, 8) + Big(e.attempts, 4)
  }

  /** A checkpoint entry, whatever its reserved byte is. */
  function PaddedEntry(c: Codec, e: StateEntry, pad: byte): seq<byte> {
    PaddedEntryBody(e, pad) + Big(c.crc(PaddedEntryBody(e, pad)), 4)
  }

  /** The checkpoint entries that are read as something are those printed for it, up to the reserved byte. */
  lemma EntryIff(c: Codec, s: seq<byte>, e: StateEntry)
    requires c.Lawful()
    ensures DecodeEntry(c, s) == Ok(e) <==> FitsU64(e.id) && FitsU32(e.attempts) && exists pad :: s == PaddedEntry(c, e, pad)
  {
    if DecodeEntry(c, s) == Ok(e) {
      hide PaddedEntryBody;
      Checked(c, s, 20);
      PaddedEntryRead(s, e);
      assert s == PaddedEntry(c, e, s[7]);
    }
    if FitsU64(e.id) && FitsU32(e.attempts) && exists pad :: s == PaddedEntry(c, e, pad) {
      var pad :| s == PaddedEntry(c, e, pad);
      EntryRead(c, e, pad);
    }
  }

  lemma PaddedEntryRead(s: seq<byte>, e: StateEntry)
    requires |s| == STATE_ENTRY && s[..4] == ENTRY_MAGIC && s[4] == 1 && s[5] == StateByte(e.kind) && s[6] == e.reason
    requires Number(s[8..16]) == e.id && Number(s[16..20]) == e.attempts
    ensures s[..20] == PaddedEntryBody(e, s[7]) && FitsU64(e.id) && FitsU32(e.attempts)
  {
    hide Number, Big;
    Capacities();
    BigOfNumber(s[8..16]);
    BigOfNumber(s[16..20]);
    assert s[4..8] == [1, StateByte(e.kind), e.reason, s[7]];
    assert s[..20] == s[..4] + s[4..8] + s[8..16] + s[16..20];
  }

  lemma EntryRead(c: Codec, e: StateEntry, pad: byte)
    requires c.Lawful() && FitsU64(e.id) && FitsU32(e.attempts)
    ensures DecodeEntry(c, PaddedEntry(c, e, pad)) == Ok(e)
  {
    var s, body := PaddedEntry(c, e, pad), PaddedEntryBody(e, pad);
    Capacities();
    BigRoundTrip(e.id, 8); BigRoundTrip(e.attempts, 4); BigRoundTrip(c.crc(body), 4);
    EntryFields(c, e, pad);
    hide Big, Number, PaddedEntry, PaddedEntryBody;
    assert s[4] == s[4..8][0] && s[5] == s[4..8][1] && s[6] == s[4..8][2];
  }

  lemma EntryFields(c: Codec, e: StateEntry, pad: byte)
    ensures var s, body := PaddedEntry(c, e, pad), PaddedEntryBody(e, pad);
            && |s| == STATE_ENTRY && s[..20] == body && s[20..24] == Big(c.crc(body), 4)
            && s[..4] == ENTRY_MAGIC && s[4..8] == [1, StateByte(e.kind), e.reason, pad]
            && s[8..16] == Big(e.id, 8) && s[16..20] == Big(e.attempts, 4)
  {
    hide Big;
  }

  // ---- the frames of a segment -----------------------------------------------------------------------------------

  /** A whole frame at this place: its header says what it is, up to the reserved bytes, and its payload follows. */
  ghost predicate FrameLies(c: Codec, data: seq<byte>, at: nat, kind: FrameKind, sequence: nat, payload: seq<byte>,
                            pad: seq<byte>) {
    && |pad| == 2 && at + FRAME_HEADER + |payload| <= |data| && FitsFrame(FrameInfo(kind, sequence, |payload|, c.crc(payload)))
    && data[at..at + FRAME_HEADER] == PaddedHeader(c, FrameInfo(kind, sequence, |payload|, c.crc(payload)), pad)
    && data[at + FRAME_HEADER..at + FRAME_HEADER + |payload|] == payload
  }

  /** A data frame: its payload is the document of a valid record with the ID that the header names. */
  ghost predicate RecordLies(c: Codec, limit: nat, data: seq<byte>, f: Located) {
    exists payload, pad ::
      && FrameLies(c, data, f.offset, Data, f.record.id, payload, pad) && f.size == FRAME_HEADER + |payload| && |payload| <= limit
      && c.unmarshal(payload) == Some(f.record) && f.record.id > 0 && f.record.enqueuedAt > 0
  }

  /** Data frames side by side. */
  ghost predicate FramesTile(c: Codec, limit: nat, data: seq<byte>, frames: seq<Located>, lo: nat, hi: nat) {
    if frames == [] then lo == hi
    else
      var f := frames[|frames| - 1];
      && RecordLies(c, limit, data, f) && lo <= f.offset && f.offset + f.size == hi
      && FramesTile(c, limit, data, frames[..|frames| - 1], lo, f.offset)
  }

  function MarkFor(c: Codec, data: seq<byte>, frames: seq<Located>, lo: nat, mid: nat): CommitMark
    requires frames != [] && lo <= mid <= |data|
  {
    CommitMark(frames[0].record.id, frames[|frames| - 1].record.id, |frames|, mid - lo, c.crc(data[lo..mid]))
  }

  /** The commit marker of these frames. */
  ghost predicate MarkerLies(c: Codec, limit: nat, data: seq<byte>, frames: seq<Located>, lo: nat, mid: nat, hi: nat) {
    && frames != [] && lo <= mid <= |data| && hi == mid + FRAME_HEADER + COMMIT_PAYLOAD && COMMIT_PAYLOAD <= limit
    && FitsMark(MarkFor(c, data, frames, lo, mid))
    && CommitLies(c, data, mid, frames[|frames| - 1].record.id, CommitPayload(MarkFor(c, data, frames, lo, mid)))
  }

  ghost predicate CommitLies(c: Codec, data: seq<byte>, at: nat, sequence: nat, payload: seq<byte>) {
    exists pad :: FrameLies(c, data, at, Commit, sequence, payload, pad)
  }

  /** Groups side by side, each closed by its marker. */
  ghost predicate GroupsTile(c: Codec, limit: nat, data: seq<byte>, groups: seq<seq<Located>>, lo: nat, hi: nat) {
    if groups == [] then lo == hi
    else exists start :: GroupsTile(c, limit, data, Init(groups), lo, start) && LastTiles(c, limit, data, groups, start, hi)
  }

  function Init<T>(s: seq<T>): seq<T>
    requires s != []
  {
    s[..|s| - 1]
  }

  ghost predicate LastTiles(c: Codec, limit: nat, data: seq<byte>, groups: seq<seq<Located>>, start: nat, hi: nat)
    requires groups != []
  {
    exists mid :: GroupLies(c, limit, data, LastOf(groups), start, mid, hi)
  }

  function LastOf<T>(s: seq<T>): T
    requires s != []
  {
    s[|s| - 1]
  }

  ghost predicate GroupLies(c: Codec, limit: nat, data: seq<byte>, frames: seq<Located>, lo: nat, mid: nat, hi: nat) {
    FramesTile(c, limit, data, frames, lo, mid) && MarkerLies(c, limit, data, frames, lo, mid, hi)
  }

  /** Nothing, or less than a frame: too short for a header, or a header of a payload that is too large or not all there. */
  ghost predicate EndsShort(c: Codec, limit: nat, data: seq<byte>, at: nat) {
    && at <= |data|
    && (|data| - at < FRAME_HEADER || exists info, pad ::
          && FitsFrame(info) && |pad| == 2 && data[at..at + FRAME_HEADER] == PaddedHeader(c, info, pad)
          && (info.payloadSize > limit || |data| - at < FRAME_HEADER + info.payloadSize))
  }

  ghost predicate NoneTwice(ids: seq<nat>) {
    forall i, j :: 0 <= i < j < |ids| ==> ids[i] != ids[j]
  }

  /** Different records, none of them known. */
  ghost predicate NewRecords(frames: seq<Located>, seen: set<nat>) {
    NoneTwice(FrameIds(frames)) && forall k :: 0 <= k < |frames| ==> frames[k].record.id !in seen
  }

  // ---- one frame -------------------------------------------------------------------------------------------------

  /** The reader takes a frame exactly if it lies there, whole and not too large. */
  lemma NextIff(c: Codec, limit: nat, data: seq<byte>, at: nat, info: FrameInfo, payload: seq<byte>)
    requires c.Lawful() && at <= |data|
    ensures NextFrame(c, limit, data, at) == Next(info, payload) <==>
              && info.payloadSize == |payload| <= limit && info.checksum == c.crc(payload)
              && exists pad :: FrameLies(c, data, at, info.kind, info.sequence, payload, pad)
  {
    hide PaddedHeader, DecodeFrameHeader;
    if |data| - at >= FRAME_HEADER {
      FrameHeaderIff(c, data[at..at + FRAME_HEADER], info);
      if NextFrame(c, limit, data, at) == Next(info, payload) {
        var pad :| |pad| == 2 && data[at..at + FRAME_HEADER] == PaddedHeader(c, info, pad);
        assert FrameLies(c, data, at, info.kind, info.sequence, payload, pad);
      }
    }
  }

  /** The reader takes the rest for a torn tail exactly if it ends short. */
  lemma TailIff(c: Codec, limit: nat, data: seq<byte>, at: nat)
    requires c.Lawful() && at <= |data|
    ensures NextFrame(c, limit, data, at) == Tail <==> EndsShort(c, limit, data, at)
  {
    hide PaddedHeader, DecodeFrameHeader;
    if |data| - at >= FRAME_HEADER {
      var s := data[at..at + FRAME_HEADER];
      var r := DecodeFrameHeader(c, s);
      if r.Ok? { FrameHeaderIff(c, s, r.value); }
      if EndsShort(c, limit, data, at) {
        var info, pad :| FitsFrame(info) && |pad| == 2 && s == PaddedHeader(c, info, pad)
          && (info.payloadSize > limit || |data| - at < FRAME_HEADER + info.payloadSize);
        FrameHeaderIff(c, s, info);
      }
    }
  }

  // ---- the parser, turn by turn ------------------------------------------------------------------------------------

  lemma {:induction false} TilesWithin(c: Codec, limit: nat, data: seq<byte>, frames: seq<Located>, lo: nat, hi: nat)
    requires FramesTile(c, limit, data, frames, lo, hi)
    ensures lo <= hi && (lo <= |data| ==> hi <= |data|)
  {}

  lemma {:induction false} GroupsWithin(c: Codec, limit: nat, data: seq<byte>, groups: seq<seq<Located>>, lo: nat, hi: nat)
    requires GroupsTile(c, limit, data, groups, lo, hi)
    ensures lo <= hi && (lo <= |data| ==> hi <= |data|)
  {
    if groups != [] {
      var start :| GroupsTile(c, limit, data, Init(groups), lo, start) && LastTiles(c, limit, data, groups, start, hi);
      var mid :| GroupLies(c, limit, data, LastOf(groups), start, mid, hi);
      GroupsWithin(c, limit, data, Init(groups), lo, start);
      TilesWithin(c, limit, data, LastOf(groups), start, mid);
      var pad :| FrameLies(c, data, mid, Commit, LastOf(groups)[|LastOf(groups)| - 1].record.id,
                           CommitPayload(MarkFor(c, data, LastOf(groups), start, mid)), pad);
    }
  }

  lemma TilesMore(c: Codec, limit: nat, data: seq<byte>, frames: seq<Located>, lo: nat, hi: nat, f: Located)
    requires FramesTile(c, limit, data, frames, lo, hi) && RecordLies(c, limit, data, f) && f.offset == hi
    ensures FramesTile(c, limit, data, frames + [f], lo, hi + f.size)
  {
    hide RecordLies;
    TilesWithin(c, limit, data, frames, lo, hi);
    assert (frames + [f])[..|frames|] == frames;
  }

  lemma GroupsMore(c: Codec, limit: nat, data: seq<byte>, groups: seq<seq<Located>>, lo: nat, start: nat,
                   frames: seq<Located>, mid: nat, hi: nat)
    requires GroupsTile(c, limit, data, groups, lo, start) && GroupLies(c, limit, data, frames, start, mid, hi)
    ensures GroupsTile(c, limit, data, groups + [frames], lo, hi)
  {
    hide GroupLies;
    var more := groups + [frames];
    assert Init(more) == groups && LastOf(more) == frames;
    assert LastTiles(c, limit, data, more, start, hi);
  }

  /** The parser takes the data frame that lies at its place, if its record is new. */
  lemma FrameTaken(c: Codec, limit: nat, data: seq<byte>, st: ScanState, f: Located)
    requires c.Lawful() && st.committed <= st.offset && RecordLies(c, limit, data, f) && f.offset == st.offset
    requires f.record.id !in st.seen && f.record.id !in Ids(st.pending)
    ensures st.offset < |data| && Advance(c, limit, data, st) == Move(AddFrame(st, f))
  {
    hide PaddedHeader, DecodeFrameHeader, NextFrame, Ids;
    var payload, pad :|
      && FrameLies(c, data, f.offset, Data, f.record.id, payload, pad) && f.size == FRAME_HEADER + |payload| && |payload| <= limit
      && c.unmarshal(payload) == Some(f.record) && f.record.id > 0 && f.record.enqueuedAt > 0;
    NextIff(c, limit, data, st.offset, FrameInfo(Data, f.record.id, |payload|, c.crc(payload)), payload);
    assert f == Located(f.record, st.offset, FRAME_HEADER + |payload|);
  }

  /** The parser takes the marker of the frames that it has read. */
  lemma MarkerTaken(c: Codec, limit: nat, data: seq<byte>, st: ScanState, hi: nat)
    requires c.Lawful() && MarkerLies(c, limit, data, st.pending, st.committed, st.offset, hi)
    ensures st.committed <= st.offset < |data| && Advance(c, limit, data, st) == Move(CloseGroup(st, hi))
  {
    hide PaddedHeader, DecodeFrameHeader, NextFrame, CloseGroup, DecodeCommit, CommitPayload;
    var mark := MarkFor(c, data, st.pending, st.committed, st.offset);
    var payload := CommitPayload(mark);
    var pad :| FrameLies(c, data, st.offset, Commit, mark.lastID, payload, pad);
    NextIff(c, limit, data, st.offset, FrameInfo(Commit, mark.lastID, |payload|, c.crc(payload)), payload);
    CommitIff(payload, mark);
  }

  /** What the parser has read so far lies where it says. */
  ghost predicate Read(c: Codec, limit: nat, data: seq<byte>, st: ScanState, seen: set<nat>) {
    && st.committed <= st.offset <= |data|
    && GroupsTile(c, limit, data, st.groups, SEGMENT_HEADER, st.committed)
    && FramesTile(c, limit, data, st.pending, st.committed, st.offset)
    && st.seen == seen + Ids(WalLog.Flat(st.groups)) && NewRecords(WalLog.Flat(st.groups) + st.pending, seen)
  }

  /** A data frame that the parser takes lies there. */
  lemma TakenLies(c: Codec, limit: nat, data: seq<byte>, st: ScanState, info: FrameInfo, payload: seq<byte>, record: DiskRecord)
    requires c.Lawful() && st.committed <= st.offset <= |data| && NextFrame(c, limit, data, st.offset) == Next(info, payload)
    requires info.kind == Data && DecodeRecord(c, payload, info.sequence) == Ok(record)
    ensures RecordLies(c, limit, data, Located(record, st.offset, FRAME_HEADER + |payload|))
  {
    hide PaddedHeader, NextFrame;
    NextIff(c, limit, data, st.offset, info, payload);
    var pad :| FrameLies(c, data, st.offset, info.kind, info.sequence, payload, pad);
    assert FrameLies(c, data, st.offset, Data, record.id, payload, pad);
  }

  /** A marker that the parser takes is that of the frames before it. */
  lemma ClosedLies(c: Codec, limit: nat, data: seq<byte>, st: ScanState, info: FrameInfo, payload: seq<byte>, mark: CommitMark)
    requires c.Lawful() && st.committed <= st.offset <= |data| && NextFrame(c, limit, data, st.offset) == Next(info, payload)
    requires info.kind == Commit && DecodeCommit(payload) == Some(mark)
    requires ValidCommit(c, mark, st.pending, data[st.committed..st.offset], info.sequence)
    ensures MarkerLies(c, limit, data, st.pending, st.committed, st.offset, st.offset + FRAME_HEADER + |payload|)
  {
    hide PaddedHeader, NextFrame, DecodeCommit, CommitPayload;
    NextIff(c, limit, data, st.offset, info, payload);
    CommitIff(payload, mark);
    assert mark == MarkFor(c, data, st.pending, st.committed, st.offset);
    var pad :| FrameLies(c, data, st.offset, info.kind, info.sequence, payload, pad);
    assert FrameLies(c, data, st.offset, Commit, mark.lastID, CommitPayload(mark), pad);
  }

  lemma NewMore(frames: seq<Located>, seen: set<nat>, f: Located)
    requires NewRecords(frames, seen) && f.record.id !in seen && f.record.id !in Ids(frames)
    ensures NewRecords(frames + [f], seen)
  {
    var ids, all := FrameIds(frames), FrameIds(frames + [f]);
    assert forall k :: 0 <= k < |frames| ==> frames[k] in frames;
    forall i, j | 0 <= i < j < |all| ensures all[i] != all[j] {
      if j == |frames| {
        assert all[i] == frames[i].record.id && frames[i] in frames;
      } else {
        assert all[i] == ids[i] && all[j] == ids[j];
      }
    }
  }

  lemma IdsTogether(a: seq<Located>, b: seq<Located>)
    ensures Ids(a + b) == Ids(a) + Ids(b)
  {
    assert forall f :: f in a + b <==> f in a || f in b;
  }

  lemma FlatMore(groups: seq<seq<Located>>, frames: seq<Located>)
    ensures WalLog.Flat(groups + [frames]) == WalLog.Flat(groups) + frames
  {
    assert (groups + [frames])[..|groups|] == groups;
  }

  /** One turn keeps that. */
  lemma ReadMore(c: Codec, limit: nat, data: seq<byte>, st: ScanState, seen: set<nat>)
    requires c.Lawful() && Read(c, limit, data, st, seen) && Advance(c, limit, data, st).Move?
    ensures Read(c, limit, data, Advance(c, limit, data, st).next, seen)
  {
    hide FramesTile, GroupsTile, NextFrame, ValidCommit, DecodeRecord, DecodeCommit, NewRecords, Ids, MarkerLies, RecordLies, WalLog.Flat;
    var step := NextFrame(c, limit, data, st.offset);
    var info, payload, flat := step.info, step.payload, WalLog.Flat(st.groups);
    IdsTogether(flat, st.pending);
    if info.kind == Data {
      var f := Located(DecodeRecord(c, payload, info.sequence).value, st.offset, FRAME_HEADER + |payload|);
      TakenLies(c, limit, data, st, info, payload, f.record);
      TilesMore(c, limit, data, st.pending, st.committed, st.offset, f);
      RecordIs(c, payload, info.sequence, f.record);
      NewMore(flat + st.pending, seen, f);
      assert flat + st.pending + [f] == flat + (st.pending + [f]);
    } else {
      ClosedLies(c, limit, data, st, info, payload, DecodeCommit(payload).value);
      GroupsMore(c, limit, data, st.groups, SEGMENT_HEADER, st.committed, st.pending, st.offset, st.offset + FRAME_HEADER + |payload|);
      FlatMore(st.groups, st.pending);
      NothingTiles(c, limit, data, st.offset + FRAME_HEADER + |payload|);
      assert flat + st.pending + [] == flat + st.pending;
    }
  }

  lemma RecordIs(c: Codec, payload: seq<byte>, sequence: nat, record: DiskRecord)
    requires DecodeRecord(c, payload, sequence) == Ok(record)
    ensures record.id == sequence
  {}

  lemma NothingTiles(c: Codec, limit: nat, data: seq<byte>, at: nat)
    ensures FramesTile(c, limit, data, [], at, at)
  {}

  // ---- what the parser accepts ---------------------------------------------------------------------------------------

  /** After the committed groups: whole data frames without a marker, and then less than a frame. */
  ghost predicate TailLies(c: Codec, limit: nat, data: seq<byte>, groups: seq<seq<Located>>, committed: nat, seen: set<nat>,
                           rest: seq<Located>, at: nat)
  {
    FramesTile(c, limit, data, rest, committed, at) && EndsShort(c, limit, data, at) && NewRecords(WalLog.Flat(groups) + rest, seen)
  }

  /** The frames of the file from its header on: these committed groups, and an uncommitted tail. */
  ghost predicate Holds(c: Codec, limit: nat, data: seq<byte>, groups: seq<seq<Located>>, committed: nat, seen: set<nat>) {
    && GroupsTile(c, limit, data, groups, SEGMENT_HEADER, committed)
    && exists rest, at: nat :: TailLies(c, limit, data, groups, committed, seen, rest, at)
  }

  lemma {:induction false} ParsedHolds(c: Codec, limit: nat, data: seq<byte>, st: ScanState, seen: set<nat>)
    requires c.Lawful() && Read(c, limit, data, st, seen) && ScanFrom(c, limit, data, st).Parsed?
    ensures var scan := ScanFrom(c, limit, data, st); Holds(c, limit, data, scan.groups, scan.committed, seen)
    decreases |data| - st.offset
  {
    hide Read, Holds, NextFrame;
    ReadWithin(c, limit, data, st, seen);
    match Advance(c, limit, data, st)
    case Move(next) =>
      ReadMore(c, limit, data, st, seen);
      ParsedHolds(c, limit, data, next, seen);
    case Done(scan) => DoneHolds(c, limit, data, st, seen);
  }

  lemma ReadWithin(c: Codec, limit: nat, data: seq<byte>, st: ScanState, seen: set<nat>)
    requires Read(c, limit, data, st, seen)
    ensures st.committed <= st.offset <= |data|
  {
    hide FramesTile, GroupsTile, NewRecords;
  }

  lemma DoneHolds(c: Codec, limit: nat, data: seq<byte>, st: ScanState, seen: set<nat>)
    requires c.Lawful() && Read(c, limit, data, st, seen) && Advance(c, limit, data, st).Done? && Advance(c, limit, data, st).scan.Parsed?
    ensures var scan := Advance(c, limit, data, st).scan; Holds(c, limit, data, scan.groups, scan.committed, seen)
  {
    hide GroupsTile, NewRecords, RecordLies, NextFrame, EndsShort, WalLog.Flat, ValidCommit;
    if st.offset < |data| { TailIff(c, limit, data, st.offset); } else { NothingLeft(c, limit, data); }
    assert TailLies(c, limit, data, st.groups, st.committed, seen, st.pending, st.offset);
  }

  lemma NothingLeft(c: Codec, limit: nat, data: seq<byte>)
    ensures EndsShort(c, limit, data, |data|)
  {}

  /** The state of the parser behind these groups. */
  function Behind(groups: seq<seq<Located>>, at: nat, seen: set<nat>): ScanState {
    ScanState(at, at, [], groups, seen + Ids(WalLog.Flat(groups)))
  }

  lemma NewParts(a: seq<Located>, b: seq<Located>, seen: set<nat>)
    requires NewRecords(a + b, seen)
    ensures NewRecords(a, seen) && forall k :: 0 <= k < |b| ==> b[k].record.id !in seen + Ids(a) && b[k].record.id !in Ids(b[..k])
  {
    var all := a + b;
    assert forall k :: 0 <= k < |a| ==> all[k] == a[k];
    assert forall k :: 0 <= k < |b| ==> all[|a| + k] == b[k];
    assert forall i, j :: 0 <= i < j < |all| ==> FrameIds(all)[i] != FrameIds(all)[j];
    forall i, j | 0 <= i < j < |a| ensures FrameIds(a)[i] != FrameIds(a)[j] {
      assert FrameIds(all)[i] != FrameIds(all)[j];
    }
    forall k | 0 <= k < |b| ensures b[k].record.id !in seen + Ids(a) && b[k].record.id !in Ids(b[..k]) {
      assert all[|a| + k].record.id !in seen;
      forall f | f in a ensures f.record.id != b[k].record.id {
        var i :| 0 <= i < |a| && a[i] == f;
        assert FrameIds(all)[i] != FrameIds(all)[|a| + k];
      }
      forall f | f in b[..k] ensures f.record.id != b[k].record.id {
        var i :| 0 <= i < k && b[..k][i] == f;
        assert FrameIds(all)[|a| + i] != FrameIds(all)[|a| + k];
      }
    }
  }

  /** Through new data frames that lie side by side the parser comes to their end. */
  lemma {:induction false} FramesScanned(c: Codec, limit: nat, data: seq<byte>, st: ScanState, frames: seq<Located>, hi: nat)
    requires c.Lawful() && st.pending == [] && st.committed == st.offset <= |data| && FramesTile(c, limit, data, frames, st.offset, hi)
    requires forall k :: 0 <= k < |frames| ==> frames[k].record.id !in st.seen && frames[k].record.id !in Ids(frames[..k])
    ensures st.offset <= hi <= |data|
    ensures ScanFrom(c, limit, data, st) == ScanFrom(c, limit, data, st.(offset := hi, pending := frames))
    decreases |frames|
  {
    hide Advance, RecordLies, Ids;
    TilesWithin(c, limit, data, frames, st.offset, hi);
    if frames == [] {
      assert st.(offset := hi, pending := frames) == st;
    } else {
      var init, f := frames[..|frames| - 1], frames[|frames| - 1];
      forall k | 0 <= k < |init| ensures init[k].record.id !in st.seen && init[k].record.id !in Ids(init[..k]) {
        assert init[..k] == frames[..k] && init[k] == frames[k];
      }
      FramesScanned(c, limit, data, st, init, f.offset);
      var before := st.(offset := f.offset, pending := init);
      FrameTaken(c, limit, data, before, f);
      assert AddFrame(before, f) == st.(offset := hi, pending := frames) by { assert frames == init + [f]; }
    }
  }

  /** Through groups that lie side by side the parser comes behind them. */
  lemma {:induction false} GroupsScanned(c: Codec, limit: nat, data: seq<byte>, groups: seq<seq<Located>>, hi: nat, seen: set<nat>)
    requires c.Lawful() && |data| >= SEGMENT_HEADER && GroupsTile(c, limit, data, groups, SEGMENT_HEADER, hi)
    requires NewRecords(WalLog.Flat(groups), seen)
    ensures hi <= |data| && ScanFrom(c, limit, data, Start(seen)) == ScanFrom(c, limit, data, Behind(groups, hi, seen))
    decreases |groups|
  {
    hide ScanFrom, FramesTile, MarkerLies, NewRecords, Ids;
    GroupsWithin(c, limit, data, groups, SEGMENT_HEADER, hi);
    if groups == [] {
      NothingBehind(seen);
    } else {
      var init, frames := Init(groups), LastOf(groups);
      assert groups == init + [frames];
      FlatMore(init, frames);
      NewParts(WalLog.Flat(init), frames, seen);
      var start :| GroupsTile(c, limit, data, init, SEGMENT_HEADER, start) && LastTiles(c, limit, data, groups, start, hi);
      var mid :| GroupLies(c, limit, data, frames, start, mid, hi);
      GroupsScanned(c, limit, data, init, start, seen);
      GroupScanned(c, limit, data, init, frames, start, mid, hi, seen);
    }
  }

  lemma NothingBehind(seen: set<nat>)
    ensures Behind([], SEGMENT_HEADER, seen) == Start(seen)
  {
    assert Ids([]) == {} && seen + {} == seen;
  }

  lemma GroupScanned(c: Codec, limit: nat, data: seq<byte>, init: seq<seq<Located>>, frames: seq<Located>, start: nat,
                     mid: nat, hi: nat, seen: set<nat>)
    requires c.Lawful() && start <= |data| && GroupLies(c, limit, data, frames, start, mid, hi) && hi <= |data|
    requires forall k :: 0 <= k < |frames| ==>
      frames[k].record.id !in seen + Ids(WalLog.Flat(init)) && frames[k].record.id !in Ids(frames[..k])
    ensures ScanFrom(c, limit, data, Behind(init, start, seen)) == ScanFrom(c, limit, data, Behind(init + [frames], hi, seen))
  {
    hide FramesTile, MarkerLies, Advance, Ids;
    var st := Behind(init, start, seen);
    FramesScanned(c, limit, data, st, frames, mid);
    var full := st.(offset := mid, pending := frames);
    MarkerTaken(c, limit, data, full, hi);
    FlatMore(init, frames);
    IdsTogether(WalLog.Flat(init), frames);
    assert CloseGroup(full, hi) == Behind(init + [frames], hi, seen);
  }

  lemma HoldsParsed(c: Codec, limit: nat, data: seq<byte>, groups: seq<seq<Located>>, committed: nat, seen: set<nat>)
    requires c.Lawful() && |data| >= SEGMENT_HEADER && Holds(c, limit, data, groups, committed, seen)
    ensures ScanFrom(c, limit, data, Start(seen)) == Parsed(groups, committed)
  {
    hide FramesTile, GroupsTile, EndsShort, NewRecords, NextFrame, Ids, ValidCommit;
    var rest: seq<Located>, at: nat :| TailLies(c, limit, data, groups, committed, seen, rest, at);
    NewParts(WalLog.Flat(groups), rest, seen);
    GroupsScanned(c, limit, data, groups, committed, seen);
    TilesWithin(c, limit, data, rest, committed, at);
    var st := Behind(groups, committed, seen);
    FramesScanned(c, limit, data, st, rest, at);
    var full := st.(offset := at, pending := rest);
    if at < |data| { TailIff(c, limit, data, at); }
    if rest == [] { NoFrames(c, limit, data, committed, at); }
    assert Advance(c, limit, data, full) == Done(Parsed(groups, committed));
  }

  lemma NoFrames(c: Codec, limit: nat, data: seq<byte>, lo: nat, hi: nat)
    requires FramesTile(c, limit, data, [], lo, hi)
    ensures lo == hi
  {}

  ghost predicate SegmentLies(c: Codec, limit: nat, data: seq<byte>, id: nat, seen: set<nat>, groups: seq<seq<Located>>,
                              committed: nat) {
    && |data| >= SEGMENT_HEADER && (exists createdAt :: FitsU64(createdAt) && data[..SEGMENT_HEADER] == SegmentHeader(c, id, createdAt))
    && Holds(c, limit, data, groups, committed, seen)
  }

  /**
   * The parser accepts exactly the files that begin with a header for their segment, go on with whole groups, each closed by
   * the marker of its frames, and end with frames that no marker closes and less than one frame more; all records are
   * different and new. What it takes for committed are those groups. Everything else it refuses.
   */
  lemma ScanIff(c: Codec, limit: nat, data: seq<byte>, id: nat, seen: set<nat>, groups: seq<seq<Located>>, committed: nat)
    requires c.Lawful() && FitsU64(id)
    ensures ScanSegment(c, limit, data, id, seen) == Parsed(groups, committed) <==> SegmentLies(c, limit, data, id, seen, groups, committed)
  {
    hide Holds, ScanFrom, DecodeSegmentHeader, SegmentHeader, Read;
    if |data| >= SEGMENT_HEADER {
      SegmentHeaderIff(c, data[..SEGMENT_HEADER], id);
      if Holds(c, limit, data, groups, committed, seen) { HoldsParsed(c, limit, data, groups, committed, seen); }
      if ScanFrom(c, limit, data, Start(seen)) == Parsed(groups, committed) {
        StartRead(c, limit, data, seen);
        ParsedHolds(c, limit, data, Start(seen), seen);
      }
    }
  }

  lemma StartRead(c: Codec, limit: nat, data: seq<byte>, seen: set<nat>)
    requires |data| >= SEGMENT_HEADER
    ensures Read(c, limit, data, Start(seen), seen)
  {
    NothingBehind(seen);
    assert WalLog.Flat([]) == [] && FrameIds([]) == [];
  }

  // ---- checkpoint files --------------------------------------------------------------------------------------------

  /** Entries side by side from the header on, as many as there are whole ones. */
  ghost predicate EntriesLie(c: Codec, data: seq<byte>, entries: seq<StateEntry>) {
    && STATE_HEADER + |entries| * STATE_ENTRY <= |data| < STATE_HEADER + (|entries| + 1) * STATE_ENTRY
    && forall k :: 0 <= k < |entries| ==> EntryLies(c, data, k, entries[k])
  }

  ghost predicate EntryLies(c: Codec, data: seq<byte>, k: nat, e: StateEntry) {
    && STATE_HEADER + (k + 1) * STATE_ENTRY <= |data| && FitsU64(e.id) && FitsU32(e.attempts)
    && exists pad :: EntrySlot(data, k) == PaddedEntry(c, e, pad)
  }

  lemma {:induction false} EntriesRead(decode: EntryDecoder, data: seq<byte>, n: nat) returns (entries: seq<StateEntry>)
    requires STATE_HEADER + n * STATE_ENTRY <= |data| && ReadStates(decode, data, n).Some?
    ensures |entries| == n && ReadStates(decode, data, n) == Some(StatesOf(entries))
    ensures forall k :: 0 <= k < n ==> STATE_HEADER + (k + 1) * STATE_ENTRY <= |data| && decode(EntrySlot(data, k)) == Ok(entries[k])
  {
    if n == 0 {
      entries := [];
    } else {
      var init := EntriesRead(decode, data, n - 1);
      entries := init + [decode(EntrySlot(data, n - 1)).value];
      assert entries[..n - 1] == init;
    }
  }

  /** A checkpoint with these entries, the latest of each record counting; a missing file is one without entries. */
  ghost predicate CheckpointLies(c: Codec, file: Option<seq<byte>>, id: nat, states: map<nat, StateEntry>, bytes: seq<byte>) {
    var data := if file.Some? then file.value else StateHeader(c, id);
    && |data| >= STATE_HEADER && data[..STATE_HEADER] == StateHeader(c, id)
    && exists entries ::
         EntriesLie(c, data, entries) && states == StatesOf(entries) && bytes == data[..STATE_HEADER + |entries| * STATE_ENTRY]
  }

  /**
   * A checkpoint file is accepted exactly if it begins with the header of its segment and all whole entries behind it were
   * printed as such; an incomplete last one is cut off.
   */
  lemma CheckpointIff(c: Codec, file: Option<seq<byte>>, id: nat, states: map<nat, StateEntry>, bytes: seq<byte>)
    requires c.Lawful() && FitsU64(id)
    ensures ScanCheckpoint(c, file, id) == Checkpoint.Checkpoint(states, bytes) <==> CheckpointLies(c, file, id, states, bytes)
  {
    hide DecodeStateHeader, StateHeader, ReadStates, DecodeEntry, PaddedEntry, EntrySlot, StatesOf;
    var data := if file.Some? then file.value else StateHeader(c, id);
    if |data| >= STATE_HEADER {
      StateHeaderIff(c, data[..STATE_HEADER], id);
      var n := CompleteEntries(data);
      if ScanCheckpoint(c, file, id) == Checkpoint.Checkpoint(states, bytes) {
        var entries := EntriesRead(Decoder(c), data, n);
        forall k | 0 <= k < n ensures EntryLies(c, data, k, entries[k]) { EntryIff(c, EntrySlot(data, k), entries[k]); }
        assert EntriesLie(c, data, entries);
      }
      forall entries | EntriesLie(c, data, entries) ensures |entries| == n && ReadStates(Decoder(c), data, n) == Some(StatesOf(entries)) {
        LieRead(c, data, entries);
      }
    }
  }

  lemma LieRead(c: Codec, data: seq<byte>, entries: seq<StateEntry>)
    requires c.Lawful() && EntriesLie(c, data, entries) && |data| >= STATE_HEADER
    ensures CompleteEntries(data) == |entries| && ReadStates(Decoder(c), data, |entries|) == Some(StatesOf(entries))
  {
    hide ReadStates, DecodeEntry, PaddedEntry, EntrySlot, StatesOf;
    forall k | 0 <= k < |entries|
      ensures STATE_HEADER + (k + 1) * STATE_ENTRY <= |data| && Decoder(c)(EntrySlot(data, k)) == Ok(entries[k])
    {
      assert EntryLies(c, data, k, entries[k]);
      EntryIff(c, EntrySlot(data, k), entries[k]);
    }
    StatesRead(Decoder(c), data, entries, |entries|);
    assert entries[..|entries|] == entries;
  }

  // ---- directories -----------------------------------------------------------------------------------------------------

  /** The record IDs in these segments. */
  function SeenIn(parts: seq<Contents>): set<nat> {
    if parts == [] then {} else SeenIn(parts[..|parts| - 1]) + Elements(FrameIds(parts[|parts| - 1].frames))
  }

  /** Segment `k` of a directory is there and reads as this, its records being new; only the last may have an uncommitted tail. */
  ghost predicate PartRead(c: Codec, limit: nat, disk: Disk, ids: seq<nat>, k: nat, before: seq<Contents>, part: Contents)
    requires k < |ids|
  {
    && ids[k] in disk.data
    && ReadFiles(c, limit, disk.data[ids[k]], Lookup(disk.states, ids[k]), ids[k], SeenIn(before), k + 1 == |ids|) == Some(part)
  }

  /** The first segments of a directory read as these parts. */
  ghost predicate PartsRead(c: Codec, limit: nat, disk: Disk, ids: seq<nat>, parts: seq<Contents>) {
    |parts| <= |ids| && forall k :: 0 <= k < |parts| ==> PartRead(c, limit, disk, ids, k, parts[..k], parts[k])
  }

  /** The files of these segments are cut to what was committed and to whole entries; no other file is touched. */
  ghost predicate Repaired(disk: Disk, ids: seq<nat>, parts: seq<Contents>, after: Disk)
    requires |parts| <= |ids|
  {
    && (forall id :: id !in ids[..|parts|] ==>
          Lookup(after.data, id) == Lookup(disk.data, id) && Lookup(after.states, id) == Lookup(disk.states, id))
    && (forall k :: 0 <= k < |parts| ==> RepairedAt(ids[k], parts[k], after))
  }

  predicate RepairedAt(id: nat, part: Contents, after: Disk) {
    Lookup(after.data, id) == Some(part.data) && Lookup(after.states, id) == Some(part.stateBytes)
  }

  /** What recovery has after the first segments: their record IDs, their files repaired, all others as they were. */
  ghost predicate Got(disk: Disk, ids: seq<nat>, parts: seq<Contents>, index: Index)
    requires |parts| <= |ids|
  {
    && index.seen == SeenIn(parts)
    && Repaired(disk, ids, parts, index.disk)
  }

  lemma RepairedMore(disk: Disk, ids: seq<nat>, parts: seq<Contents>, after: Disk, part: Contents)
    requires |parts| < |ids| && Repaired(disk, ids, parts, after) && ids[|parts|] !in ids[..|parts|]
    ensures var id := ids[|parts|];
            Repaired(disk, ids, parts + [part], Disk(after.data[id := part.data], after.states[id := part.stateBytes]))
  {
    var all, id := parts + [part], ids[|parts|];
    assert ids[..|all|] == ids[..|parts|] + [id];
    forall k | 0 <= k < |all| ensures RepairedAt(ids[k], all[k], Disk(after.data[id := part.data], after.states[id := part.stateBytes])) {
      if k < |parts| { assert RepairedAt(ids[k], parts[k], after) && ids[k] in ids[..|parts|]; }
    }
  }

  lemma GotMore(disk: Disk, ids: seq<nat>, parts: seq<Contents>, index: Index, part: Contents)
    requires |parts| < |ids| && Got(disk, ids, parts, index) && ids[|parts|] !in ids[..|parts|]
    ensures Got(disk, ids, parts + [part], Absorb(index, ids[|parts|], part.frames, part.states, part.data, part.stateBytes))
  {
    hide ActiveIn, QuarantinedIn, NextAfterIds, FrameIds, Repaired;
    assert (parts + [part])[..|parts|] == parts;
    RepairedMore(disk, ids, parts, index.disk, part);
  }

  /** A turn succeeds exactly if the files of its segment can be read. */
  lemma TurnIff(c: Codec, limit: nat, disk: Disk, ids: seq<nat>, parts: seq<Contents>, index: Index, part: Contents)
    requires |parts| < |ids| && Got(disk, ids, parts, index) && ids[|parts|] !in ids[..|parts|]
    ensures var k := |parts|; var next := RecoverTurn(c, limit)(index, ids[k], k + 1 == |ids|);
            && (next.Some? ==> exists p :: PartRead(c, limit, disk, ids, k, parts, p))
            && (PartRead(c, limit, disk, ids, k, parts, part) ==> next.Some? && Got(disk, ids, parts + [part], next.value))
  {
    hide ReadFiles, Absorb, SeenIn;
    var k := |parts|;
    GotMore(disk, ids, parts, index, part);
    assert Lookup(index.disk.data, ids[k]) == Lookup(disk.data, ids[k]);
    if ids[k] in disk.data {
      var read := ReadFiles(c, limit, disk.data[ids[k]], Lookup(disk.states, ids[k]), ids[k], SeenIn(parts), k + 1 == |ids|);
      if read.Some? { assert PartRead(c, limit, disk, ids, k, parts, read.value); }
    }
  }

  lemma NothingGot(c: Codec, limit: nat, disk: Disk, ids: seq<nat>)
    ensures Got(disk, ids, [], Empty(disk)) && PartsRead(c, limit, disk, ids, [])
  {}

  lemma PartsMore(c: Codec, limit: nat, disk: Disk, ids: seq<nat>, parts: seq<Contents>, part: Contents)
    requires PartsRead(c, limit, disk, ids, parts) && |parts| < |ids| && PartRead(c, limit, disk, ids, |parts|, parts, part)
    ensures PartsRead(c, limit, disk, ids, parts + [part])
  {
    hide PartRead;
    var all := parts + [part];
    forall k | 0 <= k < |all| ensures PartRead(c, limit, disk, ids, k, all[..k], all[k]) {
      assert all[..k] == parts[..k];
      if k < |parts| { assert PartRead(c, limit, disk, ids, k, parts[..k], parts[k]); } else { assert parts[..k] == parts; }
    }
  }

  lemma PartsLess(c: Codec, limit: nat, disk: Disk, ids: seq<nat>, parts: seq<Contents>)
    requires PartsRead(c, limit, disk, ids, parts) && parts != []
    ensures var k := |parts| - 1; PartsRead(c, limit, disk, ids, parts[..k]) && PartRead(c, limit, disk, ids, k, parts[..k], parts[k])
  {
    hide PartRead;
    var init := parts[..|parts| - 1];
    forall k | 0 <= k < |init| ensures PartRead(c, limit, disk, ids, k, init[..k], init[k]) {
      assert init[..k] == parts[..k] && PartRead(c, limit, disk, ids, k, parts[..k], parts[k]);
    }
  }

  /** If the loop has come through, each segment on the way was read. */
  lemma {:induction false} LoopRead(c: Codec, limit: nat, disk: Disk, ids: seq<nat>, k: nat) returns (parts: seq<Contents>)
    requires k <= |ids| && Loop(RecoverTurn(c, limit), Empty(disk), ids, k).Some? && NoneTwice(ids)
    ensures |parts| == k && PartsRead(c, limit, disk, ids, parts)
    ensures Got(disk, ids, parts, Loop(RecoverTurn(c, limit), Empty(disk), ids, k).value)
  {
    hide ReadFiles, RecoverTurn, PartRead, Got, Empty;
    NothingGot(c, limit, disk, ids);
    parts := [];
    if k > 0 {
      parts := LoopRead(c, limit, disk, ids, k - 1);
      var index := Loop(RecoverTurn(c, limit), Empty(disk), ids, k - 1).value;
      TurnIff(c, limit, disk, ids, parts, index, Contents([], map[], [], []));
      var part :| PartRead(c, limit, disk, ids, k - 1, parts, part);
      TurnIff(c, limit, disk, ids, parts, index, part);
      PartsMore(c, limit, disk, ids, parts, part);
      parts := parts + [part];
    }
  }

  /** If the first segments can be read, the loop comes through them. */
  lemma {:induction false} ReadLoop(c: Codec, limit: nat, disk: Disk, ids: seq<nat>, parts: seq<Contents>)
    requires |parts| <= |ids| && PartsRead(c, limit, disk, ids, parts) && NoneTwice(ids)
    ensures var index := Loop(RecoverTurn(c, limit), Empty(disk), ids, |parts|); index.Some? && Got(disk, ids, parts, index.value)
    decreases |parts|
  {
    hide ReadFiles, RecoverTurn, PartRead, PartsRead, Got, Empty;
    NothingGot(c, limit, disk, ids);
    if parts == [] {
    } else {
      var k := |parts| - 1;
      var init := parts[..k];
      PartsLess(c, limit, disk, ids, parts);
      ReadLoop(c, limit, disk, ids, init);
      TurnIff(c, limit, disk, ids, init, Loop(RecoverTurn(c, limit), Empty(disk), ids, k).value, parts[k]);
      assert init + [parts[k]] == parts;
    }
  }

  /** The files of a segment hold these records and states; only the last segment may have an uncommitted tail. */
  ghost predicate FilesLie(c: Codec, limit: nat, data: seq<byte>, state: Option<seq<byte>>, id: nat, seen: set<nat>,
                           isLast: bool, part: Contents) {
    && CheckpointLies(c, state, id, part.states, part.stateBytes)
    && exists groups, committed: nat ::
         SegmentLies(c, limit, data, id, seen, groups, committed) && Fills(data, groups, committed, isLast, part)
  }

  predicate Fills(data: seq<byte>, groups: seq<seq<Located>>, committed: nat, isLast: bool, part: Contents) {
    committed <= |data| && (committed == |data| || isLast) && part.frames == WalLog.Flat(groups) && part.data == data[..committed]
  }

  lemma FilesIff(c: Codec, limit: nat, data: seq<byte>, state: Option<seq<byte>>, id: nat, seen: set<nat>, isLast: bool,
                 part: Contents)
    requires c.Lawful() && FitsU64(id)
    ensures ReadFiles(c, limit, data, state, id, seen, isLast) == Some(part) <==> FilesLie(c, limit, data, state, id, seen, isLast, part)
  {
    hide ScanCheckpoint, ScanSegment, CheckpointLies, SegmentLies, WalLog.Flat;
    CheckpointIff(c, state, id, part.states, part.stateBytes);
    forall groups, committed: nat
      ensures ScanSegment(c, limit, data, id, seen) == Parsed(groups, committed) <==> SegmentLies(c, limit, data, id, seen, groups, committed)
    {
      ScanIff(c, limit, data, id, seen, groups, committed);
    }
    var scan := ScanSegment(c, limit, data, id, seen);
    if scan.Parsed? { assert SegmentLies(c, limit, data, id, seen, scan.groups, scan.committed); }
  }

  /** The segments of a directory, in their order, hold these records and states, and no record is in two of them. */
  ghost predicate DirectoryLies(c: Codec, limit: nat, disk: Disk, ids: seq<nat>, parts: seq<Contents>) {
    |parts| == |ids| && forall k :: 0 <= k < |ids| ==> PartLies(c, limit, disk, ids, k, parts[..k], parts[k])
  }

  ghost predicate PartLies(c: Codec, limit: nat, disk: Disk, ids: seq<nat>, k: nat, before: seq<Contents>, part: Contents)
    requires k < |ids|
  {
    ids[k] in disk.data
    && FilesLie(c, limit, disk.data[ids[k]], Lookup(disk.states, ids[k]), ids[k], SeenIn(before), k + 1 == |ids|, part)
  }

  lemma PartIff(c: Codec, limit: nat, disk: Disk, ids: seq<nat>, k: nat, before: seq<Contents>, part: Contents)
    requires c.Lawful() && k < |ids| && FitsU64(ids[k])
    ensures PartRead(c, limit, disk, ids, k, before, part) <==> PartLies(c, limit, disk, ids, k, before, part)
  {
    hide ReadFiles, FilesLie, SeenIn;
    if ids[k] in disk.data {
      FilesIff(c, limit, disk.data[ids[k]], Lookup(disk.states, ids[k]), ids[k], SeenIn(before), k + 1 == |ids|, part);
    }
  }

  lemma DirectoryIff(c: Codec, limit: nat, disk: Disk, ids: seq<nat>, parts: seq<Contents>)
    requires c.Lawful() && (forall k :: 0 <= k < |ids| ==> FitsU64(ids[k])) && |parts| == |ids|
    ensures PartsRead(c, limit, disk, ids, parts) <==> DirectoryLies(c, limit, disk, ids, parts)
  {
    hide PartRead, PartLies;
    forall k | 0 <= k < |ids|
      ensures PartRead(c, limit, disk, ids, k, parts[..k], parts[k]) <==> PartLies(c, limit, disk, ids, k, parts[..k], parts[k])
    {
      PartIff(c, limit, disk, ids, k, parts[..k], parts[k]);
    }
  }

  /**
   * A directory is recovered exactly if all its segments can be read in their order: their checkpoints and logs are as a
   * writer printed them, no record is in two of them, and none but the last has an uncommitted tail.
   */
  lemma RecoverIff(c: Codec, limit: nat, disk: Disk, ids: seq<nat>)
    requires c.Lawful() && NoneTwice(ids) && forall k :: 0 <= k < |ids| ==> FitsU64(ids[k])
    ensures Recover(c, limit, disk, ids).Some? <==> exists parts :: DirectoryLies(c, limit, disk, ids, parts)
    ensures forall parts :: DirectoryLies(c, limit, disk, ids, parts) ==>
      Recover(c, limit, disk, ids).Some? && Repaired(disk, ids, parts, Recover(c, limit, disk, ids).value.disk)
  {
    hide RecoverTurn, PartsRead, PartLies, Repaired;
    if Recover(c, limit, disk, ids).Some? {
      var parts := LoopRead(c, limit, disk, ids, |ids|);
      DirectoryIff(c, limit, disk, ids, parts);
    }
    forall parts | DirectoryLies(c, limit, disk, ids, parts)
      ensures Recover(c, limit, disk, ids).Some? && Repaired(disk, ids, parts, Recover(c, limit, disk, ids).value.disk)
    {
      DirectoryIff(c, limit, disk, ids, parts);
      ReadLoop(c, limit, disk, ids, parts);
    }
  }
}
