/** The byte layout of the write-ahead log: segment headers, frames, commit markers and checkpoint entries. */
module WalFormat {
  import opened Bytes
  import opened Telemetry

  const SEGMENT_HEADER: nat := 32
  const FRAME_HEADER: nat := 28
  const COMMIT_PAYLOAD: nat := 28
  const STATE_HEADER: nat := 24
  const STATE_ENTRY: nat := 24

  const SEGMENT_MAGIC: seq<byte> := [0x4e, 0x46, 0x57, 0x41, 0x4c, 0x53, 0x45, 0x47]  // NFWALSEG
  const FRAME_MAGIC: seq<byte> := [0x4e, 0x46, 0x57, 0x52]  // NFWR
  const STATE_MAGIC: seq<byte> := [0x4e, 0x46, 0x57, 0x53, 0x54, 0x41, 0x54, 0x45]  // NFWSTATE
  const ENTRY_MAGIC: seq<byte> := [0x4e, 0x46, 0x57, 0x53]  // NFWS

  /** What one data frame stores: the JSON document `diskRecord`. */
  datatype DiskRecord = DiskRecord(id: nat, enqueuedAt: int, envelope: Envelope)

  /** The two foreign ingredients: the checksum, and the JSON document format, which may refuse a value. */
  datatype Codec = Codec(
    crc: seq<byte> -> nat,
    marshal: DiskRecord -> Option<seq<byte>>,
    unmarshal: seq<byte> -> Option<DiskRecord>)
  {
    /** JSON decoding undoes encoding, and a checksum is 32 bits wide. */
    ghost predicate Lawful() {
      && (forall s :: crc(s) < 0x1_0000_0000)
      && (forall r :: marshal(r).Some? ==> unmarshal(marshal(r).value) == Some(r))
    }
  }

  datatype FrameKind = Data | Commit

  function KindByte(kind: FrameKind): byte {
    if kind == Data then 1 else 2
  }

  datatype CommitMark = CommitMark(firstID: nat, lastID: nat, count: nat, dataBytes: nat, checksum: nat)

  datatype StateKind = Retry | Ack | Quarantine

  function StateByte(kind: StateKind): byte {
    match kind case Retry => 1 case Ack => 2 case Quarantine => 3
  }

  datatype StateEntry = StateEntry(kind: StateKind, reason: byte, id: nat, attempts: nat)

  datatype FormatError =
    | InvalidHeader | UnsupportedVersion | SegmentMismatch | ChecksumMismatch | UnsupportedKind | InvalidRecord

  ghost predicate FitsU64(n: nat) { n < 0x1_0000_0000_0000_0000 }
  ghost predicate FitsU32(n: nat) { n < 0x1_0000_0000 }

  // ---- segment header ------------------------------------------------------------------------

  function SegmentHeaderBody(segmentID: nat, createdAt: nat): (s: seq<byte>)
    ensures |s| == 28
  {
    SEGMENT_MAGIC + Big(1, 2) + Big(SEGMENT_HEADER, 2) + Big(segmentID, 8) + Big(createdAt, 8)
  }

  /** The printed segment header. */
  function SegmentHeader(c: Codec, segmentID: nat, createdAt: nat): (s: seq<byte>)
    ensures |s| == SEGMENT_HEADER
  {
    var body := SegmentHeaderBody(segmentID, createdAt);
    body + Big(c.crc(body), 4)
  }

  function DecodeSegmentHeader(c: Codec, s: seq<byte>, expectedID: nat): Option<FormatError> {
    if |s| != SEGMENT_HEADER || s[..8] != SEGMENT_MAGIC then Some(InvalidHeader)
    else if Number(s[8..10]) != 1 || Number(s[10..12]) != SEGMENT_HEADER then Some(UnsupportedVersion)
    else if Number(s[12..20]) != expectedID then Some(SegmentMismatch)
    else if c.crc(s[..28]) != Number(s[28..32]) then Some(ChecksumMismatch)
    else None
  }

  /** A printed header is accepted for its own segment and refused as a mismatch for every other one. */
  lemma SegmentHeaderRoundTrip(c: Codec, segmentID: nat, createdAt: nat, expectedID: nat)
    requires c.Lawful() && FitsU64(segmentID)
    ensures DecodeSegmentHeader(c, SegmentHeader(c, segmentID, createdAt), expectedID)
         == if expectedID == segmentID then None else Some(SegmentMismatch)
  {
    var s, body := SegmentHeader(c, segmentID, createdAt), SegmentHeaderBody(segmentID, createdAt);
    Capacities();
    BigRoundTrip(1, 2); BigRoundTrip(SEGMENT_HEADER, 2); BigRoundTrip(segmentID, 8); BigRoundTrip(c.crc(body), 4);
    assert s[..28] == body && s[28..32] == Big(c.crc(body), 4);
    SegmentHeaderFields(s, segmentID, createdAt);
  }

  lemma SegmentHeaderFields(s: seq<byte>, segmentID: nat, createdAt: nat)
    requires |s| == 32 && s[..28] == SegmentHeaderBody(segmentID, createdAt)
    ensures s[..8] == SEGMENT_MAGIC && s[8..10] == Big(1, 2) && s[10..12] == Big(SEGMENT_HEADER, 2)
    ensures s[12..20] == Big(segmentID, 8)
  {
    var body, magic := s[..28], SEGMENT_MAGIC;
    assert body == magic + Big(1, 2) + Big(SEGMENT_HEADER, 2) + Big(segmentID, 8) + Big(createdAt, 8);
    assert s[..8] == body[..8] == magic;
    assert s[8..10] == body[8..10];
    assert s[10..12] == body[10..12];
    assert s[12..20] == body[12..20];
  }

  // ---- frames --------------------------------------------------------------------------------

  function FrameBody(c: Codec, kind: FrameKind, sequence: nat, payload: seq<byte>): (s: seq<byte>)
    ensures |s| == 24
  {
    FRAME_MAGIC + [1, KindByte(kind), 0, 0] + Big(|payload|, 4) + Big(sequence, 8) + Big(c.crc(payload), 4)
  }

  function FrameHeader(c: Codec, kind: FrameKind, sequence: nat, payload: seq<byte>): (s: seq<byte>)
    ensures |s| == FRAME_HEADER
  {
    var body := FrameBody(c, kind, sequence, payload);
    body + Big(c.crc(body), 4)
  }

  /** The printed frame: header, then payload. */
  function Frame(c: Codec, kind: FrameKind, sequence: nat, payload: seq<byte>): (s: seq<byte>)
    ensures |s| == FRAME_HEADER + |payload|
  {
    FrameHeader(c, kind, sequence, payload) + payload
  }

  datatype FrameInfo = FrameInfo(kind: FrameKind, sequence: nat, payloadSize: nat, checksum: nat)

  function DecodeFrameHeader(c: Codec, s: seq<byte>): Result<FrameInfo, FormatError> {
    if |s| != FRAME_HEADER || s[..4] != FRAME_MAGIC then Err(InvalidHeader)
    else if s[4] != 1 then Err(UnsupportedVersion)
    else if s[5] != 1 && s[5] != 2 then Err(UnsupportedKind)
    else if c.crc(s[..24]) != Number(s[24..28]) then Err(ChecksumMismatch)
    else Ok(FrameInfo(if s[5] == 1 then Data else Commit, Number(s[12..20]), Number(s[8..12]), Number(s[20..24])))
  }

  lemma FrameHeaderRoundTrip(c: Codec, kind: FrameKind, sequence: nat, payload: seq<byte>)
    requires c.Lawful() && FitsU64(sequence) && FitsU32(|payload|)
    ensures DecodeFrameHeader(c, FrameHeader(c, kind, sequence, payload))
         == Ok(FrameInfo(kind, sequence, |payload|, c.crc(payload)))
  {
    var s, body := FrameHeader(c, kind, sequence, payload), FrameBody(c, kind, sequence, payload);
    Capacities();
    BigRoundTrip(|payload|, 4); BigRoundTrip(sequence, 8); BigRoundTrip(c.crc(payload), 4); BigRoundTrip(c.crc(body), 4);
    assert s[..24] == body && s[24..28] == Big(c.crc(body), 4);
    assert s[..4] == FRAME_MAGIC && s[4..8] == [1, KindByte(kind), 0, 0];
    assert s[4] == s[4..8][0] && s[5] == s[4..8][1];
    assert s[8..12] == Big(|payload|, 4) && s[12..20] == Big(sequence, 8) && s[20..24] == Big(c.crc(payload), 4);
  }

  /** `encodeWALDataFrame`: fails only where JSON encoding does. */
  function DataFrame(c: Codec, record: DiskRecord): Option<seq<byte>> {
    match c.marshal(record)
    case None => None
    case Some(payload) => Some(Frame(c, Data, record.id, payload))
  }

  function DecodeRecord(c: Codec, payload: seq<byte>, expectedID: nat): Result<DiskRecord, FormatError> {
    match c.unmarshal(payload)
    case None => Err(InvalidRecord)
    case Some(record) =>
      if record.id == 0 || record.id != expectedID || record.enqueuedAt <= 0 then Err(InvalidRecord) else Ok(record)
  }

  function CommitPayload(mark: CommitMark): (s: seq<byte>)
    ensures |s| == COMMIT_PAYLOAD
  {
    Big(mark.firstID, 8) + Big(mark.lastID, 8) + Big(mark.count, 4) + Big(mark.dataBytes, 4) + Big(mark.checksum, 4)
  }

  function CommitFrame(c: Codec, mark: CommitMark): (s: seq<byte>)
    ensures |s| == FRAME_HEADER + COMMIT_PAYLOAD
  {
    Frame(c, Commit, mark.lastID, CommitPayload(mark))
  }

  function DecodeCommit(payload: seq<byte>): Option<CommitMark> {
    if |payload| != COMMIT_PAYLOAD then None
    else Some(CommitMark(Number(payload[0..8]), Number(payload[8..16]), Number(payload[16..20]),
                         Number(payload[20..24]), Number(payload[24..28])))
  }

  lemma CommitRoundTrip(mark: CommitMark)
    requires FitsU64(mark.firstID) && FitsU64(mark.lastID)
    requires FitsU32(mark.count) && FitsU32(mark.dataBytes) && FitsU32(mark.checksum)
    ensures DecodeCommit(CommitPayload(mark)) == Some(mark)
  {
    var s := CommitPayload(mark);
    Capacities();
    BigRoundTrip(mark.firstID, 8); BigRoundTrip(mark.lastID, 8);
    BigRoundTrip(mark.count, 4); BigRoundTrip(mark.dataBytes, 4); BigRoundTrip(mark.checksum, 4);
    assert s[0..8] == Big(mark.firstID, 8) && s[8..16] == Big(mark.lastID, 8) && s[16..20] == Big(mark.count, 4);
    assert s[20..24] == Big(mark.dataBytes, 4) && s[24..28] == Big(mark.checksum, 4);
  }

  // ---- checkpoint files ----------------------------------------------------------------------

  function StateHeaderBody(segmentID: nat): (s: seq<byte>)
    ensures |s| == 20
  {
    STATE_MAGIC + Big(1, 2) + Big(STATE_HEADER, 2) + Big(segmentID, 8)
  }

  function StateHeader(c: Codec, segmentID: nat): (s: seq<byte>)
    ensures |s| == STATE_HEADER
  {
    var body := StateHeaderBody(segmentID);
    body + Big(c.crc(body), 4)
  }

  function DecodeStateHeader(c: Codec, s: seq<byte>, expectedID: nat): Option<FormatError> {
    if |s| != STATE_HEADER || s[..8] != STATE_MAGIC then Some(InvalidHeader)
    else if Number(s[8..10]) != 1 || Number(s[10..12]) != STATE_HEADER then Some(UnsupportedVersion)
    else if Number(s[12..20]) != expectedID then Some(SegmentMismatch)
    else if c.crc(s[..20]) != Number(s[20..24]) then Some(ChecksumMismatch)
    else None
  }

  lemma StateHeaderRoundTrip(c: Codec, segmentID: nat, expectedID: nat)
    requires c.Lawful() && FitsU64(segmentID)
    ensures DecodeStateHeader(c, StateHeader(c, segmentID), expectedID)
         == if expectedID == segmentID then None else Some(SegmentMismatch)
  {
    var s, body := StateHeader(c, segmentID), StateHeaderBody(segmentID);
    Capacities();
    BigRoundTrip(1, 2); BigRoundTrip(STATE_HEADER, 2); BigRoundTrip(segmentID, 8); BigRoundTrip(c.crc(body), 4);
    assert s[..20] == body && s[20..24] == Big(c.crc(body), 4);
    StateHeaderFields(s, segmentID);
  }

  lemma StateHeaderFields(s: seq<byte>, segmentID: nat)
    requires |s| == 24 && s[..20] == StateHeaderBody(segmentID)
    ensures s[..8] == STATE_MAGIC && s[8..10] == Big(1, 2) && s[10..12] == Big(STATE_HEADER, 2)
    ensures s[12..20] == Big(segmentID, 8)
  {
    var body, magic := s[..20], STATE_MAGIC;
    assert body == magic + Big(1, 2) + Big(STATE_HEADER, 2) + Big(segmentID, 8);
    assert s[..8] == body[..8] == magic;
    assert s[8..10] == body[8..10];
    assert s[10..12] == body[10..12];
    assert s[12..20] == body[12..20];
  }

  function EntryBody(entry: StateEntry): (s: seq<byte>)
    ensures |s| == 20
  {
    ENTRY_MAGIC + [1, StateByte(entry.kind), entry.reason, 0] + Big(entry.id, 8) + Big(entry.attempts, 4)
  }

  function Entry(c: Codec, entry: StateEntry): (s: seq<byte>)
    ensures |s| == STATE_ENTRY
  {
    var body := EntryBody(entry);
    body + Big(c.crc(body), 4)
  }

  function DecodeEntry(c: Codec, s: seq<byte>): Result<StateEntry, FormatError> {
    if |s| != STATE_ENTRY || s[..4] != ENTRY_MAGIC then Err(InvalidHeader)
    else if s[4] != 1 then Err(UnsupportedVersion)
    else if s[5] != 1 && s[5] != 2 && s[5] != 3 then Err(UnsupportedKind)
    else if c.crc(s[..20]) != Number(s[20..24]) then Err(ChecksumMismatch)
    else Ok(StateEntry(if s[5] == 1 then Retry else if s[5] == 2 then Ack else Quarantine,
                       s[6], Number(s[8..16]), Number(s[16..20])))
  }

  lemma EntryRoundTrip(c: Codec, entry: StateEntry)
    requires c.Lawful() && FitsU64(entry.id) && FitsU32(entry.attempts)
    ensures DecodeEntry(c, Entry(c, entry)) == Ok(entry)
  {
    var s, body := Entry(c, entry), EntryBody(entry);
    Capacities();
    BigRoundTrip(entry.id, 8); BigRoundTrip(entry.attempts, 4); BigRoundTrip(c.crc(body), 4);
    assert s[..20] == body && s[20..24] == Big(c.crc(body), 4);
    assert s[..4] == ENTRY_MAGIC && s[4..8] == [1, StateByte(entry.kind), entry.reason, 0];
    assert s[4] == s[4..8][0] && s[5] == s[4..8][1] && s[6] == s[4..8][2];
    assert s[8..16] == Big(entry.id, 8) && s[16..20] == Big(entry.attempts, 4);
  }

  // ---- the encoders, filling a buffer as the source does ---------------------------------------

  method EncodeSegmentHeader(c: Codec, segmentID: nat, createdAt: nat) returns (header: array<byte>)
    ensures fresh(header) && header[..] == SegmentHeader(c, segmentID, createdAt)
  {
    header := new byte[SEGMENT_HEADER](_ => 0);
    PutBytes(header, 0, SEGMENT_MAGIC);
    PutBig(header, 8, 2, 1);
    PutBig(header, 10, 2, SEGMENT_HEADER);
    PutBig(header, 12, 8, segmentID);
    PutBig(header, 20, 8, createdAt);
    assert header[..28] == SegmentHeaderBody(segmentID, createdAt);
    PutBig(header, 28, 4, c.crc(header[..28]));
  }

  method EncodeFrame(c: Codec, kind: FrameKind, sequence: nat, payload: seq<byte>) returns (frame: array<byte>)
    ensures fresh(frame) && frame[..] == Frame(c, kind, sequence, payload)
  {
    frame := new byte[FRAME_HEADER + |payload|](_ => 0);
    PutBytes(frame, 0, FRAME_MAGIC);
    assert frame[4..] == seq(|frame[4..]|, _ => 0);
    frame[4], frame[5] := 1, KindByte(kind);
    assert frame[..8] == FRAME_MAGIC + [1, KindByte(kind), 0, 0];
    PutBig(frame, 8, 4, |payload|);
    PutBig(frame, 12, 8, sequence);
    PutBig(frame, 20, 4, c.crc(payload));
    assert frame[..24] == FrameBody(c, kind, sequence, payload);
    PutBig(frame, 24, 4, c.crc(frame[..24]));
    PutBytes(frame, FRAME_HEADER, payload);
    assert frame[..28] == FrameHeader(c, kind, sequence, payload);
  }

  method EncodeCommitFrame(c: Codec, mark: CommitMark) returns (frame: array<byte>)
    ensures fresh(frame) && frame[..] == CommitFrame(c, mark)
  {
    var payload := new byte[COMMIT_PAYLOAD](_ => 0);
    PutBig(payload, 0, 8, mark.firstID);
    PutBig(payload, 8, 8, mark.lastID);
    PutBig(payload, 16, 4, mark.count);
    PutBig(payload, 20, 4, mark.dataBytes);
    PutBig(payload, 24, 4, mark.checksum);
    assert payload[..] == CommitPayload(mark);
    frame := EncodeFrame(c, Commit, mark.lastID, payload[..]);
  }

  method EncodeStateHeader(c: Codec, segmentID: nat) returns (header: array<byte>)
    ensures fresh(header) && header[..] == StateHeader(c, segmentID)
  {
    header := new byte[STATE_HEADER](_ => 0);
    PutBytes(header, 0, STATE_MAGIC);
    PutBig(header, 8, 2, 1);
    PutBig(header, 10, 2, STATE_HEADER);
    PutBig(header, 12, 8, segmentID);
    assert header[..20] == StateHeaderBody(segmentID);
    PutBig(header, 20, 4, c.crc(header[..20]));
  }

  method EncodeEntry(c: Codec, entry: StateEntry) returns (encoded: array<byte>)
    ensures fresh(encoded) && encoded[..] == Entry(c, entry)
  {
    encoded := new byte[STATE_ENTRY](_ => 0);
    PutBytes(encoded, 0, ENTRY_MAGIC);
    assert encoded[4..] == seq(20, _ => 0);
    encoded[4], encoded[5], encoded[6] := 1, StateByte(entry.kind), entry.reason;
    assert encoded[..8] == ENTRY_MAGIC + [1, StateByte(entry.kind), entry.reason, 0];
    PutBig(encoded, 8, 8, entry.id);
    PutBig(encoded, 16, 4, entry.attempts);
    assert encoded[..20] == EntryBody(entry);
    PutBig(encoded, 20, 4, c.crc(encoded[..20]));
  }
}
