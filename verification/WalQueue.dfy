/**
 * What a log is for: a queue from record ID to the stored record and its attempt count. Memory and disk carry a queue
 * when reading any active record through the index gives what the queue holds.
 */
module WalQueue {
  import opened Bytes
  import opened Telemetry
  import opened WalFormat
  import opened WalScan
  import opened WalLog
  import opened WalContents
  import opened WalOps
  import opened WalMemory
  import opened WalSegments

  datatype Delivery = Delivery(record: DiskRecord, attempts: nat)

  type Queue = map<nat, Delivery>

  // ---- reading a record ----------------------------------------------------------------------------

  /** `ReadAt` into a zeroed buffer: what lies beyond the end of the file reads as zeros. */
  function Window(data: seq<byte>, offset: nat, size: nat): (s: seq<byte>)
    ensures |s| == size
  {
    seq(size, k requires 0 <= k < size => if offset + k < |data| then data[offset + k] else 0)
  }

  /** `readRecordLocked`, on the data file that the index names. */
  function ReadRecord(c: Codec, data: seq<byte>, id: nat, at: Metadata): Option<DiskRecord>
    requires at.size >= FRAME_HEADER
  {
    var encoded := Window(data, at.offset, at.size);
    match DecodeFrameHeader(c, encoded[..FRAME_HEADER])
    case Err(_) => None
    case Ok(info) =>
      var payload := encoded[FRAME_HEADER..];
      if info.kind != Data || info.sequence != id || FRAME_HEADER + info.payloadSize != at.size then None
      else if c.crc(payload) != info.checksum then None
      else match DecodeRecord(c, payload, id)
        case Err(_) => None
        case Ok(record) => Some(record)
  }

  /** A frame that lies where the index says reads back as the record it stores. */
  lemma LocatesReads(c: Codec, limit: nat, data: seq<byte>, at: Metadata, record: DiskRecord)
    requires c.Lawful() && Printable(c, limit, record) && Locates(c, data, at, record)
    ensures at.size >= FRAME_HEADER && ReadRecord(c, data, record.id, at) == Some(record)
  {
    var payload, encoded := c.marshal(record).value, Window(data, at.offset, at.size);
    assert encoded == FrameOf(c, record);
    assert encoded[..FRAME_HEADER] == FrameHeader(c, Data, record.id, payload);
    assert encoded[FRAME_HEADER..] == payload;
    FrameHeaderRoundTrip(c, Data, record.id, payload);
  }

  // ---- carrying a queue ----------------------------------------------------------------------------

  /** The index has this delivery: right attempts, and the record lies where it says. */
  ghost predicate Has(c: Codec, limit: nat, data: map<nat, seq<byte>>, at: Metadata, id: nat, d: Delivery) {
    && d.record.id == id && Printable(c, limit, d.record) && at.attempts == d.attempts
    && at.segmentID in data && Locates(c, data[at.segmentID], at, d.record)
  }

  /** Memory and disk hold exactly this queue. */
  ghost predicate Carries(c: Codec, limit: nat, active: map<nat, Metadata>, data: map<nat, seq<byte>>, q: Queue) {
    active.Keys == q.Keys && forall id :: id in q ==> Has(c, limit, data, active[id], id, q[id])
  }

  function GroupQueue(group: Group): Queue {
    if group == [] then map[]
    else GroupQueue(group[..|group| - 1])[group[|group| - 1].id := Delivery(group[|group| - 1], 0)]
  }

  /** What a checkpoint entry does to the queue. */
  function MarkQueue(q: Queue, e: StateEntry): Queue
    requires e.id in q
  {
    if e.kind == Retry then q[e.id := q[e.id].(attempts := e.attempts)] else q - {e.id}
  }

  // ---- the steps -------------------------------------------------------------------------------------

  lemma {:induction false} FramesCarried(c: Codec, limit: nat, data: map<nat, seq<byte>>, segmentID: nat, group: Group, base: nat)
    requires AllEncode(c, group) && segmentID in data && FramesIn(c, data[segmentID], Place(c, group, base))
    requires forall k :: 0 <= k < |group| ==> Printable(c, limit, group[k])
    ensures Carries(c, limit, NewRecords(c, segmentID, group, base), data, GroupQueue(group))
    decreases |group|
  {
    hide FramesIn, Printable, Has, Locates, FramesBytes;
    if group != [] {
      var init, last := group[..|group| - 1], group[|group| - 1];
      var frames := Place(c, group, base);
      var f := frames[|frames| - 1];
      assert frames[..|frames| - 1] == Place(c, init, base);
      FramesInPrefix(c, data[segmentID], Place(c, init, base), f);
      FramesCarried(c, limit, data, segmentID, init, base);
      ActiveInStep(segmentID, frames, map[]);
      OneMore(c, limit, NewRecords(c, segmentID, init, base), data, GroupQueue(init),
              Metadata(segmentID, f.offset, f.size, 0), last.id, Delivery(last, 0));
    }
  }

  lemma FramesInPrefix(c: Codec, data: seq<byte>, init: seq<Located>, f: Located)
    requires FramesIn(c, data, init + [f])
    ensures FramesIn(c, data, init) && Locates(c, data, Metadata(0, f.offset, f.size, 0), f.record)
  {
    assert (init + [f])[|init|] == f;
    forall k | 0 <= k < |init| ensures (init + [f])[k] == init[k] {}
  }

  lemma OneMore(c: Codec, limit: nat, active: map<nat, Metadata>, data: map<nat, seq<byte>>, q: Queue,
                at: Metadata, id: nat, d: Delivery)
    requires Carries(c, limit, active, data, q) && Has(c, limit, data, at, id, d)
    ensures Carries(c, limit, active[id := at], data, q[id := d])
  {}

  lemma BothCarried(c: Codec, limit: nat, a: map<nat, Metadata>, b: map<nat, Metadata>, data: map<nat, seq<byte>>, p: Queue, q: Queue)
    requires Carries(c, limit, a, data, p) && Carries(c, limit, b, data, q)
    ensures Carries(c, limit, a + b, data, p + q)
  {}

  /** Files that grow, and files that no record points at, do not disturb what is carried. */
  lemma StillCarried(c: Codec, limit: nat, active: map<nat, Metadata>, data: map<nat, seq<byte>>, data': map<nat, seq<byte>>, q: Queue)
    requires Carries(c, limit, active, data, q)
    requires forall id :: id in active && active[id].segmentID in data ==>
               active[id].segmentID in data' && data[active[id].segmentID] <= data'[active[id].segmentID]
    ensures Carries(c, limit, active, data', q)
  {
    forall id | id in q ensures Has(c, limit, data', active[id], id, q[id]) {
      assert Has(c, limit, data, active[id], id, q[id]);
      var at, old_, new_ := active[id], data[active[id].segmentID], data'[active[id].segmentID];
      assert new_[..|old_|] == old_;
      assert old_[at.offset..at.offset + at.size] == new_[at.offset..at.offset + at.size];
    }
  }

  /** A group appended to the file that `segmentID` names: its records join the queue, unattempted. */
  lemma AppendCarried(c: Codec, limit: nat, active: map<nat, Metadata>, data: map<nat, seq<byte>>, data': map<nat, seq<byte>>,
                      segmentID: nat, group: Group, q: Queue)
    requires Carries(c, limit, active, data, q) && GoodGroup(c, limit, group) && AllEncode(c, group)
    requires segmentID in data && data' == data[segmentID := data[segmentID] + GroupBytes(c, group)]
    ensures Carries(c, limit, active + NewRecords(c, segmentID, group, |data[segmentID]|), data', q + GroupQueue(group))
  {
    hide NewRecords, Carries, FrameOf, Has, Frame;
    var base, frames, all := |data[segmentID]|, FramesBytes(c, group), data'[segmentID];
    assert all[base..base + |frames|] == GroupBytes(c, group)[..|frames|] == frames;
    PlaceFrames(c, all, group, base);
    FramesCarried(c, limit, data', segmentID, group, base);
    StillCarried(c, limit, active, data, data', q);
    BothCarried(c, limit, active, NewRecords(c, segmentID, group, base), data', q, GroupQueue(group));
  }

  /** A checkpoint entry changes the delivery it names and no other. */
  lemma EntryCarried(c: Codec, limit: nat, active: map<nat, Metadata>, data: map<nat, seq<byte>>, q: Queue, e: StateEntry)
    requires Carries(c, limit, active, data, q) && e.id in active
    ensures Carries(c, limit, Marked(active, e), data, MarkQueue(q, e))
  {
    hide Printable, FitsU64, FitsU32, FrameOf;
    var q', active' := MarkQueue(q, e), Marked(active, e);
    assert active'.Keys == q'.Keys;
    forall id | id in q' ensures Has(c, limit, data, active'[id], id, q'[id]) {
      assert Has(c, limit, data, active[id], id, q[id]);
    }
  }

  /** No active record points at a spent segment. */
  lemma SpentUnused(c: Codec, log: Log, k: nat, id: nat)
    requires LogEncodes(c, log) && k < |log| && Spent(c, log[k]) && id in ActiveOf(c, log)
    requires forall i, j :: 0 <= i < j < |log| ==> log[i].id < log[j].id
    ensures ActiveOf(c, log)[id].segmentID != log[k].id
  {
    var j := ActiveSegment(c, log, id);
    Elsewhere(c, log, k, j, id);
  }

  lemma Elsewhere(c: Codec, log: Log, k: nat, j: nat, id: nat)
    requires LogEncodes(c, log) && k < |log| && j < |log|
    requires SegmentActive(c, log[k]) == map[] && id in SegmentActive(c, log[j])
    requires forall i, j :: 0 <= i < j < |log| ==> log[i].id < log[j].id
    ensures log[j].id != log[k].id
  {
    if j == k { assert false; }
  }

  /** Removing a file that no active record points at disturbs nothing. */
  lemma DropCarried(c: Codec, limit: nat, active: map<nat, Metadata>, data: map<nat, seq<byte>>, gone: nat, q: Queue)
    requires Carries(c, limit, active, data, q) && forall id :: id in active ==> active[id].segmentID != gone
    ensures Carries(c, limit, active, data - {gone}, q)
  {
    StillCarried(c, limit, active, data, data - {gone}, q);
  }

  /** A queue is determined by the memory and disk that carry it. */
  lemma CarriedOnce(c: Codec, limit: nat, active: map<nat, Metadata>, data: map<nat, seq<byte>>, p: Queue, q: Queue)
    requires c.Lawful() && Carries(c, limit, active, data, p) && Carries(c, limit, active, data, q)
    ensures p == q
  {
    forall id | id in p ensures p[id] == q[id] {
      assert Has(c, limit, data, active[id], id, p[id]) && Has(c, limit, data, active[id], id, q[id]);
      LocatesReads(c, limit, data[active[id].segmentID], active[id], p[id].record);
      LocatesReads(c, limit, data[active[id].segmentID], active[id], q[id].record);
    }
  }
}
