/** Opening a directory: the two parsing loops of recovery, and what they rebuild. */
module WalOpen {
  import opened Bytes
  import opened Telemetry
  import opened WalFormat
  import opened WalScan
  import opened WalLog
  import opened WalRecovery
  import Maps
  import Sorting

  /** `recoverState`: reads the complete entries of a checkpoint file, creating the file if it is not there. */
  method ReadCheckpoint(c: Codec, file: Option<seq<byte>>, segmentID: nat) returns (r: Checkpoint)
    ensures r == ScanCheckpoint(c, file, segmentID)
  {
    hide DecodeEntry, DecodeStateHeader, StateHeader;
    var data: seq<byte>;
    match file {
      case None =>
        var header := EncodeStateHeader(c, segmentID);
        data := header[..];
      case Some(bytes) => data := bytes;
    }
    if |data| < STATE_HEADER { return BadCheckpoint; }
    if DecodeStateHeader(c, data[..STATE_HEADER], segmentID).Some? { return BadCheckpoint; }
    var completeSize := STATE_HEADER + (|data| - STATE_HEADER) / STATE_ENTRY * STATE_ENTRY;
    var states: map<nat, StateEntry> := map[];
    ghost var k := 0;
    var offset := STATE_HEADER;
    while offset < completeSize
      invariant k <= CompleteEntries(data) && offset == STATE_HEADER + k * STATE_ENTRY
      invariant ReadStates(Decoder(c), data, k) == Some(states)
      decreases completeSize - offset
    {
      match DecodeEntry(c, data[offset..offset + STATE_ENTRY]) {
        case Err(_) =>
          NoStates(Decoder(c), data, k + 1, CompleteEntries(data));
          return BadCheckpoint;
        case Ok(state) => states := states[state.id := state];
      }
      k := k + 1;
      offset := offset + STATE_ENTRY;
    }
    return Checkpoint.Checkpoint(states, data[..completeSize]);
  }

  /** A damaged entry spoils every longer prefix. */
  lemma {:induction false} NoStates(decode: EntryDecoder, data: seq<byte>, k: nat, n: nat)
    requires k <= n && STATE_HEADER + n * STATE_ENTRY <= |data| && ReadStates(decode, data, k) == None
    ensures ReadStates(decode, data, n) == None
    decreases n - k
  {
    if k < n { NoStates(decode, data, k + 1, n); }
  }

  /** One turn of the parsing loop, as an equation. */
  lemma ScanTurn(c: Codec, limit: nat, data: seq<byte>, st: ScanState)
    requires st.committed <= st.offset <= |data|
    ensures var p := Advance(c, limit, data, st);
            ScanFrom(c, limit, data, st) == if p.Done? then p.scan else ScanFrom(c, limit, data, p.next)
  {}

  // ---- taking committed frames into the index -------------------------------------------------------------

  /** What the recovery loop has made of the frames of one segment so far. */
  datatype Harvest = Harvest(recordIDs: seq<nat>, activeRecords: nat, quarantinedRecords: nat,
                             nextID: nat, active: map<nat, Metadata>, quarantined: nat)

  /** The harvest of a list of frames, on top of what earlier segments gave. */
  ghost predicate Reaped(h: Harvest, start: Harvest, segmentID: nat, frames: seq<Located>, states: map<nat, StateEntry>) {
    && h.recordIDs == FrameIds(frames)
    && h.activeRecords == |ActiveIn(segmentID, frames, states)| && h.quarantinedRecords == QuarantinedIn(frames, states)
    && h.nextID == NextAfterIds(start.nextID, FrameIds(frames))
    && h.active == start.active + ActiveIn(segmentID, frames, states)
    && h.quarantined == start.quarantined + QuarantinedIn(frames, states)
  }

  function Reap(h: Harvest, segmentID: nat, f: Located, states: map<nat, StateEntry>): Harvest {
    var id := f.record.id;
    var h' := h.(recordIDs := h.recordIDs + [id], nextID := if id >= h.nextID then id + 1 else h.nextID);
    if id in states && states[id].kind == Ack then h'
    else if id in states && states[id].kind == Quarantine then
      h'.(quarantinedRecords := h.quarantinedRecords + 1, quarantined := h.quarantined + 1)
    else
      h'.(active := h.active[id := Metadata(segmentID, f.offset, f.size, AttemptsIn(states, id))],
          activeRecords := h.activeRecords + 1)
  }

  /** One more frame, with an ID not met before. */
  lemma ReapStep(h: Harvest, start: Harvest, segmentID: nat, frames: seq<Located>, f: Located, states: map<nat, StateEntry>)
    requires Reaped(h, start, segmentID, frames, states) && f.record.id !in Ids(frames)
    ensures Reaped(Reap(h, segmentID, f, states), start, segmentID, frames + [f], states)
  {
    hide ActiveIn, QuarantinedIn, NextAfterIds, FrameIds;
    OneMoreFrame(segmentID, frames, f, states);
    NextAfterOne(start.nextID, FrameIds(frames), f.record.id);
    NotActive(segmentID, frames, states, f.record.id);
    var active, at := ActiveIn(segmentID, frames, states), Metadata(segmentID, f.offset, f.size, AttemptsIn(states, f.record.id));
    Maps.UpdateSize(active, f.record.id, at);
    Maps.UpdateRight(start.active, active, f.record.id, at);
  }

  lemma NextAfterOne(next: nat, ids: seq<nat>, id: nat)
    ensures NextAfterIds(next, ids + [id]) == if id >= NextAfterIds(next, ids) then id + 1 else NextAfterIds(next, ids)
  {
    assert (ids + [id])[..|ids|] == ids;
  }

  lemma OneMoreFrame(segmentID: nat, frames: seq<Located>, f: Located, states: map<nat, StateEntry>)
    ensures FrameIds(frames + [f]) == FrameIds(frames) + [f.record.id]
    ensures QuarantinedIn(frames + [f], states)
         == QuarantinedIn(frames, states) + (if f.record.id in states && states[f.record.id].kind == Quarantine then 1 else 0)
    ensures ActiveIn(segmentID, frames + [f], states)
         == if Finished(states, f.record.id) then ActiveIn(segmentID, frames, states)
            else ActiveIn(segmentID, frames, states)[f.record.id := Metadata(segmentID, f.offset, f.size, AttemptsIn(states, f.record.id))]
  {
    assert (frames + [f])[..|frames|] == frames;
  }

  lemma {:induction false} NotActive(segmentID: nat, frames: seq<Located>, states: map<nat, StateEntry>, id: nat)
    requires id !in Ids(frames)
    ensures id !in ActiveIn(segmentID, frames, states)
  {
    if frames != [] {
      assert frames[|frames| - 1] in frames;
      assert forall f :: f in frames[..|frames| - 1] ==> f in frames;
      NotActive(segmentID, frames[..|frames| - 1], states, id);
    }
  }

  // ---- the parsing loop -------------------------------------------------------------------------------------

  /** The variables of the parsing loop agree with the parser's state, and the index with the groups committed so far. */
  ghost predicate Parsing(st: ScanState, data: seq<byte>, seen0: set<nat>, pendingIDs: set<nat>, pendingBytes: seq<byte>,
                          h: Harvest, start: Harvest, segmentID: nat, states: map<nat, StateEntry>) {
    && SEGMENT_HEADER <= st.committed <= st.offset <= |data|
    && pendingIDs == Ids(st.pending) && pendingBytes == data[st.committed..st.offset]
    && Reaped(h, start, segmentID, Flat(st.groups), states) && st.seen == seen0 + Ids(Flat(st.groups))
    && Untaken(st.pending, st.seen)
  }

  /** Frames with different IDs, none of them taken. */
  ghost predicate Untaken(frames: seq<Located>, taken: set<nat>) {
    && (forall i, j :: 0 <= i < j < |frames| ==> frames[i].record.id != frames[j].record.id)
    && forall k :: 0 <= k < |frames| ==> frames[k].record.id !in taken
  }

  /** The loop over the frames that a commit marker covers. */
  method ReapAll(h0: Harvest, ghost start: Harvest, segmentID: nat, ghost before: seq<Located>, pending: seq<Located>,
                 states: map<nat, StateEntry>, seen0: set<nat>)
    returns (h: Harvest, seen: set<nat>)
    requires Reaped(h0, start, segmentID, before, states) && Untaken(pending, seen0) && Ids(before) <= seen0
    ensures Reaped(h, start, segmentID, before + pending, states) && seen == seen0 + Ids(pending)
  {
    hide Reaped, Reap;
    h, seen := h0, seen0;
    assert before + pending[..0] == before;
    for k := 0 to |pending|
      invariant Reaped(h, start, segmentID, before + pending[..k], states) && seen == seen0 + Ids(pending[..k])
    {
      NextPending(before, pending, k, seen0);
      ReapStep(h, start, segmentID, before + pending[..k], pending[k], states);
      h := Reap(h, segmentID, pending[k], states);
      seen := seen + {pending[k].record.id};
    }
    assert pending[..|pending|] == pending;
  }

  lemma NextPending(before: seq<Located>, pending: seq<Located>, k: nat, seen: set<nat>)
    requires k < |pending| && Untaken(pending, seen) && Ids(before) <= seen
    ensures pending[k].record.id !in Ids(before + pending[..k])
    ensures Ids(pending[..k + 1]) == Ids(pending[..k]) + {pending[k].record.id}
    ensures before + pending[..k + 1] == before + pending[..k] + [pending[k]]
  {
    forall f | f in before + pending[..k] ensures f.record.id != pending[k].record.id {
      if f in before { assert f.record.id in Ids(before); }
    }
    assert forall f :: f in pending[..k + 1] <==> f in pending[..k] || f == pending[k];
  }

  lemma UntakenGrows(frames: seq<Located>, taken: set<nat>, f: Located)
    requires Untaken(frames, taken) && f.record.id !in taken && f.record.id !in Ids(frames)
    ensures Untaken(frames + [f], taken) && Ids(frames + [f]) == Ids(frames) + {f.record.id}
  {
    forall i | 0 <= i < |frames| ensures frames[i].record.id != f.record.id { assert frames[i] in frames; }
    assert forall g :: g in frames + [f] <==> g in frames || g == f;
  }

  /** `recoverSegment`: damaged, or the bytes up to the last commit and what they hold. */
  method ParseSegment(c: Codec, limit: nat, data: seq<byte>, segmentID: nat, states: map<nat, StateEntry>, seen0: set<nat>, start: Harvest)
    returns (damaged: bool, h: Harvest, committed: nat, seen: set<nat>)
    requires start.recordIDs == [] && start.activeRecords == 0 && start.quarantinedRecords == 0
    ensures damaged <==> ScanSegment(c, limit, data, segmentID, seen0) == Corrupt
    ensures !damaged ==>
      var scan := ScanSegment(c, limit, data, segmentID, seen0);
      && committed == scan.committed <= |data| && Reaped(h, start, segmentID, Flat(scan.groups), states)
      && seen == seen0 + Ids(Flat(scan.groups))
  {
    hide Ids, Flat, Number, ActiveIn, NextAfterIds;
    hide ScanFrom, Reaped, DecodeSegmentHeader, DecodeFrameHeader, DecodeCommit, Untaken, ValidCommit;
    damaged, h, committed, seen := true, start, 0, seen0;
    if |data| < SEGMENT_HEADER { return; }
    if DecodeSegmentHeader(c, data[..SEGMENT_HEADER], segmentID).Some? { return; }
    var offset := SEGMENT_HEADER;
    committed := SEGMENT_HEADER;
    var pending: seq<Located>, pendingIDs: set<nat>, pendingBytes: seq<byte> := [], {}, [];
    ghost var st := Start(seen0);
    NothingParsed(data, seen0, start, segmentID, states);
    while offset < |data|
      invariant damaged && st == ScanState(offset, committed, pending, st.groups, seen)
      invariant Parsing(st, data, seen0, pendingIDs, pendingBytes, h, start, segmentID, states)
      invariant ScanFrom(c, limit, data, Start(seen0)) == ScanFrom(c, limit, data, st)
      decreases |data| - offset
    {
      ScanTurn(c, limit, data, st);
      if |data| - offset < FRAME_HEADER { damaged := false; return; }
      var header := DecodeFrameHeader(c, data[offset..offset + FRAME_HEADER]);
      if header.Err? { return; }
      var info := header.value;
      var frameSize := FRAME_HEADER + info.payloadSize;
      if info.payloadSize > limit || |data| - offset < frameSize { damaged := false; return; }
      var payload := data[offset + FRAME_HEADER..offset + frameSize];
      if c.crc(payload) != info.checksum { return; }
      ghost var next := Advance(c, limit, data, st);
      if info.kind == Data {
        if info.sequence in seen || info.sequence in pendingIDs { return; }
        var decoded := DecodeRecord(c, payload, info.sequence);
        if decoded.Err? { return; }
        var frame := Located(decoded.value, offset, frameSize);
        UntakenGrows(pending, seen, frame);
        assert data[committed..offset] + data[offset..offset + frameSize] == data[committed..offset + frameSize];
        pending, pendingIDs := pending + [frame], pendingIDs + {info.sequence};
        pendingBytes := pendingBytes + data[offset..offset + frameSize];
      } else {
        var mark := DecodeCommit(payload);
        if mark == None { return; }
        if !ValidCommit(c, mark.value, pending, pendingBytes, info.sequence) { return; }
        FlatStep(st.groups, pending);
        h, seen := ReapAll(h, start, segmentID, Flat(st.groups), pending, states, seen);
        IdsOfBoth(Flat(st.groups), pending);
        pending, pendingIDs, pendingBytes := [], {}, [];
        committed := offset + frameSize;
        NothingFresh(seen);
      }
      offset := offset + frameSize;
      st := next.next;
    }
    ScanTurn(c, limit, data, st);
    if pending == [] { committed := |data|; }
    damaged := false;
  }

  lemma NothingFresh(taken: set<nat>)
    ensures Untaken([], taken) && Ids([]) == {}
  {}

  lemma IdsOfBoth(a: seq<Located>, b: seq<Located>)
    ensures Ids(a + b) == Ids(a) + Ids(b)
  {
    assert forall f :: f in a + b <==> f in a || f in b;
  }

  lemma NothingParsed(data: seq<byte>, seen0: set<nat>, start: Harvest, segmentID: nat, states: map<nat, StateEntry>)
    requires |data| >= SEGMENT_HEADER && start.recordIDs == [] && start.activeRecords == 0 && start.quarantinedRecords == 0
    ensures Parsing(Start(seen0), data, seen0, {}, [], start, start, segmentID, states)
  {
    Maps.EmptyRight(start.active);
    assert FrameIds([]) == [];
  }

  // ---- the loop over segments -------------------------------------------------------------------------------

  /** The frames of a segment taken in: the next index of the recovery loop. */
  lemma TurnTaken(c: Codec, limit: nat, index: Index, id: nat, isLast: bool, states: map<nat, StateEntry>, bytes: seq<byte>,
                  h: Harvest, committed: nat, seen: set<nat>)
    requires id in index.disk.data
    requires ScanCheckpoint(c, Lookup(index.disk.states, id), id) == Checkpoint.Checkpoint(states, bytes)
    requires ScanSegment(c, limit, index.disk.data[id], id, index.seen).Parsed?
    requires var scan := ScanSegment(c, limit, index.disk.data[id], id, index.seen);
             && committed == scan.committed <= |index.disk.data[id]|
             && Reaped(h, Harvest([], 0, 0, index.nextID, index.active, index.quarantined), id, Flat(scan.groups), states)
             && seen == index.seen + Ids(Flat(scan.groups))
    requires committed == |index.disk.data[id]| || isLast
    ensures RecoverTurn(c, limit)(index, id, isLast)
         == Some(Index(h.nextID, index.segments[id := SegmentInfo(committed, |bytes|, h.recordIDs, h.activeRecords, h.quarantinedRecords, true)],
                       h.active, h.quarantined, index.used + committed + |bytes|, seen,
                       Disk(index.disk.data[id := index.disk.data[id][..committed]], index.disk.states[id := bytes])))
  {
    hide *;
    var data, frames := index.disk.data[id], Flat(ScanSegment(c, limit, index.disk.data[id], id, index.seen).groups);
    TurnAbsorbs(c, limit, index, id, isLast, states, bytes, committed);
    HarvestAbsorbed(index, id, frames, states, data[..committed], bytes, h, seen);
    assert |data[..committed]| == committed;
  }

  lemma TurnAbsorbs(c: Codec, limit: nat, index: Index, id: nat, isLast: bool, states: map<nat, StateEntry>, bytes: seq<byte>, committed: nat)
    requires id in index.disk.data
    requires ScanCheckpoint(c, Lookup(index.disk.states, id), id) == Checkpoint.Checkpoint(states, bytes)
    requires var scan := ScanSegment(c, limit, index.disk.data[id], id, index.seen); scan.Parsed? && committed == scan.committed
    requires committed <= |index.disk.data[id]| && (committed == |index.disk.data[id]| || isLast)
    ensures RecoverTurn(c, limit)(index, id, isLast)
         == Some(Absorb(index, id, Flat(ScanSegment(c, limit, index.disk.data[id], id, index.seen).groups), states,
                        index.disk.data[id][..committed], bytes))
  {
    hide Flat, Lookup, ScanCheckpoint, ScanSegment, Absorb;
  }

  lemma HarvestAbsorbed(index: Index, id: nat, frames: seq<Located>, states: map<nat, StateEntry>, data: seq<byte>, bytes: seq<byte>,
                        h: Harvest, seen: set<nat>)
    requires Reaped(h, Harvest([], 0, 0, index.nextID, index.active, index.quarantined), id, frames, states)
    requires seen == index.seen + Ids(frames)
    ensures Absorb(index, id, frames, states, data, bytes)
         == Index(h.nextID, index.segments[id := SegmentInfo(|data|, |bytes|, h.recordIDs, h.activeRecords, h.quarantinedRecords, true)],
                  h.active, h.quarantined, index.used + |data| + |bytes|, seen,
                  Disk(index.disk.data[id := data], index.disk.states[id := bytes]))
  {
    hide Ids, FrameIds, Elements, ActiveIn, QuarantinedIn, NextAfterIds;
    IdsOfFrames(frames);
  }

  /** When a turn accepts its segment. */
  lemma TurnAccepts(c: Codec, limit: nat, index: Index, id: nat, isLast: bool)
    requires id in index.disk.data
    ensures var data := index.disk.data[id];
            var scan := ScanSegment(c, limit, data, id, index.seen);
            RecoverTurn(c, limit)(index, id, isLast).Some? <==>
              && ScanCheckpoint(c, Lookup(index.disk.states, id), id).Checkpoint?
              && scan.Parsed? && (scan.committed == |data| || isLast)
  {
    hide ScanCheckpoint, ScanSegment, Absorb;
  }

  /** A refused segment refuses the directory. */
  lemma {:induction false} LoopRefused(turn: Turn, start: Index, ids: seq<nat>, k: nat, n: nat)
    requires k <= n <= |ids| && Loop(turn, start, ids, k) == None
    ensures Loop(turn, start, ids, n) == None
    decreases n - k
  {
    if k < n { LoopRefused(turn, start, ids, k + 1, n); }
  }

  lemma NoSegments(disk: Disk)
    requires Sorting.Sort(disk.data.Keys) == []
    ensures disk.data.Keys == {} && disk.data == map[]
  {
    assert forall id :: id in disk.data.Keys ==> id in Sorting.Sort(disk.data.Keys);
  }

  /** A turn renames no file, and leaves its segment in the index. */
  lemma TurnKeeps(c: Codec, limit: nat, index: Index, id: nat, isLast: bool)
    requires id in index.disk.data
    ensures var r := RecoverTurn(c, limit)(index, id, isLast);
            r.Some? ==> r.value.disk.data.Keys == index.disk.data.Keys && id in r.value.segments
  {
    hide ReadFiles;
  }

  lemma LastRecovered(c: Codec, limit: nat, disk: Disk, ids: seq<nat>)
    requires ids != [] && Recover(c, limit, disk, ids).Some?
    ensures ids[|ids| - 1] in Recover(c, limit, disk, ids).value.segments
  {
    hide ReadFiles;
    LoopStep(RecoverTurn(c, limit), Empty(disk), ids, |ids| - 1);
  }
}
