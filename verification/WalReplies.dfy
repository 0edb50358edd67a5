/** What each append request is told, and why: only what cannot be encoded, does not fit or cannot be written is refused. */
module WalReplies {
  import opened Bytes
  import opened Telemetry
  import opened WalFormat
  import opened WalScan
  import opened WalLog
  import opened WalMemory
  import opened WalTurns
  import opened WalRequests

  /** The record that request `q` of a call asks to store, if the IDs of the call begin at `base`. */
  function RecordAt(requests: seq<Request>, base: nat, q: nat): DiskRecord
    requires q < |requests|
  {
    DiskRecord(base + q, requests[q].enqueuedAt, requests[q].envelope)
  }

  /** The most bytes that a record takes from the budget beside its payload: frame header, marker, headers of a new segment, reserve. */
  function Overhead(max: nat): nat {
    FRAME_HEADER + FRAME_HEADER + COMMIT_PAYLOAD + SEGMENT_HEADER + STATE_HEADER + max * STATE_ENTRY
  }

  /** The bytes that all is well with: payload and overhead of each request from `i` on that can be encoded. */
  function NeedFrom(c: Codec, max: nat, requests: seq<Request>, base: nat, i: nat): nat
    decreases |requests| - i
  {
    if i >= |requests| then 0
    else
      var payload := c.marshal(RecordAt(requests, base, i));
      (if payload.Some? then |payload.value| + Overhead(max) else 0) + NeedFrom(c, max, requests, base, i + 1)
  }

  /** Every rename succeeds, and `size` bytes are written and synced. */
  predicate Completes(io: Io, size: nat) {
    io.renames >= 2 && io.written >= size && io.synced
  }

  ghost predicate AllComplete(io: seq<Io>, size: nat) {
    forall k :: 0 <= k < |io| ==> Completes(io[k], size)
  }

  lemma CompletesAt(io: seq<Io>, size: nat, k: nat)
    requires AllComplete(io, size) && k < |io|
    ensures Completes(io[k], size)
  {}

  lemma CompletesLess(io: Io, size: nat, less: nat)
    requires less <= size
    ensures Completes(io, size) ==> Completes(io, less)
  {}

  /** What a draft may still cost, its frame headers being among its bytes. */
  function DraftCost(max: nat, d: Draft): nat {
    d.bytes + |d.group| * (Overhead(max) - FRAME_HEADER)
  }

  /** Every reply so far has its reason: `room` says whether the budget had room, `broken` whether the log has faulted. */
  ghost predicate Reasoned(c: Codec, requests: seq<Request>, replies: seq<seq<Reply>>, base: nat, room: bool, broken: bool) {
    |replies| == |requests| && forall q :: 0 <= q < |replies| ==> ReplyReasoned(c, requests, base, q, replies[q], room, broken)
  }

  ghost predicate ReplyReasoned(c: Codec, requests: seq<Request>, base: nat, q: nat, reply: seq<Reply>, room: bool, broken: bool)
    requires q < |requests|
  {
    && (reply == [Refused(Unencodable)] ==> c.marshal(RecordAt(requests, base, q)) == None)
    && (reply == [Refused(Full)] ==> !room)
    && (reply == [Refused(Failed)] ==> broken)
    && (IsSuccess(reply) ==> reply == [Stored(RecordAt(requests, base, q))])
  }

  /** The records that wait are those that their requests ask for. */
  ghost predicate Waits(requests: seq<Request>, base: nat, d: Draft) {
    && |d.slots| == |d.group|
    && forall k :: 0 <= k < |d.slots| ==> d.slots[k] < |requests| && d.group[k] == RecordAt(requests, base, d.slots[k])
  }

  lemma NothingReasoned(c: Codec, requests: seq<Request>, replies: seq<seq<Reply>>, base: nat, room: bool, broken: bool)
    requires |replies| == |requests| && forall q :: 0 <= q < |replies| ==> replies[q] == []
    ensures Reasoned(c, requests, replies, base, room, broken)
    ensures Waits(requests, base, NO_DRAFT)
  {}

  lemma ReasonedBroken(c: Codec, requests: seq<Request>, replies: seq<seq<Reply>>, base: nat, room: bool, was: bool, broken: bool)
    requires Reasoned(c, requests, replies, base, room, was) && (was ==> broken)
    ensures Reasoned(c, requests, replies, base, room, broken)
  {
    forall q | 0 <= q < |replies| ensures ReplyReasoned(c, requests, base, q, replies[q], room, broken) {
      assert ReplyReasoned(c, requests, base, q, replies[q], room, was);
    }
  }

  lemma ReasonedSize(c: Codec, requests: seq<Request>, replies: seq<seq<Reply>>, base: nat, room: bool, broken: bool)
    requires Reasoned(c, requests, replies, base, room, broken)
    ensures |replies| == |requests|
  {}

  /** One more refusal, for a reason. */
  lemma RefusedReasoned(c: Codec, requests: seq<Request>, replies: seq<seq<Reply>>, base: nat, room: bool, broken: bool, q: nat, error: AppendError)
    requires Reasoned(c, requests, replies, base, room, broken) && q < |replies|
    requires error == Unencodable ==> c.marshal(RecordAt(requests, base, q)) == None
    requires (error == Full ==> !room) && (error == Failed ==> broken)
    ensures Reasoned(c, requests, replies[q := [Refused(error)]], base, room, broken)
  {
    hide ReplyReasoned;
    RefusalReasoned(c, requests, base, q, room, broken, error);
  }

  lemma RefusalReasoned(c: Codec, requests: seq<Request>, base: nat, q: nat, room: bool, broken: bool, error: AppendError)
    requires q < |requests|
    requires error == Unencodable ==> c.marshal(RecordAt(requests, base, q)) == None
    requires (error == Full ==> !room) && (error == Failed ==> broken)
    ensures ReplyReasoned(c, requests, base, q, [Refused(error)], room, broken)
  {}

  lemma GroupReasoned(c: Codec, requests: seq<Request>, before: seq<seq<Reply>>, after: seq<seq<Reply>>, base: nat, room: bool, broken: bool,
                      d: Draft, error: Option<AppendError>)
    requires Reasoned(c, requests, before, base, room, broken) && Waits(requests, base, d)
    requires AnsweredBy(before, after, d.slots, d.group, error)
    requires error.Some? ==> (error.value == Full && !room) || (error.value == Failed && broken)
    ensures Reasoned(c, requests, after, base, room, broken)
  {
    hide ReplyReasoned;
    forall q | 0 <= q < |after| ensures ReplyReasoned(c, requests, base, q, after[q], room, broken) {
      if q in d.slots {
        var k :| 0 <= k < |d.slots| && d.slots[k] == q;
        TellReasoned(c, requests, base, q, room, broken, error);
      } else {
        assert after[q] == before[q];
      }
    }
  }

  lemma TellReasoned(c: Codec, requests: seq<Request>, base: nat, q: nat, room: bool, broken: bool, error: Option<AppendError>)
    requires q < |requests|
    requires error.Some? ==> (error.value == Full && !room) || (error.value == Failed && broken)
    ensures ReplyReasoned(c, requests, base, q,
                          [if error == None then Stored(RecordAt(requests, base, q)) else Refused(error.value)], room, broken)
  {}

  lemma WaitsMore(requests: seq<Request>, base: nat, d: Draft, i: nat, frame: seq<byte>)
    requires Waits(requests, base, d) && i < |requests|
    ensures Waits(requests, base, Draft(d.slots + [i], d.group + [RecordAt(requests, base, i)], d.frames + [frame], d.bytes + |frame|))
  {}

  /** A record that joins the draft takes its share of the need with it. */
  lemma NeedMoves(c: Codec, max: nat, requests: seq<Request>, base: nat, d: Draft, i: nat, frame: seq<byte>)
    requires i < |requests| && DataFrame(c, RecordAt(requests, base, i)) == Some(frame)
    ensures var d' := Draft(d.slots + [i], d.group + [RecordAt(requests, base, i)], d.frames + [frame], d.bytes + |frame|);
            DraftCost(max, d') + NeedFrom(c, max, requests, base, i + 1) == DraftCost(max, d) + NeedFrom(c, max, requests, base, i)
  {
    var n, k := |d.group|, Overhead(max) - FRAME_HEADER;
    assert (n + 1) * k == n * k + k;
  }

  lemma NeedSkips(c: Codec, max: nat, requests: seq<Request>, base: nat, i: nat)
    requires i < |requests|
    ensures NeedFrom(c, max, requests, base, i + 1) <= NeedFrom(c, max, requests, base, i)
  {}

  lemma NoCost(max: nat)
    ensures DraftCost(max, NO_DRAFT) == 0
  {}

  /** A group of at least one record pays for its marker, its reserve and a new segment out of its cost. */
  lemma CostCovers(max: nat, d: Draft)
    requires |d.group| >= 1
    ensures d.bytes + FRAME_HEADER + COMMIT_PAYLOAD + |d.group| * (max * STATE_ENTRY) + SEGMENT_HEADER + STATE_HEADER <= DraftCost(max, d)
  {
    var n, marks := |d.group|, FRAME_HEADER + COMMIT_PAYLOAD + SEGMENT_HEADER + STATE_HEADER;
    assert n * (marks + max * STATE_ENTRY) == n * marks + n * (max * STATE_ENTRY);
    assert n * marks >= marks;
  }

  lemma GroupSize(c: Codec, group: Group)
    requires AllEncode(c, group) && group != []
    ensures |GroupBytes(c, group)| == |FramesBytes(c, group)| + FRAME_HEADER + COMMIT_PAYLOAD
  {}

  /** A commit that may cost this much fails only without room, or if its writing fails, and takes no more than that. */
  ghost predicate Costs(cfg: Config, cost: nat, before: nat, after: nat, was: bool, broken: bool, io: Io, error: Option<AppendError>) {
    && (error.Some? ==> error.value == if broken then Failed else Full)
    && (error == Some(Full) ==> before + cost > cfg.maxBytes)
    && (error == None && !broken ==> after <= before + cost)
    && (error == Some(Failed) && !was ==> !Completes(io, cost))
  }

  lemma NothingCosts(cfg: Config, cost: nat, before: nat, broken: bool, io: Io)
    ensures Costs(cfg, cost, before, before, broken, broken, io, None)
  {}

  lemma CommitCosts(cfg: Config, d: Draft, size: nat, before: nat, after: nat, was: bool, broken: bool, io: Io, error: Option<AppendError>)
    requires |d.group| >= 1 && size == d.bytes + FRAME_HEADER + COMMIT_PAYLOAD
    requires error.Some? ==> error.value == if broken then Failed else Full
    requires var most := before + size + |d.group| * (cfg.maxRecordAttempts * STATE_ENTRY) + SEGMENT_HEADER + STATE_HEADER;
             (error == Some(Full) ==> most > cfg.maxBytes) && (error == None ==> after <= most)
    requires error == Some(Failed) && !was ==> !Completes(io, size)
    ensures Costs(cfg, DraftCost(cfg.maxRecordAttempts, d), before, after, was, broken, io, error)
  {
    hide DraftCost;
    CostCovers(cfg.maxRecordAttempts, d);
  }

  /**
   * Where replies and budget stand before request `i`: the bytes in use or held are `spent`, and what is still to be stored
   * costs at most `total`, for which there is room if there was at first.
   */
  ghost predicate Serving(c: Codec, cfg: Config, spent: nat, broken: bool, requests: seq<Request>, replies: seq<seq<Reply>>, d: Draft, i: nat,
                          base: nat, room: bool, total: nat)
  {
    var cost := DraftCost(cfg.maxRecordAttempts, d) + NeedFrom(c, cfg.maxRecordAttempts, requests, base, i);
    && Reasoned(c, requests, replies, base, room, broken) && Waits(requests, base, d)
    && cost <= total && (room && !broken ==> spent + cost <= cfg.maxBytes)
  }

  lemma ServingStarts(c: Codec, cfg: Config, spent: nat, broken: bool, requests: seq<Request>, replies: seq<seq<Reply>>, base: nat)
    requires |replies| == |requests| && forall q :: 0 <= q < |replies| ==> replies[q] == []
    ensures var need := NeedFrom(c, cfg.maxRecordAttempts, requests, base, 0);
            Serving(c, cfg, spent, broken, requests, replies, NO_DRAFT, 0, base, spent + need <= cfg.maxBytes, need)
  {
    var need := NeedFrom(c, cfg.maxRecordAttempts, requests, base, 0);
    NothingReasoned(c, requests, replies, base, spent + need <= cfg.maxBytes, broken);
    NoCost(cfg.maxRecordAttempts);
  }

  /** What a flush may rely on. */
  lemma ServingFlush(c: Codec, cfg: Config, spent: nat, broken: bool, requests: seq<Request>, replies: seq<seq<Reply>>, d: Draft, i: nat,
                     base: nat, room: bool, total: nat)
    requires Serving(c, cfg, spent, broken, requests, replies, d, i, base, room, total)
    ensures Reasoned(c, requests, replies, base, room, broken) && Waits(requests, base, d)
    ensures DraftCost(cfg.maxRecordAttempts, d) <= total
    ensures room && !broken ==> spent + DraftCost(cfg.maxRecordAttempts, d) <= cfg.maxBytes
  {
    hide Reasoned, Waits, DraftCost, NeedFrom;
  }

  /** After a flush that succeeded. */
  lemma ServingFlushed(c: Codec, cfg: Config, spent: nat, spent': nat, broken: bool, requests: seq<Request>, replies: seq<seq<Reply>>,
                       replies': seq<seq<Reply>>, d: Draft, i: nat, base: nat, room: bool, total: nat)
    requires Serving(c, cfg, spent, broken, requests, replies, d, i, base, room, total)
    requires Reasoned(c, requests, replies', base, room, broken)
    requires !broken ==> spent' <= spent + DraftCost(cfg.maxRecordAttempts, d)
    ensures Serving(c, cfg, spent', broken, requests, replies', NO_DRAFT, i, base, room, total)
  {
    hide Reasoned, DraftCost, NeedFrom;
    NoCost(cfg.maxRecordAttempts);
  }

  /** A request that cannot be encoded. */
  lemma ServingSkips(c: Codec, cfg: Config, spent: nat, broken: bool, requests: seq<Request>, replies: seq<seq<Reply>>, d: Draft, i: nat,
                     base: nat, room: bool, total: nat)
    requires Serving(c, cfg, spent, broken, requests, replies, d, i, base, room, total)
    requires i < |requests| == |replies| && c.marshal(RecordAt(requests, base, i)) == None
    ensures Serving(c, cfg, spent, broken, requests, replies[i := [Refused(Unencodable)]], d, i + 1, base, room, total)
  {
    hide Reasoned, DraftCost, NeedFrom;
    RefusedReasoned(c, requests, replies, base, room, broken, i, Unencodable);
    NeedSkips(c, cfg.maxRecordAttempts, requests, base, i);
  }

  /** A request whose record joins the draft. */
  lemma ServingGrows(c: Codec, cfg: Config, spent: nat, broken: bool, requests: seq<Request>, replies: seq<seq<Reply>>, d: Draft, i: nat,
                     base: nat, room: bool, total: nat, frame: seq<byte>)
    requires Serving(c, cfg, spent, broken, requests, replies, d, i, base, room, total)
    requires i < |requests| && DataFrame(c, RecordAt(requests, base, i)) == Some(frame)
    ensures Serving(c, cfg, spent, broken, requests, replies,
                    Draft(d.slots + [i], d.group + [RecordAt(requests, base, i)], d.frames + [frame], d.bytes + |frame|), i + 1, base, room, total)
  {
    hide Reasoned, DraftCost, NeedFrom, DataFrame;
    WaitsMore(requests, base, d, i, frame);
    NeedMoves(c, cfg.maxRecordAttempts, requests, base, d, i, frame);
  }

  /** If there was room and the log has not faulted, every record that can be encoded is stored. */
  lemma AllServed(c: Codec, requests: seq<Request>, replies: seq<seq<Reply>>, base: nat, room: bool, broken: bool)
    requires Reasoned(c, requests, replies, base, room, broken) && room && !broken
    requires forall q :: 0 <= q < |replies| ==> |replies[q]| == 1
    ensures forall q :: 0 <= q < |replies| && c.marshal(RecordAt(requests, base, q)).Some? ==>
              replies[q] == [Stored(RecordAt(requests, base, q))]
  {
    forall q | 0 <= q < |replies| && c.marshal(RecordAt(requests, base, q)).Some?
      ensures replies[q] == [Stored(RecordAt(requests, base, q))]
    {
      assert ReplyReasoned(c, requests, base, q, replies[q], room, broken);
      var reply := replies[q][0];
      assert replies[q] == [reply];
      match reply
      case Stored(_) => assert IsSuccess(replies[q]);
      case Refused(error) =>
        match error { case Unencodable => case Full => case Failed => }
    }
  }

  /**
   * Why each request of a call was told what it was told, if `spent` bytes were in use or held before and the first ID was
   * `base`: a record is refused as such only if it cannot be encoded, for lack of room only if the budget cannot take all
   * records that can be encoded with all that goes with them, and otherwise only because the log has faulted; a record that
   * is stored is the one asked for. With room for all of them, and no fault, all that can be encoded are stored.
   */
  ghost predicate Explained(c: Codec, cfg: Config, spent: nat, requests: seq<Request>, replies: seq<seq<Reply>>, base: nat, broken: bool) {
    var room := spent + NeedFrom(c, cfg.maxRecordAttempts, requests, base, 0) <= cfg.maxBytes;
    && |replies| == |requests|
    && (forall q :: 0 <= q < |replies| ==>
          && (replies[q] == [Refused(Unencodable)] ==> c.marshal(RecordAt(requests, base, q)) == None)
          && (replies[q] == [Refused(Full)] ==> !room)
          && (replies[q] == [Refused(Failed)] ==> broken)
          && (IsSuccess(replies[q]) ==> replies[q] == [Stored(RecordAt(requests, base, q))]))
    && (room && !broken ==> forall q :: 0 <= q < |replies| && c.marshal(RecordAt(requests, base, q)).Some? ==>
          replies[q] == [Stored(RecordAt(requests, base, q))])
  }

  lemma ReasonedExplained(c: Codec, cfg: Config, spent: nat, requests: seq<Request>, replies: seq<seq<Reply>>, base: nat, room: bool, broken: bool)
    requires Reasoned(c, requests, replies, base, room, broken)
    requires room == (spent + NeedFrom(c, cfg.maxRecordAttempts, requests, base, 0) <= cfg.maxBytes)
    requires forall q :: 0 <= q < |replies| ==> |replies[q]| == 1
    ensures Explained(c, cfg, spent, requests, replies, base, broken)
  {
    forall q | 0 <= q < |replies| ensures ReplyReasoned(c, requests, base, q, replies[q], room, broken) {}
    if room && !broken { AllServed(c, requests, replies, base, room, broken); }
  }
}
