/** Append requests: their replies, and the group that is being filled from them. */
module WalRequests {
  import opened Bytes
  import opened Telemetry
  import opened WalFormat
  import opened WalScan
  import opened WalLog
  import opened WalMemory
  import opened WalQueue
  import opened WalRuns
  import opened WalTurns
  import Maps

  datatype Request = Request(envelope: Envelope, enqueuedAt: nat)

  datatype Reply = Stored(record: DiskRecord) | Refused(error: AppendError)

  /** Whatever ID it is given, the request's payload is one that recovery accepts. */
  ghost predicate Acceptable(c: Codec, cfg: Config, r: Request) {
    r.enqueuedAt > 0 && forall id: nat ::
      var payload := c.marshal(DiskRecord(id, r.enqueuedAt, r.envelope));
      payload.Some? ==> |payload.value| <= cfg.segmentBytes && FitsU32(FRAME_HEADER + |payload.value|)
  }

  /** Whatever ID it is given, the request's frame and a commit marker fit a segment. */
  ghost predicate Small(c: Codec, cfg: Config, r: Request) {
    forall id: nat ::
      var payload := c.marshal(DiskRecord(id, r.enqueuedAt, r.envelope));
      payload.Some? ==> FRAME_HEADER + |payload.value| + FRAME_HEADER + COMMIT_PAYLOAD <= cfg.segmentBytes
  }

  /** The records that replies report as stored, in the order of their requests. */
  function Successes(replies: seq<seq<Reply>>): Group {
    if replies == [] then []
    else
      var last := replies[|replies| - 1];
      Successes(replies[..|replies| - 1]) + (if |last| == 1 && last[0].Stored? then [last[0].record] else [])
  }

  predicate IsSuccess(reply: seq<Reply>) {
    |reply| == 1 && reply[0].Stored?
  }

  lemma {:induction false} SuccessAdded(replies: seq<seq<Reply>>, p: nat, record: DiskRecord)
    requires p < |replies| && forall q :: p <= q < |replies| ==> !IsSuccess(replies[q])
    ensures Successes(replies[p := [Stored(record)]]) == Successes(replies) + [record]
  {
    var next := replies[p := [Stored(record)]];
    if p == |replies| - 1 {
      assert next[..p] == replies[..p];
      assert Successes(replies) == Successes(replies[..p]) + [];
    } else {
      assert next[..|replies| - 1] == replies[..|replies| - 1][p := [Stored(record)]];
      SuccessAdded(replies[..|replies| - 1], p, record);
      assert !IsSuccess(replies[|replies| - 1]) && next[|replies| - 1] == replies[|replies| - 1];
      assert Successes(next) == Successes(next[..|replies| - 1]) + [];
    }
  }

  lemma {:induction false} SuccessKept(replies: seq<seq<Reply>>, p: nat, reply: seq<Reply>)
    requires p < |replies| && !IsSuccess(replies[p]) && !IsSuccess(reply)
    ensures Successes(replies[p := reply]) == Successes(replies)
  {
    var next := replies[p := reply];
    if p == |replies| - 1 {
      assert next[..p] == replies[..p];
    } else {
      assert next[..|replies| - 1] == replies[..|replies| - 1][p := reply];
      SuccessKept(replies[..|replies| - 1], p, reply);
    }
  }

  lemma {:induction false} NoSuccess(replies: seq<seq<Reply>>)
    requires forall q :: 0 <= q < |replies| ==> replies[q] == []
    ensures Successes(replies) == []
  {
    if replies != [] { NoSuccess(replies[..|replies| - 1]); }
  }

  lemma {:induction false} GroupQueueParts(a: Group, b: Group)
    ensures GroupQueue(a + b) == GroupQueue(a) + GroupQueue(b)
    decreases |b|
  {
    if b == [] {
      assert a + b == a;
    } else {
      assert (a + b)[..|a + b| - 1] == a + b[..|b| - 1];
      GroupQueueParts(a, b[..|b| - 1]);
    }
  }

  /** The group that `processAppendRequests` is filling: printable, its IDs at or above `floor`, its bytes within a segment. */
  ghost predicate Filling(c: Codec, cfg: Config, group: Group, bytes: nat, floor: nat, next: nat) {
    && AllEncode(c, group) && bytes == |FramesBytes(c, group)|
    && (forall k :: 0 <= k < |group| ==> Printable(c, cfg.segmentBytes, group[k]) && floor <= group[k].id < next)
    && (forall i, j :: 0 <= i < j < |group| ==> group[i].id < group[j].id)
    && (|group| >= 2 ==> bytes + FRAME_HEADER + COMMIT_PAYLOAD <= cfg.segmentBytes)
  }

  /** Everything in use lies below `floor`, and fresh IDs from there on. */
  ghost predicate Below(x: Live, floor: nat) {
    && floor <= x.m.nextID
    && (forall id :: id in LogIds(x.log) ==> id < floor) && (forall id :: id in x.m.ids ==> id < floor)
  }

  lemma BelowMore(x: Live, floor: nat, next: nat)
    requires Below(x, floor) && floor <= next <= x.m.nextID
    ensures Below(x, next)
  {
    hide LogIds;
  }

  lemma StillBelow(x: Live, y: Live, group: Group, floor: nat, next: nat)
    requires Below(x, floor) && floor <= next <= y.m.nextID && forall r :: r in group ==> r.id < next
    requires forall id :: id in LogIds(y.log) ==> id in LogIds(x.log) || id in GroupIds(group)
    requires y.m.ids == x.m.ids + GroupIds(group)
    ensures Below(y, next)
  {
    hide LogIds;
    forall id | id in GroupIds(group) ensures id < next {
      var k :| 0 <= k < |group| && GroupIds(group)[k] == id;
      assert group[k] in group;
    }
  }

  /** A filled group may be committed. */
  lemma FilledReady(c: Codec, cfg: Config, x: Live, group: Group, bytes: nat, floor: nat, next: nat)
    requires cfg.Valid() && Below(x, floor) && Filling(c, cfg, group, bytes, floor, next) && next <= x.m.nextID
    requires group != [] && FitsU32(|group|)
    ensures Ready(c, cfg, x, group)
  {
    hide LogIds, Printable;
    if |group| == 1 {
      assert group[..0] == [] && FramesBytes(c, group) == [] + FrameOf(c, group[0]);
      FrameFits(c, cfg.segmentBytes, group[0]);
    }
    assert GoodGroup(c, cfg.segmentBytes, group);
  }

  lemma FrameFits(c: Codec, limit: nat, record: DiskRecord)
    requires Printable(c, limit, record)
    ensures FitsU32(|FrameOf(c, record)|)
  {}

  /** One more record, with the next fresh ID. */
  lemma FillingStep(c: Codec, cfg: Config, group: Group, bytes: nat, floor: nat, next: nat, record: DiskRecord)
    requires Filling(c, cfg, group, bytes, floor, next) && Printable(c, cfg.segmentBytes, record) && floor <= next <= record.id
    requires group != [] ==> bytes + |FrameOf(c, record)| + FRAME_HEADER + COMMIT_PAYLOAD <= cfg.segmentBytes
    ensures Filling(c, cfg, group + [record], bytes + |FrameOf(c, record)|, floor, record.id + 1)
  {
    assert c.marshal(record).Some?;
    hide Printable;
    assert (group + [record])[..|group|] == group;
  }

  /**
   * The state of the replies before request `i` is looked at: one for each request before it, except those whose
   * record is waiting in the group being filled; none for the others.
   */
  ghost predicate Answered(replies: seq<seq<Reply>>, slots: seq<nat>, i: nat) {
    && i <= |replies|
    && (forall j, k :: 0 <= j < k < |slots| ==> slots[j] < slots[k]) && (forall k :: 0 <= k < |slots| ==> slots[k] < i)
    && (forall q :: 0 <= q < |replies| ==> |replies[q]| == if q < i && q !in slots then 1 else 0)
    && (forall k, q :: 0 <= k < |slots| && slots[k] <= q < |replies| ==> !IsSuccess(replies[q]))
  }

  /** A reply that reports success carries what its own request asked to store. */
  ghost predicate Faithful(requests: seq<Request>, replies: seq<seq<Reply>>) {
    && |replies| == |requests|
    && forall q :: 0 <= q < |replies| && IsSuccess(replies[q]) ==>
         replies[q][0].record == DiskRecord(replies[q][0].record.id, requests[q].enqueuedAt, requests[q].envelope)
  }

  ghost predicate Waiting(requests: seq<Request>, slots: seq<nat>, group: Group) {
    && |slots| == |group|
    && forall k :: 0 <= k < |slots| ==>
         slots[k] < |requests| && group[k] == DiskRecord(group[k].id, requests[slots[k]].enqueuedAt, requests[slots[k]].envelope)
  }

  /** Sends the outcome of a commit to the requests of the group, each once. */
  method Answer(slots: seq<nat>, group: Group, error: Option<AppendError>, replies: array<seq<Reply>>, i: nat, requests: seq<Request>)
    requires Answered(replies[..], slots, i) && Faithful(requests, replies[..]) && Waiting(requests, slots, group)
    modifies replies
    ensures Answered(replies[..], [], i) && Faithful(requests, replies[..])
    ensures Successes(replies[..]) == Successes(old(replies[..])) + (if error == None then group else [])
    ensures AnsweredBy(old(replies[..]), replies[..], slots, group, error)
  {
    hide Answered, Faithful, Successes, AnsweredBy;
    NobodyAnswered(replies[..], group, error);
    SlotsDiffer(replies[..], slots, i);
    assert slots[..0] == [] && group[..0] == [];
    for k := 0 to |slots|
      invariant AnsweredBy(old(replies[..]), replies[..], slots[..k], group[..k], error)
      invariant Answered(replies[..], slots[k..], i) && Faithful(requests, replies[..])
      invariant Successes(replies[..]) == Successes(old(replies[..])) + (if error == None then group[..k] else [])
    {
      var reply := if error == None then Stored(group[k]) else Refused(error.value);
      ghost var before := replies[..];
      OpenSlot(before, slots, k, i);
      assert before[slots[k]] + [reply] == [reply];
      replies[slots[k]] := replies[slots[k]] + [reply];
      assert replies[..] == before[slots[k] := [reply]];
      if error == None { SuccessAdded(before, slots[k], group[k]); } else { SuccessKept(before, slots[k], [reply]); }
      OneMoreAnswered(old(replies[..]), before, slots, group, error, k, i);
      AnsweredStep(before, slots, k, i, reply);
      FaithfulStep(requests, before, slots[k], reply);
    }
    assert slots[|slots|..] == [] && group[..|group|] == group && slots[..|slots|] == slots;
  }

  /** What the requests of a group are told. */
  ghost predicate AnsweredBy(before: seq<seq<Reply>>, after: seq<seq<Reply>>, slots: seq<nat>, group: Group, error: Option<AppendError>) {
    && |after| == |before| && |slots| == |group|
    && (forall q :: 0 <= q < |after| && q !in slots ==> after[q] == before[q])
    && (forall k :: 0 <= k < |slots| ==>
          slots[k] < |after| && after[slots[k]] == [if error == None then Stored(group[k]) else Refused(error.value)])
  }

  lemma SlotsDiffer(replies: seq<seq<Reply>>, slots: seq<nat>, i: nat)
    requires Answered(replies, slots, i)
    ensures forall j, k :: 0 <= j < k < |slots| ==> slots[j] != slots[k]
  {}

  lemma NobodyAnswered(replies: seq<seq<Reply>>, group: Group, error: Option<AppendError>)
    ensures AnsweredBy(replies, replies, [], [], error)
  {}

  lemma OneMoreAnswered(start: seq<seq<Reply>>, before: seq<seq<Reply>>, slots: seq<nat>, group: Group, error: Option<AppendError>, k: nat, i: nat)
    requires k < |slots| == |group| && slots[k] < |before| && AnsweredBy(start, before, slots[..k], group[..k], error)
    requires forall j :: 0 <= j < k ==> slots[j] != slots[k]
    ensures var reply := if error == None then Stored(group[k]) else Refused(error.value);
            AnsweredBy(start, before[slots[k] := [reply]], slots[..k + 1], group[..k + 1], error)
  {
    assert slots[..k + 1] == slots[..k] + [slots[k]] && group[..k + 1] == group[..k] + [group[k]];
  }

  lemma FaithfulStep(requests: seq<Request>, replies: seq<seq<Reply>>, q: nat, reply: Reply)
    requires Faithful(requests, replies) && q < |replies|
    requires reply.Stored? ==> reply.record == DiskRecord(reply.record.id, requests[q].enqueuedAt, requests[q].envelope)
    ensures Faithful(requests, replies[q := [reply]])
  {}

  lemma OpenSlot(replies: seq<seq<Reply>>, slots: seq<nat>, k: nat, i: nat)
    requires k < |slots| && Answered(replies, slots[k..], i)
    ensures slots[k] < |replies| && replies[slots[k]] == [] && forall q :: slots[k] <= q < |replies| ==> !IsSuccess(replies[q])
  {
    assert slots[k..][0] == slots[k] && slots[k] in slots[k..];
  }

  lemma AnsweredStep(replies: seq<seq<Reply>>, slots: seq<nat>, k: nat, i: nat, reply: Reply)
    requires k < |slots| && Answered(replies, slots[k..], i)
    ensures Answered(replies[slots[k] := [reply]], slots[k + 1..], i)
  {
    var rest, later := slots[k..], slots[k + 1..];
    assert rest == [slots[k]] + later;
    assert forall q :: q in rest <==> q == slots[k] || q in later;
    forall j | 0 <= j < |later| ensures later[j] > slots[k] { assert later[j] == rest[j + 1] && rest[0] == slots[k]; }
  }

  lemma QueueTold(q: Queue, told: Group, group: Group, extra: Group)
    ensures q + GroupQueue(told) + GroupQueue(group) == q + GroupQueue(told + group)
    ensures q + GroupQueue(told) + map[] + GroupQueue(extra) == q + GroupQueue(told) + GroupQueue(extra)
    ensures GroupQueue([]) == map[] && q + GroupQueue(told) + map[] == q + GroupQueue(told)
    ensures q + GroupQueue(told + group) + map[] == q + GroupQueue(told + group)
  {
    GroupQueueParts(told, group);
    Maps.Associates(q, GroupQueue(told), GroupQueue(group));
  }

  lemma NothingQueued(q: Queue)
    ensures GroupQueue([]) == map[] && q + map[] == q && q + map[] + map[] == q
  {}

  /** The records waiting to be committed together, with their request numbers and encoded frames. */
  datatype Draft = Draft(slots: seq<nat>, group: Group, frames: seq<seq<byte>>, bytes: nat)

  /** A frame joins the group that waits, unless group and marker would outgrow a segment with it: then it begins a new one. */
  predicate Packs(segmentBytes: nat, d: Draft, encoded: Option<seq<byte>>, i: nat, d': Draft) {
    match encoded
    case None => d' == d
    case Some(frame) =>
      if d.group == [] || d.bytes + |frame| + FRAME_HEADER + COMMIT_PAYLOAD <= segmentBytes
      then d'.slots == d.slots + [i] && d'.bytes == d.bytes + |frame| else d'.slots == [i] && d'.bytes == |frame|
  }

  const NO_DRAFT := Draft([], [], [], 0)

  ghost predicate Drafted(c: Codec, cfg: Config, requests: seq<Request>, d: Draft, floor: nat, next: nat) {
    && Filling(c, cfg, d.group, d.bytes, floor, next) && Waiting(requests, d.slots, d.group)
    && |d.frames| == |d.group| && |d.group| <= |requests|
    && forall k :: 0 <= k < |d.group| ==> d.frames[k] == FrameOf(c, d.group[k])
  }

  /** IDs that increase, from `lo` on and below `hi`. */
  ghost predicate Numbered(group: Group, lo: nat, hi: nat) {
    && (forall i, j :: 0 <= i < j < |group| ==> group[i].id < group[j].id)
    && forall k :: 0 <= k < |group| ==> lo <= group[k].id < hi
  }

  lemma NumberedJoin(c: Codec, cfg: Config, a: Group, lo: nat, floor: nat, b: Group, bytes: nat, next: nat)
    requires Numbered(a, lo, floor) && Filling(c, cfg, b, bytes, floor, next) && lo <= floor <= next
    ensures Numbered(a + b, lo, next) && Numbered(a, lo, next)
  {
    hide Printable, FramesBytes, AllEncode;
  }

  /** What the requests seen so far have led to: replies, and the records those replies report, in the queue. */
  ghost predicate Told(requests: seq<Request>, replies: seq<seq<Reply>>, slots: seq<nat>, i: nat, lo: nat, hi: nat) {
    Answered(replies, slots, i) && Faithful(requests, replies) && Numbered(Successes(replies), lo, hi)
  }

  lemma SmallDraft(c: Codec, cfg: Config, requests: seq<Request>, d: Draft, floor: nat, next: nat)
    requires Drafted(c, cfg, requests, d, floor, next) && forall r :: r in requests ==> Small(c, cfg, r)
    ensures d.group != [] ==> d.bytes + FRAME_HEADER + COMMIT_PAYLOAD <= cfg.segmentBytes
  {
    hide Printable;
    if |d.group| == 1 {
      assert d.group[..0] == [] && FramesBytes(c, d.group) == [] + FrameOf(c, d.group[0]);
      assert requests[d.slots[0]] in requests && Small(c, cfg, requests[d.slots[0]]);
    }
  }

  lemma SafeBelow(c: Codec, cfg: Config, x: Live)
    requires Safe(c, cfg, x)
    ensures Below(x, x.m.nextID)
  {
    hide Mirrors, Exact, Carries, LogSound, LogIds;
  }

  /** Taking an ID leaves everything in agreement. */
  lemma IdTaken(c: Codec, cfg: Config, x: Live, floor: nat)
    requires Safe(c, cfg, x) && Below(x, floor)
    ensures Safe(c, cfg, x.(m := x.m.(nextID := x.m.nextID + 1))) && Below(x.(m := x.m.(nextID := x.m.nextID + 1)), floor)
  {
    hide Mirrors, Exact, Carries, LogSound, LogIds, Safe;
    var m, disk := OpSafe(c, cfg, x, Op.Take);
  }

  lemma NothingTold(requests: seq<Request>, replies: seq<seq<Reply>>, lo: nat)
    requires |replies| == |requests| && forall q :: 0 <= q < |replies| ==> replies[q] == []
    ensures Told(requests, replies, [], 0, lo, lo) && Successes(replies) == []
  {
    NoSuccess(replies);
  }

  /** A request answered at once: the log had faulted, or the record could not be encoded. */
  lemma ToldAtOnce(requests: seq<Request>, replies: seq<seq<Reply>>, slots: seq<nat>, i: nat, lo: nat, hi: nat, error: AppendError)
    requires Told(requests, replies, slots, i, lo, hi) && i < |replies|
    ensures replies[i] == []
    ensures Told(requests, replies[i := [Refused(error)]], slots, i + 1, lo, hi)
    ensures Successes(replies[i := [Refused(error)]]) == Successes(replies)
  {
    SuccessKept(replies, i, [Refused(error)]);
  }

  /** A request whose record joins the draft: its reply waits. */
  lemma ToldLater(requests: seq<Request>, replies: seq<seq<Reply>>, slots: seq<nat>, i: nat, lo: nat, hi: nat)
    requires Told(requests, replies, slots, i, lo, hi) && i < |replies|
    ensures Told(requests, replies, slots + [i], i + 1, lo, hi)
  {
    hide Successes, Faithful, Numbered;
    assert forall q :: q in slots + [i] <==> q in slots || q == i;
  }

  /** A fresh record joins the draft. */
  lemma DraftGrows(c: Codec, cfg: Config, requests: seq<Request>, d: Draft, floor: nat, i: nat, record: DiskRecord, frame: seq<byte>)
    requires Drafted(c, cfg, requests, d, floor, record.id) && floor <= record.id && i < |requests| && |d.group| < |requests|
    requires Printable(c, cfg.segmentBytes, record) && DataFrame(c, record) == Some(frame)
    requires record == DiskRecord(record.id, requests[i].enqueuedAt, requests[i].envelope)
    requires d.group != [] ==> d.bytes + |frame| + FRAME_HEADER + COMMIT_PAYLOAD <= cfg.segmentBytes
    ensures Drafted(c, cfg, requests, Draft(d.slots + [i], d.group + [record], d.frames + [frame], d.bytes + |frame|), floor, record.id + 1)
  {
    hide Filling, Printable;
    FillingStep(c, cfg, d.group, d.bytes, floor, record.id, record);
  }

  lemma DraftMoves(c: Codec, cfg: Config, requests: seq<Request>, d: Draft, floor: nat, next: nat, next': nat)
    requires Drafted(c, cfg, requests, d, floor, next) && next <= next'
    ensures Drafted(c, cfg, requests, d, floor, next')
  {
    hide Printable, AllEncode, FramesBytes;
  }

  lemma NothingDrafted(c: Codec, cfg: Config, requests: seq<Request>, floor: nat, next: nat)
    ensures Drafted(c, cfg, requests, NO_DRAFT, floor, next)
  {}

  lemma RequestPrintable(c: Codec, cfg: Config, r: Request, id: nat)
    requires Acceptable(c, cfg, r) && 0 < id && FitsU64(id) && c.marshal(DiskRecord(id, r.enqueuedAt, r.envelope)).Some?
    ensures Printable(c, cfg.segmentBytes, DiskRecord(id, r.enqueuedAt, r.envelope))
  {}

  lemma ToldMore(requests: seq<Request>, replies: seq<seq<Reply>>, i: nat, lo: nat, hi: nat)
    requires Told(requests, replies, [], i, lo, hi)
    ensures Told(requests, replies, [], i, lo, hi + 1)
  {
    hide Successes;
  }

  lemma ToldAll(requests: seq<Request>, replies: seq<seq<Reply>>, lo: nat, hi: nat)
    requires Told(requests, replies, [], |replies|, lo, hi)
    ensures (forall q :: 0 <= q < |replies| ==> |replies[q]| == 1) && Faithful(requests, replies)
    ensures Sorted(GroupIds(Successes(replies))) && forall r :: r in Successes(replies) ==> lo <= r.id < hi
  {
    hide Successes;
  }
}
