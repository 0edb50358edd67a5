/**
 * The disk budget. Room for every checkpoint entry that a record may still need is reserved when the record is
 * admitted, so that acknowledging, retrying and quarantining never run out of space.
 */
module WalBudget {
  import opened Telemetry
  import opened WalFormat
  import opened WalScan
  import opened WalLog
  import opened WalOps
  import opened WalMemory
  import opened WalSteps
  import opened WalSegments
  import Maps

  /** Entries still reserved for a record: one for each attempt left, and never less than one. */
  function EntriesLeft(max: nat, attempts: nat): (n: nat)
    ensures n >= 1
  {
    if max <= attempts then 1 else max - attempts
  }

  function Cost(max: nat, at: Metadata): nat {
    STATE_ENTRY * EntriesLeft(max, at.attempts)
  }

  /** `reservedBytes`, as recovery sums it up. */
  ghost function Reserve(max: nat, active: map<nat, Metadata>): nat {
    if active == map[] then 0
    else
      var id :| id in active;
      Cost(max, active[id]) + Reserve(max, active - {id})
  }

  /** The sum does not depend on the order: any record may be taken out first. */
  lemma {:induction false} ReserveWithout(max: nat, active: map<nat, Metadata>, id: nat)
    requires id in active
    ensures Reserve(max, active) == Cost(max, active[id]) + Reserve(max, active - {id})
    decreases |active|
  {
    var first :| first in active && Reserve(max, active) == Cost(max, active[first]) + Reserve(max, active - {first});
    if first != id {
      Maps.RemoveSize(active, first);
      Maps.RemoveSize(active, id);
      ReserveWithout(max, active - {first}, id);
      ReserveWithout(max, active - {id}, first);
      assert active - {first} - {id} == active - {id} - {first};
    }
  }

  lemma {:induction false} ReserveUnion(max: nat, a: map<nat, Metadata>, b: map<nat, Metadata>)
    requires a.Keys !! b.Keys
    ensures Reserve(max, a + b) == Reserve(max, a) + Reserve(max, b)
    decreases |b|
  {
    if b == map[] {
      Maps.EmptyRight(a);
    } else {
      var id :| id in b;
      Maps.RemoveSize(b, id);
      ReserveUnion(max, a, b - {id});
      ReserveWithout(max, b, id);
      ReserveWithout(max, a + b, id);
      Maps.RemoveRight(a, b, id);
    }
  }

  /** A fresh record reserves one entry for every attempt it is allowed. */
  lemma {:induction false} ReserveFresh(max: nat, active: map<nat, Metadata>)
    requires max >= 1 && forall id :: id in active ==> active[id].attempts == 0
    ensures Reserve(max, active) == STATE_ENTRY * max * |active|
    decreases |active|
  {
    if active != map[] {
      var id :| id in active;
      Maps.RemoveSize(active, id);
      ReserveFresh(max, active - {id});
      ReserveWithout(max, active, id);
      Product(STATE_ENTRY * max, |active|);
    }
  }

  lemma Product(a: nat, n: nat)
    requires n >= 1
    ensures a * n == a * (n - 1) + a
  {}

  /** What an entry about an active record releases: one entry for a retry within the limit, all of it otherwise. */
  lemma ReserveMarked(max: nat, active: map<nat, Metadata>, e: StateEntry)
    requires e.id in active
    ensures Reserve(max, Marked(active, e)) == Reserve(max, active) - Cost(max, active[e.id])
              + (if e.kind == Retry then Cost(max, active[e.id].(attempts := e.attempts)) else 0)
  {
    ReserveWithout(max, active, e.id);
    if e.kind == Retry {
      var at := active[e.id].(attempts := e.attempts);
      assert active[e.id := at] - {e.id} == active - {e.id};
      ReserveWithout(max, active[e.id := at], e.id);
    }
  }

  /**
   * The source subtracts 24 bytes for every retry; that is what the formula gives exactly when the retry stays below
   * the attempt limit. At the limit the formula keeps its last entry while the source gives it away.
   */
  lemma RetryReleasesOneEntry(max: nat, active: map<nat, Metadata>, e: StateEntry)
    requires e.id in active && e.kind == Retry && e.attempts == active[e.id].attempts + 1
    ensures e.attempts < max <==> Reserve(max, Marked(active, e)) == Reserve(max, active) - STATE_ENTRY
    ensures e.attempts >= max ==> Reserve(max, Marked(active, e)) == Reserve(max, active)
  {
    ReserveMarked(max, active, e);
  }

  // ---- bytes that stay after compaction ------------------------------------------------------------------

  function SegmentBytesUsed(c: Codec, s: SegmentLog): nat
    requires Encodes(c, s.groups)
  {
    |DataBytes(c, s)| + |CheckpointBytes(c, s)|
  }

  type Weight = SegmentLog -> nat

  /** What compaction leaves of a segment. */
  ghost function Kept(c: Codec): Weight {
    (s: SegmentLog) => if Encodes(c, s.groups) && !Spent(c, s) then SegmentBytesUsed(c, s) else 0
  }

  function Total(weigh: Weight, segments: Log): nat {
    if segments == [] then 0 else Total(weigh, segments[..|segments| - 1]) + weigh(segments[|segments| - 1])
  }

  lemma {:induction false} TotalParts(weigh: Weight, a: Log, b: Log)
    ensures Total(weigh, a + b) == Total(weigh, a) + Total(weigh, b)
    decreases b
  {
    if b == [] {
      assert a + b == a;
    } else {
      assert (a + b)[..|a + b| - 1] == a + b[..|b| - 1];
      TotalParts(weigh, a, b[..|b| - 1]);
    }
  }

  lemma TotalAround(weigh: Weight, segments: Log, k: nat, s: SegmentLog)
    requires k < |segments|
    ensures Total(weigh, segments[k := s]) == Total(weigh, segments[..k]) + weigh(s) + Total(weigh, segments[k + 1..])
  {
    assert segments[k := s] == segments[..k] + [s] + segments[k + 1..];
    TotalParts(weigh, segments[..k] + [s], segments[k + 1..]);
    TotalParts(weigh, segments[..k], [s]);
    assert [s][..0] == [];
  }

  /** Bytes of a log once its spent segments are gone; the current one always stays. */
  ghost function LiveBytes(c: Codec, log: Log): nat
    requires LogEncodes(c, log) && log != []
  {
    Total(Kept(c), log[..|log| - 1]) + SegmentBytesUsed(c, Last(log))
  }

  /** The budget of a log: what its files keep, and the entries its records may still need, fit. */
  ghost predicate Affordable(c: Codec, cfg: Config, log: Log)
    requires LogEncodes(c, log) && log != []
  {
    LiveBytes(c, log) + Reserve(cfg.maxRecordAttempts, ActiveOf(c, log)) <= cfg.maxBytes
  }

  /** What the segment before the current one takes, if it is spent and still there: what compaction is about to give back. */
  ghost function Returning(c: Codec, log: Log): nat
    requires LogEncodes(c, log)
  {
    if |log| >= 2 && Spent(c, log[|log| - 2]) then SegmentBytesUsed(c, log[|log| - 2]) else 0
  }

  /** `usedBytes` and the reserve are within the limit, up to what compaction is about to give back. */
  ghost predicate Budgeted(c: Codec, cfg: Config, log: Log)
    requires LogEncodes(c, log)
  {
    UsedBy(c, log) + Reserve(cfg.maxRecordAttempts, ActiveOf(c, log)) <= cfg.maxBytes + Returning(c, log)
  }

  lemma BudgetedAffords(c: Codec, cfg: Config, log: Log)
    requires LogEncodes(c, log) && log != [] && Budgeted(c, cfg, log)
    ensures Affordable(c, cfg, log)
  {
    hide Reserve, ActiveOf, Spent, SegmentBytesUsed;
    LiveWithin(c, log);
  }

  /** Segments that are spent are no part of the live bytes. */
  lemma LiveWithin(c: Codec, log: Log)
    requires LogEncodes(c, log) && log != []
    ensures LiveBytes(c, log) + Returning(c, log) <= UsedBy(c, log)
  {
    hide Spent, DataBytes, CheckpointBytes;
    var init := log[..|log| - 1];
    if |init| >= 1 {
      assert init[..|init| - 1] == log[..|log| - 2] && init[|init| - 1] == log[|log| - 2];
      KeptWithin(c, init[..|init| - 1]);
    }
  }

  lemma {:induction false} KeptWithin(c: Codec, segments: Log)
    requires LogEncodes(c, segments)
    ensures Total(Kept(c), segments) <= UsedBy(c, segments)
  {
    hide Spent, DataBytes, CheckpointBytes;
    if segments != [] { KeptWithin(c, segments[..|segments| - 1]); }
  }

  // ---- every step keeps the budget -------------------------------------------------------------------------

  lemma ReserveAfterCommit(c: Codec, max: nat, active: map<nat, Metadata>, segmentID: nat, group: Group, offset: nat)
    requires max >= 1 && AllEncode(c, group) && Sorted(GroupIds(group)) && Elements(GroupIds(group)) !! active.Keys
    ensures Reserve(max, active + NewRecords(c, segmentID, group, offset)) == Reserve(max, active) + STATE_ENTRY * max * |group|
  {
    var added := NewRecords(c, segmentID, group, offset);
    NewRecordsKeys(c, segmentID, group, offset);
    ReserveUnion(max, active, added);
    ReserveFresh(max, added);
    SortedCount(GroupIds(group));
    assert |added| == |added.Keys| == |group|;
  }

  /** A group that passes the guard of `commitGroup` leaves the log within its budget. */
  lemma CommitBudgeted(c: Codec, cfg: Config, log: Log, group: Group)
    requires LogSound(c, cfg, log) && Follows(c, cfg.segmentBytes, log, group)
    requires UsedBy(c, log) + Reserve(cfg.maxRecordAttempts, ActiveOf(c, log))
               + |GroupBytes(c, group)| + STATE_ENTRY * cfg.maxRecordAttempts * |group| <= cfg.maxBytes + Returning(c, log)
    ensures LogEncodes(c, Appended(log, group)) && Appended(log, group) != []
    ensures Budgeted(c, cfg, Appended(log, group))
  {
    hide Spent, SegmentBytesUsed, Reserve, GroupBytes, UsedBy, ActiveOf;
    AppendedLog(c, cfg, log, group);
    CommitTotals(c, log, group);
    ActiveKeys(c, log);
    SortedParts(LogIds(log), GroupIds(group));
    ReserveAfterCommit(c, cfg.maxRecordAttempts, ActiveOf(c, log), Last(log).id, group, |DataBytes(c, Last(log))|);
  }

  /** An entry about an active record needs no more than was reserved for it, as long as retries stay below the limit. */
  lemma EntryBudgeted(c: Codec, cfg: Config, log: Log, k: nat, e: StateEntry)
    requires LogSound(c, cfg, log) && Budgeted(c, cfg, log) && k < |log|
    requires e.id in SegmentActive(c, log[k]) && e.id in Elements(SegmentIds(log[k].groups))
    requires e.kind == Retry ==>
               e.id in ActiveOf(c, log) && e.attempts == ActiveOf(c, log)[e.id].attempts + 1 < cfg.maxRecordAttempts
    ensures LogEncodes(c, MarkedLog(log, k, e)) && Budgeted(c, cfg, MarkedLog(log, k, e))
  {
    hide Returning, Reserve, UsedBy, ActiveOf, SegmentActive, MarkedLog;
    EntryTotals(c, log, k, e);
    MarkedReturning(c, log, k, e);
    ReserveMarked(cfg.maxRecordAttempts, ActiveOf(c, log), e);
  }

  lemma MarkedReturning(c: Codec, log: Log, k: nat, e: StateEntry)
    requires k < |log| && LogEncodes(c, log) && LogEncodes(c, MarkedLog(log, k, e)) && e.id in SegmentActive(c, log[k])
    ensures Returning(c, log) <= Returning(c, MarkedLog(log, k, e))
  {
    hide SegmentBytesUsed, SegmentActive, SegmentQuarantined;
    assert !Spent(c, log[k]);
    assert forall j :: 0 <= j < |log| && j != k ==> MarkedLog(log, k, e)[j] == log[j];
  }

  /** Opening a segment needs room for its two headers, with credit for the current segment if that one is spent. */
  lemma RotateBudgeted(c: Codec, cfg: Config, log: Log, id: nat, now: nat)
    requires LogSound(c, cfg, log) && Last(log).id < id && FitsU64(id)
    requires UsedBy(c, log) + Reserve(cfg.maxRecordAttempts, ActiveOf(c, log)) + SEGMENT_HEADER + STATE_HEADER
               - (if Spent(c, Last(log)) then SegmentBytesUsed(c, Last(log)) else 0) <= cfg.maxBytes
    ensures LogEncodes(c, Rotated(log, id, now)) && Budgeted(c, cfg, Rotated(log, id, now))
  {
    hide Spent, SegmentBytesUsed, Reserve, UsedBy, ActiveOf;
    RotatedLog(c, cfg, log, id, now);
  }

  /** Removing a spent segment gives back what it takes. */
  lemma DropBudgeted(c: Codec, cfg: Config, log: Log, k: nat)
    requires LogEncodes(c, log) && k < |log| - 1 && Spent(c, log[k]) && Budgeted(c, cfg, log)
    ensures LogEncodes(c, Without(log, k)) && Without(log, k) != [] && Budgeted(c, cfg, Without(log, k))
  {
    hide Spent, Reserve, UsedBy, ActiveOf, DataBytes, CheckpointBytes;
    WithoutTotals(c, log, k);
    WithoutLast(log, k);
    if k < |log| - 2 {
      WithoutAt(log, k, |log| - 3);
    }
  }

  /** Opening a segment costs its two headers, less the whole current segment if that one is spent. */
  lemma LiveAfterRotate(c: Codec, log: Log, id: nat, now: nat)
    requires LogEncodes(c, log) && log != []
    ensures LogEncodes(c, Rotated(log, id, now))
    ensures LiveBytes(c, Rotated(log, id, now))
         == LiveBytes(c, log) + SEGMENT_HEADER + STATE_HEADER - (if Spent(c, Last(log)) then SegmentBytesUsed(c, Last(log)) else 0)
  {
    NewSegmentIs(c, id, now);
    PartsEncode(c, log, [NewSegment(id, now)]);
    assert Rotated(log, id, now)[..|log|] == log;
  }

  /** Removing a spent segment changes nothing that stays. */
  lemma LiveAfterDrop(c: Codec, log: Log, k: nat)
    requires LogEncodes(c, log) && k < |log| - 1 && Spent(c, log[k])
    ensures LogEncodes(c, Without(log, k)) && Without(log, k) != []
    ensures LiveBytes(c, Without(log, k)) == LiveBytes(c, log)
  {
    TotalWithout(Kept(c), log, k);
    WithoutLast(log, k);
    WithoutTotals(c, log, k);
  }

  lemma TotalWithout(weigh: Weight, log: Log, k: nat)
    requires k < |log| - 1
    ensures Total(weigh, log[..|log| - 1]) == Total(weigh, Without(log, k)[..|log| - 2]) + weigh(log[k])
  {
    var init := log[..|log| - 1];
    TotalAround(weigh, init, k, log[k]);
    TotalParts(weigh, init[..k], init[k + 1..]);
    assert init[k := log[k]] == init;
    WithoutFront(log, k);
  }

  lemma WithoutFront(log: Log, k: nat)
    requires k < |log| - 1
    ensures Without(log, k)[..|log| - 2] == log[..|log| - 1][..k] + log[..|log| - 1][k + 1..]
  {
    var a, b := Without(log, k)[..|log| - 2], log[..|log| - 1][..k] + log[..|log| - 1][k + 1..];
    forall j | 0 <= j < |log| - 2 ensures a[j] == b[j] { WithoutAt(log, k, j); }
  }
}
