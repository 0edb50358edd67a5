/** What a call of Ack, MarkRetry or Quarantine, and the index that `NextAfter` searches, rely on. */
module WalCalls {
  import opened Telemetry
  import opened WalFormat
  import opened WalScan
  import opened WalLog
  import opened WalContents
  import opened WalOps
  import opened WalMemory
  import opened WalSteps
  import opened WalQueue
  import opened WalBudget
  import opened WalRuns
  import opened WalMarks
  import Sorting

  datatype StateError = Broken | RetryCountExceeded

  /** What `NextAfter` answers. */
  datatype Next = Unreadable | Nothing | Found(record: DiskRecord, attempts: nat)

  /** The loop of `writeRecordStates` that groups entries by segment: what it holds after some of the records. */
  ghost predicate Grouped(active: map<nat, Metadata>, change: Change, records: seq<nat>, bySegment: map<nat, seq<StateEntry>>) {
    && (forall id :: id in records && id in active ==> active[id].segmentID in bySegment)
    && (forall segmentID :: segmentID in bySegment ==>
          bySegment[segmentID] == Batch(active, change, records, segmentID) && bySegment[segmentID] != [])
  }

  lemma GroupedStep(active: map<nat, Metadata>, change: Change, records: seq<nat>, id: nat, bySegment: map<nat, seq<StateEntry>>)
    requires Grouped(active, change, records, bySegment)
    ensures id !in active ==> Grouped(active, change, records + [id], bySegment)
    ensures id in active ==>
      var s := active[id].segmentID;
      Grouped(active, change, records + [id],
              bySegment[s := (if s in bySegment then bySegment[s] else []) + [EntryFor(change, id, active[id])]])
  {
    assert (records + [id])[..|records|] == records;
    if id in active && active[id].segmentID !in bySegment { BatchEmpty(active, change, records, active[id].segmentID); }
  }

  lemma {:induction false} BatchEmpty(active: map<nat, Metadata>, change: Change, records: seq<nat>, segmentID: nat)
    requires forall id :: id in records && id in active ==> active[id].segmentID != segmentID
    ensures Batch(active, change, records, segmentID) == []
  {
    if records != [] {
      assert records[|records| - 1] in records;
      BatchEmpty(active, change, records[..|records| - 1], segmentID);
    }
  }

  /** One more entry of a batch: what it does to the fields, and what it gives back to the reserve. */
  lemma BatchStep(c: Codec, cfg: Config, x: Live, batch: seq<StateEntry>, j: nat)
    requires Safe(c, cfg, x) && Distinct(batch) && (forall e :: e in batch ==> Due(x, e)) && j < |batch|
    ensures var y, e := MarkAll(c, x, batch[..j]), batch[j];
            && e.id in y.m.active && e.id in x.m.active && y.m.active[e.id] == x.m.active[e.id]
            && y.m.active[e.id].segmentID in y.m.segments && y.m.segments[y.m.active[e.id].segmentID].activeRecords > 0
            && MarkAll(c, x, batch[..j + 1]).m == AfterEntry(y.m, e)
  {
    hide Marked, MarkQueue, FitsU32, WithState, FitsU64;
    hide Safe, AfterEntry, MarkOne;
    var init, e := batch[..j], batch[j];
    assert batch[..j + 1][..j] == init && batch[j] in batch;
    assert forall other :: other in init ==> other in batch;
    MarkAllSafe(c, cfg, x, init);
    assert e.id !in EntryIds(init);
    MarkOneSafe(c, cfg, MarkAll(c, x, init), e);
    ActiveCounted(c, cfg, MarkAll(c, x, init), e.id);
  }

  const MAX_ATTEMPTS: nat := 99_999

  /** Whether some record of a call would go beyond the number of attempts that the source supports. */
  ghost predicate Exceeds(active: map<nat, Metadata>, change: Change, records: seq<nat>) {
    change.increment && exists id :: id in records && id in active && active[id].attempts + 1 > MAX_ATTEMPTS
  }

  lemma AllDue(c: Codec, cfg: Config, x: Live, change: Change, records: seq<nat>)
    requires Safe(c, cfg, x) && !Exceeds(x.m.active, change, records)
    ensures forall id :: id in records && id in x.m.active ==> Due(x, EntryFor(change, id, x.m.active[id]))
  {
    hide Safe;
    forall id | id in records && id in x.m.active ensures Due(x, EntryFor(change, id, x.m.active[id])) {
      ActiveCounted(c, cfg, x, id);
    }
  }

  /** The checkpoint file of a batch takes its entries. */
  lemma BatchAppended(c: Codec, cfg: Config, x: Live, change: Change, records: seq<nat>, order: seq<nat>, k: nat)
    requires Safe(c, cfg, x) && AllDifferent(records) && AllDifferent(order) && k < |order|
    requires !Exceeds(x.m.active, change, records) && Batch(x.m.active, change, records, order[k]) != []
    ensures var y := MarkAll(c, x, Plan(x.m.active, change, records, order[..k]));
            var batch := Batch(x.m.active, change, records, order[k]);
            && Safe(c, cfg, y) && Distinct(batch) && order[k] in y.disk.states && order[k] in y.m.segments
            && (forall e :: e in batch ==> Pending(x.m.active, y, change, order[k], e))
            && MarkAll(c, x, Plan(x.m.active, change, records, order[..k + 1])) == MarkAll(c, y, batch)
            && MarkAll(c, y, batch).disk == WithState(y.disk, order[k], EntriesBytes(c, batch))
  {
    hide Safe, MarkAll, Batch, Plan;
    AllDue(c, cfg, x, change, records);
    PlanStep(c, cfg, x, change, records, order, k);
    var y := MarkAll(c, x, Plan(x.m.active, change, records, order[..k]));
    var batch := Batch(x.m.active, change, records, order[k]);
    assert batch[0] in batch;
    ActiveCounted(c, cfg, y, batch[0].id);
    BatchDisk(c, cfg, y, batch, order[k]);
  }

  lemma IncreasingDiffer(s: seq<nat>)
    requires Sorting.Increasing(s)
    ensures AllDifferent(s)
  {}

  /** What a whole call comes to. */
  lemma CallDone(c: Codec, cfg: Config, x: Live, change: Change, records: seq<nat>, order: seq<nat>, bySegment: map<nat, seq<StateEntry>>)
    requires Safe(c, cfg, x) && AllDifferent(records) && !Exceeds(x.m.active, change, records)
    requires Grouped(x.m.active, change, records, bySegment) && order == Sorting.Sort(bySegment.Keys)
    ensures var y := MarkAll(c, x, Plan(x.m.active, change, records, order));
            Safe(c, cfg, y) && Changed(x.q, change, records, y.q)
  {
    hide Safe, MarkAll, Batch, Plan, Has;
    AllDue(c, cfg, x, change, records);
    IncreasingDiffer(order);
    var plan := Plan(x.m.active, change, records, order);
    PlanIs(x.m.active, change, records, order);
    MarkAllSafe(c, cfg, x, plan);
    MarkAllQueue(c, cfg, x, plan);
    SameAttempts(c, cfg, x);
    PlanChanges(x.m.active, change, records, order, x.q, MarkAll(c, x, plan).q);
  }

  lemma SameAttempts(c: Codec, cfg: Config, x: Live)
    requires Safe(c, cfg, x)
    ensures x.m.active.Keys == x.q.Keys && forall id :: id in x.m.active ==> x.m.active[id].attempts == x.q[id].attempts
  {
    hide Sound, Locates, Printable;
    forall id | id in x.m.active ensures x.m.active[id].attempts == x.q[id].attempts {
      assert Has(c, cfg.segmentBytes, x.disk.data, x.m.active[id], id, x.q[id]);
    }
  }

  /** A retry of a record below its last attempt. */
  ghost predicate RetriesLeft(max: nat, active: map<nat, Metadata>, change: Change, records: seq<nat>) {
    change.kind == Retry ==> change.increment && forall id :: id in records && id in active ==> active[id].attempts + 1 < max
  }

  /** A call within the attempt limit writes no more than it releases. */
  lemma CallBudget(c: Codec, cfg: Config, x: Live, change: Change, records: seq<nat>, order: seq<nat>)
    requires Safe(c, cfg, x) && AllDifferent(records) && AllDifferent(order) && !Exceeds(x.m.active, change, records)
    requires RetriesLeft(cfg.maxRecordAttempts, x.m.active, change, records)
    ensures var m := MarkAll(c, x, Plan(x.m.active, change, records, order)).m; var max := cfg.maxRecordAttempts;
            m.used + Reserve(max, m.active) <= x.m.used + Reserve(max, x.m.active)
  {
    hide Safe, MarkAll, Plan, Reserve;
    AllDue(c, cfg, x, change, records);
    PlanIs(x.m.active, change, records, order);
    MarkAllBudget(c, cfg, x, Plan(x.m.active, change, records, order));
  }

  /** A shorter search index that still covers the active records serves as well. */
  lemma ShorterIndex(c: Codec, cfg: Config, x: Live, ids: seq<nat>)
    requires Safe(c, cfg, x) && Sorted(ids) && Elements(ids) <= Elements(x.m.ids) && x.m.active.Keys <= Elements(ids)
    ensures Safe(c, cfg, x.(m := x.m.(ids := ids)))
  {
    hide Exact, Carries, LogSound, Infos, ActiveOf, QuarantinedOf, UsedBy;
    assert forall id :: id in ids ==> id in Elements(ids);
  }

  function Filtered<V>(active: map<nat, V>, ids: seq<nat>): seq<nat> {
    if ids == [] then []
    else Filtered(active, ids[..|ids| - 1]) + (if ids[|ids| - 1] in active then [ids[|ids| - 1]] else [])
  }

  lemma {:induction false} FilteredIs<V>(active: map<nat, V>, ids: seq<nat>)
    requires Sorted(ids)
    ensures Sorted(Filtered(active, ids)) && Elements(Filtered(active, ids)) == Elements(ids) * active.Keys
  {
    if ids == [] {
    } else {
      hide Sorted, Elements;
      var kept, last := Filtered(active, ids[..|ids| - 1]), ids[|ids| - 1];
      SortedLast(ids);
      FilteredIs(active, ids[..|ids| - 1]);
      AppendLarger(kept, last);
      assert kept + [] == kept;
    }
  }

  lemma SortedLast(ids: seq<nat>)
    requires Sorted(ids) && ids != []
    ensures var init, last := ids[..|ids| - 1], ids[|ids| - 1];
            Sorted(init) && (forall id :: id in Elements(init) ==> id < last) && Elements(ids) == Elements(init) + {last}
  {
    var init, last := ids[..|ids| - 1], ids[|ids| - 1];
    assert ids == init + [last] && last in [last];
    SortedParts(init, [last]);
    AppendLarger(init, last);
  }

  lemma AppendLarger(kept: seq<nat>, last: nat)
    requires Sorted(kept) && forall id: nat :: id in Elements(kept) ==> id < last
    ensures Sorted(kept + [last]) && Elements(kept + [last]) == Elements(kept) + {last}
  {
    forall k | 0 <= k < |kept| ensures kept[k] < last { assert kept[k] in Elements(kept); }
    ElementsAppend(kept, [last]);
    assert Elements([last]) == {last};
  }

  /** `sort.Search` for the first ID above the cursor. */
  method Search(ids: seq<nat>, after: nat) returns (index: nat)
    requires Sorted(ids)
    ensures index <= |ids| && (forall k :: 0 <= k < index ==> ids[k] <= after) && forall k :: index <= k < |ids| ==> ids[k] > after
  {
    var lo, hi := 0, |ids|;
    while lo < hi
      invariant 0 <= lo <= hi <= |ids|
      invariant forall k :: 0 <= k < lo ==> ids[k] <= after
      invariant forall k :: hi <= k < |ids| ==> ids[k] > after
    {
      var mid := (lo + hi) / 2;
      if ids[mid] > after { hi := mid; } else { lo := mid + 1; }
    }
    index := lo;
  }

  /** The first ID above a cursor that is still active, among sorted IDs. */
  lemma LeastAbove(c: Codec, cfg: Config, x: Live, after: nat, start: nat, found: nat)
    requires Safe(c, cfg, x) && start <= found <= |x.m.ids|
    requires forall k :: 0 <= k < start ==> x.m.ids[k] <= after
    requires forall k :: start <= k < found ==> x.m.ids[k] !in x.m.active
    ensures forall id :: id in x.q && id > after ==> found < |x.m.ids| && id >= x.m.ids[found]
  {
    hide Exact, LogSound, Mirrors, Has;
    forall id | id in x.q && id > after ensures found < |x.m.ids| && id >= x.m.ids[found] {
      assert id in Elements(x.m.ids);
      var k :| 0 <= k < |x.m.ids| && x.m.ids[k] == id;
      assert k >= found;
    }
  }

  lemma IndexSorted(c: Codec, cfg: Config, x: Live)
    requires Safe(c, cfg, x)
    ensures Sorted(x.m.ids) && x.m.active.Keys <= Elements(x.m.ids)
  {
    hide Exact, Carries, LogSound, Mirrors;
  }

  lemma RetriesBelow(max: nat, x: Live, y: Live, change: Change, records: seq<nat>, segmentID: nat)
    requires AllDifferent(records)
    requires forall e :: e in Batch(x.m.active, change, records, segmentID) ==> Pending(x.m.active, y, change, segmentID, e)
    ensures RetriesLeft(max, x.m.active, change, records) ==>
              BelowLimit(max, y.m.active, Batch(x.m.active, change, records, segmentID))
  {
    hide Batch;
    BatchIs(x.m.active, change, records, segmentID);
  }

  /** The fields that settling changes, while `left` entries of the batch already counted in bytes are still to be settled. */
  ghost predicate Settling(m: Memory, y: Memory, segmentID: nat, left: nat) {
    && segmentID in y.segments
    && m == y.(segments := y.segments[segmentID := y.segments[segmentID].(stateSize := y.segments[segmentID].stateSize + STATE_ENTRY * left)],
               used := y.used + STATE_ENTRY * left)
  }

  lemma NothingChanged(c: Codec, cfg: Config, x: Live, change: Change)
    ensures Changed(x.q, change, [], x.q)
  {}

  lemma NoneMarked(c: Codec, x: Live)
    ensures MarkAll(c, x, []) == x
  {}

  lemma SettledAll(m: Memory, y: Memory, segmentID: nat)
    requires Settling(m, y, segmentID, 0)
    ensures m == y
  {
    assert y.segments[segmentID := y.segments[segmentID]] == y.segments;
  }

  lemma SettlingStep(m: Memory, y: Memory, m': Memory, segmentID: nat, left: nat, e: StateEntry)
    requires Settling(m, y, segmentID, left) && left >= 1
    requires e.id in y.active && y.active[e.id].segmentID == segmentID && y.segments[segmentID].activeRecords > 0
    requires m' == m.(active := Marked(m.active, e),
                      segments := m.segments[segmentID := Noted(m.segments[segmentID], e).(stateSize := m.segments[segmentID].stateSize)],
                      quarantined := m.quarantined + (if e.kind == Quarantine then 1 else 0))
    ensures Settling(m', AfterEntry(y, e), segmentID, left - 1)
  {}
}
