/**
 * The store that keeps one file per record, as a second implementation of the storage contract: its operations change
 * the queue as those of the write-ahead log do, and its directory alone determines the queue again.
 */
module LegacyStore {
  import Maps
  import Sorting
  import opened Bytes
  import opened Telemetry
  import opened WalFormat
  import opened WalLog
  import opened WalQueue
  import opened WalMarks
  import opened WalCalls
  import opened StoreFormat

  datatype Held = Held(filename: string, attempts: nat, size: nat)

  type Active = map<nat, Held>
  type Files = map<string, seq<byte>>

  /** The files of active records bear their names. */
  ghost predicate Indexed(active: Active, files: Files) {
    forall id :: id in active ==> active[id].filename in files && ParseName(active[id].filename) == Some((id, active[id].attempts))
  }

  /** No other file looks like one of a record. */
  ghost predicate Complete(active: Active, files: Files) {
    forall name :: name in files && ParseName(name).Some? ==>
      ParseName(name).value.0 in active && active[ParseName(name).value.0].filename == name
  }

  /** The queue that the index and the files stand for: the records that read back. */
  ghost function QueueOf(c: Codec, active: Active, files: Files): Queue {
    map id | id in active && active[id].filename in files && ReadFile(c, files[active[id].filename], id).Some?
      :: Delivery(ReadFile(c, files[active[id].filename], id).value, active[id].attempts)
  }

  /** What a file is worth on its own: the record that it holds, if its name and its content agree. */
  function Content(c: Codec, files: Files, name: string): Option<Delivery> {
    if name !in files || ParseName(name).None? then None
    else
      match ReadFile(c, files[name], ParseName(name).value.0)
      case None => None
      case Some(record) => Some(Delivery(record, ParseName(name).value.1))
  }

  ghost predicate FileOf(c: Codec, files: Files, id: nat, d: Delivery, name: string) {
    Content(c, files, name) == Some(d) && ParseName(name).value.0 == id
  }

  /** A directory holds a queue: every delivery has its file, and every file that holds a record is one of these. */
  ghost predicate Stores(c: Codec, files: Files, q: Queue) {
    && (forall name :: Content(c, files, name).Some? ==>
          ParseName(name).value.0 in q && q[ParseName(name).value.0] == Content(c, files, name).value)
    && (forall id :: id in q ==> exists name :: FileOf(c, files, id, q[id], name))
  }

  lemma DirectoryHolds(c: Codec, active: Active, files: Files)
    requires Indexed(active, files) && Complete(active, files)
    ensures Stores(c, files, QueueOf(c, active, files))
  {
    hide ParseName, ReadFile;
    var q := QueueOf(c, active, files);
    forall id | id in q ensures FileOf(c, files, id, q[id], active[id].filename) {}
  }

  /** Files of any other name, such as temporary ones, change nothing. */
  lemma OthersIgnored(c: Codec, files: Files, q: Queue, others: Files)
    requires Stores(c, files, q) && forall name :: name in others ==> ParseName(name).None?
    ensures Stores(c, files + others, q)
  {
    hide ParseName, ReadFile;
    forall name ensures Content(c, files + others, name) == Content(c, files, name) {}
    forall id | id in q ensures exists name :: FileOf(c, files + others, id, q[id], name) {
      var name :| FileOf(c, files, id, q[id], name);
      assert FileOf(c, files + others, id, q[id], name);
    }
  }

  // --- One file appears, goes, or is renamed.

  lemma FileAdded(c: Codec, active: Active, files: Files, record: DiskRecord, size: nat)
    requires Indexed(active, files) && Complete(active, files) && record.id !in active && FitsU64(record.id)
    requires c.Lawful() && Storable(c, record)
    ensures var name := ActiveName(record.id, 0);
            var more, files' := active[record.id := Held(name, 0, size)], files[name := RecordFile(c, c.marshal(record).value)];
            && Indexed(more, files') && Complete(more, files') && name !in files
            && QueueOf(c, more, files') == QueueOf(c, active, files)[record.id := Delivery(record, 0)]
  {
    hide ParseName, ReadFile, RecordFile, ActiveName;
    NameRoundTrip(record.id, 0);
    FileRoundTrip(c, record, record.id);
  }

  lemma FileGone(c: Codec, active: Active, files: Files, id: nat)
    requires Indexed(active, files) && Complete(active, files) && id in active
    ensures var rest, files' := active - {id}, files - {active[id].filename};
            Indexed(rest, files') && Complete(rest, files') && QueueOf(c, rest, files') == QueueOf(c, active, files) - {id}
  {
    hide ParseName, ReadFile;
  }

  function Renamed(active: Active, id: nat): Active
    requires id in active
  {
    active[id := active[id].(filename := ActiveName(id, active[id].attempts + 1), attempts := active[id].attempts + 1)]
  }

  function Moved(files: Files, from: string, to: string): Files
    requires from in files
  {
    (files - {from})[to := files[from]]
  }

  lemma NextName(active: Active, files: Files, id: nat)
    requires Indexed(active, files) && Complete(active, files) && id in active && active[id].attempts < ATTEMPTS_IN_NAME
    ensures var name := ActiveName(id, active[id].attempts + 1);
            name !in files && ParseName(name) == Some((id, active[id].attempts + 1))
  {
    NameParsed(active[id].filename);
    hide ParseName, ActiveName;
    NameRoundTrip(id, active[id].attempts + 1);
  }

  lemma FileRenamed(c: Codec, active: Active, files: Files, id: nat)
    requires Indexed(active, files) && Complete(active, files) && id in active && active[id].attempts < ATTEMPTS_IN_NAME
    ensures active[id].filename in files
    ensures var more, files' := Renamed(active, id), Moved(files, active[id].filename, ActiveName(id, active[id].attempts + 1));
            && Indexed(more, files') && Complete(more, files')
            && QueueOf(c, more, files') == Retried(QueueOf(c, active, files), id)
  {
    hide ParseName, ReadFile, ActiveName, Retried, QueueOf;
    NextName(active, files, id);
    RenamedQueue(c, active, files, id);
  }

  lemma RenamedQueue(c: Codec, active: Active, files: Files, id: nat)
    requires Indexed(active, files) && id in active && ActiveName(id, active[id].attempts + 1) !in files
    ensures var files' := Moved(files, active[id].filename, ActiveName(id, active[id].attempts + 1));
            QueueOf(c, Renamed(active, id), files') == Retried(QueueOf(c, active, files), id)
  {
    hide ParseName, ReadFile, ActiveName;
    var name := ActiveName(id, active[id].attempts + 1);
    var more, files' := Renamed(active, id), Moved(files, active[id].filename, name);
    var q, q' := QueueOf(c, active, files), QueueOf(c, more, files');
    assert files'[name] == files[active[id].filename];
    forall other | other in active && other != id
      ensures more[other] == active[other] && active[other].filename in files' && files'[active[other].filename] == files[active[other].filename]
    {}
    assert q'.Keys == Retried(q, id).Keys;
  }

  lemma NameParsed(name: string)
    requires ParseName(name).Some?
    ensures ParseName(name).value.0 > 0 && FitsU64(ParseName(name).value.0)
  {}

  function Retried(q: Queue, id: nat): Queue {
    if id in q then q[id := q[id].(attempts := q[id].attempts + 1)] else q
  }

  /** One more record of a call: what happens to it is what the call does to each. */
  lemma ChangedNext(q: Queue, change: Change, ids: seq<nat>, k: nat, now: Queue, next: Queue)
    requires AllDifferent(ids) && k < |ids| && Changed(q, change, ids[..k], now)
    requires change.kind == Retry <==> change.increment
    requires next == if change.kind == Retry then Retried(now, ids[k]) else now - {ids[k]}
    ensures Changed(q, change, ids[..k + 1], next)
  {
    assert ids[..k + 1] == ids[..k] + [ids[k]];
    assert ids[k] !in ids[..k];
  }

  lemma ChangedNothing(q: Queue, change: Change)
    ensures Changed(q, change, [], q)
  {}

  // --- Bytes in use.

  ghost function Allocated(active: Active): nat {
    if active == map[] then 0
    else
      var id :| id in active;
      active[id].size + Allocated(active - {id})
  }

  lemma {:induction false} AllocatedWithout(active: Active, id: nat)
    requires id in active
    ensures Allocated(active) == active[id].size + Allocated(active - {id})
    decreases |active|
  {
    var first :| first in active && Allocated(active) == active[first].size + Allocated(active - {first});
    if first != id {
      Maps.RemoveSize(active, first);
      Maps.RemoveSize(active, id);
      AllocatedWithout(active - {first}, id);
      AllocatedWithout(active - {id}, first);
      assert active - {first} - {id} == active - {id} - {first};
    }
  }

  lemma AllocatedWith(active: Active, id: nat, at: Held)
    ensures Allocated(active[id := at]) + (if id in active then active[id].size else 0) == Allocated(active) + at.size
  {
    AllocatedWithout(active[id := at], id);
    assert active[id := at] - {id} == active - {id};
    if id in active { AllocatedWithout(active, id); } else { assert active - {id} == active; }
  }

  // --- Reading a directory.

  /** The index after the first `k` files of a directory have been looked at; `files` is what is left of it. */
  ghost predicate Reading(c: Codec, active: Active, files: Files, start: Files, listing: seq<string>, k: nat)
    requires k <= |listing|
  {
    && Indexed(active, files)
    && (forall id :: id in active ==> Content(c, files, active[id].filename).Some? && active[id].filename in listing[..k])
    && (forall name :: name in files ==> name in start && files[name] == start[name])
    && (forall name :: name in start && name !in listing[..k] ==> name in files)
    && (forall name :: name in listing[..k] && name in files && ParseName(name).Some? ==>
          ParseName(name).value.0 in active && active[ParseName(name).value.0].filename == name)
    && (forall name :: name in listing[..k] && Content(c, start, name).Some? ==> ParseName(name).value.0 in active)
  }

  lemma StartReading(c: Codec, start: Files, listing: seq<string>)
    ensures Reading(c, map[], start, start, listing, 0)
  {
    hide ParseName, ReadFile;
    assert listing[..0] == [];
  }

  /** A file that holds no record, or another one of a record already found, is put away. */
  lemma ReadAway(c: Codec, active: Active, files: Files, start: Files, listing: seq<string>, k: nat)
    requires k < |listing| && Reading(c, active, files, start, listing, k) && listing[k] !in listing[..k] && listing[k] in start
    requires Content(c, files, listing[k]).None? || ParseName(listing[k]).value.0 in active
    ensures Reading(c, active, files - {listing[k]}, start, listing, k + 1)
  {
    hide ParseName, ReadFile;
    var name := listing[k];
    assert listing[..k + 1] == listing[..k] + [name];
    assert name in files && Content(c, files, name) == Content(c, start, name);
    forall other | other != name ensures Content(c, files - {name}, other) == Content(c, files, other) {}
  }

  /** A file that holds a record joins the index. */
  lemma ReadIn(c: Codec, active: Active, files: Files, start: Files, listing: seq<string>, k: nat, at: Held)
    requires k < |listing| && Reading(c, active, files, start, listing, k) && listing[k] !in listing[..k] && listing[k] in start
    requires Content(c, files, listing[k]).Some? && ParseName(listing[k]).value.0 !in active
    requires at.filename == listing[k] && at.attempts == ParseName(listing[k]).value.1
    ensures Reading(c, active[ParseName(listing[k]).value.0 := at], files, start, listing, k + 1)
  {
    hide ParseName, ReadFile;
    assert listing[..k + 1] == listing[..k] + [listing[k]];
  }

  lemma DoneReading(c: Codec, active: Active, files: Files, start: Files, listing: seq<string>)
    requires Reading(c, active, files, start, listing, |listing|) && forall name :: name in listing <==> name in start
    ensures Indexed(active, files) && Complete(active, files) && forall id :: id in active ==> id in QueueOf(c, active, files)
  {
    hide ParseName, ReadFile;
    assert listing[..|listing|] == listing;
  }

  /** If the directory held a queue, the index and what is left of the directory stand for it. */
  lemma HeldBack(c: Codec, active: Active, files: Files, start: Files, listing: seq<string>, q: Queue)
    requires Reading(c, active, files, start, listing, |listing|) && (forall name :: name in listing <==> name in start)
    requires Stores(c, start, q)
    ensures QueueOf(c, active, files) == q
  {
    hide ParseName, ReadFile;
    assert listing[..|listing|] == listing;
    forall id | id in active ensures id in q && id in QueueOf(c, active, files) && QueueOf(c, active, files)[id] == q[id] {
      var name := active[id].filename;
      assert Content(c, start, name) == Content(c, files, name);
    }
    forall id | id in q ensures id in active {
      var name :| FileOf(c, start, id, q[id], name);
      assert name in start;
    }
  }

  datatype StoreError = CannotEncode | StoreFull | FileFailed | TooManyRetries | Unsynced

  /** Where an append is interrupted by the file system. */
  datatype AppendFault = NoFault | BeforeRename | AfterRename

  datatype NextStored = NoneAbove | Got(record: DiskRecord, attempts: nat) | Corrupt(id: nat) | Failing

  datatype ReadFault = Readable | ReadFails | MoveFails

  const ACK := Change(Ack, 0, false)
  const RETRY := Change(Retry, 0, true)
  const QUARANTINE := Change(StateKind.Quarantine, 0, false)

  class Store {
    const codec: Codec
    const maxBytes: nat
    var nextID: nat
    var usedBytes: nat
    var active: Active
    var ids: seq<nat>
    var quarantined: nat
    var files: Files
    var dead: Files
    ghost var deadBytes: nat

    /** The object before recovery. */
    constructor (codec: Codec, maxBytes: nat, files: Files, dead: Files)
      ensures this.codec == codec && this.maxBytes == maxBytes && this.files == files && this.dead == dead && Blank()
    {
      this.codec, this.maxBytes, this.files, this.dead := codec, maxBytes, files, dead;
      nextID, usedBytes, active, ids, quarantined, deadBytes := 1, 0, map[], [], 0, 0;
    }

    ghost predicate Blank()
      reads this
    {
      nextID == 1 && usedBytes == 0 && active == map[] && ids == [] && quarantined == 0 && deadBytes == 0
    }

    ghost predicate Valid()
      reads this
    {
      && Indexed(active, files) && Complete(active, files) && nextID > 0
      && Sorted(ids) && active.Keys <= Elements(ids) && (forall k :: 0 <= k < |ids| ==> ids[k] < nextID)
      && usedBytes == Allocated(active) + deadBytes
    }

    ghost function Queued(): Queue
      reads this
    {
      QueueOf(codec, active, files)
    }

    method Append(envelope: Envelope, now: int, size: nat, fault: AppendFault) returns (r: Result<DiskRecord, StoreError>)
      requires Valid() && codec.Lawful() && FitsU64(nextID)
      requires var record := DiskRecord(nextID, now, envelope); codec.marshal(record).Some? ==> Storable(codec, record)
      modifies `nextID, `usedBytes, `active, `ids, `files
      ensures Valid() && nextID == old(nextID) + 1
      ensures r == Err(CannotEncode) <==> codec.marshal(DiskRecord(old(nextID), now, envelope)) == None
      ensures r == Err(StoreFull) <==>
        codec.marshal(DiskRecord(old(nextID), now, envelope)).Some? && fault != BeforeRename && old(usedBytes) + size > maxBytes
      ensures r.Ok? ==> r.value == DiskRecord(old(nextID), now, envelope)
      ensures r.Ok? || r == Err(Unsynced) ==>
        && Queued() == old(Queued())[old(nextID) := Delivery(DiskRecord(old(nextID), now, envelope), 0)]
        && usedBytes == old(usedBytes) + size <= maxBytes
      ensures r.Err? && r.error != Unsynced ==> files == old(files) && active == old(active) && usedBytes == old(usedBytes)
    {
      hide QueueOf, Indexed, Complete, ActiveName, RecordFile, Allocated;
      var id := nextID;
      nextID := nextID + 1;
      var record := DiskRecord(id, now, envelope);
      var payload := codec.marshal(record);
      if payload.None? { return Err(CannotEncode); }
      if fault == BeforeRename { return Err(FileFailed); }
      if usedBytes + size > maxBytes { return Err(StoreFull); }
      assert id !in active by { assert forall k :: 0 <= k < |ids| ==> ids[k] != id; }
      FileAdded(codec, active, files, record, size);
      AllocatedWith(active, id, Held(ActiveName(id, 0), 0, size));
      var filename := ActiveName(id, 0);
      files := files[filename := RecordFile(codec, payload.value)];
      active := active[id := Held(filename, 0, size)];
      ids := ids + [id];
      usedBytes := usedBytes + size;
      if fault == AfterRename { return Err(Unsynced); }
      r := Ok(record);
    }

    /** `compactIndex`. */
    method CompactIndex()
      requires Valid()
      modifies `ids
      ensures Valid()
      ensures if old(|ids|) < 1024 || old(|ids|) <= |active| * 2 then ids == old(ids) else Elements(ids) == active.Keys
    {
      hide Indexed, Complete;
      if |ids| < 1024 || |ids| <= |active| * 2 { return; }
      var kept: seq<nat> := [];
      for i := 0 to |ids|
        invariant kept == Filtered(active, ids[..i])
      {
        assert ids[..i + 1][..i] == ids[..i];
        if ids[i] in active { kept := kept + [ids[i]]; }
      }
      assert ids[..|ids|] == ids;
      FilteredIs(active, ids);
      assert forall k :: 0 <= k < |kept| ==> kept[k] in Elements(kept);
      ids := kept;
    }

    /** `quarantineLocked` for an active record; the move may fail. */
    method Bury(id: nat, reason: string)
      requires Valid() && id in active
      modifies `active, `files, `dead, `quarantined, `deadBytes
      ensures Valid() && active == old(active) - {id} && quarantined == old(quarantined) + 1
      ensures Queued() == old(Queued()) - {id} && files == old(files) - {old(active)[id].filename}
    {
      hide QueueOf, Complete, Allocated;
      FileGone(codec, active, files, id);
      AllocatedWithout(active, id);
      var at := active[id];
      dead := dead[at.filename + "." + reason + ".dead" := files[at.filename]];
      files := files - {at.filename};
      quarantined := quarantined + 1;
      active := active - {id};
      deadBytes := deadBytes + at.size;
    }

    /** What `NextAfter` does with the first active record it meets. */
    method LookAt(id: nat, fault: ReadFault) returns (next: NextStored)
      requires Valid() && id in active
      modifies `active, `files, `dead, `quarantined, `deadBytes, `ids
      ensures Valid() && Queued() == old(Queued())
      ensures next == Failing || next.Corrupt? || next.Got?
      ensures !next.Corrupt? ==> active == old(active) && files == old(files)
      ensures next.Got? ==>
        next.record.id == id && id in Queued() && Queued()[id] == Delivery(next.record, next.attempts)
      ensures next.Corrupt? ==> next.id == id && id !in old(Queued()) && active == old(active) - {id}
    {
      hide ReadFile, Allocated, ParseName, Complete;
      if fault == ReadFails { return Failing; }
      var record := ReadFile(codec, files[active[id].filename], id);
      if record.Some? {
        ReadIs(codec, files[active[id].filename], id);
        return Got(record.value, active[id].attempts);
      }
      if fault == MoveFails { return Failing; }
      assert id !in Queued() && Queued() - {id} == Queued();
      Bury(id, "corrupt");
      CompactIndex();
      next := Corrupt(id);
    }

    /** The delivery with the least ID above the cursor; a damaged file on the way is set aside and reported. */
    method NextAfter(after: nat, fault: ReadFault) returns (next: NextStored)
      requires Valid()
      modifies `active, `files, `dead, `quarantined, `deadBytes, `ids
      ensures Valid() && Queued() == old(Queued())
      ensures !next.Corrupt? ==> active == old(active) && files == old(files)
      ensures next == NoneAbove ==> forall id :: id in active ==> id <= after
      ensures next.Got? ==>
        && next.record.id in Queued() && next.record.id > after && Queued()[next.record.id] == Delivery(next.record, next.attempts)
        && forall id :: id in active && id > after ==> id >= next.record.id
      ensures next.Corrupt? ==>
        && next.id in old(active) && next.id > after && next.id !in old(Queued()) && active == old(active) - {next.id}
        && forall id :: id in active && id > after ==> id > next.id
    {
      hide QueueOf, Indexed, Complete, Allocated;
      var start := Search(ids, after);
      var index := start;
      while index < |ids|
        invariant start <= index <= |ids|
        invariant forall k :: start <= k < index ==> ids[k] !in active
      {
        if ids[index] in active {
          FirstAbove(active, ids, after, start, index);
          next := LookAt(ids[index], fault);
          return;
        }
        index := index + 1;
      }
      FirstAbove(active, ids, after, start, index);
      next := NoneAbove;
    }

    /** The file of an acknowledged record goes. */
    method Remove(id: nat)
      requires Valid() && id in active
      modifies `active, `files, `usedBytes
      ensures Valid() && Queued() == old(Queued()) - {id} && active == old(active) - {id}
    {
      hide QueueOf, Complete, Allocated;
      FileGone(codec, active, files, id);
      AllocatedWithout(active, id);
      var at := active[id];
      files := files - {at.filename};
      active := active - {id};
      usedBytes := usedBytes - at.size;
    }

    /** `Ack`; `broken` are the records whose file cannot be removed. */
    method Acknowledge(records: seq<nat>, broken: set<nat>) returns (ok: bool, ghost handled: nat)
      requires Valid() && AllDifferent(records)
      modifies `active, `files, `usedBytes, `ids
      ensures Valid() && handled <= |records| && Changed(old(Queued()), ACK, records[..handled], Queued())
      ensures if ok then handled == |records| else handled < |records| && records[handled] in broken
    {
      hide QueueOf, Indexed, Complete, Allocated, Changed;
      ghost var q := Queued();
      ChangedNothing(q, ACK);
      handled := 0;
      for i := 0 to |records|
        invariant Valid() && handled == i && Changed(q, ACK, records[..i], Queued())
      {
        ChangedNext(q, ACK, records, i, Queued(), Queued() - {records[i]});
        if records[i] in active {
          if records[i] in broken { return false, i; }
          Remove(records[i]);
        } else {
          NotQueued(codec, active, files, records[i]);
        }
        handled := i + 1;
      }
      assert records[..|records|] == records;
      CompactIndex();
      ok := true;
    }

    /** `MarkRetry`: each file takes the next attempt count into its name, until one cannot. */
    method MarkRetry(records: seq<nat>, broken: set<nat>) returns (error: Option<StoreError>, ghost handled: nat)
      requires Valid() && AllDifferent(records)
      modifies `active, `files
      ensures Valid() && handled <= |records| && Changed(old(Queued()), RETRY, records[..handled], Queued())
      ensures error == None ==> handled == |records|
      ensures error.Some? ==>
        && handled < |records| && records[handled] in active
        && (error == Some(TooManyRetries) <==> active[records[handled]].attempts >= ATTEMPTS_IN_NAME)
        && (error == Some(TooManyRetries) || (error == Some(FileFailed) && records[handled] in broken))
    {
      hide QueueOf, Indexed, Complete, Allocated, Changed, ActiveName, Retried;
      ghost var q := Queued();
      ChangedNothing(q, RETRY);
      handled := 0;
      for i := 0 to |records|
        invariant Valid() && handled == i && Changed(q, RETRY, records[..i], Queued())
      {
        var id := records[i];
        ChangedNext(q, RETRY, records, i, Queued(), Retried(Queued(), id));
        if id in active {
          var at := active[id];
          var nextAttempts := at.attempts + 1;
          if nextAttempts > 99_999 { return Some(TooManyRetries), i; }
          if id in broken { return Some(FileFailed), i; }
          FileRenamed(codec, active, files, id);
          var nextFilename := ActiveName(id, nextAttempts);
          AllocatedWith(active, id, at.(filename := nextFilename, attempts := nextAttempts));
          files := (files - {at.filename})[nextFilename := files[at.filename]];
          active := active[id := at.(filename := nextFilename, attempts := nextAttempts)];
        } else {
          NotRetried(codec, active, files, id);
        }
        handled := i + 1;
      }
      assert records[..|records|] == records;
      error := None;
    }

    /** `Quarantine`; `broken` are the records whose file cannot be moved. */
    method Quarantine(records: seq<nat>, reason: string, broken: set<nat>) returns (ok: bool, ghost handled: nat)
      requires Valid() && AllDifferent(records)
      modifies `active, `files, `dead, `quarantined, `deadBytes, `ids
      ensures Valid() && handled <= |records| && Changed(old(Queued()), QUARANTINE, records[..handled], Queued())
      ensures if ok then handled == |records| else handled < |records| && records[handled] in broken
    {
      hide QueueOf, Indexed, Complete, Allocated, Changed;
      ghost var q := Queued();
      ChangedNothing(q, QUARANTINE);
      handled := 0;
      for i := 0 to |records|
        invariant Valid() && handled == i && Changed(q, QUARANTINE, records[..i], Queued())
      {
        ChangedNext(q, QUARANTINE, records, i, Queued(), Queued() - {records[i]});
        if records[i] in active {
          if records[i] in broken { return false, i; }
          Bury(records[i], reason);
        } else {
          NotQueued(codec, active, files, records[i]);
        }
        handled := i + 1;
      }
      assert records[..|records|] == records;
      CompactIndex();
      ok := true;
    }

    // --- Recovery.

    /** The files of the quarantine directory: their size counts, and their IDs are not given out again. */
    method CountDead(listing: seq<string>, sizes: string -> nat)
      requires nextID > 0
      modifies `usedBytes, `quarantined, `nextID, `deadBytes
      ensures usedBytes - old(usedBytes) == deadBytes - old(deadBytes) >= 0
      ensures quarantined == old(quarantined) + |listing| && nextID >= old(nextID)
      ensures forall k :: 0 <= k < |listing| ==> nextID >= Bumped(1, listing[k])
    {
      hide Bumped;
      for k := 0 to |listing|
        invariant usedBytes - old(usedBytes) == deadBytes - old(deadBytes) >= 0
        invariant quarantined == old(quarantined) + k && nextID >= old(nextID) > 0
        invariant forall j :: 0 <= j < k ==> nextID >= Bumped(1, listing[j])
      {
        BumpedMore(nextID, listing[k]);
        usedBytes := usedBytes + sizes(listing[k]);
        deadBytes := deadBytes + sizes(listing[k]);
        quarantined := quarantined + 1;
        nextID := Bumped(nextID, listing[k]);
      }
    }

    /** One file of the directory. */
    method ReadEntry(name: string, size: nat, ghost start: Files, ghost listing: seq<string>, ghost k: nat)
      requires k < |listing| && listing[k] == name && name !in listing[..k] && name in start
      requires Reading(codec, active, files, start, listing, k) && Accounted()
      modifies `active, `files, `dead, `usedBytes, `quarantined, `nextID, `deadBytes
      ensures Reading(codec, active, files, start, listing, k + 1) && Accounted() && nextID >= old(nextID)
    {
      hide ParseName, ReadFile, Allocated, Bumped;
      if |name| >= 4 && name[|name| - 4..] == ".tmp" {
        TemporaryIsNone(name);
        ReadAway(codec, active, files, start, listing, k);
        files := files - {name};
        return;
      }
      var parsed := ParseName(name);
      if parsed.Some? {
        BumpedAbove(nextID, name);
        nextID := Bumped(nextID, name);
      }
      var reason := Refused(name, parsed);
      usedBytes := usedBytes + size;
      if reason != "" {
        ReadAway(codec, active, files, start, listing, k);
        SetAside(name, reason, size);
      } else {
        var id, at := parsed.value.0, Held(name, parsed.value.1, size);
        ReadIn(codec, active, files, start, listing, k, at);
        AllocatedWith(active, id, at);
        active := active[id := at];
      }
    }

    /** Why a file of the directory is no active record, if it is not. */
    method Refused(name: string, parsed: Option<(nat, nat)>) returns (reason: string)
      requires parsed == ParseName(name) && name in files
      ensures reason != "" <==> Content(codec, files, name).None? || parsed.value.0 in active
    {
      hide ParseName, ReadFile;
      if parsed.None? { return "corrupt"; }
      if parsed.value.0 in active { return "duplicate-id"; }
      if ReadFile(codec, files[name], parsed.value.0).None? { return "corrupt"; }
      reason := "";
    }

    /** The numbers kept while the directory is read. */
    ghost predicate Accounted()
      reads `active, `nextID, `usedBytes, `deadBytes
    {
      nextID > 0 && usedBytes == Allocated(active) + deadBytes && forall id :: id in active ==> id < nextID
    }

    /** `quarantinePathLocked`. */
    method SetAside(name: string, reason: string, size: nat)
      requires name in files
      modifies `files, `dead, `quarantined, `deadBytes
      ensures files == old(files) - {name} && deadBytes == old(deadBytes) + size && quarantined == old(quarantined) + 1
    {
      dead := dead[name + "." + reason + ".dead" := files[name]];
      files := files - {name};
      quarantined := quarantined + 1;
      deadBytes := deadBytes + size;
    }

    /** `recover`: whatever the directory contains, the store is valid, and holds the queue that the directory held. */
    method Recover(listing: seq<string>, buried: seq<string>, sizes: string -> nat)
      requires Blank() && forall name :: name in listing <==> name in files
      requires forall i, j :: 0 <= i < j < |listing| ==> listing[i] != listing[j]
      modifies this
      ensures Valid()
      ensures forall q :: Stores(codec, old(files), q) ==> Queued() == q
      ensures forall id :: id in active ==> id in Queued()
      ensures forall k :: 0 <= k < |buried| ==> nextID >= Bumped(1, buried[k])
    {
      hide ParseName, Bumped, Reading, QueueOf, Stores, Indexed, Complete, Allocated;
      ghost var start := files;
      assert Allocated(active) == 0 by { NothingAllocated(); }
      CountDead(buried, sizes);
      StartReading(codec, start, listing);
      for k := 0 to |listing|
        invariant Reading(codec, active, files, start, listing, k) && Accounted()
        invariant forall j :: 0 <= j < |buried| ==> nextID >= Bumped(1, buried[j])
      {
        assert forall j :: 0 <= j < k ==> listing[j] != listing[k];
        ReadEntry(listing[k], sizes(listing[k]), start, listing, k);
      }
      ids := Sorting.Sort(active.Keys);
      assert forall k :: 0 <= k < |ids| ==> ids[k] in active;
      DoneReading(codec, active, files, start, listing);
      forall q | Stores(codec, start, q) ensures Queued() == q {
        HeldBack(codec, active, files, start, listing, q);
      }
    }
  }

  /**
   * A restart: whatever call was interrupted, between two changes of the directory or while a temporary file was being
   * written, the new store has the queue of the old one, with every attempt count.
   */
  method Restart(s: Store, leftover: Files, listing: seq<string>, buried: seq<string>, sizes: string -> nat) returns (t: Store)
    requires s.Valid() && forall name :: name in leftover ==> ParseName(name).None?
    requires forall name :: name in listing <==> name in s.files + leftover
    requires forall i, j :: 0 <= i < j < |listing| ==> listing[i] != listing[j]
    ensures fresh(t) && t.Valid() && t.Queued() == s.Queued()
  {
    hide ParseName, Stores, QueueOf, Indexed, Complete;
    t := new Store(s.codec, s.maxBytes, s.files + leftover, s.dead);
    DirectoryHolds(s.codec, s.active, s.files);
    OthersIgnored(s.codec, s.files, s.Queued(), leftover);
    t.Recover(listing, buried, sizes);
  }

  lemma NothingAllocated()
    ensures Allocated(map[]) == 0
  {}

  lemma TemporaryIsNone(name: string)
    requires |name| >= 4 && name[|name| - 4..] == ".tmp"
    ensures ParseName(name).None?
  {
    assert name[|name| - 4..][1] == 't' && SUFFIX[1] == 'w';
  }

  lemma BumpedMore(next: nat, name: string)
    requires next > 0
    ensures Bumped(next, name) >= next && Bumped(next, name) >= Bumped(1, name)
  {}

  lemma NotQueued(c: Codec, active: Active, files: Files, id: nat)
    requires id !in active
    ensures QueueOf(c, active, files) - {id} == QueueOf(c, active, files)
  {}

  lemma NotRetried(c: Codec, active: Active, files: Files, id: nat)
    requires id !in active
    ensures Retried(QueueOf(c, active, files), id) == QueueOf(c, active, files)
  {}

  lemma ReadIs(c: Codec, data: seq<byte>, id: nat)
    requires ReadFile(c, data, id).Some?
    ensures ReadFile(c, data, id).value.id == id
  {}

  lemma FirstAbove(active: Active, ids: seq<nat>, after: nat, start: nat, found: nat)
    requires Sorted(ids) && active.Keys <= Elements(ids) && start <= found <= |ids|
    requires forall k :: 0 <= k < start ==> ids[k] <= after
    requires forall k :: start <= k < found ==> ids[k] !in active
    ensures forall id :: id in active && id > after ==> found < |ids| && id >= ids[found]
  {
    forall id | id in active && id > after ensures found < |ids| && id >= ids[found] {
      assert id in Elements(ids);
      var k :| 0 <= k < |ids| && ids[k] == id;
    }
  }
}
