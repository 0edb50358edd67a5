/** The sink that owns the engine and its checkpoint: a batch that succeeds is in the checkpoint, whatever happens next. */
module TopologySink {
  import opened Bytes
  import opened Telemetry
  import opened Spans
  import opened EngineState
  import opened EngineTraces
  import opened EngineCore
  import opened Engine
  import opened Snapshot
  import opened Checkpoint
  import opened StateStore
  import opened Sink
  import Identity

  /** An engine as a value, with its history. */
  datatype Kept = Kept(c: Contents, past: Past, evicted: bool)

  /** Every span that the counters of an engine have counted. */
  ghost function Everything(x: Kept): multiset<Span> {
    AllSpans(x.c.view.traces, x.past)
  }

  ghost predicate AllLabelled(m: multiset<Span>) {
    forall s :: s in m ==> s.spanID != "" && s.traceID != ""
  }

  /** What every engine of the runtime is between batches. */
  ghost predicate Fits(x: Kept) {
    && UpToDate(x.c.options.naming, x.c.view, x.past, x.evicted) && AllLabelled(Everything(x))
    && x.c.nodeVersion != "" && x.c.options == Defaulted(x.c.options)
  }

  /** Each of these spans, or one with the same ID, has been counted. */
  ghost predicate Covers(m: multiset<Span>, spans: seq<Span>) {
    forall s :: s in spans ==> CountsID(m, s.spanID)
  }

  ghost predicate CountsID(m: multiset<Span>, id: string) {
    exists s :: s in m && s.spanID == id
  }

  /** Nothing has been counted that was not counted before or is one of these spans. */
  ghost predicate GrownBy(before: multiset<Span>, after: multiset<Span>, spans: seq<Span>) {
    forall s :: s in after ==> s in before || s in spans
  }

  /** The span is in one of these envelopes. */
  ghost predicate Brought(envelopes: seq<Envelope>, s: Span) {
    exists i: nat :: i < |envelopes| && envelopes[i].spanBatch.Some? && s in envelopes[i].spanBatch.value.spans
  }

  ghost predicate GrownFrom(before: multiset<Span>, after: multiset<Span>, envelopes: seq<Envelope>) {
    forall s :: s in after ==> s in before || Brought(envelopes, s)
  }

  /** Spans as validation lets them through. */
  ghost predicate Accepted(spans: seq<Span>) {
    Validated(spans) && forall k :: 0 <= k < |spans| ==> spans[k].spanID != "" && spans[k].traceID != ""
  }

  ghost predicate AllAccepted(envelopes: seq<Envelope>) {
    forall i :: 0 <= i < |envelopes| && envelopes[i].spanBatch.Some? ==> Accepted(envelopes[i].spanBatch.value.spans)
  }

  /** What one place where `ConsumeBatch` may stop does: the context is cancelled, or the checkpoint that follows goes some way. */
  datatype Turn = Cancelled | Goes(fault: Fault)

  datatype SinkError = ContextCancelled | CheckpointFailed

  /** `pipeline.Outcome`. */
  type Outcome = Option<nat>

  /** The configuration of the sink. */
  datatype Setup = Setup(codec: StateCodec, ids: Ids, letters: Identity.Letters, requested: Options, applicationName: string, nodeVersion: string) {
    ghost predicate Lawful() {
      codec.Lawful() && Proper(requested.naming, ids)
    }

    /** An engine of this configuration. */
    ghost predicate Owns(x: Kept) {
      x.c.options.naming == requested.naming && Filled(Identity.Trim(applicationName, letters.space)) <= x.c.applicationNames
    }

    function Fresh(): Contents {
      Contents(Defaulted(requested), NOTHING, Filled(Identity.Trim(applicationName, letters.space)),
               if nodeVersion == "" then "unknown" else nodeVersion, 0, None)
    }

    /** This file is a checkpoint of this engine; without a file it is the new one. */
    ghost predicate Holds(file: Option<seq<byte>>, x: Kept) {
      if file == None then x == Kept(Fresh(), NO_PAST, false)
      else exists s :: Describes(ids, x.c, s) && Sealed(codec, s) == file
    }
  }

  /** An engine in memory, and a checkpoint of it from some time ago. */
  ghost predicate Coherent(setup: Setup, file: Option<seq<byte>>, kept: Kept, now: Kept) {
    && setup.Lawful() && Fits(now) && Fits(kept) && setup.Owns(now) && setup.Owns(kept)
    && setup.Holds(file, kept) && Everything(kept) <= Everything(now)
  }

  /** A sink as a value: its checkpoint file, the engine that the file holds, and the engine in memory. */
  datatype SinkValue = SinkValue(file: Option<seq<byte>>, kept: Kept, now: Kept)

  ghost predicate AllCovered(m: multiset<Span>, envelopes: seq<Envelope>) {
    forall i: nat :: i < |envelopes| && envelopes[i].spanBatch.Some? ==> Covers(m, envelopes[i].spanBatch.value.spans)
  }

  /** What a delivery does to a sink: the checkpoint only grows, by spans of the batch, and has all of them if it succeeds. */
  ghost predicate Delivers(setup: Setup, u: SinkValue, envelopes: seq<Envelope>, ok: bool, v: SinkValue) {
    && Coherent(setup, v.file, v.kept, v.now) && Everything(u.kept) <= Everything(v.kept)
    && GrownFrom(Everything(u.now), Everything(v.now), envelopes) && (ok ==> AllCovered(Everything(v.kept), envelopes))
  }

  /** This engine cannot be written down. */
  ghost predicate Unwritable(setup: Setup, x: Kept) {
    exists s :: Describes(setup.ids, x.c, s) && Sealed(setup.codec, s) == None
  }

  /** A delivery fails only for a reason: it was cancelled, or a checkpoint met a fault or an engine that cannot be written down. */
  ghost predicate Blamed(setup: Setup, turns: nat -> Turn, error: SinkError, now: Kept) {
    match error
    case ContextCancelled => exists i :: turns(i).Cancelled?
    case CheckpointFailed => (exists i :: turns(i).Goes? && !turns(i).fault.NoFault?) || Unwritable(setup, now)
  }

  lemma FaultBlamed(setup: Setup, turns: nat -> Turn, i: nat, error: SinkError, now: Kept)
    requires error == ContextCancelled ==> turns(i).Cancelled?
    requires error == CheckpointFailed ==> turns(i).Goes? && (!turns(i).fault.NoFault? || Unwritable(setup, now))
    ensures Blamed(setup, turns, error, now)
  {
    hide Unwritable;
  }

  // ---- the names of applications --------------------------------------------------------------------------

  ghost predicate FirstOfGroup(envelopes: seq<Envelope>, i: nat) {
    && i < |envelopes| && envelopes[i].spanBatch.Some?
    && forall j: nat :: j < i ==> !Belongs(envelopes, GroupKey(envelopes[i].spanBatch.value), j)
  }

  /** The first envelope of one of these groups comes from an application of this name. */
  ghost predicate Introduced(space: char -> bool, envelopes: seq<Envelope>, keys: seq<string>, name: string) {
    name != "" && exists i: nat :: FirstOfGroup(envelopes, i) && NamedSo(space, envelopes[i], keys, name)
  }

  predicate NamedSo(space: char -> bool, e: Envelope, keys: seq<string>, name: string) {
    e.spanBatch.Some? && GroupKey(e.spanBatch.value) in keys && Identity.Trim(e.spanBatch.value.serviceName, space) == name
  }

  ghost predicate Registered(space: char -> bool, before: set<string>, envelopes: seq<Envelope>, keys: seq<string>,
                             after: set<string>) {
    forall name :: name in after <==> name in before || Introduced(space, envelopes, keys, name)
  }

  /** The application names after a batch: those before it, and that of the first envelope of each group. */
  ghost predicate AllRegistered(space: char -> bool, before: set<string>, envelopes: seq<Envelope>, after: set<string>) {
    forall name :: name in after <==> name in before || Brings(space, envelopes, name)
  }

  ghost predicate Brings(space: char -> bool, envelopes: seq<Envelope>, name: string) {
    name != "" && exists i: nat ::
      FirstOfGroup(envelopes, i) && envelopes[i].spanBatch.Some? && Identity.Trim(envelopes[i].spanBatch.value.serviceName, space) == name
  }

  lemma NothingRegistered(space: char -> bool, names: set<string>, envelopes: seq<Envelope>)
    ensures Registered(space, names, envelopes, [], names)
  {}

  lemma GroupAt(envelopes: seq<Envelope>, groups: map<string, SpanGroup>, keys: seq<string>, g: nat)
    requires Grouped(envelopes, |envelopes|, groups) && Elements(keys) == groups.Keys && g < |keys|
    ensures keys[..g + 1] == keys[..g] + [keys[g]]
    ensures keys[g] in groups && IsGroup(envelopes, |envelopes|, keys[g], groups[keys[g]]) && groups[keys[g]].indexes != []
  {
    hide IsGroup, Belongs;
    assert keys[g] in Elements(keys);
  }

  lemma RegisteredMore(space: char -> bool, before: set<string>, envelopes: seq<Envelope>, keys: seq<string>,
                       names: set<string>, key: string, group: SpanGroup)
    requires Registered(space, before, envelopes, keys, names) && IsGroup(envelopes, |envelopes|, key, group) && group.indexes != []
    ensures Registered(space, before, envelopes, keys + [key], names + Filled(Identity.Trim(group.serviceName, space)))
  {
    hide Identity.Trim, SpansAt;
    var first := group.indexes[0];
    assert first in group.indexes;
    assert forall k :: 0 <= k < |group.indexes| ==> first <= group.indexes[k];
    assert forall j :: j in group.indexes ==> first <= j;
    assert FirstOfGroup(envelopes, first);
    assert forall k :: k in keys + [key] <==> k in keys || k == key;
    forall name ensures Introduced(space, envelopes, keys + [key], name)
                     <==> Introduced(space, envelopes, keys, name) || (name != "" && name == Identity.Trim(group.serviceName, space))
    {
      if i: nat :| FirstOfGroup(envelopes, i) && NamedSo(space, envelopes[i], keys + [key], name) {
        if GroupKey(envelopes[i].spanBatch.value) == key { assert i in group.indexes && i == first; }
      }
      if i: nat :| FirstOfGroup(envelopes, i) && NamedSo(space, envelopes[i], keys, name) {
        assert NamedSo(space, envelopes[i], keys + [key], name);
      }
      if name == Identity.Trim(group.serviceName, space) { assert NamedSo(space, envelopes[first], keys + [key], name); }
    }
  }

  lemma RegisteredAll(space: char -> bool, before: set<string>, envelopes: seq<Envelope>, groups: map<string, SpanGroup>,
                      keys: seq<string>, after: set<string>)
    requires Registered(space, before, envelopes, keys, after) && Grouped(envelopes, |envelopes|, groups) && Elements(keys) == groups.Keys
    ensures AllRegistered(space, before, envelopes, after)
  {
    hide Identity.Trim, IsGroup;
    forall i: nat | FirstOfGroup(envelopes, i) ensures GroupKey(envelopes[i].spanBatch.value) in keys {
      assert Belongs(envelopes, GroupKey(envelopes[i].spanBatch.value), i);
      assert GroupKey(envelopes[i].spanBatch.value) in Elements(keys);
    }
    forall name ensures Introduced(space, envelopes, keys, name) <==> Brings(space, envelopes, name) {
      if name != "" {
        if i: nat :| FirstOfGroup(envelopes, i) && envelopes[i].spanBatch.Some?
                     && Identity.Trim(envelopes[i].spanBatch.value.serviceName, space) == name {
          assert NamedSo(space, envelopes[i], keys, name);
        }
      }
    }
  }

  // ---- steps ------------------------------------------------------------------------------------------------

  lemma CheckpointHolds(setup: Setup, file: Option<seq<byte>>, kept: Kept, now: Kept, s: State)
    requires Coherent(setup, file, kept, now) && Describes(setup.ids, now.c, s) && Sealed(setup.codec, s).Some?
    ensures Coherent(setup, Sealed(setup.codec, s), now, now)
  {
    hide Fits, Everything, Describes, Sealed, Proper;
  }

  lemma {:induction false} NewcomersWithin(seen: set<string>, spans: seq<Span>)
    ensures forall s :: s in Newcomers(seen, spans) ==> s in spans
    ensures forall s :: s in spans ==> s.spanID in seen || s.spanID in IDs(Newcomers(seen, spans))
  {
    if spans != [] {
      var init, last := spans[..|spans| - 1], spans[|spans| - 1];
      NewcomersWithin(seen, init);
      assert spans == init + [last];
      var news, more := Newcomers(seen, init), Newcomers(seen, spans);
      assert forall s :: s in news ==> s in more;
      assert last.spanID !in seen && last.spanID !in IDs(init) ==> more[|news|] == last;
    }
  }

  lemma SeenCounted(n: Naming, v: View, past: Past, evicted: bool, id: string)
    requires UpToDate(n, v, past, evicted) && id in v.seen
    ensures CountsID(AllSpans(v.traces, past), id)
  {
    hide Counted, SharesCounted, Sane, Grounded, Inflow, Reconciled, PathsSettled, LinksOk;
    var t :| t in v.traces && id in v.traces[t].spans;
    assert TraceOk(t, v.traces[t]);
    var s := v.traces[t].spans[id];
    assert s in RetainedSpans(v.traces);
    assert s in AllSpans(v.traces, past);
  }

  lemma Grown(m: multiset<Span>, n: multiset<Span>, news: seq<Span>)
    requires n == m + multiset(news)
    ensures m <= n && forall s :: s in n <==> s in m || s in news
  {}

  /** After a batch has been taken in, each of its spans has been counted, now or before. */
  lemma IngestCovers(before: Kept, after: Kept, spans: seq<Span>)
    requires Fits(before) && Accepted(spans) && Everything(after) == Everything(before) + multiset(Newcomers(before.c.view.seen, spans))
    ensures Everything(before) <= Everything(after) && AllLabelled(Everything(after)) && Covers(Everything(after), spans)
    ensures GrownBy(Everything(before), Everything(after), spans)
  {
    hide UpToDate, Everything, Newcomers;
    var news := Newcomers(before.c.view.seen, spans);
    NewcomersWithin(before.c.view.seen, spans);
    Grown(Everything(before), Everything(after), news);
    forall x | x in spans ensures CountsID(Everything(after), x.spanID) {
      var id := x.spanID;
      if id in before.c.view.seen {
        SeenIsCounted(before, id);
        var s :| s in Everything(before) && s.spanID == id;
      } else {
        var s :| s in news && s.spanID == id;
        assert s in Everything(after);
      }
    }
  }

  lemma SeenIsCounted(x: Kept, id: string)
    requires Fits(x) && id in x.c.view.seen
    ensures CountsID(Everything(x), id)
  {
    SeenCounted(x.c.options.naming, x.c.view, x.past, x.evicted, id);
  }

  lemma CoversMore(m: multiset<Span>, n: multiset<Span>, spans: seq<Span>)
    requires Covers(m, spans) && m <= n
    ensures Covers(n, spans)
  {
    forall x | x in spans ensures CountsID(n, x.spanID) {
      assert CountsID(m, x.spanID);
      var s :| s in m && s.spanID == x.spanID;
      assert s in n;
    }
  }

  lemma KeptLabelled(x: Kept)
    requires Fits(x)
    ensures Labelled(x.c.view.traces)
  {
    var v := x.c.view;
    hide Counted, SharesCounted, Sane, Grounded, Inflow, Reconciled, PathsSettled, LinksOk;
    forall t | t in v.traces ensures t != "" && forall id :: id in v.traces[t].spans ==> id != "" {
      assert TraceOk(t, v.traces[t]);
      forall id | id in v.traces[t].spans ensures id != "" && t != "" {
        assert v.traces[t].spans[id] in RetainedSpans(v.traces);
        assert v.traces[t].spans[id] in Everything(x);
      }
      var id :| id in v.traces[t].spans;
    }
  }

  /** Opening the checkpoint gives the engine that it holds. */
  lemma HeldOpens(setup: Setup, file: Option<seq<byte>>, kept: Kept, now: Kept)
    requires Coherent(setup, file, kept, now) && file.Some? && Apart(setup.ids, kept.c.view.paths)
    ensures setup.codec.unmarshal(file.value).Some?
    ensures Acceptable(setup.codec, file.value) <==> setup.codec.unmarshal(file.value).value.checksum != 0
    ensures Restored(setup.letters, setup.codec.unmarshal(file.value).value, setup.requested, setup.applicationName, setup.nodeVersion) == kept.c
  {
    hide UpToDate, Everything, Describes, Proper, Apart, Restored, Labelled, AllLabelled, Intact;
    var s :| Describes(setup.ids, kept.c, s) && Sealed(setup.codec, s) == file;
    KeptLabelled(kept);
    CoreOf(kept);
    SavedOpens(setup.codec, setup.letters, setup.ids, kept.c, kept.past, kept.evicted, s, setup.requested, setup.applicationName, setup.nodeVersion);
    PlainChecksum(setup.ids, kept.c, s);
    var marked := s.(checksum := setup.codec.crc(setup.codec.marshal(s).value));
    assert setup.codec.unmarshal(file.value) == Some(marked);
  }

  lemma CoreOf(x: Kept)
    requires Fits(x)
    ensures Core(x.c.options.naming, x.c.view, x.past, x.evicted)
  {
    hide Core;
  }

  class Topology {
    const setup: Setup
    var engine: Engine
    var file: Option<seq<byte>>
    /** The engine that the file describes. */
    ghost var kept: Kept

    /** `NewTopology`, with the engine that the checkpoint gave. */
    constructor (setup: Setup, engine: Engine, file: Option<seq<byte>>, ghost kept: Kept)
      requires Coherent(setup, file, kept, Kept(ContentsOf(engine), engine.past, engine.evicted))
      ensures Valid() && this.setup == setup && this.engine == engine && this.file == file && this.kept == kept
    {
      hide Coherent;
      this.setup, this.engine, this.file := setup, engine, file;
      this.kept := kept;
    }

    ghost function Now(): Kept
      reads this, engine
    {
      Kept(ContentsOf(engine), engine.past, engine.evicted)
    }

    ghost predicate Valid()
      reads this, engine
    {
      Coherent(setup, file, kept, Now())
    }

    ghost function Value(): SinkValue
      reads this, engine
    {
      SinkValue(file, kept, Now())
    }

    /** `checkpoint`. */
    method Checkpoint(fault: Fault) returns (ok: bool)
      requires Valid()
      modifies `file, `kept
      ensures Valid() && (ok ==> fault.NoFault? && kept == Now()) && (kept == old(kept) || kept == Now())
      ensures !ok ==> !fault.NoFault? || Unwritable(setup, Now())
    {
      hide Coherent, ContentsOf, Describes, Sealed;
      var r, saved;
      ghost var s;
      r, saved, s := Save(setup.codec, setup.ids, file, engine, fault);
      if Sealed(setup.codec, s).Some? { CheckpointHolds(setup, file, kept, Now(), s); }
      file := saved;
      if !fault.BeforeRename? && r != Err(Unencodable) { kept := Now(); }
      ok := r.Ok?;
    }

    /** One group of a batch: registered, taken in, checkpointed. */
    method ConsumeGroup(group: SpanGroup, fault: Fault) returns (ok: bool, revision: nat)
      requires Valid() && Accepted(group.spans)
      modifies engine, `file, `kept
      ensures Valid() && old(Everything(kept)) <= Everything(kept)
      ensures ok ==> kept == Now() && Covers(Everything(kept), group.spans)
      ensures GrownBy(Everything(old(Now())), Everything(Now()), group.spans)
      ensures revision == engine.revision == old(engine.revision) + 1
      ensures engine.applicationNames == old(engine.applicationNames) + Filled(Identity.Trim(group.serviceName, setup.letters.space))
      ensures var version := Identity.Trim(group.nodeVersion, setup.letters.space);
              engine.nodeVersion == if version == "" then old(engine.nodeVersion) else version
      ensures !ok ==> !fault.NoFault? || Unwritable(setup, Now())
    {
      hide Coherent, GrownBy, Identity.Trim, Filled, Unwritable;
      ghost var before := Now();
      TakeIn(group);
      ok := Checkpoint(fault);
      revision := engine.revision;
      Kepts(setup, old(file), old(kept), before);
    }

    method TakeIn(group: SpanGroup)
      requires Valid() && Accepted(group.spans)
      modifies engine
      ensures Valid() && Everything(old(Now())) <= Everything(Now()) && Covers(Everything(Now()), group.spans)
      ensures GrownBy(Everything(old(Now())), Everything(Now()), group.spans) && file == old(file)
      ensures engine.revision == old(engine.revision) + 1
      ensures engine.applicationNames == old(engine.applicationNames) + Filled(Identity.Trim(group.serviceName, setup.letters.space))
      ensures var version := Identity.Trim(group.nodeVersion, setup.letters.space);
              engine.nodeVersion == if version == "" then old(engine.nodeVersion) else version
    {
      hide Validated, Describes, StaleStay, SavedAs, Rootless, SavePath, SaveNode, WithSpan;
      hide UpToDate, Everything, AllSpans, Newcomers, Covers, GrownBy, AllLabelled, Identity.Trim, Defaulted, Filled;
      ghost var before := Now();
      engine.RegisterApplication(setup.letters, group.serviceName, group.nodeVersion);
      engine.Ingest(group.spans);
      TakenIn(before, Now(), group.spans);
    }

    /** The metrics of one service: noted, checkpointed. */
    method ConsumeMetrics(metrics: RuntimeMetrics, fault: Fault) returns (ok: bool)
      requires Valid()
      modifies engine, `file, `kept
      ensures Valid() && old(Everything(kept)) <= Everything(kept) && (ok ==> kept == Now())
      ensures engine.revision == old(engine.revision) + 1 && engine.runtime == Some(metrics)
      ensures Everything(Now()) == Everything(old(Now())) && engine.applicationNames == old(engine.applicationNames)
      ensures !ok ==> !fault.NoFault? || Unwritable(setup, Now())
    {
      hide UpToDate, Everything, Identity.Trim, Defaulted, Filled, AllLabelled, Unwritable;
      ghost var before := Now();
      engine.UpdateRuntime(metrics);
      SameSpans(before, Now());
      ok := Checkpoint(fault);
    }

    /** One turn of the loop of `ConsumeBatch` over the groups. */
    method ConsumeNext(envelopes: seq<Envelope>, groups: map<string, SpanGroup>, keys: seq<string>, g: nat, turn: Turn,
                       outcomes: seq<Outcome>,
                       ghost base: nat, ghost whole: multiset<Span>, ghost names: set<string>)
      returns (error: Option<SinkError>, next: seq<Outcome>)
      requires Valid() && AllAccepted(envelopes) && Grouped(envelopes, |envelopes|, groups) && Elements(keys) == groups.Keys && Ascending(keys)
      requires g < |keys| && Consumed(envelopes, keys[..g], Everything(kept), outcomes, base) && engine.revision == base + g
      requires |outcomes| == |envelopes| && GrownFrom(whole, Everything(Now()), envelopes)
      requires Registered(setup.letters.space, names, envelopes, keys[..g], engine.applicationNames)
      modifies engine, `file, `kept
      ensures Valid() && old(Everything(kept)) <= Everything(kept) && GrownFrom(whole, Everything(Now()), envelopes)
      ensures old(engine.revision) <= engine.revision
      ensures error == Some(ContextCancelled) <==> turn.Cancelled?
      ensures error == Some(CheckpointFailed) ==> turn.Goes? && (!turn.fault.NoFault? || Unwritable(setup, Now()))
      ensures error == None ==>
        && kept == Now() && engine.revision == base + g + 1 && |next| == |envelopes|
        && Consumed(envelopes, keys[..g + 1], Everything(kept), next, base)
        && Registered(setup.letters.space, names, envelopes, keys[..g + 1], engine.applicationNames)
    {
      hide Unwritable, Registered, Filled, Identity.Trim, Grouped, Elements;
      hide Coherent, Everything, IsGroup, Covers, Consumed, Accepted, Ascending, GrownBy, GrownFrom;
      next := outcomes;
      if turn.Cancelled? { return Some(ContextCancelled), next; }
      GroupAt(envelopes, groups, keys, g);
      var group := groups[keys[g]];
      GroupAccepted(envelopes, keys[g], group);
      RegisteredMore(setup.letters.space, names, envelopes, keys[..g], engine.applicationNames, keys[g], group);
      ghost var before, grown := Everything(kept), Everything(Now());
      var ok, revision := ConsumeGroup(group, turn.fault);
      GroupGrew(envelopes, keys[g], group, whole, grown, Everything(Now()));
      if !ok { return Some(CheckpointFailed), next; }
      next := Note(outcomes, group.indexes, revision);
      GroupConsumed(envelopes, keys, g, group, before, Everything(kept), outcomes, next, base);
      return None, next;
    }

    /** The loop of `ConsumeBatch` over the groups. */
    method ConsumeGroups(envelopes: seq<Envelope>, groups: map<string, SpanGroup>, keys: seq<string>, turns: nat -> Turn)
      returns (r: Result<seq<Outcome>, SinkError>)
      requires Valid() && AllAccepted(envelopes) && Grouped(envelopes, |envelopes|, groups) && Elements(keys) == groups.Keys && Ascending(keys)
      modifies engine, `file, `kept
      ensures Valid() && old(Everything(kept)) <= Everything(kept) && old(engine.revision) <= engine.revision
      ensures r.Ok? ==> Consumed(envelopes, keys, Everything(kept), r.value, old(engine.revision))
      ensures GrownFrom(old(Everything(Now())), Everything(Now()), envelopes)
      ensures r.Ok? ==> engine.revision == old(engine.revision) + |keys|
      ensures r.Ok? ==> if keys == [] then kept == old(kept) && Now() == old(Now()) else kept == Now()
      ensures r.Ok? ==> AllRegistered(setup.letters.space, old(engine.applicationNames), envelopes, engine.applicationNames)
      ensures r.Err? ==> Blamed(setup, turns, r.error, Now())
    {
      hide Blamed, Unwritable, Registered, AllRegistered, Grouped, Elements;
      hide Coherent, Everything, Consumed, Accepted, Ascending, GrownFrom;
      NothingGrew(Everything(Now()), envelopes);
      var outcomes := seq(|envelopes|, _ => None);
      NothingConsumed(envelopes, Everything(kept), outcomes, engine.revision);
      NothingRegistered(setup.letters.space, engine.applicationNames, envelopes);
      assert keys[..0] == [];
      for g := 0 to |keys|
        invariant Valid() && old(Everything(kept)) <= Everything(kept) && engine.revision == old(engine.revision) + g
        invariant Consumed(envelopes, keys[..g], Everything(kept), outcomes, old(engine.revision))
        invariant if g == 0 then kept == old(kept) && Now() == old(Now()) else kept == Now()
        invariant |outcomes| == |envelopes| && GrownFrom(old(Everything(Now())), Everything(Now()), envelopes)
        invariant Registered(setup.letters.space, old(engine.applicationNames), envelopes, keys[..g], engine.applicationNames)
      {
        var error, next := ConsumeNext(envelopes, groups, keys, g, turns(g + 1), outcomes,
                                       old(engine.revision), old(Everything(Now())), old(engine.applicationNames));
        if error.Some? {
          FaultBlamed(setup, turns, g + 1, error.value, Now());
          return Err(error.value);
        }
        outcomes := next;
      }
      assert keys[..|keys|] == keys;
      RegisteredAll(setup.letters.space, old(engine.applicationNames), envelopes, groups, keys, engine.applicationNames);
      return Ok(outcomes);
    }

    /** The loop over the services that reported metrics. */
    method ConsumeRuntimes(runtimes: map<string, RuntimeMetrics>, services: seq<string>, turns: nat -> Turn, first: nat)
      returns (error: Option<SinkError>)
      requires Valid() && Elements(services) == runtimes.Keys
      modifies engine, `file, `kept
      ensures Valid() && old(Everything(kept)) <= Everything(kept) && old(engine.revision) <= engine.revision
      ensures Everything(Now()) == Everything(old(Now())) && engine.applicationNames == old(engine.applicationNames)
      ensures error.Some? ==> Blamed(setup, turns, error.value, Now())
      ensures error == None ==>
        if services == [] then kept == old(kept) && Now() == old(Now())
        else kept == Now() && services[|services| - 1] in runtimes && engine.runtime == Some(runtimes[services[|services| - 1]])
    {
      hide Coherent, Everything, Blamed, Unwritable;
      for i := 0 to |services|
        invariant Valid() && old(Everything(kept)) <= Everything(kept) && old(engine.revision) <= engine.revision
        invariant i == 0 ==> kept == old(kept) && Now() == old(Now())
        invariant Everything(Now()) == Everything(old(Now())) && engine.applicationNames == old(engine.applicationNames)
        invariant i > 0 ==> kept == Now() && services[i - 1] in runtimes && engine.runtime == Some(runtimes[services[i - 1]])
      {
        assert services[i] in Elements(services);
        if turns(first + i).Cancelled? {
          FaultBlamed(setup, turns, first + i, ContextCancelled, Now());
          return Some(ContextCancelled);
        }
        var ok := ConsumeMetrics(runtimes[services[i]], turns(first + i).fault);
        if !ok {
          FaultBlamed(setup, turns, first + i, CheckpointFailed, Now());
          return Some(CheckpointFailed);
        }
      }
      return None;
    }

    /**
     * `ConsumeBatch`: if it succeeds, every span of the batch is in the checkpoint, each envelope with spans is told the
     * revision that has them, and the newest metrics of the last service are shown. If it fails, the engine and its
     * checkpoint have only grown, and the batch can be tried again.
     */
    method ConsumeBatch(envelopes: seq<Envelope>, turns: nat -> Turn) returns (r: Result<seq<Outcome>, SinkError>)
      requires Valid() && AllAccepted(envelopes)
      modifies engine, `file, `kept
      ensures Valid() && old(Everything(kept)) <= Everything(kept)
      ensures Delivers(setup, old(Value()), envelopes, r.Ok?, Value())
      ensures r.Ok? ==> Consumes(envelopes, Everything(kept), r.value, old(engine.revision), engine.revision)
      ensures r.Ok? ==> kept == Now() || (kept == old(kept) && Now() == old(Now()))
      ensures r.Ok? && (exists i :: 0 <= i < |envelopes| && envelopes[i].runtimeMetrics.Some?) ==>
        engine.runtime.Some? && IsLastNewest(envelopes, engine.runtime.value)
      ensures r.Ok? ==> AllRegistered(setup.letters.space, old(engine.applicationNames), envelopes, engine.applicationNames)
      ensures r.Err? ==> Blamed(setup, turns, r.error, Now())
    {
      hide Blamed, Unwritable, AllRegistered;
      hide Coherent, Everything, IsGroup, Covers, Consumed, Consumes, Latest, Ascending, IsLastNewest, Grouped, GrownFrom;
      NothingGrew(Everything(Now()), envelopes);
      if turns(0).Cancelled? {
        FaultBlamed(setup, turns, 0, ContextCancelled, Now());
        return Err(ContextCancelled);
      }
      var groups := GroupSpans(envelopes);
      var runtimes := NewestMetrics(envelopes);
      var keys := SortedKeys(groups.Keys);
      r := ConsumeGroups(envelopes, groups, keys, turns);
      if r.Err? { return; }
      ghost var before, revision := Everything(kept), engine.revision;
      var services := SortedKeys(runtimes.Keys);
      var error := ConsumeRuntimes(runtimes, services, turns, |keys| + 1);
      if error.Some? { return Err(error.value); }
      AllConsumed(envelopes, groups, keys, before, Everything(kept), r.value, old(engine.revision), engine.revision);
      ConsumedCovers(envelopes, Everything(kept), r.value, old(engine.revision), engine.revision);
      NewestIsLast(envelopes, runtimes, services);
    }

    /** A restart: the engine that the checkpoint holds, unless its checksum is the one that stands for none. */
    method Reopen() returns (ok: bool)
      requires Valid() && Apart(setup.ids, kept.c.view.paths)
      modifies `engine
      ensures ok <==> (file.Some? ==> setup.codec.unmarshal(file.value).Some? && setup.codec.unmarshal(file.value).value.checksum != 0)
      ensures if ok then Valid() && fresh(engine) && Now() == kept else engine == old(engine)
    {
      hide Fits, Everything, Restored, Acceptable, Describes, Sealed, Proper, Apart;
      if file.Some? { HeldOpens(setup, file, kept, Now()); }
      var restored := Open(setup.codec, setup.letters, file, setup.requested, setup.applicationName, setup.nodeVersion, kept.past, kept.evicted);
      if restored.Err? { return false; }
      engine := restored.value;
      return true;
    }
  }

  lemma Kepts(setup: Setup, file: Option<seq<byte>>, kept: Kept, now: Kept)
    requires Coherent(setup, file, kept, now)
    ensures Everything(kept) <= Everything(now)
  {}

  lemma SameSpans(before: Kept, after: Kept)
    requires after == before.(c := before.c.(revision := after.c.revision, runtime := after.c.runtime))
    ensures Everything(after) == Everything(before)
  {}

  /** After the groups of these keys: their envelopes have been counted and know in which revision; the others know nothing. */
  ghost predicate Consumed(envelopes: seq<Envelope>, keys: seq<string>, m: multiset<Span>, outcomes: seq<Outcome>, base: nat) {
    && |outcomes| == |envelopes|
    && (forall i: nat, j :: 0 <= j < |keys| && Belongs(envelopes, keys[j], i) ==>
          Covers(m, envelopes[i].spanBatch.value.spans) && outcomes[i] == Some(base + j + 1))
    && (forall i: nat :: i < |envelopes| && envelopes[i].spanBatch == None ==> outcomes[i] == None)
  }

  /** What a successful batch says about its envelopes. */
  ghost predicate Consumes(envelopes: seq<Envelope>, m: multiset<Span>, outcomes: seq<Outcome>, before: nat, after: nat) {
    && |outcomes| == |envelopes|
    && (forall i: nat :: i < |envelopes| ==> Told(envelopes[i], outcomes[i], m, before, after))
    && (forall i: nat, j: nat :: i < |envelopes| && j < |envelopes| && envelopes[i].spanBatch.Some? && envelopes[j].spanBatch.Some? ==>
          InKeyOrder(envelopes[i].spanBatch.value, envelopes[j].spanBatch.value, outcomes[i], outcomes[j]))
  }

  /** Envelopes of one group are told the same revision, those of a later group a later one. */
  predicate InKeyOrder(a: SpanBatch, b: SpanBatch, x: Outcome, y: Outcome) {
    x.Some? && y.Some? && (GroupKey(a) == GroupKey(b) ==> x == y) && (Before(GroupKey(a), GroupKey(b)) ==> x.value < y.value)
  }

  ghost predicate Told(e: Envelope, outcome: Outcome, m: multiset<Span>, before: nat, after: nat) {
    if e.spanBatch == None then outcome == None
    else Covers(m, e.spanBatch.value.spans) && outcome.Some? && before < outcome.value <= after
  }

  /** The newest metrics of a service after which no other one of the batch comes. */
  ghost predicate IsLastNewest(envelopes: seq<Envelope>, m: RuntimeMetrics) {
    && IsNewest(envelopes, |envelopes|, m.serviceName, m)
    && forall i: nat, service :: Reports(envelopes, service, i) ==> !Before(m.serviceName, service)
  }

  lemma NothingGrew(m: multiset<Span>, envelopes: seq<Envelope>)
    ensures GrownFrom(m, m, envelopes)
  {}

  lemma GroupGrew(envelopes: seq<Envelope>, key: string, group: SpanGroup, start: multiset<Span>, before: multiset<Span>,
                  after: multiset<Span>)
    requires IsGroup(envelopes, |envelopes|, key, group) && GrownFrom(start, before, envelopes) && GrownBy(before, after, group.spans)
    ensures GrownFrom(start, after, envelopes)
  {
    SpansAtHas(envelopes, group.indexes);
    forall s | s in group.spans ensures Brought(envelopes, s) {
      var i :| i in group.indexes && s in envelopes[i].spanBatch.value.spans;
    }
  }

  lemma ConsumedCovers(envelopes: seq<Envelope>, m: multiset<Span>, outcomes: seq<Outcome>, before: nat, after: nat)
    requires Consumes(envelopes, m, outcomes, before, after)
    ensures AllCovered(m, envelopes)
  {
    hide Covers;
    forall i: nat | i < |envelopes| && envelopes[i].spanBatch.Some? ensures Covers(m, envelopes[i].spanBatch.value.spans) {
      assert Told(envelopes[i], outcomes[i], m, before, after);
    }
  }

  lemma NothingConsumed(envelopes: seq<Envelope>, m: multiset<Span>, outcomes: seq<Outcome>, base: nat)
    requires |outcomes| == |envelopes| && forall i :: 0 <= i < |outcomes| ==> outcomes[i] == None
    ensures Consumed(envelopes, [], m, outcomes, base)
  {}

  lemma {:induction false} SpansAtHas(envelopes: seq<Envelope>, indexes: seq<nat>)
    requires forall i :: i in indexes ==> i < |envelopes| && envelopes[i].spanBatch.Some?
    ensures forall i :: i in indexes ==> forall s :: s in envelopes[i].spanBatch.value.spans ==> s in SpansAt(envelopes, indexes)
    ensures forall s :: s in SpansAt(envelopes, indexes) ==> exists i :: i in indexes && s in envelopes[i].spanBatch.value.spans
  {
    if indexes != [] {
      var init, last := indexes[..|indexes| - 1], indexes[|indexes| - 1];
      assert forall i :: i in indexes <==> i in init || i == last;
      SpansAtHas(envelopes, init);
    }
  }

  lemma GroupAccepted(envelopes: seq<Envelope>, key: string, group: SpanGroup)
    requires AllAccepted(envelopes) && IsGroup(envelopes, |envelopes|, key, group)
    ensures Accepted(group.spans) && forall i :: i in group.indexes ==> i < |envelopes|
  {
    SpansAtHas(envelopes, group.indexes);
    forall k | 0 <= k < |group.spans|
      ensures group.spans[k].duration >= 0.0 && group.spans[k].spanID != "" && group.spans[k].traceID != ""
    {
      assert group.spans[k] in group.spans;
      var i :| i in group.indexes && group.spans[k] in envelopes[i].spanBatch.value.spans;
      assert Accepted(envelopes[i].spanBatch.value.spans);
    }
  }

  /** `outcomes[index].Revision = &revision` for the envelopes of a group. */
  method Note(outcomes: seq<Outcome>, indexes: seq<nat>, revision: nat) returns (r: seq<Outcome>)
    requires forall i :: i in indexes ==> i < |outcomes|
    ensures |r| == |outcomes| && forall i: nat :: i < |r| ==> r[i] == if i in indexes then Some(revision) else outcomes[i]
  {
    r := outcomes;
    for k := 0 to |indexes|
      invariant |r| == |outcomes| && forall i: nat :: i < |r| ==> r[i] == if i in indexes[..k] then Some(revision) else outcomes[i]
    {
      assert indexes[..k + 1] == indexes[..k] + [indexes[k]] && indexes[k] in indexes;
      r := r[indexes[k] := Some(revision)];
    }
    assert indexes[..|indexes|] == indexes;
  }

  lemma GroupConsumed(envelopes: seq<Envelope>, keys: seq<string>, g: nat, group: SpanGroup, before: multiset<Span>,
                      after: multiset<Span>,
                      earlier: seq<Outcome>, outcomes: seq<Outcome>, base: nat)
    requires g < |keys| && Ascending(keys) && IsGroup(envelopes, |envelopes|, keys[g], group)
    requires Consumed(envelopes, keys[..g], before, earlier, base) && before <= after && Covers(after, group.spans)
    requires |outcomes| == |envelopes|
      && forall i: nat :: i < |outcomes| ==> outcomes[i] == if i in group.indexes then Some(base + g + 1) else earlier[i]
    ensures Consumed(envelopes, keys[..g + 1], after, outcomes, base)
  {
    hide Covers, CountsID;
    SpansAtHas(envelopes, group.indexes);
    var done := keys[..g + 1];
    forall i: nat, j | 0 <= j < |done| && Belongs(envelopes, done[j], i)
      ensures Covers(after, envelopes[i].spanBatch.value.spans) && outcomes[i] == Some(base + j + 1)
    {
      assert done[j] == keys[j];
      if j < g {
        assert keys[..g][j] == keys[j] && Belongs(envelopes, keys[..g][j], i);
        CoversMore(before, after, envelopes[i].spanBatch.value.spans);
        BeforeIsOrder(keys[j], keys[g], "");
        assert i !in group.indexes;
      } else {
        CoversPart(after, envelopes[i].spanBatch.value.spans, group.spans);
      }
    }
  }

  lemma CoversPart(m: multiset<Span>, part: seq<Span>, spans: seq<Span>)
    requires Covers(m, spans) && forall s :: s in part ==> s in spans
    ensures Covers(m, part)
  {}

  lemma AllConsumed(envelopes: seq<Envelope>, groups: map<string, SpanGroup>, keys: seq<string>, m: multiset<Span>,
                    more: multiset<Span>,
                    outcomes: seq<Outcome>, before: nat, after: nat)
    requires Grouped(envelopes, |envelopes|, groups) && Elements(keys) == groups.Keys && Ascending(keys)
    requires Consumed(envelopes, keys, m, outcomes, before) && m <= more && before + |keys| <= after
    ensures Consumes(envelopes, more, outcomes, before, after)
  {
    hide Covers, IsGroup, Ascending;
    forall i: nat | i < |envelopes| && envelopes[i].spanBatch.Some?
      ensures Told(envelopes[i], outcomes[i], more, before, after)
      ensures exists j :: 0 <= j < |keys| && keys[j] == GroupKey(envelopes[i].spanBatch.value) && outcomes[i] == Some(before + j + 1)
    {
      var key := GroupKey(envelopes[i].spanBatch.value);
      assert Belongs(envelopes, key, i);
      assert key in Elements(keys);
      var j :| 0 <= j < |keys| && keys[j] == key;
      assert Belongs(envelopes, keys[j], i);
      CoversMore(m, more, envelopes[i].spanBatch.value.spans);
    }
    forall i: nat, j: nat | i < |envelopes| && j < |envelopes| && envelopes[i].spanBatch.Some? && envelopes[j].spanBatch.Some?
      ensures InKeyOrder(envelopes[i].spanBatch.value, envelopes[j].spanBatch.value, outcomes[i], outcomes[j])
    {
      var a, b := GroupKey(envelopes[i].spanBatch.value), GroupKey(envelopes[j].spanBatch.value);
      var x :| 0 <= x < |keys| && keys[x] == a && outcomes[i] == Some(before + x + 1);
      var y :| 0 <= y < |keys| && keys[y] == b && outcomes[j] == Some(before + y + 1);
      AscendingTells(keys, x, y);
    }
  }

  lemma AscendingTells(keys: seq<string>, x: nat, y: nat)
    requires Ascending(keys) && x < |keys| && y < |keys|
    ensures (keys[x] == keys[y] ==> x == y) && (Before(keys[x], keys[y]) ==> x < y)
  {
    BeforeIsOrder(keys[x], keys[y], keys[x]);
    BeforeIsOrder(keys[y], keys[x], keys[y]);
  }

  lemma NewestIsLast(envelopes: seq<Envelope>, runtimes: map<string, RuntimeMetrics>, services: seq<string>)
    requires Latest(envelopes, |envelopes|, runtimes) && Elements(services) == runtimes.Keys && Ascending(services)
    ensures (exists i :: 0 <= i < |envelopes| && envelopes[i].runtimeMetrics.Some?) ==> services != []
    ensures services != [] ==> services[|services| - 1] in runtimes && IsLastNewest(envelopes, runtimes[services[|services| - 1]])
  {
    if i :| 0 <= i < |envelopes| && envelopes[i].runtimeMetrics.Some? {
      assert Reports(envelopes, envelopes[i].runtimeMetrics.value.serviceName, i);
      assert envelopes[i].runtimeMetrics.value.serviceName in Elements(services);
    }
    if services != [] {
      var last := services[|services| - 1];
      assert last in Elements(services);
      var m := runtimes[last];
      assert IsNewest(envelopes, |envelopes|, last, m);
      forall i: nat, service | Reports(envelopes, service, i) ensures !Before(m.serviceName, service) {
        assert service in Elements(services);
        var k :| 0 <= k < |services| && services[k] == service;
        AscendingTells(services, |services| - 1, k);
      }
    }
  }

  lemma TakenIn(before: Kept, after: Kept, spans: seq<Span>)
    requires Fits(before) && Accepted(spans)
    requires AllSpans(after.c.view.traces, after.past) == AllSpans(before.c.view.traces, before.past) + multiset(Newcomers(before.c.view.seen, spans))
    ensures Everything(before) <= Everything(after) && AllLabelled(Everything(after)) && Covers(Everything(after), spans)
    ensures GrownBy(Everything(before), Everything(after), spans)
  {
    hide Fits, Accepted, AllSpans, Newcomers, GrownBy;
    IngestCovers(before, after, spans);
  }
}
