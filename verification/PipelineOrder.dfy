/** Per-service order: the dispatcher sorts items by service without reordering them, so a service's records reach the sink in ID order. */
module PipelineOrder {
  import opened Telemetry
  import opened Pipeline
  import opened PipelineOwners
  import opened PipelineWaiters
  import opened PipelineFate

  // ---- picking the items of a service ----------------------------------------------------------------------------

  lemma {:induction false} PickJoins(st: Storage, a: seq<nat>, b: seq<nat>, v: string)
    ensures Pick(st, a + b, v) == Pick(st, a, v) + Pick(st, b, v)
  {
    if a == [] {
      assert a + b == b;
    } else {
      assert (a + b)[0] == a[0] && (a + b)[1..] == a[1..] + b;
      PickJoins(st, a[1..], b, v);
    }
  }

  lemma {:induction false} PickAll(st: Storage, ids: seq<nat>, v: string)
    requires forall id :: id in ids ==> Service(st, id) == v
    ensures Pick(st, ids, v) == ids
  {
    if ids != [] { PickAll(st, ids[1..], v); }
  }

  lemma {:induction false} PickNone(st: Storage, ids: seq<nat>, v: string)
    requires forall id :: id in ids ==> Service(st, id) != v
    ensures Pick(st, ids, v) == []
  {
    if ids != [] { PickNone(st, ids[1..], v); }
  }

  lemma {:induction false} PickIs(st: Storage, ids: seq<nat>, v: string)
    ensures forall id :: id in Pick(st, ids, v) <==> id in ids && Service(st, id) == v
  {
    if ids != [] { PickIs(st, ids[1..], v); }
  }

  lemma {:induction false} PickCounts(st: Storage, ids: seq<nat>, v: string, id: nat)
    ensures multiset(Pick(st, ids, v))[id] == if Service(st, id) == v then multiset(ids)[id] else 0
  {
    if ids != [] {
      PickCounts(st, ids[1..], v, id);
      assert ids == [ids[0]] + ids[1..];
    }
  }

  /** Lists that agree on every service have the same items. */
  lemma SamePicksSameItems(st: Storage, a: seq<nat>, b: seq<nat>)
    requires forall v :: Pick(st, a, v) == Pick(st, b, v)
    ensures multiset(a) == multiset(b)
  {
    forall id ensures multiset(a)[id] == multiset(b)[id] {
      PickCounts(st, a, Service(st, id), id);
      PickCounts(st, b, Service(st, id), id);
    }
  }

  lemma {:induction false} FlatJoins<X>(a: seq<seq<X>>, b: seq<seq<X>>)
    ensures Flat(a + b) == Flat(a) + Flat(b)
  {
    if a == [] {
      assert a + b == b;
    } else {
      assert (a + b)[0] == a[0] && (a + b)[1..] == a[1..] + b;
      FlatJoins(a[1..], b);
    }
  }

  // ---- flush -------------------------------------------------------------------------------------------------------

  /** Batches and the services they are for: each service once, each batch all items of its service, none empty. */
  ghost predicate Sorted(st: Storage, items: seq<nat>, batches: seq<seq<nat>>, keys: seq<string>) {
    && |batches| == |keys| && (forall i, j :: 0 <= i < j < |keys| ==> keys[i] != keys[j])
    && (forall i :: 0 <= i < |keys| ==> batches[i] == Pick(st, items, keys[i]) && batches[i] != [])
  }

  /** What `workerBatches` and `workerIndexes` hold for one worker. */
  ghost predicate Grouped(cfg: Config, st: Storage, items: seq<nat>, w: nat, batches: seq<seq<nat>>, indexes: map<string, nat>, keys: seq<string>) {
    && Sorted(st, items, batches, keys)
    && (forall i :: 0 <= i < |keys| ==> cfg.workerOf(keys[i]) == w && keys[i] in indexes && indexes[keys[i]] == i)
    && (forall key :: key in indexes ==> indexes[key] < |keys| && keys[indexes[key]] == key)
    && (forall id :: id in items && cfg.workerOf(Service(st, id)) == w ==> Service(st, id) in indexes)
  }

  lemma GroupedNothing(cfg: Config, st: Storage, w: nat)
    ensures Grouped(cfg, st, [], w, [], map[], [])
  {}

  lemma PickOne(st: Storage, items: seq<nat>, id: nat, v: string)
    ensures Pick(st, items + [id], v) == Pick(st, items, v) + (if Service(st, id) == v then [id] else [])
  {
    PickJoins(st, items, [id], v);
    assert [id][1..] == [];
    assert Pick(st, [id][1..], v) == [];
  }

  lemma PicksGrow(st: Storage, items: seq<nat>, id: nat)
    ensures forall key :: Pick(st, items + [id], key) == Pick(st, items, key) + (if Service(st, id) == key then [id] else [])
    ensures forall x :: x in items + [id] <==> x in items || x == id
  {
    forall key ensures Pick(st, items + [id], key) == Pick(st, items, key) + (if Service(st, id) == key then [id] else []) { PickOne(st, items, id, key); }
  }

  /** An item that joins the batch of its service. */
  lemma GroupGrows(cfg: Config, st: Storage, items: seq<nat>, id: nat, batches: seq<seq<nat>>, indexes: map<string, nat>, keys: seq<string>)
    requires Grouped(cfg, st, items, cfg.workerOf(Service(st, id)), batches, indexes, keys) && Service(st, id) in indexes
    ensures var v := Service(st, id);
            && indexes[v] < |batches|
            && Grouped(cfg, st, items + [id], cfg.workerOf(v), batches[indexes[v] := batches[indexes[v]] + [id]], indexes, keys)
  {
    PicksGrow(st, items, id);
    hide Pick;
    assert forall i :: 0 <= i < |keys| && keys[i] == Service(st, id) ==> i == indexes[Service(st, id)];
  }

  /** An item that opens a batch for its service. */
  lemma GroupOpens(cfg: Config, st: Storage, items: seq<nat>, id: nat, batches: seq<seq<nat>>, indexes: map<string, nat>, keys: seq<string>)
    requires Grouped(cfg, st, items, cfg.workerOf(Service(st, id)), batches, indexes, keys) && Service(st, id) !in indexes
    ensures var v := Service(st, id);
            Grouped(cfg, st, items + [id], cfg.workerOf(v), batches + [[id]], indexes[v := |batches|], keys + [v])
  {
    PicksGrow(st, items, id);
    assert forall i :: 0 <= i < |keys| ==> keys[i] != Service(st, id);
    SortedOpens(st, items, id, batches, keys);
    hide Pick, Sorted;
  }

  lemma SortedOpens(st: Storage, items: seq<nat>, id: nat, batches: seq<seq<nat>>, keys: seq<string>)
    requires Sorted(st, items, batches, keys) && (forall i :: 0 <= i < |keys| ==> keys[i] != Service(st, id))
    requires forall x :: x in items ==> Service(st, x) != Service(st, id)
    ensures Sorted(st, items + [id], batches + [[id]], keys + [Service(st, id)])
  {
    PicksGrow(st, items, id);
    PickNone(st, items, Service(st, id));
    hide Pick;
  }

  lemma OtherGroups(cfg: Config, st: Storage, items: seq<nat>, id: nat, w: nat, batches: seq<seq<nat>>, indexes: map<string, nat>, keys: seq<string>)
    requires Grouped(cfg, st, items, w, batches, indexes, keys) && cfg.workerOf(Service(st, id)) != w
    ensures Grouped(cfg, st, items + [id], w, batches, indexes, keys)
  {
    PicksGrow(st, items, id);
    hide Pick;
  }

  /** The grouping loop of `flush`. */
  method GroupItems(cfg: Config, st: Storage, items: seq<nat>)
    returns (workerBatches: seq<seq<seq<nat>>>, workerIndexes: seq<map<string, nat>>, ghost keys: seq<seq<string>>)
    requires cfg.Lawful()
    ensures |workerBatches| == |workerIndexes| == |keys| == cfg.workers
    ensures forall w :: 0 <= w < cfg.workers ==> Grouped(cfg, st, items, w, workerBatches[w], workerIndexes[w], keys[w])
  {
    hide Grouped;
    workerBatches := seq(cfg.workers, _ => []);
    workerIndexes := seq(cfg.workers, _ => map[]);
    keys := seq(cfg.workers, _ => []);
    forall w | 0 <= w < cfg.workers ensures Grouped(cfg, st, [], w, [], map[], []) { GroupedNothing(cfg, st, w); }
    assert items[..0] == [];
    for i := 0 to |items|
      invariant |workerBatches| == |workerIndexes| == |keys| == cfg.workers
      invariant forall w :: 0 <= w < cfg.workers ==> Grouped(cfg, st, items[..i], w, workerBatches[w], workerIndexes[w], keys[w])
    {
      var id := items[i];
      var key := Service(st, id);
      var worker := cfg.workerOf(key);
      assert items[..i + 1] == items[..i] + [id];
      forall w | 0 <= w < cfg.workers && w != worker ensures Grouped(cfg, st, items[..i + 1], w, workerBatches[w], workerIndexes[w], keys[w]) {
        OtherGroups(cfg, st, items[..i], id, w, workerBatches[w], workerIndexes[w], keys[w]);
      }
      if key in workerIndexes[worker] {
        GroupGrows(cfg, st, items[..i], id, workerBatches[worker], workerIndexes[worker], keys[worker]);
        var group := workerIndexes[worker][key];
        workerBatches := workerBatches[worker := workerBatches[worker][group := workerBatches[worker][group] + [id]]];
      } else {
        GroupOpens(cfg, st, items[..i], id, workerBatches[worker], workerIndexes[worker], keys[worker]);
        var indexes: map<string, nat> := workerIndexes[worker][key := |workerBatches[worker]|];
        workerIndexes := workerIndexes[worker := indexes];
        keys := keys[worker := keys[worker] + [key]];
        workerBatches := workerBatches[worker := workerBatches[worker] + [[id]]];
      }
    }
    assert items[..|items|] == items;
  }

  /** The sorted batches of the workers up to `w`, joined. */
  lemma SortedJoins(cfg: Config, st: Storage, items: seq<nat>, a: seq<seq<nat>>, keysA: seq<string>, w: nat, b: seq<seq<nat>>,
                    indexes: map<string, nat>, keysB: seq<string>)
    requires Sorted(st, items, a, keysA) && (forall i :: 0 <= i < |keysA| ==> cfg.workerOf(keysA[i]) < w)
    requires Grouped(cfg, st, items, w, b, indexes, keysB)
    ensures Sorted(st, items, a + b, keysA + keysB) && forall i :: 0 <= i < |keysA + keysB| ==> cfg.workerOf((keysA + keysB)[i]) <= w
    ensures forall key :: key in keysA + keysB <==> key in keysA || key in indexes
  {
    hide Pick;
    forall i, j | 0 <= i < j < |keysA + keysB| ensures (keysA + keysB)[i] != (keysA + keysB)[j] {
      if i < |keysA| <= j { assert cfg.workerOf(keysA[i]) < cfg.workerOf(keysB[j - |keysA|]); }
    }
  }

  /** Sorted batches of all services, put one after the other, keep the items of each service in order. */
  lemma {:induction false} SortedPicks(st: Storage, items: seq<nat>, batches: seq<seq<nat>>, keys: seq<string>, v: string)
    requires Sorted(st, items, batches, keys)
    ensures Pick(st, Flat(batches), v) == if v in keys then Pick(st, items, v) else []
  {
    if batches != [] {
      var rest, others := batches[1..], keys[1..];
      SortedPicks(st, items, rest, others, v);
      PickJoins(st, batches[0], Flat(rest), v);
      PickIs(st, items, keys[0]);
      if v == keys[0] { PickAll(st, batches[0], v); } else { PickNone(st, batches[0], v); }
      assert v in keys <==> v == keys[0] || v in others;
      assert v == keys[0] ==> v !in others;
    }
  }

  lemma AllSorted(st: Storage, items: seq<nat>, batches: seq<seq<nat>>, keys: seq<string>)
    requires Sorted(st, items, batches, keys) && forall id :: id in items ==> Service(st, id) in keys
    ensures Splits(st, items, batches)
  {
    forall v ensures Pick(st, Flat(batches), v) == Pick(st, items, v) {
      SortedPicks(st, items, batches, keys, v);
      if v !in keys { PickNone(st, items, v); }
    }
    SamePicksSameItems(st, Flat(batches), items);
    forall i | 0 <= i < |batches| ensures forall id :: id in batches[i] ==> Service(st, id) == keys[i] { PickIs(st, items, keys[i]); }
    hide Pick;
    forall b, i, j | b in batches && 0 <= i < |b| && 0 <= j < |b| ensures Service(st, b[i]) == Service(st, b[j]) {
      var k :| 0 <= k < |batches| && batches[k] == b;
      assert b[i] in b && b[j] in b;
    }
  }

  /**
   * `flush`: what it sends, worker by worker, is an order-preserving partition of the pending items by service. Each
   * service has one batch, and all of it goes to the worker of that service.
   */
  method FlushItems(cfg: Config, st: Storage, items: seq<nat>) returns (sends: seq<(nat, seq<nat>)>, ghost batches: seq<seq<nat>>)
    requires cfg.Lawful()
    ensures |batches| == |sends| && forall k :: 0 <= k < |sends| ==> sends[k].1 == batches[k]
    ensures Splits(st, items, batches)
    ensures forall k, id :: 0 <= k < |sends| && id in sends[k].1 ==> sends[k].0 == cfg.workerOf(Service(st, id))
    ensures forall j, k, x, y :: 0 <= j < k < |sends| && x in sends[j].1 && y in sends[k].1 ==> Service(st, x) != Service(st, y)
  {
    hide Grouped, Sorted, Splits;
    var workerBatches, workerIndexes;
    ghost var keys;
    workerBatches, workerIndexes, keys := GroupItems(cfg, st, items);
    sends, batches := [], [];
    ghost var services: seq<string> := [];
    NothingSorted(st, items);
    for w := 0 to cfg.workers
      invariant Sorted(st, items, batches, services) && (forall i :: 0 <= i < |services| ==> cfg.workerOf(services[i]) < w)
      invariant |batches| == |sends| == |services| && forall k :: 0 <= k < |sends| ==> sends[k] == (cfg.workerOf(services[k]), batches[k])
      invariant forall id :: id in items && cfg.workerOf(Service(st, id)) < w ==> Service(st, id) in services
    {
      var indexes := workerIndexes[w];
      SortedJoins(cfg, st, items, batches, services, w, workerBatches[w], indexes, keys[w]);
      GroupedKeys(cfg, st, items, w, workerBatches[w], indexes, keys[w]);
      ghost var before := sends;
      for g := 0 to |workerBatches[w]|
        invariant |sends| == |before| + g && sends[..|before|] == before
        invariant forall k :: 0 <= k < g ==> sends[|before| + k] == (w, workerBatches[w][k])
      {
        sends := sends + [(w, workerBatches[w][g])];
      }
      batches, services := batches + workerBatches[w], services + keys[w];
      forall k | 0 <= k < |sends| ensures sends[k] == (cfg.workerOf(services[k]), batches[k]) {
        if k < |before| { assert sends[k] == sends[..|before|][k]; } else { assert sends[|before| + (k - |before|)] == sends[k]; }
      }
    }
    AllSorted(st, items, batches, services);
    SortedServices(st, items, batches, services);
  }

  lemma NothingSorted(st: Storage, items: seq<nat>)
    ensures Sorted(st, items, [], [])
  {}

  lemma GroupedKeys(cfg: Config, st: Storage, items: seq<nat>, w: nat, batches: seq<seq<nat>>, indexes: map<string, nat>, keys: seq<string>)
    requires Grouped(cfg, st, items, w, batches, indexes, keys)
    ensures |batches| == |keys| && (forall k :: 0 <= k < |keys| ==> cfg.workerOf(keys[k]) == w)
    ensures forall id :: id in items && cfg.workerOf(Service(st, id)) == w ==> Service(st, id) in indexes
  {
    hide Pick;
  }

  lemma SortedServices(st: Storage, items: seq<nat>, batches: seq<seq<nat>>, keys: seq<string>)
    requires Sorted(st, items, batches, keys)
    ensures forall k, id :: 0 <= k < |batches| && id in batches[k] ==> Service(st, id) == keys[k]
    ensures forall i, j :: 0 <= i < j < |keys| ==> keys[i] != keys[j]
  {
    forall k | 0 <= k < |batches| ensures forall id :: id in batches[k] ==> Service(st, id) == keys[k] { PickIs(st, items, keys[k]); }
  }

  // ---- the line of a service ---------------------------------------------------------------------------------------

  /** The batch of a worker that the sink has not been given yet. */
  function Unhanded(worker: Worker): seq<nat> {
    if worker.phase == Ready(false) then worker.held else []
  }

  /** Everything on its way to worker `w`, the first in line first, after what has reached the sink already. */
  function Row(s: State, w: nat): seq<nat>
    requires w < |s.crew|
  {
    s.h.handed + Unhanded(s.crew[w]) + s.crew[w].jobs + Flat(s.outbox) + s.pending + s.queue + Hand(s)
  }

  function Line(cfg: Config, s: State, v: string): seq<nat>
    requires cfg.workerOf(v) < |s.crew|
  {
    Pick(s.storage, Row(s, cfg.workerOf(v)), v)
  }

  ghost predicate Rising(ids: seq<nat>) {
    forall i, j :: 0 <= i < j < |ids| ==> ids[i] < ids[j]
  }

  /** Workers only get items of their services, and each batch has one service. */
  ghost predicate Routed(cfg: Config, s: State) {
    && |s.crew| == cfg.workers
    && (forall w, id :: 0 <= w < |s.crew| && (id in s.crew[w].jobs || id in Unhanded(s.crew[w])) ==> cfg.workerOf(Service(s.storage, id)) == w)
    && (forall b, i, j :: b in s.outbox && 0 <= i < |b| && 0 <= j < |b| ==> Service(s.storage, b[i]) == Service(s.storage, b[j]))
    && (forall b :: b in s.outbox ==> b != [])
  }

  /** Records are loaded in ID order: those still to come are above all that were loaded, and above the cursor. */
  ghost predicate InTurn(s: State) {
    && (s.cursor == 0 || s.cursor in s.h.loaded)
    && (Calm(s) ==> forall x, y :: x in s.storage.active && x !in s.h.loaded && y in s.h.loaded ==> y < x)
    && (forall id :: id in s.h.handed ==> id in s.h.loaded)
  }

  ghost predicate Lined(cfg: Config, s: State) {
    |s.crew| == cfg.workers && (Calm(s) ==> forall v :: cfg.workerOf(v) < cfg.workers ==> Rising(Line(cfg, s, v)))
  }

  /** The services of all records that were loaded are as they were. */
  ghost predicate SameServices(s: State, t: State) {
    forall id :: id in s.h.loaded ==> Service(t.storage, id) == Service(s.storage, id)
  }

  /** A row in three parts, in the ways that the actions divide it. */
  lemma Regroup<X>(a: seq<X>, b: seq<X>, c: seq<X>, d: seq<X>, e: seq<X>, f: seq<X>, g: seq<X>)
    ensures a + b + c + d + e + f + g == a + b + (c + d + e + f + g)
    ensures a + b + c + d + e + f + g == (a + b + c + d) + (e + f + g)
    ensures a + b + c + d + e + f + g == a + (b + c) + (d + e + f + g)
    ensures a + b + c + d + e + f + g == (a + b) + c + d + (e + f + g)
    ensures a + b + c + d + e + f + g == (a + b + c) + (d + e) + (f + g)
  {}

  lemma RowParts(s: State, w: nat)
    requires w < |s.crew|
    ensures var a, b, c, d, e, f, g := s.h.handed, Unhanded(s.crew[w]), s.crew[w].jobs, Flat(s.outbox), s.pending, s.queue, Hand(s);
            && Row(s, w) == a + b + (c + d + e + f + g) && Row(s, w) == (a + b + c + d) + (e + f + g) && Row(s, w) == a + (b + c) + (d + e + f + g)
            && Row(s, w) == (a + b) + c + d + (e + f + g) && Row(s, w) == (a + b + c) + (d + e) + (f + g)
  {
    hide Flat, Hand, Unhanded;
    Regroup(s.h.handed, Unhanded(s.crew[w]), s.crew[w].jobs, Flat(s.outbox), s.pending, s.queue, Hand(s));
  }

  lemma {:induction false} PickStays(st: Storage, st': Storage, ids: seq<nat>, v: string)
    requires forall id :: id in ids ==> Service(st', id) == Service(st, id)
    ensures Pick(st', ids, v) == Pick(st, ids, v)
  {
    if ids != [] { PickStays(st, st', ids[1..], v); }
  }

  lemma {:induction false} InFlat<X>(batches: seq<seq<X>>, x: X)
    requires x in Flat(batches)
    ensures exists b :: b in batches && x in b
  {
    if x !in batches[0] {
      InFlat(batches[1..], x);
      var b :| b in batches[1..] && x in b;
      assert b in batches;
    } else {
      assert batches[0] in batches;
    }
  }

  /** Everything in a row was loaded. */
  lemma RowLoaded(s: State, w: nat)
    requires Exclusive(s) && OwnersOk(s) && InTurn(s) && w < |s.crew|
    ensures forall id :: id in Row(s, w) ==> id in s.h.loaded
  {
    hide Flat, JobsOf, HeldOf;
    CrewAt(s.crew, w, s.crew[w]);
    forall id | id in Row(s, w) ensures id in s.h.loaded {
      RowPlaces(s, w, id);
      if id !in s.h.handed {
        assert id in multiset(s.inFlight);
      }
    }
  }

  lemma RowPlaces(s: State, w: nat, id: nat)
    requires w < |s.crew| && id in Row(s, w)
    ensures id in s.h.handed || id in Owned(s)
  {
    hide Flat, JobsOf, HeldOf;
    CrewAt(s.crew, w, s.crew[w]);
    var worker := s.crew[w];
    assert id in worker.jobs ==> id in multiset(worker.jobs);
    assert id in worker.held ==> id in multiset(worker.held);
    assert id in Flat(s.outbox) ==> id in multiset(Flat(s.outbox));
    assert id in s.queue ==> id in multiset(s.queue);
    assert id in s.pending ==> id in multiset(s.pending);
    assert id in Hand(s) ==> id in multiset(Hand(s));
    InAll(Spread(s), id);
  }

  lemma InAll(p: Places, id: nat)
    ensures id in p.hand || id in p.queue || id in p.pending || id in p.outbox || id in p.jobs || id in p.held ==> id in All(p)
  {}

  /** Rows that pick the same keep the lines in order. */
  lemma SameLines(cfg: Config, s: State, t: State)
    requires Lined(cfg, s) && |t.crew| == |s.crew| && (Calm(t) ==> Calm(s))
    requires Calm(t) ==> forall v :: cfg.workerOf(v) < cfg.workers ==> Line(cfg, t, v) == Line(cfg, s, v)
    ensures Lined(cfg, t)
  {
    hide Line, Rising;
  }

  // ---- actions that leave the rows alone -------------------------------------------------------------------------

  lemma SameRows(cfg: Config, s: State, t: State)
    requires Exclusive(s) && OwnersOk(s) && InTurn(s) && |t.crew| == |s.crew| == cfg.workers && SameServices(s, t)
    requires forall w :: 0 <= w < |s.crew| ==> Row(t, w) == Row(s, w)
    ensures forall v :: cfg.workerOf(v) < cfg.workers ==> Line(cfg, t, v) == Line(cfg, s, v)
  {
    hide Row, Exclusive;
    forall v | cfg.workerOf(v) < cfg.workers ensures Line(cfg, t, v) == Line(cfg, s, v) {
      RowLoaded(s, cfg.workerOf(v));
      PickStays(s.storage, t.storage, Row(s, cfg.workerOf(v)), v);
    }
  }

  /** What all of this takes from one state to the next. */
  ghost predicate Orderly(cfg: Config, s: State) {
    Routed(cfg, s) && InTurn(s) && Lined(cfg, s)
  }

  /** What the order of a state rests on beside it. */
  ghost predicate Sound(s: State) {
    Exclusive(s) && OwnersOk(s) && Steady(s) && Accounted(s)
  }

  /** Nothing in front of a worker changed, and the batches in its channel and in its hands are as they were. */
  ghost predicate SameFront(s: State, t: State) {
    && t.h.handed == s.h.handed && t.outbox == s.outbox && t.pending == s.pending && t.queue == s.queue && Hand(t) == Hand(s)
    && |t.crew| == |s.crew|
    && (forall w :: 0 <= w < |s.crew| ==> t.crew[w].jobs == s.crew[w].jobs && Unhanded(t.crew[w]) == Unhanded(s.crew[w]))
    && t.storage.services == s.storage.services && t.storage.active <= s.storage.active
    && t.h.loaded == s.h.loaded && t.cursor == s.cursor && (Calm(t) ==> Calm(s))
  }

  lemma FrontKept(cfg: Config, s: State, t: State)
    requires Orderly(cfg, s) && Exclusive(s) && OwnersOk(s) && SameFront(s, t)
    ensures Orderly(cfg, t)
  {
    forall w | 0 <= w < |s.crew| ensures Row(t, w) == Row(s, w) {}
    hide Exclusive, Row, Unhanded;
    SameRows(cfg, s, t);
    SameLines(cfg, s, t);
    FrontRouted(cfg, s, t);
  }

  lemma FrontRouted(cfg: Config, s: State, t: State)
    requires Routed(cfg, s) && SameFront(s, t)
    ensures Routed(cfg, t)
  {
    hide Unhanded, Calm;
    forall w, id | 0 <= w < |t.crew| && (id in t.crew[w].jobs || id in Unhanded(t.crew[w])) ensures cfg.workerOf(Service(t.storage, id)) == w {
      assert id in s.crew[w].jobs || id in Unhanded(s.crew[w]);
      assert Service(t.storage, id) == Service(s.storage, id);
    }
  }

  predicate Behind(a: Action) {
    (Still(a) && !a.Append?) || a.ReleaseDropped? || a.Release? || (OnlyPhase(a) && !a.Deliver?)
  }

  lemma BehindFront(cfg: Config, s: State, a: Action, t: State)
    requires Step(cfg, s, a, t) && Behind(a)
    ensures SameFront(s, t)
  {
    hide Step, DoorOpen, Passes, CanLoad, LoaderDoes, CanDispatch, DispatcherDoes, CanWork, WorkerDoes;
    if Calm(t) { CalmBefore(cfg, s, a, t); }
    StepOf(cfg, s, a, t);
    if Door(a) { DoorFront(cfg, s, a, t); }
    else if Loading(a) { LoaderFront(cfg, s, a, t); }
    else if Dispatching(a) { DispatcherFront(cfg, s, a, t); }
    else { WorkerFront(cfg, s, a, t); }
  }

  lemma DoorFront(cfg: Config, s: State, a: Action, t: State)
    requires Step(cfg, s, a, t) && Door(a) && !a.Append? && (Calm(t) ==> Calm(s))
    ensures SameFront(s, t)
  {
    hide Step;
    DoorStep(cfg, s, a, t);
  }

  lemma LoaderFront(cfg: Config, s: State, a: Action, t: State)
    requires Loading(a) && CanLoad(cfg, s, a) && LoaderDoes(cfg, s, a, t) && Still(a) && (Calm(t) ==> Calm(s))
    ensures SameFront(s, t)
  {
    hide Elements;
  }

  lemma DispatcherFront(cfg: Config, s: State, a: Action, t: State)
    requires Dispatching(a) && CanDispatch(cfg, s, a) && DispatcherDoes(cfg, s, a, t) && (a.StopDispatch? || a.ReleaseDropped?) && (Calm(t) ==> Calm(s))
    ensures SameFront(s, t)
  {
    hide Elements;
  }

  lemma WorkerFront(cfg: Config, s: State, a: Action, t: State)
    requires Working(a) && CanWork(cfg, s, a) && WorkerDoes(cfg, s, a, t) && !a.Start? && !a.Deliver? && (Calm(t) ==> Calm(s))
    ensures SameFront(s, t)
  {
    hide Exhausted, Answers, Elements, Counted, Calm;
  }

  // ---- actions that keep the rows, item by item --------------------------------------------------------------------

  lemma AppendOrderly(cfg: Config, s: State, a: Action, t: State)
    requires Step(cfg, s, a, t) && a.Append? && Orderly(cfg, s) && Sound(s)
    ensures Orderly(cfg, t)
  {
    hide Step, Exclusive, Steady, Row, Unhanded, Rising, Line;
    StillStep(cfg, s, a, t);
    AppendLedger(cfg, s, a, t);
    AppendNew(cfg, s, a, t);
    AppendRows(s, a, t);
    SameRows(cfg, s, t);
    SameLines(cfg, s, t);
    FrontLoaded(s);
    AppendRouted(cfg, s, a, t);
  }

  lemma AppendNew(cfg: Config, s: State, a: Action, t: State)
    requires Step(cfg, s, a, t) && a.Append? && OwnersOk(s)
    ensures a.id >= s.storage.nextID && a.id !in s.h.loaded && a.id !in s.h.admitted
  {}

  lemma AppendRows(s: State, a: Action, t: State)
    requires a.Append? && a.k in t.submits && t.submits[a.k].Appended? && t == Stored(s, a.k, a.id, t.submits[a.k].waits, a.service)
    ensures forall w :: 0 <= w < |s.crew| ==> Row(t, w) == Row(s, w)
    ensures t.h.handed == s.h.handed && Calm(t) == Calm(s)
  {
    assert Hand(t) == Hand(s);
  }

  /** The items that routing speaks of were loaded. */
  ghost predicate RoutedLoaded(s: State) {
    && (forall w, id :: 0 <= w < |s.crew| && (id in s.crew[w].jobs || id in Unhanded(s.crew[w])) ==> id in s.h.loaded)
    && (forall b, id :: b in s.outbox && id in b ==> id in s.h.loaded)
  }

  lemma FrontLoaded(s: State)
    requires Exclusive(s) && OwnersOk(s) && InTurn(s)
    ensures RoutedLoaded(s)
  {
    hide Exclusive;
    forall w, id | 0 <= w < |s.crew| && (id in s.crew[w].jobs || id in Unhanded(s.crew[w])) ensures id in s.h.loaded {
      RowLoaded(s, w);
      assert id in Row(s, w);
    }
    forall b, id | b in s.outbox && id in b ensures id in s.h.loaded {
      OutboxOwned(s, b, id);
      OwnedLoaded(s, id);
    }
  }

  lemma OwnedLoaded(s: State, id: nat)
    requires Exclusive(s) && OwnersOk(s) && id in Owned(s)
    ensures id in s.h.loaded
  {
    hide Owned;
    assert id in multiset(s.inFlight);
  }

  lemma {:induction false} HasFlat<X>(batches: seq<seq<X>>, b: seq<X>, x: X)
    requires b in batches && x in b
    ensures x in Flat(batches)
  {
    if b != batches[0] { HasFlat(batches[1..], b, x); }
  }

  lemma OutboxOwned(s: State, b: seq<nat>, id: nat)
    requires b in s.outbox && id in b
    ensures id in Owned(s)
  {
    hide Flat, JobsOf, HeldOf;
    HasFlat(s.outbox, b, id);
    assert id in multiset(Flat(s.outbox));
    InAll(Spread(s), id);
  }

  lemma AppendRouted(cfg: Config, s: State, a: Action, t: State)
    requires Routed(cfg, s) && RoutedLoaded(s) && a.Append? && a.id !in s.h.loaded && t.crew == s.crew && t.outbox == s.outbox
    requires forall id :: id != a.id ==> Service(t.storage, id) == Service(s.storage, id)
    ensures Routed(cfg, t)
  {
    hide Unhanded;
    forall b, i, j | b in t.outbox && 0 <= i < |b| && 0 <= j < |b| ensures Service(t.storage, b[i]) == Service(t.storage, b[j]) {
      assert b[i] in b && b[j] in b;
    }
  }

  /** Put and Receive hand the first item on. */
  lemma HandOn(cfg: Config, s: State, a: Action, t: State)
    requires Step(cfg, s, a, t) && (a.Put? || a.Receive?) && Orderly(cfg, s) && Sound(s)
    ensures Orderly(cfg, t)
  {
    hide Step, Exclusive, Steady, Accounted, Rising, Line, Row, Unhanded, Flat;
    HandOnStep(cfg, s, a, t);
    assert t.pending + t.queue + Hand(t) == s.pending + s.queue + Hand(s) by {
      if a.Receive? { assert s.queue == [s.queue[0]] + s.queue[1..]; }
    }
    forall w | 0 <= w < |s.crew| ensures Row(t, w) == Row(s, w) {
      RowParts(s, w);
      RowParts(t, w);
    }
    SameRows(cfg, s, t);
    SameLines(cfg, s, t);
  }

  lemma HandOnStep(cfg: Config, s: State, a: Action, t: State)
    requires Step(cfg, s, a, t) && (a.Put? || a.Receive?)
    ensures t.crew == s.crew && t.storage == s.storage && t.h == s.h && t.outbox == s.outbox && t.cursor == s.cursor && Calm(t) == Calm(s)
    ensures a.Put? ==> t.pending == s.pending && t.queue == s.queue + Hand(s) && Hand(t) == []
    ensures a.Receive? ==> s.queue != [] && t.pending == s.pending + [s.queue[0]] && t.queue == s.queue[1..] && Hand(t) == Hand(s)
  {
    hide Passes, WorkerDoes, CanWork, DoorOpen;
  }

  /** Flush sorts the pending items without changing the order within a service. */
  lemma FlushOrderly(cfg: Config, s: State, a: Action, t: State)
    requires Step(cfg, s, a, t) && a.Flush? && Orderly(cfg, s) && Sound(s)
    ensures Orderly(cfg, t)
  {
    hide Step, Exclusive, Steady, Accounted, Rising, OwnersOk, Flat, Pick;
    FlushStep(cfg, s, a, t);
    assert s.outbox == [] && t.pending == [];
    forall v | cfg.workerOf(v) < cfg.workers ensures Line(cfg, t, v) == Line(cfg, s, v) {
      FlushLine(s, t, cfg.workerOf(v), v);
    }
    SameLines(cfg, s, t);
  }

  lemma FlushLine(s: State, t: State, w: nat, v: string)
    requires w < |s.crew| && t == s.(pending := [], outbox := t.outbox) && s.outbox == []
    requires Pick(s.storage, Flat(t.outbox), v) == Pick(s.storage, s.pending, v)
    ensures Pick(t.storage, Row(t, w), v) == Pick(s.storage, Row(s, w), v)
  {
    SameHand(s, t);
    RowParts(s, w);
    RowParts(t, w);
    assert Flat(s.outbox) == [];
    hide Flat, Unhanded, Hand, Row, Pick;
    var front, back := s.h.handed + Unhanded(s.crew[w]) + s.crew[w].jobs, s.queue + Hand(s);
    assert Flat(s.outbox) + s.pending == s.pending && Flat(t.outbox) + t.pending == Flat(t.outbox);
    ThreePicks(s.storage, front, s.pending, back, v);
    ThreePicks(s.storage, front, Flat(t.outbox), back, v);
  }

  lemma SameHand(s: State, t: State)
    requires t.loader == s.loader
    ensures Hand(t) == Hand(s)
  {}

  lemma ThreePicks(st: Storage, a: seq<nat>, b: seq<nat>, c: seq<nat>, v: string)
    ensures Pick(st, a + b + c, v) == Pick(st, a, v) + Pick(st, b, v) + Pick(st, c, v)
  {
    PickJoins(st, a + b, c, v);
    PickJoins(st, a, b, v);
  }

  /** Send moves a batch to the worker of its service, where nothing else is ahead of it in the channel. */
  lemma SendOrderly(cfg: Config, s: State, t: State)
    requires Step(cfg, s, Send, t) && Orderly(cfg, s) && Sound(s) && cfg.Lawful()
    ensures Orderly(cfg, t)
  {
    hide Step, Exclusive, Steady, Accounted, Rising, OwnersOk, Flat, Pick, Row;
    SendStep(cfg, s, t);
    SendRouted(cfg, s, t);
    forall v | cfg.workerOf(v) < cfg.workers ensures Line(cfg, t, v) == Line(cfg, s, v) {
      SendLine(cfg, s, t, v);
    }
    SameLines(cfg, s, t);
  }

  lemma SendRouted(cfg: Config, s: State, t: State)
    requires s.outbox != [] && Target(cfg, s) < |s.crew| && Routed(cfg, s)
    requires t == s.(outbox := s.outbox[1..], crew := s.crew[Target(cfg, s) := s.crew[Target(cfg, s)].(jobs := s.outbox[0])])
    ensures Routed(cfg, t)
    ensures forall id :: id in s.outbox[0] ==> cfg.workerOf(Service(s.storage, id)) == Target(cfg, s)
  {
    assert s.outbox[0] in s.outbox;
    forall id | id in s.outbox[0] ensures cfg.workerOf(Service(s.storage, id)) == Target(cfg, s) {
      var j :| 0 <= j < |s.outbox[0]| && s.outbox[0][j] == id;
    }
    forall b | b in t.outbox ensures b in s.outbox {}
  }

  lemma SendUnhanded(s: State, t: State, u: nat, w: nat)
    requires s.outbox != [] && u < |s.crew| && w < |s.crew| && t.crew == s.crew[u := s.crew[u].(jobs := s.outbox[0])]
    ensures Unhanded(t.crew[w]) == Unhanded(s.crew[w]) && t.crew[w].jobs == if w == u then s.outbox[0] else s.crew[w].jobs
  {}

  lemma FlatFirst<X>(batches: seq<seq<X>>)
    requires batches != []
    ensures Flat(batches) == batches[0] + Flat(batches[1..])
  {}

  /** A batch that moves into an empty channel, or one that is none of this line's business. */
  lemma SendPicks(st: Storage, front: seq<nat>, jobs: seq<nat>, batch: seq<nat>, rest: seq<nat>, back: seq<nat>, v: string, here: bool)
    requires if here then jobs == [] else forall id :: id in batch ==> Service(st, id) != v
    ensures Pick(st, front + (if here then batch else jobs) + rest + back, v) == Pick(st, front + jobs + (batch + rest) + back, v)
  {
    hide Pick;
    FourPicks(st, front, jobs, batch + rest, back, v);
    PickJoins(st, batch, rest, v);
    if here {
      FourPicks(st, front, batch, rest, back, v);
      PickNone(st, jobs, v);
    } else {
      FourPicks(st, front, jobs, rest, back, v);
      PickNone(st, batch, v);
    }
  }

  lemma SendLine(cfg: Config, s: State, t: State, v: string)
    requires s.outbox != [] && Target(cfg, s) < |s.crew| && s.crew[Target(cfg, s)].jobs == [] && cfg.workerOf(v) < |s.crew|
    requires t == s.(outbox := s.outbox[1..], crew := s.crew[Target(cfg, s) := s.crew[Target(cfg, s)].(jobs := s.outbox[0])])
    requires forall id :: id in s.outbox[0] ==> cfg.workerOf(Service(s.storage, id)) == Target(cfg, s)
    ensures Line(cfg, t, v) == Line(cfg, s, v)
  {
    var w := cfg.workerOf(v);
    SameHand(s, t);
    SendUnhanded(s, t, Target(cfg, s), w);
    FlatFirst(s.outbox);
    RowParts(s, w);
    RowParts(t, w);
    hide Flat, Unhanded, Hand, Row, Pick, Target;
    var front, back := s.h.handed + Unhanded(s.crew[w]), s.pending + s.queue + Hand(s);
    SendPicks(s.storage, front, s.crew[w].jobs, s.outbox[0], Flat(s.outbox[1..]), back, v, w == Target(cfg, s));
  }

  lemma FourPicks(st: Storage, a: seq<nat>, b: seq<nat>, c: seq<nat>, d: seq<nat>, v: string)
    ensures Pick(st, a + b + c + d, v) == Pick(st, a, v) + Pick(st, b, v) + Pick(st, c, v) + Pick(st, d, v)
  {
    PickJoins(st, a + b + c, d, v);
    ThreePicks(st, a, b, c, v);
  }

  /** Start: the worker takes the batch out of its channel. */
  lemma StartOrderly(cfg: Config, s: State, a: Action, t: State)
    requires Step(cfg, s, a, t) && a.Start? && Orderly(cfg, s) && Sound(s)
    ensures Orderly(cfg, t)
  {
    hide Step, Exclusive, Steady, Accounted, Rising, Line, Flat, Row, Hand;
    StartStep(cfg, s, a.w, t);
    SameHand(s, t);
    forall w | 0 <= w < |s.crew| ensures Row(t, w) == Row(s, w) {
      RowParts(s, w);
      RowParts(t, w);
      assert Unhanded(t.crew[w]) + t.crew[w].jobs == Unhanded(s.crew[w]) + s.crew[w].jobs;
    }
    SameRows(cfg, s, t);
    SameLines(cfg, s, t);
  }

  /** Deliver: the first time, the batch joins what has reached the sink. */
  lemma DeliverOrderly(cfg: Config, s: State, a: Action, t: State)
    requires Step(cfg, s, a, t) && a.Deliver? && Orderly(cfg, s) && Sound(s)
    ensures Orderly(cfg, t)
  {
    hide Step, Steady, Accounted, Rising, Pick, Row, Owned, Early;
    DeliverFront(cfg, s, a, t);
    HeldApart(s, a.w);
    hide Exclusive;
    forall v | cfg.workerOf(v) < cfg.workers ensures Line(cfg, t, v) == Line(cfg, s, v) {
      DeliverLine(cfg, s, a.w, t, v);
    }
    SameLines(cfg, s, t);
  }

  lemma DeliverFront(cfg: Config, s: State, a: Action, t: State)
    requires Step(cfg, s, a, t) && a.Deliver?
    ensures a.w < |s.crew| == |t.crew| && Unhanded(t.crew[a.w]) == [] && t.crew[a.w].jobs == s.crew[a.w].jobs
    ensures forall w :: 0 <= w < |s.crew| && w != a.w ==> t.crew[w] == s.crew[w]
    ensures t.h.handed == s.h.handed + Unhanded(s.crew[a.w]) && (forall id :: id in Unhanded(s.crew[a.w]) ==> id in s.crew[a.w].held)
    ensures t.outbox == s.outbox && t.pending == s.pending && t.queue == s.queue && t.loader == s.loader
    ensures t.storage == s.storage && t.h.loaded == s.h.loaded && t.cursor == s.cursor && Calm(t) == Calm(s)
  {
    hide Step, Counted;
    WorkerStep(cfg, s, a, t);
  }

  lemma DeliverOther(s: State, u: nat, w: nat, v: string)
    requires u < |s.crew| && forall id :: id in Unhanded(s.crew[u]) ==> Service(s.storage, id) != v
    ensures Pick(s.storage, s.h.handed + Unhanded(s.crew[u]), v) == Pick(s.storage, s.h.handed, v)
  {
    hide Pick, Unhanded;
    PickJoins(s.storage, s.h.handed, Unhanded(s.crew[u]), v);
    PickNone(s.storage, Unhanded(s.crew[u]), v);
  }

  lemma DeliverLine(cfg: Config, s: State, u: nat, t: State, v: string)
    requires Routed(cfg, s) && u < |s.crew| == |t.crew| && Unhanded(t.crew[u]) == [] && t.crew[u].jobs == s.crew[u].jobs
    requires forall w :: 0 <= w < |s.crew| && w != u ==> t.crew[w] == s.crew[w]
    requires t.h.handed == s.h.handed + Unhanded(s.crew[u]) && cfg.workerOf(v) < |s.crew|
    requires t.outbox == s.outbox && t.pending == s.pending && t.queue == s.queue && t.loader == s.loader && t.storage == s.storage
    ensures Line(cfg, t, v) == Line(cfg, s, v)
  {
    var w := cfg.workerOf(v);
    SameHand(s, t);
    RowParts(s, w);
    RowParts(t, w);
    hide Flat, Unhanded, Hand, Row, Pick;
    var back := s.crew[w].jobs + Flat(s.outbox) + s.pending + s.queue + Hand(s);
    if w == u {
      assert t.h.handed + [] == s.h.handed + Unhanded(s.crew[u]);
    } else {
      DeliverOther(s, u, w, v);
      ThreePicks(s.storage, s.h.handed, Unhanded(s.crew[w]), back, v);
      ThreePicks(s.storage, t.h.handed, Unhanded(s.crew[w]), back, v);
    }
  }

  // ---- the loader, which extends the rows --------------------------------------------------------------------------

  lemma LoadOrderly(cfg: Config, s: State, t: State)
    requires Step(cfg, s, Load, t) && Orderly(cfg, s) && Sound(s)
    ensures Orderly(cfg, t)
  {
    hide Step, Loads, Exclusive, Accounted, Row, Unhanded;
    LoadStep(cfg, s, t);
    var id := LoadTurn(s, t);
    if t == Loaded(s, id) && id !in s.inFlight {
      TakenOrderly(cfg, s, id, t);
    } else {
      LoadFront(s, t);
      forall w | 0 <= w < |s.crew| ensures Row(t, w) == Row(s, w) { SameRow(s, t, w); }
      SameRows(cfg, s, t);
      SameLines(cfg, s, t);
    }
  }

  lemma SameRow(s: State, t: State, w: nat)
    requires w < |s.crew| && t.crew == s.crew && t.h.handed == s.h.handed && t.outbox == s.outbox && t.pending == s.pending && t.queue == s.queue
    requires Hand(t) == Hand(s)
    ensures Row(t, w) == Row(s, w)
  {
    hide Flat, Hand, Unhanded;
  }

  lemma LoadTurn(s: State, t: State) returns (id: nat)
    requires Loads(s, t)
    ensures (t == s.(cursor := id) && id in s.inFlight) || t == s.(cursor := 0, loader := Peeking)
         || (t == Loaded(s, id) && IsNext(s.storage, s.cursor, id) && id !in s.inFlight)
  {
    hide IsNext, NoneAfter;
    id := 0;
    if x :| IsNext(s.storage, s.cursor, x) && t == (if x in s.inFlight then s.(cursor := x) else Loaded(s, x)) { id := x; }
  }

  lemma LoadFront(s: State, t: State)
    requires (exists id :: t == s.(cursor := id)) || t == s.(cursor := 0, loader := Peeking)
    requires s.loader.Looking?
    ensures t.crew == s.crew && t.h == s.h && t.outbox == s.outbox && t.pending == s.pending && t.queue == s.queue && Hand(t) == Hand(s)
    ensures t.storage == s.storage && Calm(t) == Calm(s)
  {}

  lemma TakenOrderly(cfg: Config, s: State, id: nat, t: State)
    requires Orderly(cfg, s) && Sound(s) && t == Loaded(s, id) && IsNext(s.storage, s.cursor, id) && id !in s.inFlight && s.loader.Looking?
    ensures Orderly(cfg, t)
  {
    hide Exclusive, Accounted, Row, Unhanded, Rising, Line;
    TakenRows(s, id, t);
    if Calm(s) {
      assert id !in s.h.loaded;
      forall v | cfg.workerOf(v) < cfg.workers ensures Rising(Line(cfg, t, v)) {
        RowLoaded(s, cfg.workerOf(v));
        TakenLine(cfg, s, id, t, v);
      }
    }
    TakenInTurn(s, id, t);
  }

  lemma TakenInTurn(s: State, id: nat, t: State)
    requires InTurn(s) && Accounted(s) && IsNext(s.storage, s.cursor, id) && t.storage == s.storage && t.cursor == id && Calm(t) == Calm(s)
    requires t.h.loaded == s.h.loaded + {id} && t.h.handed == s.h.handed && (Calm(s) ==> id !in s.h.loaded)
    ensures InTurn(t)
  {
    if Calm(t) {
      forall x, y | x in t.storage.active && x !in t.h.loaded && y in t.h.loaded ensures y < x {
        assert x in s.h.admitted;
        assert x > s.cursor;
      }
    }
  }

  lemma TakenRows(s: State, id: nat, t: State)
    requires t == Loaded(s, id) && s.loader.Looking?
    ensures t.crew == s.crew && t.storage == s.storage && t.outbox == s.outbox && t.h.handed == s.h.handed && Calm(t) == Calm(s)
    ensures t.h.loaded == s.h.loaded + {id} && t.cursor == id
    ensures forall w :: 0 <= w < |s.crew| ==> Row(t, w) == Row(s, w) + [id]
  {
    hide Flat, Unhanded;
    assert Hand(t) == [id] && Hand(s) == [];
  }

  lemma TakenLine(cfg: Config, s: State, id: nat, t: State, v: string)
    requires cfg.workerOf(v) < |s.crew| == |t.crew| && t.storage == s.storage && Row(t, cfg.workerOf(v)) == Row(s, cfg.workerOf(v)) + [id]
    requires Rising(Line(cfg, s, v)) && forall x :: x in Row(s, cfg.workerOf(v)) ==> x < id
    ensures Rising(Line(cfg, t, v))
  {
    hide Row;
    var row := Row(s, cfg.workerOf(v));
    PickOne(s.storage, row, id, v);
    PickIs(s.storage, row, v);
    var line := Pick(s.storage, row, v);
    forall i | 0 <= i < |line| ensures line[i] < id { assert line[i] in line; }
  }

  // ---- every run -----------------------------------------------------------------------------------------------------

  /** On cancellation items only leave the line. */
  lemma DropOrderly(cfg: Config, s: State, a: Action, t: State)
    requires Step(cfg, s, a, t) && (Drops(a) || a.DropHand?) && Orderly(cfg, s) && Steady(s)
    ensures Orderly(cfg, t)
  {
    hide Step, Line, Rising;
    if Calm(t) { CalmBefore(cfg, s, a, t); QueuedCalm(cfg, s, a, t); }
    DropFront(cfg, s, a, t);
  }

  lemma QueuedCalm(cfg: Config, s: State, a: Action, t: State)
    requires Step(cfg, s, a, t) && a.DropQueued? && Calm(t)
    ensures s.dispatcher.Draining?
  {
    hide Answers;
  }

  lemma DropFront(cfg: Config, s: State, a: Action, t: State)
    requires Step(cfg, s, a, t) && (Drops(a) || a.DropHand?)
    ensures t.crew == s.crew && t.storage == s.storage && t.cursor == s.cursor && t.h.loaded == s.h.loaded && t.h.handed == s.h.handed
    ensures forall b :: b in t.outbox ==> b in s.outbox
    ensures Calm(t) == Calm(s)
  {
    hide Step, Answers, Elements;
    StepOf(cfg, s, a, t);
  }

  lemma OrderlyKept(cfg: Config, s: State, a: Action, t: State)
    requires Step(cfg, s, a, t) && Orderly(cfg, s) && Sound(s) && cfg.Lawful()
    ensures Orderly(cfg, t)
  {
    hide Step, Orderly, SameFront;
    if a.Append? { AppendOrderly(cfg, s, a, t); }
    else if a.Load? { LoadOrderly(cfg, s, t); }
    else if a.Put? || a.Receive? { HandOn(cfg, s, a, t); }
    else if a.Flush? { FlushOrderly(cfg, s, a, t); }
    else if a.Send? { SendOrderly(cfg, s, t); }
    else if a.Start? { StartOrderly(cfg, s, a, t); }
    else if a.Deliver? { DeliverOrderly(cfg, s, a, t); }
    else if Drops(a) || a.DropHand? { DropOrderly(cfg, s, a, t); }
    else { BehindFront(cfg, s, a, t); FrontKept(cfg, s, t); }
  }

  lemma InitialOrderly(cfg: Config, s: State)
    requires Initial(cfg, s)
    ensures Orderly(cfg, s)
  {
    forall w | 0 <= w < |s.crew| ensures Row(s, w) == [] {}
    hide Row;
    forall v | cfg.workerOf(v) < cfg.workers ensures Rising(Line(cfg, s, v)) { assert Line(cfg, s, v) == []; }
  }

  lemma {:induction false} AlwaysOrderly(cfg: Config, xs: seq<State>, actions: seq<Action>, n: nat)
    requires Run(cfg, xs, actions) && n < |xs|
    ensures Orderly(cfg, xs[n]) && Sound(xs[n])
  {
    hide Step, Orderly, Exclusive, Steady, Accounted, Alive, Tallied, OwnersOk;
    AlwaysTallied(cfg, xs, actions, n);
    if n == 0 {
      InitialOrderly(cfg, xs[0]);
    } else {
      AlwaysOrderly(cfg, xs, actions, n - 1);
      assert Takes(cfg, xs, actions, n - 1);
      OrderlyKept(cfg, xs[n - 1], actions[n - 1], xs[n]);
    }
  }

  lemma RisingParts(a: seq<nat>, b: seq<nat>, x: nat, y: nat)
    requires Rising(a + b) && x in a && y in b
    ensures x < y
  {
    var i :| 0 <= i < |a| && a[i] == x;
    var j :| 0 <= j < |b| && b[j] == y;
    assert (a + b)[i] == x && (a + b)[|a| + j] == y;
  }

  lemma RisingPick(st: Storage, ids: seq<nat>, v: string, i: nat, j: nat)
    requires Rising(Pick(st, ids, v)) && i < j < |ids| && Service(st, ids[i]) == Service(st, ids[j]) == v
    ensures ids[i] < ids[j]
  {
    hide Rising, Pick;
    var front, back := ids[..j], ids[j..];
    assert ids == front + back && front[i] == ids[i] && back[0] == ids[j];
    PickJoins(st, front, back, v);
    PickIs(st, front, v);
    PickIs(st, back, v);
    RisingParts(Pick(st, front, v), Pick(st, back, v), ids[i], ids[j]);
  }

  /**
   * Per-service order: in a run in which nothing is cancelled and every retry can be noted, the records of one service
   * reach the sink for the first time in the order of their IDs.
   */
  lemma ServiceOrder(cfg: Config, xs: seq<State>, actions: seq<Action>, n: nat, i: nat, j: nat)
    requires Run(cfg, xs, actions) && n < |xs| && Calm(xs[n])
    requires i < j < |xs[n].h.handed| && Service(xs[n].storage, xs[n].h.handed[i]) == Service(xs[n].storage, xs[n].h.handed[j])
    ensures xs[n].h.handed[i] < xs[n].h.handed[j]
  {
    hide Run, Sound, Routed, InTurn, Row;
    AlwaysOrderly(cfg, xs, actions, n);
    RunLawful(cfg, xs, actions);
    var s := xs[n];
    var v := Service(s.storage, s.h.handed[i]);
    var w := cfg.workerOf(v);
    var rest := Unhanded(s.crew[w]) + s.crew[w].jobs + Flat(s.outbox) + s.pending + s.queue + Hand(s);
    RowStarts(s, w);
    hide Pick, Flat, Unhanded, Hand;
    assert Row(s, w)[i] == s.h.handed[i] && Row(s, w)[j] == s.h.handed[j];
    RisingPick(s.storage, Row(s, w), v, i, j);
  }

  lemma RunLawful(cfg: Config, xs: seq<State>, actions: seq<Action>)
    requires Run(cfg, xs, actions)
    ensures cfg.Lawful()
  {}

  lemma RowStarts(s: State, w: nat)
    requires w < |s.crew|
    ensures s.h.handed <= Row(s, w)
  {
    hide Flat, Unhanded, Hand;
  }
}
