/** Who has a record: at every moment of every run, each record in flight is in exactly one place. */
module PipelineOwners {
  import opened Telemetry
  import opened Pipeline

  function Hand(s: State): seq<nat> {
    if s.loader.Holding? then [s.loader.id] else []
  }

  function JobsOf(crew: seq<Worker>): seq<nat> {
    if crew == [] then [] else crew[0].jobs + JobsOf(crew[1..])
  }

  function HeldOf(crew: seq<Worker>): seq<nat> {
    if crew == [] then [] else crew[0].held + HeldOf(crew[1..])
  }

  /** The records in each kind of place. */
  datatype Places = Places(
    hand: multiset<nat>, queue: multiset<nat>, pending: multiset<nat>, outbox: multiset<nat>, jobs: multiset<nat>,
    dropping: multiset<nat>, held: multiset<nat>)

  ghost function Spread(s: State): Places {
    Places(multiset(Hand(s)), multiset(s.queue), multiset(s.pending), multiset(Flat(s.outbox)), multiset(JobsOf(s.crew)),
           multiset(s.dropping), multiset(HeldOf(s.crew)))
  }

  /** Everything before a worker: loader, queue, dispatcher and job channels. */
  ghost function Ahead(p: Places): multiset<nat> {
    p.hand + p.queue + p.pending + p.outbox + p.jobs
  }

  /** Everything that any goroutine or channel has. */
  ghost function All(p: Places): multiset<nat> {
    Ahead(p) + p.dropping + p.held
  }

  ghost function Early(s: State): multiset<nat> {
    Ahead(Spread(s))
  }

  ghost function Owned(s: State): multiset<nat> {
    All(Spread(s))
  }

  ghost predicate Busy(p: Phase) {
    p.Ready? || p.Consumed? || p.Failed?
  }

  /** The records in flight are those that something has, each once. */
  ghost predicate Exclusive(s: State) {
    && Owned(s) == multiset(s.inFlight)
    && forall w :: 0 <= w < |s.crew| ==> (s.crew[w].phase.Free? <==> s.crew[w].held == [])
  }

  /** What is on its way to the sink, or may go there again, is active. */
  ghost predicate Alive(s: State) {
    && (forall id :: id in Early(s) ==> id in s.storage.active)
    && (forall w, id :: 0 <= w < |s.crew| && Busy(s.crew[w].phase) && id in s.crew[w].held ==> id in s.storage.active)
  }

  /** Every admitted record is active, acknowledged or quarantined, and only one of these. */
  ghost predicate Accounted(s: State) {
    && s.h.admitted == s.storage.active + s.h.acked + s.h.quarantined
    && s.storage.active !! s.h.acked && s.storage.active !! s.h.quarantined && s.h.acked !! s.h.quarantined
    && (forall id :: id in s.h.admitted ==> 0 < id < s.storage.nextID && id in s.storage.attempts && id in s.h.initial)
    && s.storage.nextID > 0
  }

  // ---- places ------------------------------------------------------------------------------------------------

  lemma Around(a: multiset<nat>, m: multiset<nat>, x: multiset<nat>, y: multiset<nat>)
    requires x <= m
    ensures a + (m - x + y) == a + m - x + y && x <= a + m && x + m - x == m
  {}

  lemma Exchanged(x: multiset<nat>, y: multiset<nat>, m: multiset<nat>)
    ensures y + m == x + m - x + y && x <= x + m
  {}

  lemma JobsHead(crew: seq<Worker>)
    requires crew != []
    ensures multiset(JobsOf(crew)) == multiset(crew[0].jobs) + multiset(JobsOf(crew[1..]))
  {}

  lemma {:induction false} JobsAt(crew: seq<Worker>, w: nat, worker: Worker)
    requires w < |crew|
    ensures multiset(JobsOf(crew[w := worker])) == multiset(JobsOf(crew)) - multiset(crew[w].jobs) + multiset(worker.jobs)
    ensures multiset(crew[w].jobs) <= multiset(JobsOf(crew))
  {
    hide JobsOf;
    var next := crew[w := worker];
    JobsHead(crew);
    JobsHead(next);
    if w == 0 {
      assert next[1..] == crew[1..];
      Exchanged(multiset(crew[0].jobs), multiset(worker.jobs), multiset(JobsOf(crew[1..])));
    } else {
      assert next[1..] == crew[1..][w - 1 := worker] && next[0] == crew[0] && crew[1..][w - 1] == crew[w];
      JobsAt(crew[1..], w - 1, worker);
      Around(multiset(crew[0].jobs), multiset(JobsOf(crew[1..])), multiset(crew[w].jobs), multiset(worker.jobs));
    }
  }

  lemma HeldHead(crew: seq<Worker>)
    requires crew != []
    ensures multiset(HeldOf(crew)) == multiset(crew[0].held) + multiset(HeldOf(crew[1..]))
  {}

  lemma {:induction false} HeldAt(crew: seq<Worker>, w: nat, worker: Worker)
    requires w < |crew|
    ensures multiset(HeldOf(crew[w := worker])) == multiset(HeldOf(crew)) - multiset(crew[w].held) + multiset(worker.held)
    ensures multiset(crew[w].held) <= multiset(HeldOf(crew))
  {
    hide HeldOf;
    var next := crew[w := worker];
    HeldHead(crew);
    HeldHead(next);
    if w == 0 {
      assert next[1..] == crew[1..];
      Exchanged(multiset(crew[0].held), multiset(worker.held), multiset(HeldOf(crew[1..])));
    } else {
      assert next[1..] == crew[1..][w - 1 := worker] && next[0] == crew[0] && crew[1..][w - 1] == crew[w];
      HeldAt(crew[1..], w - 1, worker);
      Around(multiset(crew[0].held), multiset(HeldOf(crew[1..])), multiset(crew[w].held), multiset(worker.held));
    }
  }

  lemma CrewAt(crew: seq<Worker>, w: nat, worker: Worker)
    requires w < |crew|
    ensures multiset(JobsOf(crew[w := worker])) == multiset(JobsOf(crew)) - multiset(crew[w].jobs) + multiset(worker.jobs)
    ensures multiset(HeldOf(crew[w := worker])) == multiset(HeldOf(crew)) - multiset(crew[w].held) + multiset(worker.held)
    ensures multiset(crew[w].jobs) <= multiset(JobsOf(crew)) && multiset(crew[w].held) <= multiset(HeldOf(crew))
  {
    hide JobsOf, HeldOf;
    JobsAt(crew, w, worker);
    HeldAt(crew, w, worker);
  }

  lemma {:induction false} CrewApart(crew: seq<Worker>, v: nat, w: nat, id: nat)
    requires v < |crew| && w < |crew| && v != w && id in crew[v].held && id in crew[w].held
    ensures multiset(HeldOf(crew))[id] >= 2
  {
    if v == 0 || w == 0 {
      var other := if v == 0 then w else v;
      CrewAt(crew[1..], other - 1, crew[other]);
      assert id in multiset(crew[other].held);
      assert id in multiset(crew[0].held);
    } else {
      CrewApart(crew[1..], v - 1, w - 1, id);
    }
  }

  lemma {:induction false} NobodyHas(crew: seq<Worker>)
    requires forall w :: 0 <= w < |crew| ==> crew[w] == Worker([], [], Free)
    ensures JobsOf(crew) == [] && HeldOf(crew) == []
  {
    if crew != [] { NobodyHas(crew[1..]); }
  }

  /** What a worker holds is nowhere else. */
  lemma HeldApart(s: State, w: nat)
    requires Exclusive(s) && w < |s.crew|
    ensures forall id :: id in s.crew[w].held ==> id !in Early(s) && id !in s.dropping && id in s.inFlight
    ensures forall v, id :: 0 <= v < |s.crew| && v != w && id in s.crew[w].held ==> id !in s.crew[v].held
  {
    hide HeldOf, JobsOf, Flat;
    CrewAt(s.crew, w, s.crew[w]);
    forall id | id in s.crew[w].held ensures id !in Early(s) && id !in s.dropping && id in s.inFlight {
      assert id in multiset(s.crew[w].held);
      Lone(Spread(s), s.inFlight, id);
      assert id in s.dropping ==> id in Spread(s).dropping;
    }
    forall v, id | 0 <= v < |s.crew| && v != w && id in s.crew[w].held ensures id !in s.crew[v].held {
      assert id in multiset(s.crew[w].held);
      Lone(Spread(s), s.inFlight, id);
      if id in s.crew[v].held { CrewApart(s.crew, v, w, id); }
    }
  }

  lemma Lone(p: Places, inFlight: set<nat>, id: nat)
    requires All(p) == multiset(inFlight) && id in p.held
    ensures p.held[id] == 1 && id !in Ahead(p) && id !in p.dropping && id in inFlight
  {
    assert All(p)[id] == multiset(inFlight)[id] <= 1;
  }

  lemma FlatHead<X>(batches: seq<seq<X>>)
    requires batches != []
    ensures multiset(Flat(batches)) == multiset(batches[0]) + multiset(Flat(batches[1..]))
  {}

  lemma Split(s: seq<nat>)
    requires s != []
    ensures multiset(s) == multiset{s[0]} + multiset(s[1..])
  {
    assert s == [s[0]] + s[1..];
  }

  lemma OfElements(batch: seq<nat>, all: set<nat>, rest: multiset<nat>)
    requires multiset(batch) + rest == multiset(all)
    ensures rest == multiset(all - Elements(batch))
  {
    forall id ensures rest[id] == multiset(all - Elements(batch))[id] {
      assert multiset(all)[id] == multiset(batch)[id] + rest[id];
      assert id in batch <==> multiset(batch)[id] > 0;
    }
  }

  // ---- actions that move nothing -------------------------------------------------------------------------------

  ghost predicate SamePlaces(s: State, t: State) {
    && Hand(t) == Hand(s) && t.queue == s.queue && t.pending == s.pending && t.outbox == s.outbox && t.dropping == s.dropping
    && t.crew == s.crew && t.inFlight == s.inFlight && s.storage.active <= t.storage.active
  }

  predicate Still(a: Action) {
    a.Enter? || a.Append? || a.Reject? || a.Register? || a.Leave? || a.CloseAdmission? || a.Cancel?
    || a.LoadFails? || a.Peek? || a.Check? || a.Wake? || a.QuitLoading? || a.StopDispatch?
  }

  lemma StillStep(cfg: Config, s: State, a: Action, t: State)
    requires Step(cfg, s, a, t) && Still(a)
    ensures SamePlaces(s, t)
  {
    hide Splits, IsNext, NoneAfter, Exhausted;
  }

  lemma SameOwners(s: State, t: State)
    requires Exclusive(s) && Alive(s) && SamePlaces(s, t)
    ensures Exclusive(t) && Alive(t)
  {}

  // ---- the loader and the dispatcher ---------------------------------------------------------------------------

  lemma LoadStep(cfg: Config, s: State, t: State)
    requires Step(cfg, s, Load, t)
    ensures Loads(s, t) && s.loader.Looking? && s.submits == map[]
  {
    hide Loads;
  }

  lemma LoadKeeps(cfg: Config, s: State, t: State)
    requires Step(cfg, s, Load, t) && Exclusive(s) && Alive(s)
    ensures Exclusive(t) && Alive(t)
  {
    hide Spread, Step;
    LoadStep(cfg, s, t);
    if t.inFlight == s.inFlight {
      SameSpread(s, t);
    } else {
      hide Loads;
      TakenPlaces(s, t);
      Joins(Spread(s), s.inFlight, t.loader.id);
    }
  }

  lemma LoadedGrows(s: State, id: nat)
    ensures id in Loaded(s, id).inFlight
  {}

  /** Only the hand and the records in flight may change. */
  /** The three outcomes of a look at the storage. */
  lemma LoadIs(s: State, t: State) returns (id: nat)
    requires Loads(s, t)
    ensures t == s.(cursor := id) || t == s.(cursor := 0, loader := Peeking)
         || (t == Loaded(s, id) && IsNext(s.storage, s.cursor, id) && id !in s.inFlight)
  {
    hide IsNext, NoneAfter;
    id := 0;
    if x :| IsNext(s.storage, s.cursor, x) && t == (if x in s.inFlight then s.(cursor := x) else Loaded(s, x)) { id := x; }
  }

  lemma LoadCases(s: State, t: State)
    requires Loads(s, t) && s.loader.Looking?
    ensures t.queue == s.queue && t.pending == s.pending && t.outbox == s.outbox && t.dropping == s.dropping
    ensures t.crew == s.crew && t.storage == s.storage && t.h == s.h.(loaded := t.h.loaded)
    ensures t.inFlight != s.inFlight ==>
      t.loader.Holding? && t.loader.id in s.storage.active && t.loader.id !in s.inFlight && t.inFlight == s.inFlight + {t.loader.id}
    ensures t.inFlight == s.inFlight ==> !t.loader.Holding?
  {
    hide Loads;
    var id := LoadIs(s, t);
    LoadedGrows(s, id);
  }

  lemma OtherPlaces(s: State, t: State)
    requires t.queue == s.queue && t.pending == s.pending && t.outbox == s.outbox && t.dropping == s.dropping && t.crew == s.crew
    ensures Spread(t) == Spread(s).(hand := Spread(t).hand)
    ensures Spread(s).hand == multiset(Hand(s)) && Spread(t).hand == multiset(Hand(t))
  {
    hide Flat, JobsOf, HeldOf, Hand;
  }

  lemma SameSpread(s: State, t: State)
    requires Loads(s, t) && t.inFlight == s.inFlight && s.loader.Looking?
    ensures Spread(t) == Spread(s) && t.crew == s.crew && t.storage == s.storage
  {
    hide Spread;
    LoadCases(s, t);
    OtherPlaces(s, t);
  }

  lemma TakenPlaces(s: State, t: State)
    requires Loads(s, t) && t.inFlight != s.inFlight && s.loader.Looking?
    ensures t.loader.Holding? && t.loader.id in s.storage.active && t.loader.id !in s.inFlight && t.inFlight == s.inFlight + {t.loader.id}
    ensures Spread(t) == Spread(s).(hand := multiset{t.loader.id}) && Spread(s).hand == multiset{}
    ensures t.crew == s.crew && t.storage == s.storage
  {
    hide Spread, Loads;
    LoadCases(s, t);
    OtherPlaces(s, t);
  }

  lemma Joins(p: Places, inFlight: set<nat>, id: nat)
    requires All(p) == multiset(inFlight) && id !in inFlight && p.hand == multiset{}
    ensures All(p.(hand := multiset{id})) == multiset(inFlight + {id}) && Ahead(p.(hand := multiset{id})) == Ahead(p) + multiset{id}
  {
    assert All(p.(hand := multiset{id})) == All(p) + multiset{id};
  }

  predicate Moves(a: Action) {
    a.Put? || a.Receive? || a.Flush? || a.Send? || a.DropBatch? || a.CancelDispatch? || a.DropQueued?
  }

  /** Nothing is lost or gained, and nothing gets ahead of the workers again. */
  ghost predicate Moved(s: State, t: State) {
    && All(Spread(t)) == All(Spread(s)) && Ahead(Spread(t)) <= Ahead(Spread(s))
    && t.inFlight == s.inFlight && t.storage == s.storage && |t.crew| == |s.crew|
    && forall w :: 0 <= w < |s.crew| ==> t.crew[w].held == s.crew[w].held && t.crew[w].phase == s.crew[w].phase
  }

  lemma PutMoves(cfg: Config, s: State, t: State)
    requires Step(cfg, s, Put, t)
    ensures Moved(s, t)
  {
    hide Step, Spread;
    PutPlaces(cfg, s, t);
  }

  lemma ReceiveMoves(cfg: Config, s: State, t: State)
    requires Step(cfg, s, Receive, t)
    ensures Moved(s, t)
  {
    hide Step, Spread;
    ReceivePlaces(cfg, s, t);
  }

  lemma FlushMoves(cfg: Config, s: State, a: Action, t: State)
    requires Step(cfg, s, a, t) && a.Flush?
    ensures Moved(s, t)
  {
    hide Step, Spread;
    FlushPlaces(cfg, s, a, t);
  }

  lemma SendMoves(cfg: Config, s: State, t: State)
    requires Step(cfg, s, Send, t)
    ensures Moved(s, t)
  {
    hide Step, Spread;
    SendPlaces(cfg, s, t);
  }

  lemma DropBatchMoves(cfg: Config, s: State, t: State)
    requires Step(cfg, s, DropBatch, t)
    ensures Moved(s, t)
  {
    hide Step, Spread;
    DropBatchPlaces(cfg, s, t);
  }

  lemma CancelMoves(cfg: Config, s: State, t: State)
    requires Step(cfg, s, CancelDispatch, t)
    ensures Moved(s, t)
  {
    hide Step, Spread;
    CancelPlaces(cfg, s, t);
  }

  lemma DropQueuedMoves(cfg: Config, s: State, t: State)
    requires Step(cfg, s, DropQueued, t)
    ensures Moved(s, t)
  {
    hide Step, Spread;
    DropQueuedPlaces(cfg, s, t);
  }

  lemma MovePlaces(cfg: Config, s: State, a: Action, t: State)
    requires Step(cfg, s, a, t) && Moves(a)
    ensures Moved(s, t)
  {
    hide Step, Spread, All, Ahead;
    match a
    case Put => PutMoves(cfg, s, t);
    case Receive => ReceiveMoves(cfg, s, t);
    case Flush(_) => FlushMoves(cfg, s, a, t);
    case Send => SendMoves(cfg, s, t);
    case DropBatch => DropBatchMoves(cfg, s, t);
    case CancelDispatch => CancelMoves(cfg, s, t);
    case DropQueued => DropQueuedMoves(cfg, s, t);
  }

  ghost predicate ElsewhereSame(s: State, t: State) {
    t.inFlight == s.inFlight && t.storage == s.storage && t.crew == s.crew
  }

  lemma PutPlaces(cfg: Config, s: State, t: State)
    requires Step(cfg, s, Put, t)
    ensures Spread(t) == Spread(s).(hand := multiset{}, queue := Spread(s).queue + Spread(s).hand) && ElsewhereSame(s, t)
  {
    hide Flat, JobsOf, HeldOf;
  }

  lemma ReceiveStep(cfg: Config, s: State, t: State)
    requires Step(cfg, s, Receive, t)
    ensures s.queue != [] && t == s.(queue := s.queue[1..], pending := s.pending + [s.queue[0]])
  {}

  lemma One(s: seq<nat>, id: nat)
    ensures multiset(s + [id]) == multiset(s) + multiset{id} && multiset([id]) == multiset{id}
  {}

  lemma ReceivePlaces(cfg: Config, s: State, t: State)
    requires Step(cfg, s, Receive, t)
    ensures s.queue != [] && Spread(s).queue == multiset{s.queue[0]} + Spread(t).queue
    ensures Spread(t) == Spread(s).(queue := Spread(t).queue, pending := Spread(s).pending + multiset{s.queue[0]}) && ElsewhereSame(s, t)
  {
    hide Step, Flat, JobsOf, HeldOf;
    ReceiveStep(cfg, s, t);
    Split(s.queue);
    One(s.pending, s.queue[0]);
  }

  lemma FlushStep(cfg: Config, s: State, a: Action, t: State)
    requires Step(cfg, s, a, t) && a.Flush?
    ensures s.outbox == [] && Splits(s.storage, s.pending, a.batches) && t == s.(pending := [], outbox := a.batches)
  {
    hide Splits;
  }

  lemma NothingWaits(outbox: seq<seq<nat>>)
    requires outbox == []
    ensures multiset(Flat(outbox)) == multiset{}
  {}

  lemma FlushPlaces(cfg: Config, s: State, a: Action, t: State)
    requires Step(cfg, s, a, t) && a.Flush?
    ensures Spread(t) == Spread(s).(pending := multiset{}, outbox := Spread(s).pending) && Spread(s).outbox == multiset{} && ElsewhereSame(s, t)
  {
    hide Step, Flat, JobsOf, HeldOf, Pick;
    FlushStep(cfg, s, a, t);
    NothingWaits(s.outbox);
  }

  lemma SendStep(cfg: Config, s: State, t: State)
    requires Step(cfg, s, Send, t)
    ensures s.outbox != [] && Target(cfg, s) < |s.crew| && s.crew[Target(cfg, s)].jobs == [] && s.dropping == []
    ensures t == s.(outbox := s.outbox[1..], crew := s.crew[Target(cfg, s) := s.crew[Target(cfg, s)].(jobs := s.outbox[0])])
  {}

  lemma SendSpread(s: State, t: State, w: nat)
    requires s.outbox != [] && w < |s.crew| && s.crew[w].jobs == [] && multiset(s.crew[w].held) <= multiset(HeldOf(s.crew))
    requires t == s.(outbox := s.outbox[1..], crew := s.crew[w := s.crew[w].(jobs := s.outbox[0])])
    requires multiset(JobsOf(t.crew)) == multiset(JobsOf(s.crew)) - multiset(s.crew[w].jobs) + multiset(s.outbox[0])
    requires multiset(HeldOf(t.crew)) == multiset(HeldOf(s.crew)) - multiset(s.crew[w].held) + multiset(s.crew[w].held)
    ensures Spread(s).outbox == Spread(t).outbox + multiset(s.outbox[0])
    ensures Spread(t) == Spread(s).(outbox := Spread(t).outbox, jobs := Spread(s).jobs + multiset(s.outbox[0]))
  {
    hide Flat, JobsOf, HeldOf;
    FlatHead(s.outbox);
    NothingLess(multiset(JobsOf(s.crew)), s.crew[w].jobs);
    Swapped(multiset(HeldOf(s.crew)), s.crew[w].held);
  }

  lemma SendPlaces(cfg: Config, s: State, t: State)
    requires Step(cfg, s, Send, t)
    ensures Spread(s).outbox == Spread(t).outbox + multiset(s.outbox[0])
    ensures Spread(t) == Spread(s).(outbox := Spread(t).outbox, jobs := Spread(s).jobs + multiset(s.outbox[0]))
    ensures t.inFlight == s.inFlight && t.storage == s.storage && |t.crew| == |s.crew|
    ensures forall w :: 0 <= w < |s.crew| ==> t.crew[w].held == s.crew[w].held && t.crew[w].phase == s.crew[w].phase
  {
    hide Step, Spread, Flat, JobsOf, HeldOf;
    SendStep(cfg, s, t);
    var w := Target(cfg, s);
    CrewAt(s.crew, w, s.crew[w].(jobs := s.outbox[0]));
    SendSpread(s, t, w);
  }

  lemma NothingLess(m: multiset<nat>, none: seq<nat>)
    requires none == []
    ensures m - multiset(none) == m
  {}

  lemma Swapped(m: multiset<nat>, part: seq<nat>)
    requires multiset(part) <= m
    ensures m - multiset(part) + multiset(part) == m
  {}

  lemma DropBatchPlaces(cfg: Config, s: State, t: State)
    requires Step(cfg, s, DropBatch, t)
    ensures s.outbox != [] && Spread(s).outbox == Spread(t).outbox + multiset(s.outbox[0]) && Spread(s).dropping == multiset{}
    ensures Spread(t) == Spread(s).(outbox := Spread(t).outbox, dropping := multiset(s.outbox[0])) && ElsewhereSame(s, t)
  {
    hide Flat, JobsOf, HeldOf, Answers;
    FlatHead(s.outbox);
  }

  lemma CancelStep(cfg: Config, s: State, t: State)
    requires Step(cfg, s, CancelDispatch, t)
    ensures s.dropping == [] && s.outbox == [] && t.pending == [] && t.dropping == s.pending
    ensures Hand(t) == Hand(s) && t.queue == s.queue && t.outbox == s.outbox && ElsewhereSame(s, t)
  {
    hide Answers;
  }

  lemma CancelPlaces(cfg: Config, s: State, t: State)
    requires Step(cfg, s, CancelDispatch, t)
    ensures Spread(t) == Spread(s).(pending := multiset{}, dropping := Spread(s).pending) && Spread(s).dropping == multiset{} && ElsewhereSame(s, t)
  {
    hide Step, Flat, JobsOf, HeldOf;
    CancelStep(cfg, s, t);
    NothingLess(multiset{}, s.dropping);
  }

  lemma DropQueuedStep(cfg: Config, s: State, t: State)
    requires Step(cfg, s, DropQueued, t)
    ensures s.queue != [] && s.dropping == [] && Hand(t) == Hand(s) && t.pending == s.pending && t.outbox == s.outbox && t.crew == s.crew
    ensures t.queue == s.queue[1..] && t.dropping == [s.queue[0]] && t.storage == s.storage && t.inFlight == s.inFlight
  {
    hide Answers;
  }

  lemma DropQueuedPlaces(cfg: Config, s: State, t: State)
    requires Step(cfg, s, DropQueued, t)
    ensures s.queue != [] && Spread(s).queue == multiset{s.queue[0]} + Spread(t).queue && Spread(s).dropping == multiset{}
    ensures Spread(t) == Spread(s).(queue := Spread(t).queue, dropping := multiset{s.queue[0]}) && ElsewhereSame(s, t)
  {
    hide Step, Flat, JobsOf, HeldOf;
    DropQueuedStep(cfg, s, t);
    Split(s.queue);
    One([], s.queue[0]);
  }

  lemma MoveKeeps(cfg: Config, s: State, a: Action, t: State)
    requires Step(cfg, s, a, t) && Moves(a) && Exclusive(s) && Alive(s)
    ensures Exclusive(t) && Alive(t)
  {
    hide Step, Spread, All, Ahead;
    MovePlaces(cfg, s, a, t);
  }

  // ---- what is released ----------------------------------------------------------------------------------------

  /** Places without a batch that was in one of them, and the records in flight without it. */
  lemma Leaves(p: Places, q: Places, inFlight: set<nat>, batch: seq<nat>)
    requires All(p) == multiset(inFlight) && All(p) == All(q) + multiset(batch)
    ensures All(q) == multiset(inFlight - Elements(batch))
  {
    hide All;
    OfElements(batch, inFlight, All(q));
  }

  lemma DropHandKeeps(cfg: Config, s: State, t: State)
    requires Step(cfg, s, DropHand, t) && Exclusive(s) && Alive(s)
    ensures Exclusive(t) && Alive(t)
  {
    hide Spread;
    DropHandPlaces(cfg, s, t);
    Leaves(Spread(s), Spread(t), s.inFlight, [s.loader.id]);
  }

  lemma DropHandPlaces(cfg: Config, s: State, t: State)
    requires Step(cfg, s, DropHand, t)
    ensures Spread(t) == Spread(s).(hand := multiset{}) && Spread(s).hand == multiset([s.loader.id])
    ensures t.inFlight == s.inFlight - Elements([s.loader.id]) && t.crew == s.crew && t.storage == s.storage
  {
    hide Flat, JobsOf, HeldOf, Elements;
  }

  lemma ReleaseDroppedKeeps(cfg: Config, s: State, t: State)
    requires Step(cfg, s, ReleaseDropped, t) && Exclusive(s) && Alive(s)
    ensures Exclusive(t) && Alive(t)
  {
    hide Spread;
    ReleaseDroppedPlaces(cfg, s, t);
    Leaves(Spread(s), Spread(t), s.inFlight, s.dropping);
  }

  lemma ReleaseDroppedPlaces(cfg: Config, s: State, t: State)
    requires Step(cfg, s, ReleaseDropped, t)
    ensures Spread(t) == Spread(s).(dropping := multiset{}) && Spread(s).dropping == multiset(s.dropping)
    ensures t.inFlight == s.inFlight - Elements(s.dropping) && t.crew == s.crew && t.storage == s.storage
  {
    hide Flat, JobsOf, HeldOf, Elements;
  }

  // ---- the workers -------------------------------------------------------------------------------------------

  lemma StartKeeps(cfg: Config, s: State, w: nat, t: State)
    requires Step(cfg, s, Start(w), t) && Exclusive(s) && Alive(s)
    ensures Exclusive(t) && Alive(t)
  {
    hide Spread;
    StartPlaces(cfg, s, w, t);
    assert All(Spread(t)) == All(Spread(s));
    forall id | id in s.crew[w].jobs ensures id in s.storage.active { assert id in multiset(s.crew[w].jobs); assert id in Early(s); }
  }

  lemma StartStep(cfg: Config, s: State, w: nat, t: State)
    requires Step(cfg, s, Start(w), t)
    ensures w < |s.crew| && s.crew[w].jobs != [] && s.crew[w].phase.Free?
    ensures t == s.(crew := s.crew[w := Worker([], s.crew[w].jobs, Ready(false))])
  {}

  lemma NothingMore(m: multiset<nat>)
    ensures m + multiset([]) == m
  {}

  lemma StartPlaces(cfg: Config, s: State, w: nat, t: State)
    requires Step(cfg, s, Start(w), t) && Exclusive(s)
    ensures w < |s.crew| && t.crew == s.crew[w := Worker([], s.crew[w].jobs, Ready(false))] && s.crew[w].jobs != []
    ensures multiset(s.crew[w].jobs) <= Spread(s).jobs && t.inFlight == s.inFlight && t.storage == s.storage
    ensures Spread(t) == Spread(s).(jobs := Spread(s).jobs - multiset(s.crew[w].jobs), held := Spread(s).held + multiset(s.crew[w].jobs))
  {
    hide Step, Flat, JobsOf, HeldOf, All;
    StartStep(cfg, s, w, t);
    CrewAt(s.crew, w, Worker([], s.crew[w].jobs, Ready(false)));
    NothingLess(multiset(HeldOf(s.crew)), s.crew[w].held);
    NothingMore(multiset(JobsOf(s.crew)) - multiset(s.crew[w].jobs));
  }

  predicate OnlyPhase(a: Action) {
    a.Deliver? || a.Retry? || a.RetryFails? || a.GiveUp? || a.Complete? || a.Ack? || a.Quarantine?
  }

  /** A worker that goes on with the batch it holds. */
  lemma WorkerStep(cfg: Config, s: State, a: Action, t: State)
    requires Step(cfg, s, a, t) && Working(a)
    ensures CanWork(cfg, s, a) && WorkerDoes(cfg, s, a, t)
  {
    hide CanWork, WorkerDoes, DoorOpen, Passes, CanLoad, LoaderDoes, CanDispatch, DispatcherDoes;
  }

  lemma PhaseWorker(cfg: Config, s: State, a: Action, t: State)
    requires Working(a) && CanWork(cfg, s, a) && WorkerDoes(cfg, s, a, t) && OnlyPhase(a)
    ensures a.w < |s.crew| && t.crew == s.crew[a.w := s.crew[a.w].(phase := t.crew[a.w].phase)] && !t.crew[a.w].phase.Free?
    ensures Hand(t) == Hand(s) && t.queue == s.queue && t.pending == s.pending && t.outbox == s.outbox && t.dropping == s.dropping
    ensures t.inFlight == s.inFlight && !s.crew[a.w].phase.Free?
  {
    hide Working, Hopeless, Attempts, Released;
    hide Exhausted, Counted, Answers, Elements;
  }

  lemma PhaseActive(cfg: Config, s: State, a: Action, t: State)
    requires Working(a) && CanWork(cfg, s, a) && WorkerDoes(cfg, s, a, t) && OnlyPhase(a) && |t.crew| == |s.crew|
    ensures Busy(t.crew[a.w].phase) ==> Busy(s.crew[a.w].phase) && t.storage.active == s.storage.active
    ensures s.storage.active - Elements(s.crew[a.w].held) <= t.storage.active <= s.storage.active
  {
    hide Working, Released, Attempts, Hopeless;
    hide Exhausted, Counted, Answers, Elements, Gone;
    if a.Ack? || a.Quarantine? {
      GoneActive(s, a.w, a.Quarantine?);
    } else {
      assert t.storage.active == s.storage.active;
    }
  }

  lemma GoneActive(s: State, w: nat, bad: bool)
    requires w < |s.crew|
    ensures var t := Gone(s, w, bad);
            |t.crew| == |s.crew| && !Busy(t.crew[w].phase) && t.storage.active == s.storage.active - Elements(s.crew[w].held)
  {
    hide Elements;
  }

  lemma PhaseStep(cfg: Config, s: State, a: Action, t: State)
    requires Step(cfg, s, a, t) && OnlyPhase(a)
    ensures a.w < |s.crew| && t.crew == s.crew[a.w := s.crew[a.w].(phase := t.crew[a.w].phase)] && !t.crew[a.w].phase.Free?
    ensures Hand(t) == Hand(s) && t.queue == s.queue && t.pending == s.pending && t.outbox == s.outbox && t.dropping == s.dropping
    ensures t.inFlight == s.inFlight && !s.crew[a.w].phase.Free?
    ensures Busy(t.crew[a.w].phase) ==> Busy(s.crew[a.w].phase) && t.storage.active == s.storage.active
    ensures s.storage.active - Elements(s.crew[a.w].held) <= t.storage.active <= s.storage.active
  {
    hide Step, CanWork, WorkerDoes;
    WorkerStep(cfg, s, a, t);
    PhaseWorker(cfg, s, a, t);
    PhaseActive(cfg, s, a, t);
  }

  lemma PhaseKeeps(cfg: Config, s: State, a: Action, t: State)
    requires Step(cfg, s, a, t) && OnlyPhase(a) && Exclusive(s) && Alive(s)
    ensures Exclusive(t) && Alive(t)
  {
    hide Step, Spread, All, Ahead;
    PhaseStep(cfg, s, a, t);
    PhasePlaces(s, a.w, t);
    HeldApart(s, a.w);
    forall v, id | 0 <= v < |t.crew| && Busy(t.crew[v].phase) && id in t.crew[v].held ensures id in t.storage.active {
      if v != a.w { assert t.crew[v] == s.crew[v]; }
    }
  }

  lemma PhasePlaces(s: State, w: nat, t: State)
    requires w < |s.crew| && |t.crew| == |s.crew| && t.crew == s.crew[w := s.crew[w].(phase := t.crew[w].phase)]
    requires Hand(t) == Hand(s) && t.queue == s.queue && t.pending == s.pending && t.outbox == s.outbox && t.dropping == s.dropping
    ensures Spread(t) == Spread(s)
  {
    hide JobsOf, HeldOf, Flat;
    CrewAt(s.crew, w, s.crew[w].(phase := t.crew[w].phase));
    Swapped(multiset(HeldOf(s.crew)), s.crew[w].held);
    Swapped(multiset(JobsOf(s.crew)), s.crew[w].jobs);
  }

  lemma ReleaseKeeps(cfg: Config, s: State, w: nat, t: State)
    requires Step(cfg, s, Release(w), t) && Exclusive(s) && Alive(s)
    ensures Exclusive(t) && Alive(t)
  {
    hide Spread;
    ReleasePlaces(cfg, s, w, t);
    assert All(Spread(s)) == All(Spread(t)) + multiset(s.crew[w].held);
    Leaves(Spread(s), Spread(t), s.inFlight, s.crew[w].held);
  }

  lemma ReleaseStep(cfg: Config, s: State, w: nat, t: State)
    requires Step(cfg, s, Release(w), t)
    ensures w < |s.crew| && s.crew[w].phase.Completed? && t.crew == s.crew[w := s.crew[w].(held := [], phase := Free)]
    ensures t == Released(s, s.crew[w].held).(crew := t.crew)
  {}

  lemma ReleasePlaces(cfg: Config, s: State, w: nat, t: State)
    requires Step(cfg, s, Release(w), t)
    ensures w < |s.crew| && t.crew == s.crew[w := s.crew[w].(held := [], phase := Free)]
    ensures t.inFlight == s.inFlight - Elements(s.crew[w].held) && t.storage == s.storage
    ensures multiset(s.crew[w].held) <= Spread(s).held
    ensures Spread(t) == Spread(s).(held := Spread(s).held - multiset(s.crew[w].held))
  {
    hide Step, Flat, JobsOf, HeldOf, Elements;
    ReleaseStep(cfg, s, w, t);
    CrewAt(s.crew, w, s.crew[w].(held := [], phase := Free));
    Swapped(multiset(JobsOf(s.crew)), s.crew[w].jobs);
    NothingMore(multiset(HeldOf(s.crew)) - multiset(s.crew[w].held));
  }

  // ---- every run ---------------------------------------------------------------------------------------------

  lemma OwnersKept(cfg: Config, s: State, a: Action, t: State)
    requires Step(cfg, s, a, t) && Exclusive(s) && Alive(s)
    ensures Exclusive(t) && Alive(t)
  {
    hide Step, Exclusive, Alive, SamePlaces;
    if Still(a) { StillStep(cfg, s, a, t); SameOwners(s, t); }
    else if Moves(a) { MoveKeeps(cfg, s, a, t); }
    else if OnlyPhase(a) { PhaseKeeps(cfg, s, a, t); }
    else if a.Load? { LoadKeeps(cfg, s, t); }
    else if a.DropHand? { DropHandKeeps(cfg, s, t); }
    else if a.ReleaseDropped? { ReleaseDroppedKeeps(cfg, s, t); }
    else if a.Start? { StartKeeps(cfg, s, a.w, t); }
    else { ReleaseKeeps(cfg, s, a.w, t); }
  }

  /** The ledger of records: which there are, and what became of them. */
  ghost predicate SameLedger(s: State, t: State) {
    && t.storage.active == s.storage.active && t.storage.nextID == s.storage.nextID && s.storage.attempts.Keys <= t.storage.attempts.Keys
    && t.h.admitted == s.h.admitted && t.h.initial == s.h.initial && t.h.acked == s.h.acked && t.h.quarantined == s.h.quarantined
  }

  lemma LedgerDoor(cfg: Config, s: State, a: Action, t: State)
    requires Door(a) && DoorOpen(cfg, s, a) && Passes(cfg, s, a, t) && !a.Append?
    ensures SameLedger(s, t)
  {}

  lemma LedgerLoader(cfg: Config, s: State, a: Action, t: State)
    requires Loading(a) && CanLoad(cfg, s, a) && LoaderDoes(cfg, s, a, t)
    ensures SameLedger(s, t)
  {
    hide Loads, Elements;
    if a.Load? { LoadCases(s, t); }
  }

  lemma LedgerDispatcher(cfg: Config, s: State, a: Action, t: State)
    requires Dispatching(a) && CanDispatch(cfg, s, a) && DispatcherDoes(cfg, s, a, t)
    ensures SameLedger(s, t)
  {
    hide Splits, Answers, Elements;
  }

  lemma LedgerWorker(cfg: Config, s: State, a: Action, t: State)
    requires Working(a) && CanWork(cfg, s, a) && WorkerDoes(cfg, s, a, t) && !a.Ack? && !a.Quarantine?
    ensures SameLedger(s, t)
  {
    hide Exhausted, Answers, Elements;
  }

  lemma LedgerStep(cfg: Config, s: State, a: Action, t: State)
    requires Step(cfg, s, a, t) && !a.Append? && !a.Ack? && !a.Quarantine?
    ensures SameLedger(s, t)
  {
    hide Passes, LoaderDoes, DispatcherDoes, WorkerDoes, CanLoad, CanWork, CanDispatch, DoorOpen;
    if Door(a) { LedgerDoor(cfg, s, a, t); }
    else if Loading(a) { LedgerLoader(cfg, s, a, t); }
    else if Dispatching(a) { LedgerDispatcher(cfg, s, a, t); }
    else { LedgerWorker(cfg, s, a, t); }
  }

  lemma AccountedKept(cfg: Config, s: State, a: Action, t: State)
    requires Step(cfg, s, a, t) && Alive(s) && Accounted(s)
    ensures Accounted(t)
  {
    hide Early, Ahead, Tried, Sent, Spread;
    hide Step;
    if a.Append? {
      AppendLedger(cfg, s, a, t);
      assert a.id !in s.h.admitted;
    } else if a.Ack? || a.Quarantine? {
      FinishLedger(cfg, s, a, t);
    } else {
      hide Alive;
      LedgerStep(cfg, s, a, t);
    }
  }

  lemma AppendLedger(cfg: Config, s: State, a: Action, t: State)
    requires Step(cfg, s, a, t) && a.Append?
    ensures a.k in t.submits && t.submits[a.k].Appended? && t == Stored(s, a.k, a.id, t.submits[a.k].waits, a.service) && a.id >= s.storage.nextID
  {}

  lemma FinishLedger(cfg: Config, s: State, a: Action, t: State)
    requires Step(cfg, s, a, t) && Alive(s) && Accounted(s) && (a.Ack? || a.Quarantine?)
    ensures Accounted(t)
  {
    hide Splits, Exhausted, Answers, Early, Elements;
    BatchActive(cfg, s, a, t);
    var batch := Elements(s.crew[a.w].held);
    assert s.storage.active == (s.storage.active - batch) + batch;
  }

  lemma BatchActive(cfg: Config, s: State, a: Action, t: State)
    requires Step(cfg, s, a, t) && Alive(s) && (a.Ack? || a.Quarantine? || a.Deliver? || a.Retry?)
    ensures a.w < |s.crew| && Elements(s.crew[a.w].held) <= s.storage.active
  {
    hide Splits, IsNext, NoneAfter, Exhausted, Answers, Early;
  }

  /**
   * A single owner, in every run: loader, queue, dispatcher, job channels and workers together have exactly the records in
   * flight, each once; what may still be given to the sink is active; and no record is ever lost.
   */
  lemma {:induction false} SingleOwner(cfg: Config, xs: seq<State>, actions: seq<Action>, n: nat)
    requires Run(cfg, xs, actions) && n < |xs|
    ensures Exclusive(xs[n]) && Alive(xs[n]) && Accounted(xs[n])
  {
    hide Exclusive, Alive, Accounted, Step;
    if n == 0 {
      InitialOwners(cfg, xs[0]);
    } else {
      SingleOwner(cfg, xs, actions, n - 1);
      assert Takes(cfg, xs, actions, n - 1);
      OwnersKept(cfg, xs[n - 1], actions[n - 1], xs[n]);
      AccountedKept(cfg, xs[n - 1], actions[n - 1], xs[n]);
    }
  }

  lemma InitialSpread(s: State)
    requires JobsOf(s.crew) == [] && HeldOf(s.crew) == [] && s.loader == Looking && s.queue == [] && s.pending == [] && s.outbox == [] && s.dropping == []
    ensures Owned(s) == multiset{} && Early(s) == multiset{}
  {}

  lemma InitialOwners(cfg: Config, s: State)
    requires Initial(cfg, s)
    ensures Exclusive(s) && Alive(s) && Accounted(s)
  {
    hide Early, Owned;
    NobodyHas(s.crew);
    InitialSpread(s);
  }

  lemma {:induction false} FinishedStays(cfg: Config, xs: seq<State>, actions: seq<Action>, m: nat, n: nat)
    requires Run(cfg, xs, actions) && m <= n < |xs|
    ensures xs[m].h.acked <= xs[n].h.acked && xs[m].h.quarantined <= xs[n].h.quarantined
  {
    if m < n {
      FinishedStays(cfg, xs, actions, m, n - 1);
      assert Takes(cfg, xs, actions, n - 1);
      FinishedGrows(cfg, xs[n - 1], actions[n - 1], xs[n]);
    }
  }

  lemma FinishStep(cfg: Config, s: State, a: Action, t: State)
    requires Step(cfg, s, a, t) && (a.Ack? || a.Quarantine?)
    ensures a.w < |s.crew| && t == Gone(s, a.w, a.Quarantine?)
  {
    hide Step, Exhausted, Elements;
    WorkerStep(cfg, s, a, t);
  }

  lemma FinishedGrows(cfg: Config, s: State, a: Action, t: State)
    requires Step(cfg, s, a, t)
    ensures s.h.acked <= t.h.acked && s.h.quarantined <= t.h.quarantined
  {
    hide Step;
    if a.Append? { AppendLedger(cfg, s, a, t); }
    else if a.Ack? || a.Quarantine? { FinishStep(cfg, s, a, t); }
    else { LedgerStep(cfg, s, a, t); }
  }

  /** No delivery of a record starts once the record has been acknowledged or quarantined. */
  lemma NoDeliveryAfterFinish(cfg: Config, xs: seq<State>, actions: seq<Action>, m: nat, n: nat, id: nat)
    requires Run(cfg, xs, actions) && m <= n < |actions| < |xs| && actions[n].Deliver?
    requires id in xs[m].h.acked || id in xs[m].h.quarantined
    ensures actions[n].w < |xs[n].crew| && id !in xs[n].crew[actions[n].w].held
  {
    hide Exclusive, Step, Run;
    SingleOwner(cfg, xs, actions, n);
    FinishedStays(cfg, xs, actions, m, n);
    TakesStep(cfg, xs, actions, n);
    BatchActive(cfg, xs[n], actions[n], xs[n + 1]);
  }

  lemma TakesStep(cfg: Config, xs: seq<State>, actions: seq<Action>, n: nat)
    requires Run(cfg, xs, actions) && n < |actions|
    ensures n + 1 < |xs| && Step(cfg, xs[n], actions[n], xs[n + 1])
  {
    hide Step;
    assert Takes(cfg, xs, actions, n);
  }
}
