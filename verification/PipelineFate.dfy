/**
 * What becomes of a record: how often the sink is given it, and that a pipeline that has drained leaves none behind.
 */
module PipelineFate {
  import opened Telemetry
  import opened Pipeline
  import opened PipelineOwners
  import opened PipelineWaiters

  /** Nothing has been cancelled, and no record went back to the loader. */
  predicate Calm(s: State) {
    !s.cancelled && !s.h.returned
  }

  // ---- a drained pipeline --------------------------------------------------------------------------------------

  /** Admission once closed stays closed; the loader ends when it is closed and the storage is empty. */
  ghost predicate Draining(s: State) {
    && (!s.accepting ==> s.submits == map[])
    && (s.loader.Checking? && !s.loader.accepting ==> !s.accepting)
    && (s.loader.Closed? && !s.cancelled ==> !s.accepting && s.storage.active == {})
    && (!s.dispatcher.Running? ==> s.pending == [] && s.outbox == [])
    && (s.dispatcher.Stopped? ==> s.loader.Closed? && s.queue == [] && s.dropping == [])
  }

  lemma DrainingKept(cfg: Config, s: State, a: Action, t: State)
    requires Step(cfg, s, a, t) && Draining(s)
    ensures Draining(t)
  {
    hide Step, DoorOpen, Passes, CanLoad, LoaderDoes, CanDispatch, DispatcherDoes, CanWork, WorkerDoes;
    StepOf(cfg, s, a, t);
    if Door(a) { DrainingDoor(cfg, s, a, t); }
    else if Loading(a) { DrainingLoader(cfg, s, a, t); }
    else if Dispatching(a) { DrainingDispatcher(cfg, s, a, t); }
    else { DrainingWorker(cfg, s, a, t); }
  }

  lemma DrainingDoor(cfg: Config, s: State, a: Action, t: State)
    requires Step(cfg, s, a, t) && Door(a) && Draining(s)
    ensures Draining(t)
  {
    hide Step;
    DoorStep(cfg, s, a, t);
  }

  lemma DrainingLoader(cfg: Config, s: State, a: Action, t: State)
    requires Loading(a) && CanLoad(cfg, s, a) && LoaderDoes(cfg, s, a, t) && Draining(s)
    ensures Draining(t)
  {
    hide Loads, Elements;
    if a.Load? { LoadCases(s, t); LoadDoor(s, t); }
  }

  lemma LoadDoor(s: State, t: State)
    requires Loads(s, t) && s.loader.Looking?
    ensures t.accepting == s.accepting && t.submits == s.submits && t.cancelled == s.cancelled && t.dispatcher == s.dispatcher
    ensures t.loader.Looking? || t.loader.Holding? || t.loader.Peeking?
  {
    hide Loads, IsNext;
    var id := LoadIs(s, t);
  }

  lemma DrainingDispatcher(cfg: Config, s: State, a: Action, t: State)
    requires Dispatching(a) && CanDispatch(cfg, s, a) && DispatcherDoes(cfg, s, a, t) && Draining(s)
    ensures Draining(t)
  {
    hide Splits, Answers, Elements;
  }

  lemma DrainingWorker(cfg: Config, s: State, a: Action, t: State)
    requires Working(a) && CanWork(cfg, s, a) && WorkerDoes(cfg, s, a, t) && Draining(s)
    ensures Draining(t)
  {
    hide Exhausted, Answers, Elements, Counted;
  }

  lemma {:induction false} AlwaysDraining(cfg: Config, xs: seq<State>, actions: seq<Action>, n: nat)
    requires Run(cfg, xs, actions) && n < |xs|
    ensures Draining(xs[n])
  {
    hide Step, Draining;
    if n == 0 {
      InitialDraining(cfg, xs[0]);
    } else {
      AlwaysDraining(cfg, xs, actions, n - 1);
      assert Takes(cfg, xs, actions, n - 1);
      DrainingKept(cfg, xs[n - 1], actions[n - 1], xs[n]);
    }
  }

  lemma InitialDraining(cfg: Config, s: State)
    requires Initial(cfg, s)
    ensures Draining(s)
  {}

  lemma {:induction false} NobodyHolds(crew: seq<Worker>)
    requires forall w :: 0 <= w < |crew| ==> crew[w].jobs == [] && crew[w].held == []
    ensures JobsOf(crew) == [] && HeldOf(crew) == []
  {
    if crew != [] { NobodyHolds(crew[1..]); }
  }

  /**
   * A pipeline that has finished without being cancelled has acknowledged or quarantined every record that it ever
   * admitted, and has nothing in flight.
   */
  lemma DoneMeansFinished(cfg: Config, xs: seq<State>, actions: seq<Action>, n: nat)
    requires Run(cfg, xs, actions) && n < |xs| && Done(xs[n]) && !xs[n].cancelled
    ensures xs[n].storage.active == {} && xs[n].h.admitted == xs[n].h.acked + xs[n].h.quarantined && xs[n].inFlight == {}
  {
    hide Run, Alive;
    SingleOwner(cfg, xs, actions, n);
    AlwaysDraining(cfg, xs, actions, n);
    DoneOwnsNothing(xs[n]);
  }

  lemma DoneOwnsNothing(s: State)
    requires Done(s) && Draining(s) && Exclusive(s)
    ensures s.inFlight == {}
  {
    NobodyHolds(s.crew);
    assert Owned(s) == multiset{};
    assert forall id :: id in s.inFlight ==> id in multiset(s.inFlight);
  }

  // ---- records are loaded once ---------------------------------------------------------------------------------

  /** As long as the run is calm, a record that was loaded stays in flight until it is no longer active. */
  ghost predicate Steady(s: State) {
    Calm(s) ==>
      && s.dropping == [] && !s.dispatcher.Draining?
      && (forall w, id :: 0 <= w < |s.crew| && (s.crew[w].phase.Finished? || s.crew[w].phase.Completed?) && id in s.crew[w].held ==>
            id !in s.storage.active)
      && (forall id :: id in s.storage.active && id in s.h.loaded ==> id in s.inFlight)
  }

  /** Actions that end the calm, or only happen after its end. */
  predicate Stormy(a: Action) {
    a.Cancel? || a.DropHand? || a.QuitLoading? || a.DropBatch? || a.CancelDispatch? || a.GiveUp? || a.RetryFails?
  }

  lemma CalmBefore(cfg: Config, s: State, a: Action, t: State)
    requires Step(cfg, s, a, t) && Calm(t)
    ensures Calm(s) && !Stormy(a)
  {
    hide Step, DoorOpen, Passes, CanLoad, LoaderDoes, CanDispatch, DispatcherDoes, CanWork, WorkerDoes;
    StepOf(cfg, s, a, t);
    if Door(a) { CalmDoor(cfg, s, a, t); }
    else if Loading(a) { CalmLoader(cfg, s, a, t); }
    else if Dispatching(a) { CalmDispatcher(cfg, s, a, t); }
    else { CalmWorker(cfg, s, a, t); }
  }

  lemma CalmDoor(cfg: Config, s: State, a: Action, t: State)
    requires Step(cfg, s, a, t) && Door(a) && Calm(t)
    ensures Calm(s) && !Stormy(a)
  {
    hide Step;
    DoorStep(cfg, s, a, t);
  }

  lemma CalmLoader(cfg: Config, s: State, a: Action, t: State)
    requires Loading(a) && CanLoad(cfg, s, a) && LoaderDoes(cfg, s, a, t) && Calm(t)
    ensures Calm(s) && !Stormy(a)
  {
    hide Loads, Elements;
    if a.Load? { LoadMarks(s, t); }
  }

  lemma CalmDispatcher(cfg: Config, s: State, a: Action, t: State)
    requires Dispatching(a) && CanDispatch(cfg, s, a) && DispatcherDoes(cfg, s, a, t) && Calm(t)
    ensures Calm(s) && !Stormy(a)
  {
    hide Splits, Answers, Elements;
  }

  lemma CalmWorker(cfg: Config, s: State, a: Action, t: State)
    requires Working(a) && CanWork(cfg, s, a) && WorkerDoes(cfg, s, a, t) && Calm(t)
    ensures Calm(s) && !Stormy(a)
  {
    hide Exhausted, Answers, Elements, Counted;
  }

  lemma SteadyKept(cfg: Config, s: State, a: Action, t: State)
    requires Step(cfg, s, a, t) && Steady(s) && Exclusive(s) && Alive(s) && Accounted(s) && OwnersOk(s)
    ensures Steady(t)
  {
    if Calm(t) {
      hide Step, DoorOpen, Passes, CanLoad, LoaderDoes, CanDispatch, DispatcherDoes, CanWork, WorkerDoes, Alive;
      CalmBefore(cfg, s, a, t);
      StepOf(cfg, s, a, t);
      if Door(a) { SteadyDoor(cfg, s, a, t); }
      else if Loading(a) { SteadyLoader(cfg, s, a, t); }
      else if Dispatching(a) { SteadyDispatcher(cfg, s, a, t); }
      else { SteadyWorker(cfg, s, a, t); }
    }
  }

  lemma SteadyDoor(cfg: Config, s: State, a: Action, t: State)
    requires Step(cfg, s, a, t) && Door(a) && Steady(s) && Exclusive(s) && OwnersOk(s) && Calm(s)
    ensures Steady(t)
  {
    hide Step, Owned, Early;
    DoorStep(cfg, s, a, t);
    assert a.Append? ==> a.id !in s.h.loaded;
    forall w, id | 0 <= w < |s.crew| && id in s.crew[w].held ensures id in s.h.loaded { HeldApart(s, w); }
  }

  lemma SteadyLoader(cfg: Config, s: State, a: Action, t: State)
    requires Loading(a) && CanLoad(cfg, s, a) && LoaderDoes(cfg, s, a, t) && Steady(s) && Calm(s)
    ensures Steady(t)
  {
    hide Loads, Elements;
    if a.Load? { LoadCases(s, t); LoadMarks(s, t); LoadDoor(s, t); }
  }

  lemma LoadMarks(s: State, t: State)
    requires Loads(s, t) && s.loader.Looking?
    ensures t.h.loaded == s.h.loaded + (t.inFlight - s.inFlight) && t.cancelled == s.cancelled && t.h.returned == s.h.returned
  {
    hide Loads, IsNext;
    var id := LoadIs(s, t);
    LoadedGrows(s, id);
  }

  lemma SteadyDispatcher(cfg: Config, s: State, a: Action, t: State)
    requires Dispatching(a) && CanDispatch(cfg, s, a) && DispatcherDoes(cfg, s, a, t) && Steady(s) && Calm(s)
    requires !a.DropBatch? && !a.CancelDispatch?
    ensures Steady(t)
  {
    hide Splits, Answers, Elements;
  }

  lemma SteadyWorker(cfg: Config, s: State, a: Action, t: State)
    requires Working(a) && CanWork(cfg, s, a) && WorkerDoes(cfg, s, a, t) && Steady(s) && Calm(s) && Exclusive(s)
    requires !a.GiveUp? && !a.RetryFails?
    ensures Steady(t)
  {
    hide Exhausted, Answers, Counted, Owned, Early;
    HeldApart(s, a.w);
    assert t.storage.active == s.storage.active || (t.storage.active == s.storage.active - Elements(s.crew[a.w].held) && t.crew[a.w].phase.Finished?);
  }

  // ---- how often the sink is given a record ----------------------------------------------------------------------

  /** The most deliveries that a record with this many attempts can see. */
  function Limit(cfg: Config, initial: nat): nat {
    if cfg.maxAttempts > initial + 1 then cfg.maxAttempts - initial else 1
  }

  function Tries(s: State, id: nat): nat {
    Times(s.h.deliveries, id)
  }

  function Beginning(s: State, id: nat): nat {
    Times(s.h.initial, id)
  }

  /** A record that the sink has not been given. */
  ghost predicate Untried(s: State, id: nat) {
    Tries(s, id) == 0 && Attempts(s.storage, id) == Beginning(s, id)
  }

  /** How deliveries and attempts stand for a record that a worker holds. */
  ghost predicate InStep(cfg: Config, s: State, p: Phase, id: nat) {
    && (p == Ready(false) ==> Untried(s, id))
    && (p == Ready(true) ==> Tries(s, id) >= 1 && Attempts(s.storage, id) == Beginning(s, id) + Tries(s, id) < cfg.maxAttempts)
    && (p.Consumed? || p.Failed? ==>
          && Tries(s, id) >= 1 && Attempts(s.storage, id) + 1 == Beginning(s, id) + Tries(s, id)
          && (Tries(s, id) == 1 || Attempts(s.storage, id) < cfg.maxAttempts))
  }

  ghost predicate Tallied(cfg: Config, s: State) {
    && (forall id :: id !in s.h.loaded ==> Untried(s, id))
    && (Calm(s) ==>
         && (forall id :: id in Early(s) ==> Untried(s, id))
         && (forall w, id :: 0 <= w < |s.crew| && id in s.crew[w].held ==> InStep(cfg, s, s.crew[w].phase, id))
         && (forall id :: Tries(s, id) <= Limit(cfg, Beginning(s, id))))
  }

  // ---- what keeps the tallies ----------------------------------------------------------------------------------

  ghost predicate SameTallies(s: State, t: State) {
    t.h.deliveries == s.h.deliveries && t.h.initial == s.h.initial && t.storage.attempts == s.storage.attempts && t.h.loaded == s.h.loaded
  }

  lemma {:induction false} TimesCounted(m: map<nat, nat>, ids: seq<nat>, id: nat)
    ensures Times(Counted(m, ids), id) == Times(m, id) + (if id in ids then 1 else 0)
  {
    assert id in Counted(m, ids) <==> id in m || id in ids;
  }

  /** Places and phases as they were, or fewer of them. */
  ghost predicate NoFurther(s: State, t: State) {
    && Early(t) <= Early(s) && |t.crew| == |s.crew|
    && forall w :: 0 <= w < |s.crew| ==> t.crew[w].held == [] || (t.crew[w].held == s.crew[w].held && t.crew[w].phase == s.crew[w].phase)
  }

  lemma NoFurtherTallied(cfg: Config, s: State, t: State)
    requires Tallied(cfg, s) && SameTallies(s, t) && (Calm(t) ==> Calm(s) && NoFurther(s, t))
    ensures Tallied(cfg, t)
  {
    hide Early;
    forall id ensures Untried(t, id) == Untried(s, id) && Tries(t, id) == Tries(s, id) && Beginning(t, id) == Beginning(s, id) {}
    forall p, id ensures InStep(cfg, t, p, id) == InStep(cfg, s, p, id) {}
    hide Untried, InStep;
  }

  predicate Unremarkable(a: Action) {
    (Still(a) && !a.Append?) || Moves(a) || Releases(a)
  }

  lemma UnremarkableTallies(cfg: Config, s: State, a: Action, t: State)
    requires Step(cfg, s, a, t) && Unremarkable(a)
    ensures SameTallies(s, t)
  {
    hide Step, DoorOpen, Passes, CanLoad, LoaderDoes, CanDispatch, DispatcherDoes, CanWork, WorkerDoes;
    StepOf(cfg, s, a, t);
    if Door(a) { TalliesDoor(cfg, s, a, t); }
    else if Loading(a) { TalliesLoader(cfg, s, a, t); }
    else if Dispatching(a) { TalliesDispatcher(cfg, s, a, t); }
    else { TalliesRelease(cfg, s, a, t); }
  }

  lemma TalliesDoor(cfg: Config, s: State, a: Action, t: State)
    requires Step(cfg, s, a, t) && Door(a) && !a.Append?
    ensures SameTallies(s, t)
  {
    hide Step;
    DoorStep(cfg, s, a, t);
  }

  lemma TalliesLoader(cfg: Config, s: State, a: Action, t: State)
    requires Loading(a) && CanLoad(cfg, s, a) && LoaderDoes(cfg, s, a, t) && !a.Load?
    ensures SameTallies(s, t)
  {
    hide Elements;
  }

  lemma TalliesDispatcher(cfg: Config, s: State, a: Action, t: State)
    requires Dispatching(a) && CanDispatch(cfg, s, a) && DispatcherDoes(cfg, s, a, t)
    ensures SameTallies(s, t)
  {
    hide Splits, Answers, Elements;
  }

  lemma TalliesRelease(cfg: Config, s: State, a: Action, t: State)
    requires Working(a) && CanWork(cfg, s, a) && WorkerDoes(cfg, s, a, t) && a.Release?
    ensures SameTallies(s, t)
  {
    hide Elements;
  }

  lemma UnremarkableNoFurther(cfg: Config, s: State, a: Action, t: State)
    requires Step(cfg, s, a, t) && Unremarkable(a) && Calm(s) && !Stormy(a) && Steady(s)
    ensures NoFurther(s, t)
  {
    hide Step, Spread, All;
    if Still(a) { StillStep(cfg, s, a, t); SamePlacesSpread(s, t); }
    else if Moves(a) { MovePlaces(cfg, s, a, t); }
    else if a.ReleaseDropped? { ReleaseDroppedPlaces(cfg, s, t); }
    else { ReleaseNoFurther(cfg, s, a, t); }
  }

  lemma ReleaseNoFurther(cfg: Config, s: State, a: Action, t: State)
    requires Step(cfg, s, a, t) && a.Release?
    ensures NoFurther(s, t)
  {
    hide Step, Spread;
    ReleasePlaces(cfg, s, a.w, t);
  }

  lemma SamePlacesSpread(s: State, t: State)
    requires SamePlaces(s, t)
    ensures Spread(t) == Spread(s)
  {
    hide Flat, JobsOf, HeldOf, Hand;
  }

  lemma SamePlacesEarly(s: State, t: State)
    requires SamePlaces(s, t)
    ensures Early(t) == Early(s) && t.crew == s.crew
  {
    hide Spread;
    SamePlacesSpread(s, t);
  }

  lemma AppendInStep(cfg: Config, s: State, a: Action, t: State, p: Phase, x: nat)
    requires a.Append? && a.k in t.submits && t.submits[a.k].Appended? && t == Stored(s, a.k, a.id, t.submits[a.k].waits, a.service)
    requires Untried(s, a.id) && InStep(cfg, s, p, x)
    ensures InStep(cfg, t, p, x)
  {
    if x != a.id { AppendOther(s, a, t, x); }
  }

  lemma AppendOther(s: State, a: Action, t: State, x: nat)
    requires a.Append? && a.k in t.submits && t.submits[a.k].Appended? && t == Stored(s, a.k, a.id, t.submits[a.k].waits, a.service)
    requires x != a.id
    ensures Tries(t, x) == Tries(s, x) && Beginning(t, x) == Beginning(s, x) && Attempts(t.storage, x) == Attempts(s.storage, x)
  {}

  lemma AppendUntried(s: State, a: Action, t: State)
    requires a.Append? && a.k in t.submits && t.submits[a.k].Appended? && t == Stored(s, a.k, a.id, t.submits[a.k].waits, a.service)
    requires Untried(s, a.id)
    ensures Untried(t, a.id)
    ensures forall x :: Untried(s, x) ==> Untried(t, x)
    ensures forall x :: Tries(t, x) == Tries(s, x) && (x != a.id ==> Beginning(t, x) == Beginning(s, x))
  {
    forall x | x != a.id ensures Untried(t, x) == Untried(s, x) && Beginning(t, x) == Beginning(s, x) { AppendOther(s, a, t, x); }
  }

  lemma AppendTallied(cfg: Config, s: State, a: Action, t: State)
    requires Step(cfg, s, a, t) && a.Append? && Tallied(cfg, s) && OwnersOk(s)
    ensures Tallied(cfg, t)
  {
    hide Step, Early, InStep, Untried, SamePlaces;
    StillStep(cfg, s, a, t);
    SamePlacesEarly(s, t);
    AppendLedger(cfg, s, a, t);
    assert Untried(s, a.id);
    forall p, x | InStep(cfg, s, p, x) ensures InStep(cfg, t, p, x) { AppendInStep(cfg, s, a, t, p, x); }
    AppendUntried(s, a, t);
  }

  lemma CountsSame(cfg: Config, s: State, t: State)
    requires t.h.deliveries == s.h.deliveries && t.h.initial == s.h.initial && t.storage == s.storage
    ensures forall x :: Untried(t, x) == Untried(s, x) && Tries(t, x) == Tries(s, x) && Beginning(t, x) == Beginning(s, x)
    ensures forall p, x :: InStep(cfg, t, p, x) == InStep(cfg, s, p, x)
  {}

  /** What the loader takes is active, and was not in flight. */
  lemma LoadEarly(s: State, t: State)
    requires Loads(s, t) && s.loader.Looking?
    ensures t.crew == s.crew
    ensures forall x :: x in Early(t) ==> x in Early(s) || (x in s.storage.active && x !in s.inFlight)
  {
    hide Spread;
    if t.inFlight == s.inFlight { SameSpread(s, t); } else { TakenPlaces(s, t); }
  }

  lemma LoadTallied(cfg: Config, s: State, t: State)
    requires Step(cfg, s, Load, t) && Tallied(cfg, s) && Steady(s) && Exclusive(s)
    ensures Tallied(cfg, t)
  {
    hide Step, Early, Exclusive, InStep, Untried;
    LoadStep(cfg, s, t);
    LoadMarks(s, t);
    LoadCounts(s, t);
    CountsSame(cfg, s, t);
    LoadEarly(s, t);
  }

  lemma LoadCounts(s: State, t: State)
    requires Loads(s, t) && s.loader.Looking?
    ensures t.h.deliveries == s.h.deliveries && t.h.initial == s.h.initial && t.storage == s.storage
  {
    hide Loads, IsNext;
    var id := LoadIs(s, t);
  }

  lemma StartTallied(cfg: Config, s: State, a: Action, t: State)
    requires Step(cfg, s, a, t) && a.Start? && Tallied(cfg, s) && Exclusive(s)
    ensures Tallied(cfg, t)
  {
    hide Step, Spread, All;
    StartStep(cfg, s, a.w, t);
    StartPlaces(cfg, s, a.w, t);
    assert Early(t) <= Early(s);
    forall x ensures Untried(t, x) == Untried(s, x) && Tries(t, x) == Tries(s, x) && Beginning(t, x) == Beginning(s, x) {}
    forall p, x ensures InStep(cfg, t, p, x) == InStep(cfg, s, p, x) {}
    if Calm(s) {
      forall x | x in s.crew[a.w].jobs ensures InStep(cfg, s, Ready(false), x) {
        assert x in multiset(s.crew[a.w].jobs);
        assert x in Early(s);
      }
    }
    hide Untried, InStep;
  }

  // ---- the actions of a worker that count ------------------------------------------------------------------------

  /** Only the records that this worker holds have changed, and they are in step. */
  ghost predicate OnlyHeld(cfg: Config, s: State, w: nat, t: State) {
    && w < |s.crew| == |t.crew| && t.crew == s.crew[w := s.crew[w].(phase := t.crew[w].phase)]
    && t.h.loaded == s.h.loaded && t.h.initial == s.h.initial
    && (forall id :: id !in s.crew[w].held ==> Tries(t, id) == Tries(s, id) && Attempts(t.storage, id) == Attempts(s.storage, id))
  }

  lemma HeldTallied(cfg: Config, s: State, w: nat, t: State)
    requires Tallied(cfg, s) && Exclusive(s) && OwnersOk(s) && OnlyHeld(cfg, s, w, t) && (Calm(t) ==> Calm(s)) && Early(t) == Early(s)
    requires Calm(t) ==> forall id :: id in s.crew[w].held ==> InStep(cfg, t, t.crew[w].phase, id) && Tries(t, id) <= Limit(cfg, Beginning(t, id))
    ensures Tallied(cfg, t)
  {
    hide Early, Owned, Exclusive;
    HeldElsewhere(s, w);
    forall x | x !in s.crew[w].held ensures Untried(t, x) == Untried(s, x) && Beginning(t, x) == Beginning(s, x) {}
    forall p, x | x !in s.crew[w].held ensures InStep(cfg, t, p, x) == InStep(cfg, s, p, x) {}
    hide Untried, InStep;
    if Calm(t) {
      forall v, id | 0 <= v < |t.crew| && id in t.crew[v].held ensures InStep(cfg, t, t.crew[v].phase, id) {
        if v != w { assert t.crew[v] == s.crew[v]; }
      }
    }
  }

  lemma HeldElsewhere(s: State, w: nat)
    requires Exclusive(s) && OwnersOk(s) && w < |s.crew|
    ensures forall id :: id in s.crew[w].held ==> id !in Early(s) && id in s.h.loaded
    ensures forall v, id :: 0 <= v < |s.crew| && v != w && id in s.crew[w].held ==> id !in s.crew[v].held
  {
    hide Early, Owned;
    HeldApart(s, w);
  }

  lemma DeliverCounts(cfg: Config, s: State, a: Action, t: State)
    requires Step(cfg, s, a, t) && a.Deliver?
    ensures a.w < |s.crew| && s.crew[a.w].phase.Ready? && a.w < |t.crew| && (t.crew[a.w].phase.Consumed? || t.crew[a.w].phase.Failed?)
    ensures t.h == s.h.(deliveries := t.h.deliveries, handed := t.h.handed) && t.cancelled == s.cancelled && t.storage == s.storage
    ensures forall id :: Tries(t, id) == Tries(s, id) + (if id in s.crew[a.w].held then 1 else 0)
  {
    hide Step, Counted;
    WorkerStep(cfg, s, a, t);
    forall id ensures Tries(t, id) == Tries(s, id) + (if id in s.crew[a.w].held then 1 else 0) {
      TimesCounted(s.h.deliveries, s.crew[a.w].held, id);
    }
  }

  lemma DeliverTallied(cfg: Config, s: State, a: Action, t: State)
    requires Step(cfg, s, a, t) && a.Deliver? && Tallied(cfg, s) && Exclusive(s) && OwnersOk(s)
    ensures Tallied(cfg, t)
  {
    hide Step, Counted, Exclusive, OwnersOk, Early;
    PhaseStep(cfg, s, a, t);
    DeliverEarly(cfg, s, a, t);
    DeliverCounts(cfg, s, a, t);
    HeldTallied(cfg, s, a.w, t);
  }

  lemma DeliverEarly(cfg: Config, s: State, a: Action, t: State)
    requires Step(cfg, s, a, t) && OnlyPhase(a)
    ensures Early(t) == Early(s)
  {
    hide Step, Spread;
    PhaseStep(cfg, s, a, t);
    PhasePlaces(s, a.w, t);
  }

  lemma RetryCounts(cfg: Config, s: State, a: Action, t: State)
    requires Step(cfg, s, a, t) && a.Retry?
    ensures a.w < |s.crew| && s.crew[a.w].phase.Failed? && a.w < |t.crew| && t.crew[a.w].phase == Ready(true)
    ensures t.h == s.h && t.cancelled == s.cancelled
    ensures forall id :: Attempts(t.storage, id) == Attempts(s.storage, id) + (if id in s.crew[a.w].held then 1 else 0)
  {
    hide Step, Counted, Exhausted;
    WorkerStep(cfg, s, a, t);
    forall id ensures Attempts(t.storage, id) == Attempts(s.storage, id) + (if id in s.crew[a.w].held then 1 else 0) {
      TimesCounted(s.storage.attempts, s.crew[a.w].held, id);
      TimesAttempts(s.storage, id);
      TimesAttempts(t.storage, id);
    }
  }

  lemma RetryTallied(cfg: Config, s: State, a: Action, t: State)
    requires Step(cfg, s, a, t) && a.Retry? && Tallied(cfg, s) && Exclusive(s) && OwnersOk(s)
    ensures Tallied(cfg, t)
  {
    hide Step, Counted, Exclusive, OwnersOk, Early;
    PhaseStep(cfg, s, a, t);
    DeliverEarly(cfg, s, a, t);
    RetryBelowLimit(cfg, s, a, t);
    RetryCounts(cfg, s, a, t);
    HeldTallied(cfg, s, a.w, t);
  }

  lemma TimesAttempts(st: Storage, id: nat)
    ensures Attempts(st, id) == Times(st.attempts, id)
  {}

  /** A retry is only ever noted for records that have an attempt left after it. */
  lemma RetryBelowLimit(cfg: Config, s: State, a: Action, t: State)
    requires Step(cfg, s, a, t) && (a.Retry? || a.RetryFails?)
    ensures a.w < |s.crew| && forall id :: id in s.crew[a.w].held ==> Attempts(s.storage, id) + 1 < cfg.maxAttempts
  {
    hide Step;
    WorkerStep(cfg, s, a, t);
  }

  lemma AttemptsSame(s: State, t: State)
    requires SameTallies(s, t)
    ensures forall id :: Tries(t, id) == Tries(s, id) && Attempts(t.storage, id) == Attempts(s.storage, id) && Beginning(t, id) == Beginning(s, id)
  {}

  lemma OtherTallied(cfg: Config, s: State, a: Action, t: State)
    requires Step(cfg, s, a, t) && OnlyPhase(a) && !a.Deliver? && !a.Retry? && Tallied(cfg, s) && Exclusive(s) && OwnersOk(s)
    ensures Tallied(cfg, t)
  {
    hide Step, Exclusive, OwnersOk, Early, Counted;
    PhaseStep(cfg, s, a, t);
    DeliverEarly(cfg, s, a, t);
    if Calm(t) { CalmBefore(cfg, s, a, t); }
    SameCounts(cfg, s, a, t);
    AttemptsSame(s, t);
    HeldTallied(cfg, s, a.w, t);
  }

  lemma SameCounts(cfg: Config, s: State, a: Action, t: State)
    requires Step(cfg, s, a, t) && OnlyPhase(a) && !a.Deliver? && !a.Retry?
    ensures SameTallies(s, t) && a.w < |t.crew| && (t.crew[a.w].phase.Finished? || t.crew[a.w].phase.Completed?)
  {
    hide DispatcherDoes, Door, LoaderDoes, Attempts, Tried;
    hide Step, Exhausted, Answers, Elements;
    WorkerStep(cfg, s, a, t);
  }

  // ---- every run -------------------------------------------------------------------------------------------------

  lemma TalliedKept(cfg: Config, s: State, a: Action, t: State)
    requires Step(cfg, s, a, t) && Tallied(cfg, s) && Steady(s) && Exclusive(s) && OwnersOk(s)
    ensures Tallied(cfg, t)
  {
    hide Step, Tallied, Steady, Exclusive, OwnersOk, NoFurther, SameTallies;
    if a.Append? { AppendTallied(cfg, s, a, t); }
    else if a.Load? { LoadTallied(cfg, s, t); }
    else if a.Start? { StartTallied(cfg, s, a, t); }
    else if a.Deliver? { DeliverTallied(cfg, s, a, t); }
    else if a.Retry? { RetryTallied(cfg, s, a, t); }
    else if OnlyPhase(a) { OtherTallied(cfg, s, a, t); }
    else {
      UnremarkableTallies(cfg, s, a, t);
      if Calm(t) {
        CalmBefore(cfg, s, a, t);
        UnremarkableNoFurther(cfg, s, a, t);
      }
      NoFurtherTallied(cfg, s, t);
    }
  }

  lemma InitialTallied(cfg: Config, s: State)
    requires Initial(cfg, s)
    ensures Tallied(cfg, s) && Steady(s)
  {
    hide Early;
    NobodyHas(s.crew);
    InitialEarly(s);
  }

  lemma InitialEarly(s: State)
    requires JobsOf(s.crew) == [] && s.loader == Looking && s.queue == [] && s.pending == [] && s.outbox == []
    ensures Early(s) == multiset{}
  {}

  lemma {:induction false} AlwaysTallied(cfg: Config, xs: seq<State>, actions: seq<Action>, n: nat)
    requires Run(cfg, xs, actions) && n < |xs|
    ensures Tallied(cfg, xs[n]) && Steady(xs[n]) && Waited(xs[n]) && Exclusive(xs[n]) && Alive(xs[n]) && Accounted(xs[n])
  {
    hide Step, Tallied, Steady, Exclusive, Alive, Accounted, Waited;
    AtMostOneAnswer(cfg, xs, actions, n);
    SingleOwner(cfg, xs, actions, n);
    if n == 0 {
      InitialTallied(cfg, xs[0]);
    } else {
      AlwaysTallied(cfg, xs, actions, n - 1);
      assert Takes(cfg, xs, actions, n - 1);
      TallyStep(cfg, xs[n - 1], actions[n - 1], xs[n]);
    }
  }

  lemma TallyStep(cfg: Config, s: State, a: Action, t: State)
    requires Step(cfg, s, a, t) && Tallied(cfg, s) && Steady(s) && Waited(s) && Exclusive(s) && Alive(s) && Accounted(s)
    ensures Tallied(cfg, t) && Steady(t)
  {
    hide Step, Tallied, Steady, Exclusive, Alive, Accounted, OwnersOk;
    TalliedKept(cfg, s, a, t);
    SteadyKept(cfg, s, a, t);
  }

  /**
   * In a run in which nothing is cancelled and every retry can be noted, the sink is given a record at most as often as
   * it had attempts left when the run first saw it, or once if it had none.
   */
  lemma DeliveriesBounded(cfg: Config, xs: seq<State>, actions: seq<Action>, n: nat, id: nat)
    requires Run(cfg, xs, actions) && n < |xs| && Calm(xs[n])
    ensures Times(xs[n].h.deliveries, id) <= Limit(cfg, Times(xs[n].h.initial, id))
  {
    hide Run, Steady, Exclusive, Alive, Accounted, Waited;
    AlwaysTallied(cfg, xs, actions, n);
    assert Tries(xs[n], id) <= Limit(cfg, Beginning(xs[n], id));
  }
}
