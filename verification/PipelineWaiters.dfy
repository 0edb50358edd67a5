/** Who waits for a record: a waiter is known before its record can be loaded, and is answered at most once. */
module PipelineWaiters {
  import opened Telemetry
  import opened Pipeline
  import opened PipelineOwners

  /** Calls inside the barrier: each came once, and the record of a call has not been loaded. */
  ghost predicate DoorOk(s: State) {
    && (forall k :: k in s.submits ==> k in s.h.callers)
    && (forall k :: k in s.submits && s.submits[k].Entered? ==> k !in s.h.owners.Values)
    && (forall k :: k in s.submits && s.submits[k].Appended? ==> Appendage(s, k, s.submits[k].id, s.submits[k].waits))
    && (forall k, l :: k in s.submits && l in s.submits && SameRecord(s.submits[k], s.submits[l]) ==> k == l)
  }

  predicate SameRecord(a: Submit, b: Submit) {
    a.Appended? && b.Appended? && a.id == b.id
  }

  ghost predicate Appendage(s: State, k: nat, id: nat, waits: bool) {
    id in s.h.admitted && id !in s.h.loaded && id !in s.waiters && (if waits then id in s.h.owners && s.h.owners[id] == k else id !in s.h.owners)
  }

  /** Waiting callers wait for one record each. */
  ghost predicate OwnersOk(s: State) {
    && (forall id :: id in s.h.owners ==> id in s.h.admitted && s.h.owners[id] in s.h.callers)
    && (forall id, x :: id in s.h.owners && x in s.h.owners && s.h.owners[id] == s.h.owners[x] ==> id == x)
    && (forall id :: id in s.waiters ==> id in s.h.owners && s.waiters[id] == s.h.owners[id])
    && s.inFlight <= s.h.loaded && s.h.loaded <= s.h.admitted && (forall id :: id in s.h.admitted ==> id < s.storage.nextID)
  }

  /** A waiter is known as long as its record has not been loaded, unless its call is still inside the barrier. */
  ghost predicate Known(s: State) {
    forall id :: id in s.h.owners && id !in s.h.loaded ==> id in s.waiters || Pending(s, id)
  }

  ghost predicate Pending(s: State, id: nat) {
    exists k :: k in s.submits && s.submits[k] == Appended(id, true)
  }

  /** The items in flight carry the waiters of their records. */
  ghost predicate Carried(s: State) {
    && (forall id :: id in s.results ==> id in s.inFlight)
    && forall id :: id in s.inFlight ==> (id in s.results <==> id in s.waiters) && (id in s.waiters ==> s.results[id] == s.waiters[id])
  }

  /** The item has been answered but not released yet. */
  ghost predicate SentOut(s: State, id: nat) {
    id in s.dropping || exists w :: 0 <= w < |s.crew| && s.crew[w].phase.Completed? && id in s.crew[w].held
  }

  /** Nobody is answered twice, and nobody whose item can still be answered has been. */
  ghost predicate AnswersOk(s: State) {
    && (forall k :: s.h.answers[k] <= 1)
    && (forall id :: id in s.waiters && !SentOut(s, id) ==> s.h.answers[s.waiters[id]] == 0)
    && (forall id :: id in s.h.owners && id !in s.h.loaded ==> s.h.answers[s.h.owners[id]] == 0)
    && (forall k :: k !in s.h.owners.Values ==> s.h.answers[k] == 0)
  }

  ghost predicate Waited(s: State) {
    DoorOk(s) && OwnersOk(s) && Known(s) && Carried(s) && AnswersOk(s)
  }

  // ---- the door ------------------------------------------------------------------------------------------------

  lemma DoorStep(cfg: Config, s: State, a: Action, t: State)
    requires Step(cfg, s, a, t) && Door(a)
    ensures DoorOpen(cfg, s, a) && Passes(cfg, s, a, t)
  {
    hide DoorOpen, Passes, CanLoad, LoaderDoes, CanDispatch, DispatcherDoes, CanWork, WorkerDoes;
  }

  /** Everything but the calls inside the barrier is as it was. */
  ghost predicate SameInside(s: State, t: State) {
    && t.waiters == s.waiters && t.results == s.results && t.inFlight == s.inFlight
    && t.h.owners == s.h.owners && s.h.callers <= t.h.callers && t.h.loaded == s.h.loaded && t.h.answers == s.h.answers
    && t.h.admitted == s.h.admitted && t.storage.nextID == s.storage.nextID
    && forall id :: SentOut(t, id) == SentOut(s, id)
  }

  lemma InsideKept(s: State, t: State)
    requires OwnersOk(s) && Carried(s) && AnswersOk(s) && SameInside(s, t)
    ensures OwnersOk(t) && Carried(t) && AnswersOk(t)
  {
    hide SentOut;
  }

  /** Calls that come and go, but none whose record is stored and not registered. */
  lemma CallsKept(s: State, t: State)
    requires DoorOk(s) && Known(s) && SameInside(s, t)
    requires forall k :: k in t.submits ==> (k in s.submits && t.submits[k] == s.submits[k]) || (t.submits[k].Entered? && k in t.h.callers && k !in s.h.owners.Values)
    requires forall k :: k in s.submits && s.submits[k].Appended? ==> k in t.submits && t.submits[k] == s.submits[k]
    ensures DoorOk(t) && Known(t)
  {
    hide SentOut;
    forall k | k in t.submits && t.submits[k].Appended? ensures Appendage(t, k, t.submits[k].id, t.submits[k].waits) {
      assert Appendage(s, k, s.submits[k].id, s.submits[k].waits);
    }
    forall id | Pending(s, id) ensures Pending(t, id) {
      var k :| k in s.submits && s.submits[k] == Appended(id, true);
      assert t.submits[k] == Appended(id, true);
    }
  }

  lemma ComesAndGoes(cfg: Config, s: State, a: Action, t: State)
    requires Step(cfg, s, a, t) && (a.Enter? || a.Reject? || a.Leave? || a.CloseAdmission? || a.Cancel?) && Waited(s)
    ensures Waited(t)
  {
    hide Step, Known, Carried, AnswersOk;
    DoorStep(cfg, s, a, t);
    forall id ensures SentOut(t, id) == SentOut(s, id) {}
    hide SentOut;
    if a.Enter? { Stranger(s, a.k); }
    CallsKept(s, t);
    InsideKept(s, t);
  }

  lemma Stranger(s: State, k: nat)
    requires OwnersOk(s) && k !in s.h.callers
    ensures k !in s.h.owners.Values
  {}

  lemma AppendWaited(cfg: Config, s: State, a: Action, t: State)
    requires Step(cfg, s, a, t) && a.Append? && Waited(s)
    ensures Waited(t)
  {
    hide Step, DoorOk, OwnersOk, Known, Carried, AnswersOk;
    DoorStep(cfg, s, a, t);
    AppendDoor(s, a, t);
    AppendOwners(s, a, t);
    AppendKnown(s, a, t);
    AppendAnswers(s, a, t);
  }

  lemma AppendDoor(s: State, a: Action, t: State)
    requires DoorOk(s) && OwnersOk(s) && a.Append? && a.k in s.submits && s.submits[a.k].Entered? && a.id >= s.storage.nextID
    requires t == Stored(s, a.k, a.id, s.submits[a.k].waits, a.service)
    ensures DoorOk(t)
  {
    forall k | k in t.submits && t.submits[k].Appended? ensures Appendage(t, k, t.submits[k].id, t.submits[k].waits) {
      if k != a.k { assert Appendage(s, k, s.submits[k].id, s.submits[k].waits); }
    }
    forall k | k in t.submits && t.submits[k].Entered? ensures k !in t.h.owners.Values { assert k != a.k; }
    forall k | k in t.submits && t.submits[k].Appended? && k != a.k ensures t.submits[k].id != a.id {
      assert Appendage(s, k, s.submits[k].id, s.submits[k].waits);
    }
  }

  lemma AppendOwners(s: State, a: Action, t: State)
    requires DoorOk(s) && OwnersOk(s) && Carried(s) && a.Append? && a.k in s.submits && s.submits[a.k].Entered? && a.id >= s.storage.nextID
    requires t == Stored(s, a.k, a.id, s.submits[a.k].waits, a.service)
    ensures OwnersOk(t) && Carried(t)
  {
    assert forall x :: x in s.h.owners ==> s.h.owners[x] in s.h.owners.Values;
  }

  lemma AppendKnown(s: State, a: Action, t: State)
    requires Known(s) && a.Append? && a.k in s.submits && s.submits[a.k].Entered? && a.id >= s.storage.nextID
    requires t == Stored(s, a.k, a.id, s.submits[a.k].waits, a.service)
    ensures Known(t)
  {
    var id := a.id;
    forall x | Pending(s, x) ensures Pending(t, x) {
      var k :| k in s.submits && s.submits[k] == Appended(x, true);
      assert t.submits[k] == Appended(x, true);
    }
    if t.submits[a.k].waits { assert t.submits[a.k] == Appended(id, true); assert Pending(t, id); }
  }

  lemma AppendAnswers(s: State, a: Action, t: State)
    requires DoorOk(s) && OwnersOk(s) && AnswersOk(s) && a.Append? && a.k in s.submits && s.submits[a.k].Entered? && a.id >= s.storage.nextID
    requires t == Stored(s, a.k, a.id, s.submits[a.k].waits, a.service)
    ensures AnswersOk(t)
  {
    forall x ensures SentOut(t, x) == SentOut(s, x) {}
    hide SentOut;
    forall k | k !in t.h.owners.Values ensures k !in s.h.owners.Values {
      if x :| x in s.h.owners && s.h.owners[x] == k { OtherOwner(s, a, t, x); }
    }
  }

  lemma OtherOwner(s: State, a: Action, t: State, x: nat)
    requires OwnersOk(s) && x in s.h.owners && a.Append? && a.k in s.submits && s.submits[a.k].Entered? && a.id >= s.storage.nextID
    requires t == Stored(s, a.k, a.id, s.submits[a.k].waits, a.service)
    ensures x in t.h.owners && t.h.owners[x] == s.h.owners[x] && s.h.owners[x] in t.h.owners.Values
  {}

  lemma RegisterWaited(cfg: Config, s: State, a: Action, t: State)
    requires Step(cfg, s, a, t) && a.Register? && Waited(s)
    ensures Waited(t)
  {
    hide Step, Known, Carried, AnswersOk, OwnersOk, SentOut;
    DoorStep(cfg, s, a, t);
    assert Appendage(s, a.k, s.submits[a.k].id, s.submits[a.k].waits);
    RegisterDoor(s, a, t);
    RegisterKnown(s, a, t);
    RegisterOwners(s, a, t);
    RegisterAnswers(s, a, t);
  }

  ghost predicate Registers(s: State, a: Action, t: State) {
    && a.Register? && a.k in s.submits && s.submits[a.k].Appended? && Appendage(s, a.k, s.submits[a.k].id, s.submits[a.k].waits)
    && t == s.(submits := s.submits[a.k := Registered],
               waiters := if s.submits[a.k].waits then s.waiters[s.submits[a.k].id := a.k] else s.waiters)
  }

  lemma RegisterDoor(s: State, a: Action, t: State)
    requires DoorOk(s) && Registers(s, a, t)
    ensures DoorOk(t)
  {
    forall k | k in t.submits && t.submits[k].Appended? ensures Appendage(t, k, t.submits[k].id, t.submits[k].waits) {
      assert Appendage(s, k, s.submits[k].id, s.submits[k].waits);
      assert k != a.k && !SameRecord(s.submits[k], s.submits[a.k]);
    }
  }

  lemma RegisterKnown(s: State, a: Action, t: State)
    requires Known(s) && Registers(s, a, t)
    ensures Known(t)
  {
    forall x | x in t.h.owners && x !in t.h.loaded ensures x in t.waiters || Pending(t, x) {
      if x !in s.waiters {
        var k :| k in s.submits && s.submits[k] == Appended(x, true);
        if k != a.k { assert t.submits[k] == Appended(x, true); }
      }
    }
  }

  lemma RegisterOwners(s: State, a: Action, t: State)
    requires OwnersOk(s) && Carried(s) && Registers(s, a, t)
    ensures OwnersOk(t) && Carried(t)
  {}

  lemma RegisterAnswers(s: State, a: Action, t: State)
    requires AnswersOk(s) && Registers(s, a, t)
    ensures AnswersOk(t)
  {
    forall id ensures SentOut(t, id) == SentOut(s, id) {}
    hide SentOut;
  }

  // ---- the loader ----------------------------------------------------------------------------------------------

  lemma LoadWaited(cfg: Config, s: State, t: State)
    requires Step(cfg, s, Load, t) && Waited(s) && Exclusive(s) && Accounted(s)
    ensures Waited(t)
    ensures forall id :: id in t.h.loaded && id !in s.h.loaded && id in s.h.owners ==> id in t.results && t.results[id] == s.h.owners[id]
  {
    hide Step, Exclusive, Accounted;
    LoadStep(cfg, s, t);
    if t.inFlight == s.inFlight {
      hide Loads;
      LoadNothing(s, t);
      SameWaited(s, t);
    } else {
      hide Loads;
      var id := LoadOne(s, t);
      assert id in s.h.admitted by { ActiveAdmitted(s, id); }
      LoadedWaited(s, id, t);
    }
  }

  lemma ActiveAdmitted(s: State, id: nat)
    requires Accounted(s) && id in s.storage.active
    ensures id in s.h.admitted
  {}

  lemma LoadRest(s: State, t: State)
    requires Loads(s, t) && s.loader.Looking?
    ensures t.submits == s.submits && t.waiters == s.waiters
    ensures t.inFlight == s.inFlight ==> t.results == s.results && t.h == s.h
  {
    hide Loads;
    var id := LoadIs(s, t);
    LoadedGrows(s, id);
  }

  lemma LoadNothing(s: State, t: State)
    requires Loads(s, t) && t.inFlight == s.inFlight && s.loader.Looking?
    ensures SameWaiting(s, t)
  {
    hide Loads;
    LoadCases(s, t);
    LoadRest(s, t);
    forall id ensures SentOut(t, id) == SentOut(s, id) {}
  }

  lemma LoadOne(s: State, t: State) returns (id: nat)
    requires Loads(s, t) && t.inFlight != s.inFlight && s.loader.Looking?
    ensures t == Loaded(s, id) && id in s.storage.active && id !in s.inFlight
  {
    hide Loads;
    id := LoadIs(s, t);
  }

  lemma LoadedWaited(s: State, id: nat, t: State)
    requires Waited(s) && t == Loaded(s, id) && id !in s.inFlight && id in s.h.admitted && s.submits == map[]
    ensures Waited(t)
    ensures id !in s.h.loaded && id in s.h.owners ==> id in t.results && t.results[id] == s.h.owners[id]
  {
    hide AnswersOk, Appendage, SameRecord;
    forall x ensures SentOut(t, x) == SentOut(s, x) {}
    forall x ensures !Pending(s, x) {}
    hide SentOut, Pending;
    LoadedAnswers(s, id, t);
  }

  lemma LoadedAnswers(s: State, id: nat, t: State)
    requires AnswersOk(s) && t == Loaded(s, id) && forall x :: SentOut(t, x) == SentOut(s, x)
    ensures AnswersOk(t)
  {
    hide SentOut;
  }

  // ---- actions that nobody waits for -----------------------------------------------------------------------------

  /** Nothing changed that waiting depends on. */
  ghost predicate SameWaiting(s: State, t: State) {
    && t.submits == s.submits && t.waiters == s.waiters && t.results == s.results && t.inFlight == s.inFlight
    && t.h.owners == s.h.owners && t.h.callers == s.h.callers && t.h.loaded == s.h.loaded && t.h.answers == s.h.answers
    && t.h.admitted == s.h.admitted && t.storage.nextID == s.storage.nextID
    && forall id :: SentOut(t, id) == SentOut(s, id)
  }

  lemma SameWaited(s: State, t: State)
    requires Waited(s) && SameWaiting(s, t)
    ensures Waited(t)
  {
    hide SentOut, DoorOk, Known, OwnersOk, Carried, AnswersOk;
    CallsKept(s, t);
    InsideKept(s, t);
  }

  predicate Unwatched(a: Action) {
    a.LoadFails? || a.Put? || a.Peek? || a.Check? || a.Wake? || a.QuitLoading? || a.Receive? || a.Flush? || a.Send? || a.StopDispatch?
    || a.Start? || a.Deliver? || a.Ack? || a.Quarantine? || a.Retry? || a.RetryFails? || a.GiveUp?
  }

  lemma UnwatchedStep(cfg: Config, s: State, a: Action, t: State)
    requires Step(cfg, s, a, t) && Unwatched(a)
    ensures SameWaiting(s, t)
  {
    hide Step, CanLoad, LoaderDoes, CanDispatch, DispatcherDoes, CanWork, WorkerDoes;
    StepOf(cfg, s, a, t);
    if Loading(a) { UnwatchedLoader(cfg, s, a, t); }
    else if Dispatching(a) { UnwatchedDispatcher(cfg, s, a, t); }
    else { UnwatchedWorker(cfg, s, a, t); }
  }

  lemma StepOf(cfg: Config, s: State, a: Action, t: State)
    requires Step(cfg, s, a, t)
    ensures Loading(a) ==> CanLoad(cfg, s, a) && LoaderDoes(cfg, s, a, t)
    ensures Dispatching(a) ==> CanDispatch(cfg, s, a) && DispatcherDoes(cfg, s, a, t)
    ensures Working(a) ==> CanWork(cfg, s, a) && WorkerDoes(cfg, s, a, t)
  {
    hide DoorOpen, Passes, CanLoad, LoaderDoes, CanDispatch, DispatcherDoes, CanWork, WorkerDoes;
  }

  lemma UnwatchedLoader(cfg: Config, s: State, a: Action, t: State)
    requires Loading(a) && CanLoad(cfg, s, a) && LoaderDoes(cfg, s, a, t) && Unwatched(a)
    ensures SameWaiting(s, t)
  {
    hide Loads;
    forall id ensures SentOut(t, id) == SentOut(s, id) {}
  }

  lemma UnwatchedDispatcher(cfg: Config, s: State, a: Action, t: State)
    requires Dispatching(a) && CanDispatch(cfg, s, a) && DispatcherDoes(cfg, s, a, t) && Unwatched(a)
    ensures SameWaiting(s, t)
  {
    hide Splits, Answers;
    if a.Send? { SendSent(s, Target(cfg, s), t); }
    forall id ensures SentOut(t, id) == SentOut(s, id) {}
  }

  lemma SendSent(s: State, w: nat, t: State)
    requires w < |s.crew| && |t.crew| == |s.crew| && t.crew == s.crew[w := s.crew[w].(jobs := t.crew[w].jobs)] && t.dropping == s.dropping
    ensures forall id :: SentOut(t, id) == SentOut(s, id)
  {
    CrewSent(s, w, t);
  }

  /** Whether an item has been answered depends on the batches whose answers have been sent. */
  lemma CrewSent(s: State, w: nat, t: State)
    requires w < |s.crew| && |t.crew| == |s.crew| && t.dropping == s.dropping
    requires forall v :: 0 <= v < |s.crew| && v != w ==> t.crew[v] == s.crew[v]
    requires (!s.crew[w].phase.Completed? && !t.crew[w].phase.Completed?) || (t.crew[w].phase == s.crew[w].phase && t.crew[w].held == s.crew[w].held)
    ensures forall id :: SentOut(t, id) == SentOut(s, id)
  {
    forall id ensures SentOut(t, id) == SentOut(s, id) {
      if SentOut(s, id) && id !in s.dropping {
        var v :| 0 <= v < |s.crew| && s.crew[v].phase.Completed? && id in s.crew[v].held;
        assert t.crew[v].phase.Completed? && id in t.crew[v].held;
      }
      if SentOut(t, id) && id !in s.dropping {
        var v :| 0 <= v < |t.crew| && t.crew[v].phase.Completed? && id in t.crew[v].held;
        assert s.crew[v].phase.Completed? && id in s.crew[v].held;
      }
    }
  }

  lemma UnwatchedWorker(cfg: Config, s: State, a: Action, t: State)
    requires Working(a) && CanWork(cfg, s, a) && WorkerDoes(cfg, s, a, t) && Unwatched(a)
    ensures SameWaiting(s, t)
  {
    hide Exhausted, Answers, Counted, SentOut;
    CrewSent(s, a.w, t);
  }

  // ---- answers ----------------------------------------------------------------------------------------------------

  lemma {:induction false} AnswersAre(results: map<nat, nat>, batch: seq<nat>, k: nat)
    requires forall id :: id in batch ==> multiset(batch)[id] == 1
    requires forall id, x :: id in batch && x in batch && id in results && x in results && results[id] == results[x] ==> id == x
    ensures Answers(results, batch)[k] <= 1
    ensures (forall id :: id in batch && id in results ==> results[id] != k) ==> Answers(results, batch)[k] == 0
  {
    if batch != [] {
      PipelineOwners.Split(batch);
      var rest := batch[1..];
      assert batch == [batch[0]] + rest;
      forall id | id in rest ensures multiset(rest)[id] == 1 && id != batch[0] {
        assert id in multiset(rest);
        assert id in batch;
      }
      AnswersAre(results, rest, k);
      assert batch[0] in batch && forall id :: id in rest ==> id in batch;
    }
  }

  /** A batch that is answered: its items were in one place before, and had not been answered. */
  lemma SentDoor(s: State, t: State)
    requires DoorOk(s) && Known(s) && OwnersOk(s) && Carried(s) && SameButAnswers(s, t)
    ensures DoorOk(t) && Known(t) && OwnersOk(t) && Carried(t)
  {
    forall k | k in t.submits && t.submits[k].Appended? ensures Appendage(t, k, t.submits[k].id, t.submits[k].waits) {
      assert Appendage(s, k, s.submits[k].id, s.submits[k].waits);
    }
    forall id | Pending(s, id) ensures Pending(t, id) {}
  }

  lemma SentWaited(s: State, batch: seq<nat>, t: State)
    requires Waited(s) && SameButAnswers(s, t) && t.h.answers == s.h.answers + Answers(s.results, batch)
    requires forall id :: id in batch ==> multiset(batch)[id] == 1 && id in s.inFlight && !SentOut(s, id)
    requires forall id :: SentOut(t, id) <==> SentOut(s, id) || id in batch
    ensures Waited(t)
  {
    hide SentOut, Answers, DoorOk, Known, OwnersOk, Carried, AnswersOk;
    SentDoor(s, t);
    SentAnswers(s, batch, t);
  }

  ghost predicate SameButAnswers(s: State, t: State) {
    && t.submits == s.submits && t.waiters == s.waiters && t.results == s.results && t.inFlight == s.inFlight
    && t.h.owners == s.h.owners && t.h.callers == s.h.callers && t.h.loaded == s.h.loaded
    && t.h.admitted == s.h.admitted && t.storage.nextID == s.storage.nextID
  }

  /** The submitter that is told by this item of the batch. */
  ghost predicate Tells(s: State, batch: seq<nat>, k: nat, id: nat) {
    id in batch && id in s.waiters && id in s.h.loaded && id in s.h.owners && s.h.owners[id] == k
  }

  /** A submitter who is told now is told once, and was not told before. */
  lemma SentTo(s: State, batch: seq<nat>, k: nat) returns (id: nat)
    requires OwnersOk(s) && Carried(s) && AnswersOk(s) && Answers(s.results, batch)[k] > 0
    requires forall x :: x in batch ==> multiset(batch)[x] == 1 && x in s.inFlight && !SentOut(s, x)
    ensures Answers(s.results, batch)[k] == 1 && s.h.answers[k] == 0 && Tells(s, batch, k, id)
  {
    hide SentOut, Answers;
    forall x, y | x in batch && y in batch && x in s.results && y in s.results && s.results[x] == s.results[y] ensures x == y {
      assert x in s.waiters && y in s.waiters;
    }
    AnswersAre(s.results, batch, k);
    id :| id in batch && id in s.results && s.results[id] == k;
    assert id in s.waiters;
  }

  lemma SentAnswers(s: State, batch: seq<nat>, t: State)
    requires OwnersOk(s) && Carried(s) && AnswersOk(s) && SameButAnswers(s, t) && t.h.answers == s.h.answers + Answers(s.results, batch)
    requires forall id :: id in batch ==> multiset(batch)[id] == 1 && id in s.inFlight && !SentOut(s, id)
    requires forall id :: SentOut(t, id) <==> SentOut(s, id) || id in batch
    ensures AnswersOk(t)
  {
    hide SentOut, Answers, Carried;
    forall k | Answers(s.results, batch)[k] > 0
      ensures Answers(s.results, batch)[k] == 1 && s.h.answers[k] == 0 && exists id :: Tells(s, batch, k, id)
    {
      var id := SentTo(s, batch, k);
    }
  }

  /** A batch in one place, when every record in flight is in one place only. */
  lemma BatchAlone(p: Places, inFlight: set<nat>, batch: seq<nat>, rest: multiset<nat>)
    requires All(p) == multiset(inFlight) && All(p) == multiset(batch) + rest
    ensures forall id :: id in batch ==> multiset(batch)[id] == 1 && id in inFlight && id !in rest
  {
    hide All;
    forall id | id in batch ensures multiset(batch)[id] == 1 && id in inFlight && id !in rest {
      assert id in multiset(batch);
      assert multiset(inFlight)[id] <= 1;
    }
  }

  lemma CompletedHeld(s: State, id: nat)
    requires SentOut(s, id)
    ensures id in multiset(s.dropping) + multiset(HeldOf(s.crew))
  {
    hide HeldOf;
    if id !in s.dropping {
      var w :| 0 <= w < |s.crew| && s.crew[w].phase.Completed? && id in s.crew[w].held;
      HeldAt(s.crew, w, s.crew[w]);
      assert id in multiset(s.crew[w].held);
    }
  }

  lemma NotSent(s: State, id: nat)
    requires id !in multiset(HeldOf(s.crew)) && id !in s.dropping
    ensures !SentOut(s, id)
  {
    hide SentOut, HeldOf;
    if SentOut(s, id) { CompletedHeld(s, id); }
  }

  lemma CompleteWaited(cfg: Config, s: State, a: Action, t: State)
    requires Step(cfg, s, a, t) && a.Complete? && Waited(s) && Exclusive(s)
    ensures Waited(t)
  {
    hide Step, Waited, SentOut, Answers;
    WorkerStep(cfg, s, a, t);
    var w, batch := a.w, s.crew[a.w].held;
    HeldOnce(s, w);
    CompleteSent(s, w, t);
    SentWaited(s, batch, t);
  }

  lemma HeldOnce(s: State, w: nat)
    requires Exclusive(s) && w < |s.crew| && !s.crew[w].phase.Completed?
    ensures forall id :: id in s.crew[w].held ==> multiset(s.crew[w].held)[id] == 1 && id in s.inFlight && !SentOut(s, id)
  {
    hide HeldOf, JobsOf, Flat;
    HeldAt(s.crew, w, s.crew[w]);
    HeldApart(s, w);
    forall id | id in s.crew[w].held ensures multiset(s.crew[w].held)[id] == 1 {
      assert id in multiset(s.crew[w].held);
      Lone(Spread(s), s.inFlight, id);
    }
  }

  lemma CompleteSent(s: State, w: nat, t: State)
    requires w < |s.crew| && |t.crew| == |s.crew| && t.crew == s.crew[w := s.crew[w].(phase := Completed)] && t.dropping == s.dropping
    ensures forall id :: SentOut(t, id) <==> SentOut(s, id) || id in s.crew[w].held
  {
    forall id ensures SentOut(t, id) <==> SentOut(s, id) || id in s.crew[w].held {
      if SentOut(s, id) && id !in s.dropping {
        var v :| 0 <= v < |s.crew| && s.crew[v].phase.Completed? && id in s.crew[v].held;
        assert t.crew[v].phase.Completed? && id in t.crew[v].held;
      }
      if id in s.crew[w].held { assert t.crew[w].phase.Completed?; }
    }
  }

  predicate Drops(a: Action) {
    a.DropBatch? || a.CancelDispatch? || a.DropQueued?
  }

  /** The dispatcher answers a batch on cancellation. */
  lemma DropWaited(cfg: Config, s: State, a: Action, t: State)
    requires Step(cfg, s, a, t) && Drops(a) && Waited(s) && Exclusive(s)
    ensures Waited(t)
  {
    hide Step, Waited, SentOut, Answers, Spread, All;
    DropStep(cfg, s, a, t);
    DropAlone(cfg, s, a, t);
    SentWaited(s, t.dropping, t);
  }

  lemma DropStep(cfg: Config, s: State, a: Action, t: State)
    requires Step(cfg, s, a, t) && Drops(a)
    ensures SameButAnswers(s, t) && t.h.answers == s.h.answers + Answers(s.results, t.dropping) && s.dropping == []
    ensures t.crew == s.crew
    ensures forall id :: SentOut(t, id) <==> SentOut(s, id) || id in t.dropping
  {
    hide Step, Answers;
    StepOf(cfg, s, a, t);
  }

  lemma HeldIs(s: State)
    ensures Spread(s).held == multiset(HeldOf(s.crew)) && Spread(s).dropping == multiset(s.dropping) && Spread(s).pending == multiset(s.pending)
  {}

  /** The places without the batch that is about to be dropped. */
  lemma Without(s: State, t: State, rest: Places)
    requires Exclusive(s) && s.dropping == [] && rest.held == multiset(HeldOf(s.crew)) && rest.dropping == multiset{}
    requires All(Spread(s)) == All(rest) + multiset(t.dropping)
    ensures forall id :: id in t.dropping ==> multiset(t.dropping)[id] == 1 && id in s.inFlight && !SentOut(s, id)
  {
    hide Spread, HeldOf, SentOut;
    AloneOf(s, t.dropping, rest);
  }

  lemma DropBatchAlone(cfg: Config, s: State, t: State)
    requires Step(cfg, s, DropBatch, t) && Exclusive(s) && s.dropping == []
    ensures forall id :: id in t.dropping ==> multiset(t.dropping)[id] == 1 && id in s.inFlight && !SentOut(s, id)
  {
    hide Step, SentOut, HeldOf, JobsOf, Flat, Exclusive, Spread;
    HeldIs(s);
    DropBatchPlaces(cfg, s, t);
    DropBatchIs(cfg, s, t);
    Without(s, t, Spread(s).(outbox := Spread(t).outbox));
  }

  lemma CancelAlone(cfg: Config, s: State, t: State)
    requires Step(cfg, s, CancelDispatch, t) && Exclusive(s) && s.dropping == []
    ensures forall id :: id in t.dropping ==> multiset(t.dropping)[id] == 1 && id in s.inFlight && !SentOut(s, id)
  {
    hide Step, SentOut, HeldOf, JobsOf, Flat, Exclusive, Spread;
    HeldIs(s);
    CancelPlaces(cfg, s, t);
    CancelStep(cfg, s, t);
    Without(s, t, Spread(s).(pending := multiset{}));
  }

  lemma DropQueuedAlone(cfg: Config, s: State, t: State)
    requires Step(cfg, s, DropQueued, t) && Exclusive(s) && s.dropping == []
    ensures forall id :: id in t.dropping ==> multiset(t.dropping)[id] == 1 && id in s.inFlight && !SentOut(s, id)
  {
    hide Step, SentOut, HeldOf, JobsOf, Flat, Exclusive, Spread;
    HeldIs(s);
    DropQueuedPlaces(cfg, s, t);
    DropQueuedStep(cfg, s, t);
    One([], s.queue[0]);
    Without(s, t, Spread(s).(queue := Spread(t).queue));
  }

  lemma DropAlone(cfg: Config, s: State, a: Action, t: State)
    requires Step(cfg, s, a, t) && Drops(a) && Exclusive(s) && s.dropping == []
    ensures forall id :: id in t.dropping ==> multiset(t.dropping)[id] == 1 && id in s.inFlight && !SentOut(s, id)
  {
    hide Step, SentOut, Exclusive;
    match a
    case DropBatch => DropBatchAlone(cfg, s, t);
    case CancelDispatch => CancelAlone(cfg, s, t);
    case DropQueued => DropQueuedAlone(cfg, s, t);
  }

  lemma DropBatchIs(cfg: Config, s: State, t: State)
    requires Step(cfg, s, DropBatch, t)
    ensures s.outbox != [] && t.dropping == s.outbox[0]
  {
    hide Answers;
  }

  lemma AloneOf(s: State, batch: seq<nat>, rest: Places)
    requires Exclusive(s) && s.dropping == [] && All(Spread(s)) == All(rest) + multiset(batch) && rest.held == multiset(HeldOf(s.crew))
    ensures forall id :: id in batch ==> multiset(batch)[id] == 1 && id in s.inFlight && !SentOut(s, id)
  {
    hide Spread, HeldOf, SentOut;
    BatchAlone(Spread(s), s.inFlight, batch, All(rest));
    forall id | id in batch ensures !SentOut(s, id) {
      assert id !in rest.held;
      NotSent(s, id);
    }
  }

  // ---- releases --------------------------------------------------------------------------------------------------

  ghost predicate Releasing(s: State, batch: seq<nat>, t: State) {
    && t.submits == s.submits && t.h == s.h && t.storage.nextID == s.storage.nextID
    && t.inFlight == s.inFlight - Elements(batch) && t.waiters == s.waiters - Elements(batch) && t.results == s.results - Elements(batch)
    && (forall id :: id in batch ==> id in s.inFlight)
    && (forall id :: SentOut(s, id) && id !in batch ==> SentOut(t, id))
  }

  lemma ReleasedWaited(s: State, batch: seq<nat>, t: State)
    requires Waited(s) && Releasing(s, batch, t)
    ensures Waited(t)
  {
    hide SentOut, DoorOk, Known, OwnersOk, Carried, AnswersOk, Elements;
    ReleasedDoor(s, batch, t);
    ReleasedRest(s, batch, t);
  }

  lemma ReleasedDoor(s: State, batch: seq<nat>, t: State)
    requires DoorOk(s) && Known(s) && OwnersOk(s) && Releasing(s, batch, t)
    ensures DoorOk(t) && Known(t) && OwnersOk(t)
  {
    hide SentOut;
    forall k | k in t.submits && t.submits[k].Appended? ensures Appendage(t, k, t.submits[k].id, t.submits[k].waits) {
      assert Appendage(s, k, s.submits[k].id, s.submits[k].waits);
    }
    forall id | Pending(s, id) ensures Pending(t, id) {}
  }

  lemma ReleasedRest(s: State, batch: seq<nat>, t: State)
    requires Carried(s) && AnswersOk(s) && Releasing(s, batch, t)
    ensures Carried(t) && AnswersOk(t)
  {
    hide SentOut;
  }

  predicate Releases(a: Action) {
    a.Release? || a.ReleaseDropped? || a.DropHand?
  }

  lemma ReleaseWaited(cfg: Config, s: State, a: Action, t: State)
    requires Step(cfg, s, a, t) && Releases(a) && Waited(s) && Exclusive(s)
    ensures Waited(t)
  {
    hide Step, Waited, Elements, CanLoad, LoaderDoes, CanDispatch, DispatcherDoes, CanWork, WorkerDoes, SentOut;
    StepOf(cfg, s, a, t);
    if a.Release? { WorkerReleases(cfg, s, a, t); }
    else if a.ReleaseDropped? { DroppedReleases(cfg, s, a, t); }
    else { HandReleases(cfg, s, a, t); }
  }

  lemma WorkerReleases(cfg: Config, s: State, a: Action, t: State)
    requires a.Release? && CanWork(cfg, s, a) && WorkerDoes(cfg, s, a, t) && Waited(s) && Exclusive(s)
    ensures Waited(t)
  {
    hide Waited, Elements, Owned, Early;
    HeldApart(s, a.w);
    forall id | SentOut(s, id) && id !in s.crew[a.w].held ensures SentOut(t, id) {
      if id !in s.dropping {
        var v :| 0 <= v < |s.crew| && s.crew[v].phase.Completed? && id in s.crew[v].held;
        assert t.crew[v].phase.Completed? && id in t.crew[v].held;
      }
    }
    ReleasedWaited(s, s.crew[a.w].held, t);
  }

  lemma DroppedReleases(cfg: Config, s: State, a: Action, t: State)
    requires a.ReleaseDropped? && CanDispatch(cfg, s, a) && DispatcherDoes(cfg, s, a, t) && Waited(s) && Exclusive(s)
    ensures Waited(t)
  {
    hide Waited, Elements, HeldOf, JobsOf, Flat;
    forall id | id in s.dropping ensures id in s.inFlight { assert id in Spread(s).dropping; assert id in All(Spread(s)); }
    ReleasedWaited(s, s.dropping, t);
  }

  lemma HandReleases(cfg: Config, s: State, a: Action, t: State)
    requires a.DropHand? && CanLoad(cfg, s, a) && LoaderDoes(cfg, s, a, t) && Waited(s) && Exclusive(s)
    ensures Waited(t)
  {
    hide Waited, Elements, HeldOf, JobsOf, Flat, Loads;
    assert s.loader.id in Spread(s).hand;
    assert s.loader.id in All(Spread(s));
    forall id ensures SentOut(t, id) == SentOut(s, id) {}
    ReleasedWaited(s, [s.loader.id], t);
  }

  // ---- every run -----------------------------------------------------------------------------------------------

  lemma WaitedKept(cfg: Config, s: State, a: Action, t: State)
    requires Step(cfg, s, a, t) && Waited(s) && Exclusive(s) && Accounted(s)
    ensures Waited(t)
  {
    hide Step, Waited, Exclusive, Accounted, SameWaiting;
    if a.Append? { AppendWaited(cfg, s, a, t); }
    else if a.Register? { RegisterWaited(cfg, s, a, t); }
    else if Door(a) { ComesAndGoes(cfg, s, a, t); }
    else if a.Load? { LoadWaited(cfg, s, t); }
    else if Unwatched(a) { UnwatchedStep(cfg, s, a, t); SameWaited(s, t); }
    else if a.Complete? { CompleteWaited(cfg, s, a, t); }
    else if Drops(a) { DropWaited(cfg, s, a, t); }
    else { ReleaseWaited(cfg, s, a, t); }
  }

  lemma InitialWaited(cfg: Config, s: State)
    requires Initial(cfg, s)
    ensures Waited(s)
  {}

  /** In every run, waiting is in order; in particular no submitter is sent more than one result. */
  lemma {:induction false} AtMostOneAnswer(cfg: Config, xs: seq<State>, actions: seq<Action>, n: nat)
    requires Run(cfg, xs, actions) && n < |xs|
    ensures Waited(xs[n]) && forall k :: xs[n].h.answers[k] <= 1
  {
    hide Step, Exclusive, Alive, Accounted, DoorOk, OwnersOk, Known, Carried;
    if n == 0 {
      InitialWaited(cfg, xs[0]);
    } else {
      AtMostOneAnswer(cfg, xs, actions, n - 1);
      SingleOwner(cfg, xs, actions, n - 1);
      assert Takes(cfg, xs, actions, n - 1);
      WaitedKept(cfg, xs[n - 1], actions[n - 1], xs[n]);
    }
  }

  /** A record that somebody waits for is loaded with its waiter: the waiter is always registered first. */
  lemma WaiterBeforeLoad(cfg: Config, xs: seq<State>, actions: seq<Action>, n: nat, id: nat)
    requires Run(cfg, xs, actions) && n < |actions| < |xs| && actions[n].Load?
    requires id in xs[n + 1].h.loaded && id !in xs[n].h.loaded && id in xs[n].h.owners
    ensures id in xs[n + 1].results && xs[n + 1].results[id] == xs[n].h.owners[id]
  {
    hide Step, Exclusive, Alive, Accounted, Waited, Run;
    AtMostOneAnswer(cfg, xs, actions, n);
    SingleOwner(cfg, xs, actions, n);
    TakesStep(cfg, xs, actions, n);
    LoadWaited(cfg, xs[n], xs[n + 1]);
  }
}
