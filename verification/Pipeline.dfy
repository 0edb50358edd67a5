/**
 * The durable delivery pipeline as a state machine: one action for each critical section, channel operation or storage
 * call of its goroutines. Submitters, loader, dispatcher and workers interleave in any order.
 */
module Pipeline {
  import opened Telemetry

  /** What the source configures; `workerOf` is `workerIndex`. */
  datatype Config = Config(workers: nat, queueSize: nat, maxAttempts: nat, workerOf: string -> nat) {
    ghost predicate Lawful() {
      workers >= 1 && queueSize >= 1 && maxAttempts >= 1 && forall v: string :: workerOf(v) < workers
    }
  }

  /** A call of `enqueue` inside the admission barrier: before its record is stored, after, and after its waiter is known. */
  datatype Submit = Entered(waits: bool) | Appended(id: nat, waits: bool) | Registered

  /** Where the loader stands: its turns, and the one record it may have in hand. */
  datatype Loader = Looking | Holding(id: nat) | Peeking | Checking(accepting: bool) | Waiting | Closed

  datatype Dispatcher = Running | Draining | Stopped

  /** Where a worker stands with the batch it holds. */
  datatype Phase = Free | Ready(tried: bool) | Consumed | Failed(permanent: bool) | Finished | Completed

  datatype Worker = Worker(jobs: seq<nat>, held: seq<nat>, phase: Phase)

  /** The storage as the pipeline sees it: the records that are active, and how often each was tried. */
  datatype Storage = Storage(active: set<nat>, attempts: map<nat, nat>, services: map<nat, string>, nextID: nat)

  /** What happened so far. */
  datatype History = History(
    admitted: set<nat>,            // every record that was ever active
    initial: map<nat, nat>,        // their attempts when this run first saw them
    owners: map<nat, nat>,         // the waiting submitter of each record that has one
    callers: set<nat>,             // every call of enqueue
    loaded: set<nat>,              // every record that was ever loaded
    deliveries: map<nat, nat>,     // how often the sink was given each record
    handed: seq<nat>,              // the records in the order in which they first reached the sink
    answers: multiset<nat>,        // the results that each submitter was sent
    acked: set<nat>, quarantined: set<nat>,
    returned: bool)                // whether a retry could not be noted, and its records went back to the loader

  /** Locations hold record IDs; `results` is the result channel that the item of a record carries. */
  datatype State = State(
    accepting: bool, cancelled: bool, storage: Storage, submits: map<nat, Submit>,
    inFlight: set<nat>, waiters: map<nat, nat>, results: map<nat, nat>,
    loader: Loader, cursor: nat, queue: seq<nat>,
    dispatcher: Dispatcher, pending: seq<nat>, outbox: seq<seq<nat>>, dropping: seq<nat>,
    crew: seq<Worker>, h: History)

  datatype Action =
    // submitters
    | Enter(k: nat, waits: bool) | Append(k: nat, id: nat, service: string) | Reject(k: nat) | Register(k: nat) | Leave(k: nat)
    // the owner of the pipeline
    | CloseAdmission | Cancel
    // the loader
    | Load | LoadFails | Put | DropHand | Peek | Check | Wake | QuitLoading
    // the dispatcher
    | Receive | Flush(batches: seq<seq<nat>>) | Send | DropBatch | CancelDispatch | DropQueued | ReleaseDropped | StopDispatch
    // worker w
    | Start(w: nat) | Deliver(w: nat, failed: bool, permanent: bool) | Ack(w: nat)
    | Quarantine(w: nat) | Retry(w: nat) | RetryFails(w: nat) | GiveUp(w: nat) | Complete(w: nat) | Release(w: nat)

  // ---- helpers -------------------------------------------------------------------------------------------------

  function Flat<X>(batches: seq<seq<X>>): seq<X> {
    if batches == [] then [] else batches[0] + Flat(batches[1..])
  }

  function Service(st: Storage, id: nat): string {
    if id in st.services then st.services[id] else ""
  }

  function Attempts(st: Storage, id: nat): nat {
    if id in st.attempts then st.attempts[id] else 0
  }

  /** The items of one service, in order. */
  function Pick(st: Storage, ids: seq<nat>, v: string): seq<nat> {
    if ids == [] then [] else (if Service(st, ids[0]) == v then [ids[0]] else []) + Pick(st, ids[1..], v)
  }

  /** `NextAfter`: the least active record above the cursor. */
  ghost predicate IsNext(st: Storage, cursor: nat, id: nat) {
    id in st.active && id > cursor && forall x :: x in st.active && x > cursor ==> x >= id
  }

  ghost predicate NoneAfter(st: Storage, cursor: nat) {
    forall x :: x in st.active ==> x <= cursor
  }

  /** `retryExhausted`. */
  ghost predicate Exhausted(cfg: Config, st: Storage, batch: seq<nat>) {
    exists id :: id in batch && Attempts(st, id) + 1 >= cfg.maxAttempts
  }

  /** What `flush` makes of the pending items: batches of one service each, in their order, that go to that service's worker. */
  ghost predicate Splits(st: Storage, pending: seq<nat>, batches: seq<seq<nat>>) {
    && (forall b :: b in batches ==> b != [])
    && (forall b, i, j :: b in batches && 0 <= i < |b| && 0 <= j < |b| ==> Service(st, b[i]) == Service(st, b[j]))
    && multiset(Flat(batches)) == multiset(pending)
    && (forall v :: Pick(st, Flat(batches), v) == Pick(st, pending, v))
  }

  function Counted(m: map<nat, nat>, ids: seq<nat>): map<nat, nat> {
    map id | id in m.Keys + (set x | x in ids) :: (if id in m then m[id] else 0) + (if id in ids then 1 else 0)
  }

  function Times(m: map<nat, nat>, id: nat): nat {
    if id in m then m[id] else 0
  }

  /** The results that `complete` sends for a batch. */
  function Answers(results: map<nat, nat>, batch: seq<nat>): multiset<nat> {
    if batch == [] then multiset{}
    else (if batch[0] in results then multiset{results[batch[0]]} else multiset{}) + Answers(results, batch[1..])
  }

  /** `releaseRecords`. */
  function Released(s: State, batch: seq<nat>): State {
    s.(inFlight := s.inFlight - Elements(batch), waiters := s.waiters - Elements(batch), results := s.results - Elements(batch))
  }

  function Sent(s: State, batch: seq<nat>): State {
    s.(h := s.h.(answers := s.h.answers + Answers(s.results, batch)))
  }

  function At(s: State, w: nat, worker: Worker): State
    requires w < |s.crew|
  {
    s.(crew := s.crew[w := worker])
  }

  // ---- the actions ------------------------------------------------------------------------------------------------

  predicate DispatcherFree(s: State) {
    s.dispatcher.Running? && s.dropping == [] && s.outbox == []
  }

  /** The worker of the batch that the dispatcher sends next. */
  function Target(cfg: Config, s: State): nat
    requires s.outbox != []
  {
    if s.outbox[0] == [] then 0 else cfg.workerOf(Service(s.storage, s.outbox[0][0]))
  }

  /** The failure is permanent, or one of the records has no attempt left. */
  ghost predicate Hopeless(cfg: Config, s: State, w: nat)
    requires w < |s.crew| && s.crew[w].phase.Failed?
  {
    s.crew[w].phase.permanent || Exhausted(cfg, s.storage, s.crew[w].held)
  }

  /** A record becomes active. */
  function Stored(s: State, k: nat, id: nat, waits: bool, service: string): State {
    var st, h := s.storage, s.h;
    s.(storage := Storage(st.active + {id}, st.attempts[id := 0], st.services[id := service], id + 1),
       submits := s.submits[k := Appended(id, waits)],
       h := h.(admitted := h.admitted + {id}, initial := h.initial[id := 0], owners := if waits then h.owners[id := k] else h.owners))
  }

  /** The loader takes a record in hand. */
  function Loaded(s: State, id: nat): State {
    s.(cursor := id, loader := Holding(id), inFlight := s.inFlight + {id}, h := s.h.(loaded := s.h.loaded + {id}),
       results := if id in s.waiters then s.results[id := s.waiters[id]] else s.results)
  }

  /** Records leave the storage. */
  function Gone(s: State, w: nat, quarantine: bool): State
    requires w < |s.crew|
  {
    var batch := s.crew[w].held;
    At(s, w, s.crew[w].(phase := Finished)).(
      storage := s.storage.(active := s.storage.active - Elements(batch)),
      h := if quarantine then s.h.(quarantined := s.h.quarantined + Elements(batch)) else s.h.(acked := s.h.acked + Elements(batch)))
  }

  function Tried(s: State, w: nat, failed: bool, permanent: bool): State
    requires w < |s.crew| && s.crew[w].phase.Ready?
  {
    var worker := s.crew[w];
    At(s, w, worker.(phase := if failed then Failed(permanent) else Consumed)).(
      h := s.h.(deliveries := Counted(s.h.deliveries, worker.held),
                handed := if worker.phase.tried then s.h.handed else s.h.handed + worker.held))
  }

  /** One look at the storage, under both locks. */
  ghost predicate Loads(s: State, t: State) {
    || (exists id :: IsNext(s.storage, s.cursor, id)
          && t == if id in s.inFlight then s.(cursor := id) else Loaded(s, id))
    || (NoneAfter(s.storage, s.cursor) && t == s.(cursor := 0, loader := Peeking))
  }

  /** Actions of submitters and the owner of the pipeline. */
  predicate Door(a: Action) {
    a.Enter? || a.Append? || a.Reject? || a.Register? || a.Leave?
    || a.CloseAdmission? || a.Cancel?
  }

  ghost predicate DoorOpen(cfg: Config, s: State, a: Action)
    requires Door(a)
  {
    match a
    case Enter(k, _) => s.accepting && k !in s.h.callers
    case Append(k, id, _) => k in s.submits && s.submits[k].Entered? && id >= s.storage.nextID
    case Reject(k) => k in s.submits && s.submits[k].Entered?
    case Register(k) => k in s.submits && s.submits[k].Appended?
    case Leave(k) => k in s.submits && s.submits[k].Registered?
    case CloseAdmission => s.submits == map[]
    case Cancel => true
  }

  ghost predicate Passes(cfg: Config, s: State, a: Action, t: State)
    requires Door(a) && DoorOpen(cfg, s, a)
  {
    match a
    case Enter(k, waits) => t == s.(submits := s.submits[k := Entered(waits)], h := s.h.(callers := s.h.callers + {k}))
    case Append(k, id, service) => t == Stored(s, k, id, s.submits[k].waits, service)
    case Reject(k) => t == s.(submits := s.submits - {k})
    case Register(k) =>
      t == s.(submits := s.submits[k := Registered],
              waiters := if s.submits[k].waits then s.waiters[s.submits[k].id := k] else s.waiters)
    case Leave(k) => t == s.(submits := s.submits - {k})
    case CloseAdmission => t == s.(accepting := false)
    case Cancel => t == s.(cancelled := true)
  }

  /** Actions of the loader. */
  predicate Loading(a: Action) {
    a.Load? || a.LoadFails? || a.Put? || a.DropHand? || a.Peek?
    || a.Check? || a.Wake? || a.QuitLoading?
  }

  ghost predicate CanLoad(cfg: Config, s: State, a: Action)
    requires Loading(a)
  {
    match a
    case Load => s.loader.Looking? && s.submits == map[]
    case LoadFails => s.loader.Looking? && s.submits == map[]
    case Put => s.loader.Holding? && |s.queue| < cfg.queueSize
    case DropHand => s.loader.Holding? && s.cancelled
    case Peek => s.loader.Peeking?
    case Check => s.loader.Checking?
    case Wake => s.loader.Waiting?
    case QuitLoading => s.loader.Waiting? && s.cancelled
  }

  ghost predicate LoaderDoes(cfg: Config, s: State, a: Action, t: State)
    requires Loading(a) && CanLoad(cfg, s, a)
  {
    match a
    case Load => Loads(s, t)
    case LoadFails => t == s.(loader := Waiting)
    case Put => t == s.(queue := s.queue + [s.loader.id], loader := Looking)
    case DropHand => t == Released(s, [s.loader.id]).(loader := Closed)
    case Peek => t == s.(loader := Checking(s.accepting))
    case Check => t == s.(loader := if !s.loader.accepting && s.storage.active == {} then Closed else Waiting)
    case Wake => t == s.(loader := Looking)
    case QuitLoading => t == s.(loader := Closed)
  }

  /** Actions of the dispatcher. */
  predicate Dispatching(a: Action) {
    a.Receive? || a.Flush? || a.Send? || a.DropBatch? || a.CancelDispatch?
    || a.DropQueued? || a.ReleaseDropped? || a.StopDispatch?
  }

  ghost predicate CanDispatch(cfg: Config, s: State, a: Action)
    requires Dispatching(a)
  {
    match a
    case Receive => DispatcherFree(s) && s.queue != []
    case Flush(batches) => DispatcherFree(s) && s.pending != [] && Splits(s.storage, s.pending, batches)
    case Send => s.dropping == [] && s.outbox != [] && Target(cfg, s) < |s.crew| && s.crew[Target(cfg, s)].jobs == []
    case DropBatch => s.dropping == [] && s.outbox != [] && s.cancelled
    case CancelDispatch => DispatcherFree(s) && s.cancelled
    case DropQueued => s.dispatcher.Draining? && s.dropping == [] && s.queue != []
    case ReleaseDropped => s.dropping != []
    case StopDispatch => s.dropping == [] && s.outbox == [] && s.queue == [] && s.loader.Closed?
                         && (s.dispatcher.Draining? || (s.dispatcher.Running? && s.pending == []))
  }

  ghost predicate DispatcherDoes(cfg: Config, s: State, a: Action, t: State)
    requires Dispatching(a) && CanDispatch(cfg, s, a)
  {
    match a
    case Receive => t == s.(queue := s.queue[1..], pending := s.pending + [s.queue[0]])
    case Flush(batches) => t == s.(pending := [], outbox := batches)
    case Send =>
      t == At(s, Target(cfg, s), s.crew[Target(cfg, s)].(jobs := s.outbox[0])).(outbox := s.outbox[1..])
    case DropBatch => t == Sent(s, s.outbox[0]).(outbox := s.outbox[1..], dropping := s.outbox[0])
    case CancelDispatch => t == Sent(s, s.pending).(dispatcher := Draining, pending := [], dropping := s.pending)
    case DropQueued => t == Sent(s, [s.queue[0]]).(queue := s.queue[1..], dropping := [s.queue[0]])
    case ReleaseDropped => t == Released(s, s.dropping).(dropping := [])
    case StopDispatch => t == s.(dispatcher := Stopped)
  }

  /** Actions of the workers. */
  predicate Working(a: Action) {
    a.Start? || a.Deliver? || a.Ack? || a.Quarantine? || a.Retry?
    || a.RetryFails? || a.GiveUp? || a.Complete? || a.Release?
  }

  ghost predicate CanWork(cfg: Config, s: State, a: Action)
    requires Working(a)
  {
    match a
    case Start(w) => w < |s.crew| && s.crew[w].phase.Free? && s.crew[w].jobs != []
    case Deliver(w, _, _) => w < |s.crew| && s.crew[w].phase.Ready?
    case Ack(w) => w < |s.crew| && s.crew[w].phase.Consumed?
    case Quarantine(w) => w < |s.crew| && s.crew[w].phase.Failed? && Hopeless(cfg, s, w)
    case Retry(w) => w < |s.crew| && s.crew[w].phase.Failed? && !Hopeless(cfg, s, w)
    case RetryFails(w) => w < |s.crew| && s.crew[w].phase.Failed? && !Hopeless(cfg, s, w)
    case GiveUp(w) => w < |s.crew| && s.cancelled
                      && (s.crew[w].phase.Consumed? || s.crew[w].phase.Failed? || s.crew[w].phase == Ready(true))
    case Complete(w) => w < |s.crew| && s.crew[w].phase.Finished?
    case Release(w) => w < |s.crew| && s.crew[w].phase.Completed?
  }

  ghost predicate WorkerDoes(cfg: Config, s: State, a: Action, t: State)
    requires Working(a) && CanWork(cfg, s, a)
  {
    match a
    case Start(w) => t == At(s, w, Worker([], s.crew[w].jobs, Ready(false)))
    case Deliver(w, failed, permanent) => t == Tried(s, w, failed, permanent)
    case Ack(w) => t == Gone(s, w, false)
    case Quarantine(w) => t == Gone(s, w, true)
    case Retry(w) =>
      t == At(s, w, s.crew[w].(phase := Ready(true))).(storage := s.storage.(attempts := Counted(s.storage.attempts, s.crew[w].held)))
    case RetryFails(w) => t == At(s, w, s.crew[w].(phase := Finished)).(h := s.h.(returned := true))
    case GiveUp(w) => t == At(s, w, s.crew[w].(phase := Finished))
    case Complete(w) => t == At(Sent(s, s.crew[w].held), w, s.crew[w].(phase := Completed))
    case Release(w) => t == At(Released(s, s.crew[w].held), w, s.crew[w].(held := [], phase := Free))
  }

  /** One action: when its goroutine can take it, and what it does. A failed acknowledgement or quarantine changes nothing; it is tried again. */
  ghost predicate Step(cfg: Config, s: State, a: Action, t: State) {
    if Door(a) then DoorOpen(cfg, s, a) && Passes(cfg, s, a, t)
    else if Loading(a) then CanLoad(cfg, s, a) && LoaderDoes(cfg, s, a, t)
    else if Dispatching(a) then CanDispatch(cfg, s, a) && DispatcherDoes(cfg, s, a, t)
    else CanWork(cfg, s, a) && WorkerDoes(cfg, s, a, t)
  }

  /** A pipeline over a storage with these records, before anything has happened. */
  ghost predicate Initial(cfg: Config, s: State) {
    && cfg.Lawful()
    && s == State(true, false, s.storage, map[], {}, map[], map[], Looking, 0, [], Running, [], [], [],
                  seq(cfg.workers, _ => Worker([], [], Free)),
                  History(s.storage.active, s.storage.attempts, map[], {}, {}, map[], [], multiset{}, {}, {}, false))
    && (forall id :: id in s.storage.active ==> 0 < id < s.storage.nextID && id in s.storage.attempts)
    && s.storage.nextID > 0
  }

  /** A run: a sequence of states that actions lead through. */
  ghost predicate Run(cfg: Config, xs: seq<State>, actions: seq<Action>) {
    && |xs| == |actions| + 1 && Initial(cfg, xs[0])
    && forall i :: 0 <= i < |actions| ==> Takes(cfg, xs, actions, i)
  }

  ghost predicate Takes(cfg: Config, xs: seq<State>, actions: seq<Action>, i: nat)
    requires i < |actions| && i + 1 < |xs|
  {
    Step(cfg, xs[i], actions[i], xs[i + 1])
  }

  /** `p.done` is closed. */
  ghost predicate Done(s: State) {
    s.loader.Closed? && s.dispatcher.Stopped? && forall w :: 0 <= w < |s.crew| ==> s.crew[w].phase.Free? && s.crew[w].jobs == []
  }
}
