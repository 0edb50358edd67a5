/**
 * When the pipeline gives a batch up: exactly after a permanent failure, or when one of its records has been delivered as
 * often as it may be.
 */
module PipelineVerdict {
  import opened Telemetry
  import opened Pipeline
  import opened PipelineOwners
  import opened PipelineWaiters
  import opened PipelineFate

  /** The record has been delivered as often as it had attempts left when the run first saw it, or once if it had none. */
  ghost predicate UsedUp(cfg: Config, s: State, id: nat) {
    Times(s.h.deliveries, id) == if cfg.maxAttempts > Times(s.h.initial, id) + 1 then cfg.maxAttempts - Times(s.h.initial, id) else 1
  }

  /** The last thing that worker `w` did before point `n` of the run: a delivery that failed in this way. */
  ghost predicate LastFailed(xs: seq<State>, actions: seq<Action>, n: nat, w: nat, m: nat, permanent: bool) {
    && m < n <= |actions| < |xs| && actions[m] == Deliver(w, true, permanent)
    && forall j :: m < j < n ==> actions[j] != Deliver(w, true, !permanent) && !(Working(actions[j]) && actions[j].w == w)
  }

  // ---- the failure behind a verdict ----------------------------------------------------------------------------

  /** A worker stands at a failure because it stood there before, and was not the one to act, or because its delivery failed. */
  lemma FailedSince(cfg: Config, s: State, a: Action, t: State, w: nat)
    requires Step(cfg, s, a, t) && w < |t.crew| && t.crew[w].phase.Failed?
    ensures a == Deliver(w, true, t.crew[w].phase.permanent)
         || (w < |s.crew| && s.crew[w].phase == t.crew[w].phase && !(Working(a) && a.w == w))
  {
    hide Step, DoorOpen, Passes, CanLoad, LoaderDoes, CanDispatch, DispatcherDoes, CanWork, WorkerDoes;
    StepOf(cfg, s, a, t);
    if Door(a) { FailedDoor(cfg, s, a, t, w); }
    else if Loading(a) { FailedLoader(cfg, s, a, t, w); }
    else if Dispatching(a) { FailedDispatcher(cfg, s, a, t); }
    else { FailedWorker(cfg, s, a, t, w); }
  }

  lemma FailedDoor(cfg: Config, s: State, a: Action, t: State, w: nat)
    requires Step(cfg, s, a, t) && Door(a)
    ensures t.crew == s.crew && !Working(a)
  {
    hide Step;
    DoorStep(cfg, s, a, t);
  }

  lemma FailedLoader(cfg: Config, s: State, a: Action, t: State, w: nat)
    requires Loading(a) && CanLoad(cfg, s, a) && LoaderDoes(cfg, s, a, t)
    ensures t.crew == s.crew && !Working(a)
  {
    hide IsNext, Elements;
  }

  lemma FailedDispatcher(cfg: Config, s: State, a: Action, t: State)
    requires Step(cfg, s, a, t) && Dispatching(a)
    ensures |t.crew| == |s.crew| && (forall w :: 0 <= w < |s.crew| ==> t.crew[w].phase == s.crew[w].phase) && !Working(a)
  {
    hide Step, Spread, All, Ahead;
    if Still(a) { StillStep(cfg, s, a, t); }
    else if Moves(a) { MovePlaces(cfg, s, a, t); }
    else { ReleaseDroppedPlaces(cfg, s, t); }
  }

  lemma FailedWorker(cfg: Config, s: State, a: Action, t: State, w: nat)
    requires Working(a) && CanWork(cfg, s, a) && WorkerDoes(cfg, s, a, t) && w < |t.crew| && t.crew[w].phase.Failed?
    ensures a == Deliver(w, true, t.crew[w].phase.permanent)
         || (w < |s.crew| && s.crew[w].phase == t.crew[w].phase && a.w != w)
  {
    hide Exhausted, Answers, Elements, Counted;
  }

  lemma {:induction false} FailureBehind(cfg: Config, xs: seq<State>, actions: seq<Action>, n: nat, w: nat) returns (m: nat)
    requires Run(cfg, xs, actions) && n < |xs| && w < |xs[n].crew| && xs[n].crew[w].phase.Failed?
    ensures LastFailed(xs, actions, n, w, m, xs[n].crew[w].phase.permanent)
  {
    hide Step;
    if n == 0 {
      NobodyFailed(cfg, xs[0], w);
    } else {
      assert Takes(cfg, xs, actions, n - 1);
      FailedSince(cfg, xs[n - 1], actions[n - 1], xs[n], w);
      if actions[n - 1] == Deliver(w, true, xs[n].crew[w].phase.permanent) {
        m := n - 1;
      } else {
        m := FailureBehind(cfg, xs, actions, n - 1, w);
      }
    }
  }

  lemma NobodyFailed(cfg: Config, s: State, w: nat)
    requires Initial(cfg, s) && w < |s.crew|
    ensures !s.crew[w].phase.Failed?
  {}

  // ---- the verdict -----------------------------------------------------------------------------------------------

  /** After a failure the stored attempts are one behind: the records whose attempts are used up are those delivered often enough. */
  lemma UsedUpIff(cfg: Config, s: State, w: nat, id: nat)
    requires Tallied(cfg, s) && Calm(s) && w < |s.crew| && s.crew[w].phase.Failed? && id in s.crew[w].held
    ensures UsedUp(cfg, s, id) <==> Attempts(s.storage, id) + 1 >= cfg.maxAttempts
  {
    hide Early, Attempts;
    assert InStep(cfg, s, s.crew[w].phase, id);
    assert Tries(s, id) <= Limit(cfg, Beginning(s, id));
  }

  ghost predicate SomeUsedUp(cfg: Config, s: State, w: nat)
    requires w < |s.crew|
  {
    exists id :: id in s.crew[w].held && UsedUp(cfg, s, id)
  }

  lemma HopelessIff(cfg: Config, s: State, w: nat)
    requires Tallied(cfg, s) && Calm(s) && w < |s.crew| && s.crew[w].phase.Failed?
    ensures Hopeless(cfg, s, w) <==> s.crew[w].phase.permanent || SomeUsedUp(cfg, s, w)
  {
    hide Tallied, UsedUp, Attempts;
    forall id | id in s.crew[w].held ensures UsedUp(cfg, s, id) <==> Attempts(s.storage, id) + 1 >= cfg.maxAttempts {
      UsedUpIff(cfg, s, w, id);
    }
  }

  /**
   * In a calm run a worker's batch is quarantined if its last delivery failed for good, or it holds a record that has been
   * delivered as often as it may be, and only then; otherwise its retry is noted and it is delivered again.
   */
  lemma VerdictIs(cfg: Config, xs: seq<State>, actions: seq<Action>, n: nat, w: nat)
    requires Run(cfg, xs, actions) && n < |actions| && Calm(xs[n])
    requires actions[n] == Quarantine(w) || actions[n] == Retry(w) || actions[n] == RetryFails(w)
    ensures w < |xs[n].crew| && exists m, permanent :: LastFailed(xs, actions, n, w, m, permanent)
    ensures forall m, permanent :: LastFailed(xs, actions, n, w, m, permanent) ==>
              (actions[n] == Quarantine(w) <==> permanent || SomeUsedUp(cfg, xs[n], w))
  {
    hide Step, Tallied, Steady, Waited, Exclusive, Alive, Accounted, Hopeless, SomeUsedUp, LastFailed;
    assert Takes(cfg, xs, actions, n);
    FinishFailed(cfg, xs[n], actions[n], xs[n + 1], w);
    var m := FailureBehind(cfg, xs, actions, n, w);
    AlwaysTallied(cfg, xs, actions, n);
    HopelessIff(cfg, xs[n], w);
    forall k, permanent | LastFailed(xs, actions, n, w, k, permanent) ensures permanent == xs[n].crew[w].phase.permanent {
      LastFailedOnce(xs, actions, n, w, m, xs[n].crew[w].phase.permanent, k, permanent);
    }
  }

  lemma LastFailedOnce(xs: seq<State>, actions: seq<Action>, n: nat, w: nat, m: nat, p: bool, k: nat, q: bool)
    requires LastFailed(xs, actions, n, w, m, p) && LastFailed(xs, actions, n, w, k, q)
    ensures m == k && p == q
  {
    assert Working(actions[m]) && Working(actions[k]);
  }

  lemma FinishFailed(cfg: Config, s: State, a: Action, t: State, w: nat)
    requires Step(cfg, s, a, t) && (a == Quarantine(w) || a == Retry(w) || a == RetryFails(w))
    ensures w < |s.crew| && s.crew[w].phase.Failed? && (a == Quarantine(w) <==> Hopeless(cfg, s, w))
  {
    hide Step, Hopeless;
    WorkerStep(cfg, s, a, t);
  }

  // ---- every quarantined record ------------------------------------------------------------------------------------

  /** The batch in which a record was quarantined. */
  ghost predicate QuarantinedAt(xs: seq<State>, actions: seq<Action>, m: nat, w: nat, id: nat) {
    m < |actions| < |xs| && actions[m] == Quarantine(w) && w < |xs[m].crew| && id in xs[m].crew[w].held
  }

  lemma QuarantineGrows(cfg: Config, s: State, a: Action, t: State, id: nat)
    requires Step(cfg, s, a, t) && id in t.h.quarantined
    ensures id in s.h.quarantined || (a.Quarantine? && a.w < |s.crew| && id in s.crew[a.w].held)
  {
    hide Step, DoorOpen, Passes, CanLoad, LoaderDoes, CanDispatch, DispatcherDoes, CanWork, WorkerDoes;
    StepOf(cfg, s, a, t);
    if Door(a) { QuarantineDoor(cfg, s, a, t); }
    else if Loading(a) { QuarantineLoader(cfg, s, a, t); }
    else if Dispatching(a) { QuarantineDispatcher(cfg, s, a, t); }
    else { QuarantineWorker(cfg, s, a, t, id); }
  }

  lemma QuarantineDoor(cfg: Config, s: State, a: Action, t: State)
    requires Step(cfg, s, a, t) && Door(a)
    ensures t.h.quarantined == s.h.quarantined
  {
    hide Step;
    DoorStep(cfg, s, a, t);
  }

  lemma QuarantineLoader(cfg: Config, s: State, a: Action, t: State)
    requires Loading(a) && CanLoad(cfg, s, a) && LoaderDoes(cfg, s, a, t)
    ensures t.h.quarantined == s.h.quarantined
  {
    hide IsNext, Elements;
  }

  lemma QuarantineDispatcher(cfg: Config, s: State, a: Action, t: State)
    requires Dispatching(a) && CanDispatch(cfg, s, a) && DispatcherDoes(cfg, s, a, t)
    ensures t.h.quarantined == s.h.quarantined
  {
    hide Splits, Answers, Elements;
  }

  lemma QuarantineWorker(cfg: Config, s: State, a: Action, t: State, id: nat)
    requires Working(a) && CanWork(cfg, s, a) && WorkerDoes(cfg, s, a, t) && id in t.h.quarantined
    ensures id in s.h.quarantined || (a.Quarantine? && a.w < |s.crew| && id in s.crew[a.w].held)
  {
    hide Exhausted, Answers, Counted;
  }

  /** Every quarantined record was in a batch whose last delivery failed for good, or that held a record used up. */
  lemma {:induction false} QuarantineHasReason(cfg: Config, xs: seq<State>, actions: seq<Action>, n: nat, id: nat) returns (m: nat, w: nat)
    requires Run(cfg, xs, actions) && n < |xs| && Calm(xs[n]) && id in xs[n].h.quarantined
    ensures m < n && QuarantinedAt(xs, actions, m, w, id)
    ensures (exists k :: LastFailed(xs, actions, m, w, k, true)) || SomeUsedUp(cfg, xs[m], w)
  {
    hide Step, LastFailed, SomeUsedUp, Calm;
    if n > 0 {
      assert Takes(cfg, xs, actions, n - 1);
      CalmBefore(cfg, xs[n - 1], actions[n - 1], xs[n]);
      QuarantineGrows(cfg, xs[n - 1], actions[n - 1], xs[n], id);
      if id in xs[n - 1].h.quarantined {
        m, w := QuarantineHasReason(cfg, xs, actions, n - 1, id);
      } else {
        m, w := n - 1, actions[n - 1].w;
        VerdictIs(cfg, xs, actions, m, w);
        var k, permanent :| LastFailed(xs, actions, m, w, k, permanent);
      }
    }
  }
}
