/**
 * What replacing the path shares of one trace does to the paths, whether or not any was ever evicted: which paths change and
 * how, and that none is lost while there is room.
 */
module Reshares {
  import opened TracePaths
  import opened EngineState
  import opened EngineSteps
  import opened EngineCore
  import Maps

  /** The path is there in both or in neither, and is the same. */
  predicate Kept(before: map<PathKey, PathState>, p: PathKey, after: map<PathKey, PathState>) {
    (p in before <==> p in after) && (p in before ==> after[p] == before[p])
  }

  /** One call of this path is taken back, and the path goes with its last call. */
  predicate CallGone(before: map<PathKey, PathState>, p: PathKey, share: Contribution, after: map<PathKey, PathState>)
    requires p in before
  {
    var m := Removed(before[p].metrics, share.duration, share.failed);
    if m.count == 0 then p !in after else p in after && after[p] == before[p].(metrics := m)
  }

  /** The shares that no longer apply have been taken back from the paths that are there; those in `todo` have not yet. */
  ghost predicate TakenBack(before: map<PathKey, PathState>, contributions: map<PathKey, Contribution>,
                            desired: map<PathKey, Contribution>, todo: set<PathKey>, after: map<PathKey, PathState>) {
    forall p ::
      if p in before && p in contributions.Keys - todo && !Unchanged(contributions, desired, p)
      then CallGone(before, p, contributions[p], after) else Kept(before, p, after)
  }

  lemma NothingTakenBack(paths: map<PathKey, PathState>, contributions: map<PathKey, Contribution>,
                         desired: map<PathKey, Contribution>)
    ensures TakenBack(paths, contributions, desired, contributions.Keys, paths)
  {}

  lemma TakenBackMore(before: map<PathKey, PathState>, contributions: map<PathKey, Contribution>,
                      desired: map<PathKey, Contribution>, todo: set<PathKey>, after: map<PathKey, PathState>, id: PathKey)
    requires TakenBack(before, contributions, desired, todo, after) && id in todo && id in contributions
    ensures TakenBack(before, contributions, desired, todo - {id},
                      if Unchanged(contributions, desired, id) then after else WithoutShare(after, id, contributions[id]))
  {
    hide Removed;
    assert Kept(before, id, after);
    var more := if Unchanged(contributions, desired, id) then after else WithoutShare(after, id, contributions[id]);
    forall p
      ensures if p in before && p in contributions.Keys - (todo - {id}) && !Unchanged(contributions, desired, p)
              then CallGone(before, p, contributions[p], more) else Kept(before, p, more)
    {
      if p != id { assert p in more <==> p in after; }
    }
  }

  // ---- shares taken ------------------------------------------------------------------------------------------------

  predicate LessUseful(a: PathState, b: PathState) {
    a.metrics.count < b.metrics.count || (a.metrics.count == b.metrics.count && a.lastUpdatedAt < b.lastUpdatedAt)
  }

  /** No path has fewer calls, and none with as many was updated longer ago. */
  ghost predicate IsLeastUseful(paths: map<PathKey, PathState>, c: PathKey) {
    c in paths && forall p :: p in paths ==>
      && paths[c].metrics.count <= paths[p].metrics.count
      && (paths[c].metrics.count == paths[p].metrics.count ==> paths[c].lastUpdatedAt <= paths[p].lastUpdatedAt)
  }

  /** Room for one path more: below the limit nothing goes, at the limit one path. */
  ghost predicate RoomMade(before: map<PathKey, PathState>, id: PathKey, max: nat, room: map<PathKey, PathState>) {
    if id in before || |before| < max || before == map[] then room == before
    else exists c :: IsLeastUseful(before, c) && room == before - {c}
  }

  /** The path was renewed: one more call of the path as it was, or a first one if there was none or it had been evicted. */
  predicate CallMade(before: map<PathKey, PathState>, p: PathKey, share: Contribution, clock: nat, samples: nat, full: bool,
                     state: PathState)
  {
    && state.lastUpdatedAt > clock
    && (state.metrics == Recorded(PathMetrics(before, p), share.duration, share.failed, samples)
        || (full && state.metrics == Recorded(NO_CALLS, share.duration, share.failed, samples)))
  }

  /** How a path stands when some shares have been taken: `done` says whether its own has, `same` whether it was unchanged. */
  predicate Standing(o: Options, before: map<PathKey, PathState>, desired: map<PathKey, Contribution>, done: bool, same: bool,
                     p: PathKey, clock: nat, full: bool, state: PathState) {
    || (p in before && state == before[p] && (!done || same))
    || (done && p in desired && CallMade(before, p, desired[p], clock, o.maxLatencySamples, full, state))
  }

  lemma Fuller(o: Options, before: map<PathKey, PathState>, desired: map<PathKey, Contribution>, done: bool, same: bool,
               p: PathKey, clock: nat, full: bool, state: PathState)
    requires Standing(o, before, desired, done, same, p, clock, full, state)
    ensures Standing(o, before, desired, done, same, p, clock, true, state)
  {}

  /**
   * The shares of these paths have been taken: a path that is no business of the trace is as it was, one whose share is
   * unchanged is as it was or renewed, any other is renewed; and no path is missing unless the paths are full.
   */
  ghost predicate Renews(o: Options, before: map<PathKey, PathState>, contributions: map<PathKey, Contribution>,
                         desired: map<PathKey, Contribution>, done: seq<PathKey>, clock: nat, after: map<PathKey, PathState>) {
    var full := |after| >= o.maxRuntimePaths;
    && (forall p :: p in after ==> Standing(o, before, desired, p in done, Unchanged(contributions, desired, p), p, clock, full, after[p]))
    && (full || forall p :: p in before || p in done ==> p in after)
  }

  lemma NothingRenewed(o: Options, paths: map<PathKey, PathState>, contributions: map<PathKey, Contribution>,
                       desired: map<PathKey, Contribution>, clock: nat)
    ensures Renews(o, paths, contributions, desired, [], clock, paths)
  {}

  lemma RenewsSkip(o: Options, before: map<PathKey, PathState>, contributions: map<PathKey, Contribution>,
                   desired: map<PathKey, Contribution>, done: seq<PathKey>, clock: nat, after: map<PathKey, PathState>, id: PathKey)
    requires Renews(o, before, contributions, desired, done, clock, after)
    requires id !in done && id in after && Unchanged(contributions, desired, id)
    ensures Renews(o, before, contributions, desired, done + [id], clock, after)
  {
    hide CallMade, Unchanged;
    assert forall p :: p in done + [id] <==> p in done || p == id;
  }

  lemma RoomSize(before: map<PathKey, PathState>, id: PathKey, max: nat, room: map<PathKey, PathState>, state: PathState)
    requires RoomMade(before, id, max, room)
    ensures |room[id := state]| >= |before| && (id in before || |before| < max ==> room == before)
    ensures !(id in before || |before| < max) ==> |room[id := state]| >= max || before == map[]
    ensures forall p :: p in room ==> p in before && room[p] == before[p]
  {
    Maps.UpdateSize(room, id, state);
    if room != before {
      var c :| IsLeastUseful(before, c) && room == before - {c};
      Maps.RemoveSize(before, c);
    }
  }

  lemma NewCall(o: Options, before: map<PathKey, PathState>, paths: map<PathKey, PathState>, desired: map<PathKey, Contribution>,
                id: PathKey, clock: nat, full: bool, same: bool, room: map<PathKey, PathState>, now: nat)
    requires id in desired && now > clock
    requires (id in paths ==> id in before && paths[id] == before[id]) && (id in before && id !in paths ==> full)
    requires PathMetrics(room, id) == PathMetrics(paths, id)
    ensures Standing(o, before, desired, true, same, id, clock, full, WithShare(o, room, id, desired[id], now)[id])
  {
    hide Recorded;
  }

  /** One share is taken, in the room that was made for it. */
  lemma RenewsTake(o: Options, before: map<PathKey, PathState>, contributions: map<PathKey, Contribution>,
                   desired: map<PathKey, Contribution>, done: seq<PathKey>, clock: nat, paths: map<PathKey, PathState>,
                   id: PathKey, room: map<PathKey, PathState>, now: nat)
    requires Renews(o, before, contributions, desired, done, clock, paths) && id !in done && id in desired && now > clock
    requires RoomMade(paths, id, o.maxRuntimePaths, room)
    ensures Renews(o, before, contributions, desired, done + [id], clock, WithShare(o, room, id, desired[id], now))
  {
    hide Recorded, Unchanged, CallMade, RoomMade;
    var after := WithShare(o, room, id, desired[id], now);
    RoomSize(paths, id, o.maxRuntimePaths, room, after[id]);
    var full := |after| >= o.maxRuntimePaths;
    forall p | p in after
      ensures Standing(o, before, desired, p in done + [id], Unchanged(contributions, desired, p), p, clock, full, after[p])
    {
      if p == id {
        NewCall(o, before, paths, desired, id, clock, full, Unchanged(contributions, desired, id), room, now);
      } else if full {
        Fuller(o, before, desired, p in done, Unchanged(contributions, desired, p), p, clock, |paths| >= o.maxRuntimePaths, after[p]);
      }
    }
  }

  /** The paths after the shares of a trace have been replaced: shares that no longer apply taken back, the others taken. */
  ghost predicate Reshared(o: Options, before: map<PathKey, PathState>, contributions: map<PathKey, Contribution>,
                           desired: map<PathKey, Contribution>, clock: nat, after: map<PathKey, PathState>) {
    exists fewer, done :: Resharing(o, before, contributions, desired, fewer, done, clock, after)
  }

  ghost predicate Resharing(o: Options, before: map<PathKey, PathState>, contributions: map<PathKey, Contribution>,
                            desired: map<PathKey, Contribution>, fewer: map<PathKey, PathState>, done: seq<PathKey>, clock: nat, after: map<PathKey, PathState>) {
    && TakenBack(before, contributions, desired, {}, fewer) && Renews(o, fewer, contributions, desired, done, clock, after)
    && forall p :: p in done <==> p in desired
  }
}
