/** An engine that came back from its checkpoint goes on like the one that was saved. */
module Resumed {
  import opened Telemetry
  import opened Spans
  import opened EngineState
  import opened EngineTraces
  import opened EngineCore
  import opened Engine
  import opened Snapshot
  import opened Checkpoint
  import opened Confluence
  import Identity

  /**
   * From a checkpoint an engine comes back exactly if no retained span lacks an ID. The restored engine and the one that
   * was never stopped then agree after any further batches, under the same conditions as for any two orders of arrival.
   */
  method Resume(l: Identity.Letters, ghost ids: Ids, running: Engine, s: State, requested: Options, applicationName: string,
                nodeVersion: string, batches: seq<seq<Span>>)
    returns (r: Result<Engine, Damage>)
    requires running.Valid() && Proper(running.options.naming, ids) && Apart(ids, running.paths)
    requires Describes(ids, ContentsOf(running), s) && SameSettings(l, ContentsOf(running), requested, applicationName)
    requires (forall k :: 0 <= k < |batches| ==> Validated(batches[k])) && Identified(Flatten(batches))
    modifies running
    ensures r.Ok? <==> Labelled(old(running.traces))
    ensures r.Ok? ==> fresh(r.value) && running.Valid() && r.value.Valid() && r.value.options == running.options
    ensures r.Ok? && |old(running.traces).Keys + TraceIDs(Flatten(batches))| <= running.options.maxRecentTraces ==>
              running.past == old(running.past) && r.value.past == old(running.past)
    ensures r.Ok? && running.past == r.value.past == old(running.past) ==>
              NodesAgree(running.nodes, r.value.nodes) && EdgesAgree(running.edges, r.value.edges)
    ensures r.Ok? && running.past == r.value.past == old(running.past) && !(running.evicted || r.value.evicted)
              && AllOrderly(running.traces) ==>
              PathsAgree(running.paths, r.value.paths)
  {
    hide UpToDate, Core, Describes, Proper, Apart, SameSettings, Labelled, Intact, Restored;
    hide Flatten, Identified, TraceIDs, IDs, NodesAgree, EdgesAgree, PathsAgree, AllOrderly;
    UpToDateCore(running.options.naming, running.V(), running.past, running.evicted);
    StateRoundTrip(l, ids, ContentsOf(running), running.past, running.evicted, s, requested, applicationName, nodeVersion);
    r := Restore(l, s, requested, applicationName, nodeVersion, running.past, running.evicted);
    if r.Ok? { ArrivalOrder(running, r.value, batches, batches); }
  }

  lemma UpToDateCore(n: Naming, v: View, past: Past, evicted: bool)
    requires UpToDate(n, v, past, evicted)
    ensures Core(n, v, past, evicted)
  {
    hide Core;
  }
}
