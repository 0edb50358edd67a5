/** Which traces are retained, with which spans: said by the spans that were taken in and the order in which they came. */
module Retention {
  import opened Telemetry
  import opened EngineState
  import opened EngineTraces
  import Maps

  /** The traces after these spans have been taken in, one tick of the clock after the other. */
  function Gathered(traces: Traces, news: seq<Span>, clock: nat): Traces {
    if news == [] then traces
    else WithSpan(Gathered(traces, news[..|news| - 1], clock), news[|news| - 1], clock + |news|)
  }

  /** One more span of the batch: taken in, or known already. */
  lemma GatheredMore(traces: Traces, news: seq<Span>, now: Traces, s: Span, known: bool, clock: nat)
    requires now == Gathered(traces, news, clock)
    ensures (if known then now else WithSpan(now, s, clock + |news| + 1)) == Gathered(traces, news + (if known then [] else [s]), clock)
  {
    hide WithSpan;
    GatheredStep(traces, news, s, clock);
  }

  lemma GatheredStep(traces: Traces, news: seq<Span>, s: Span, clock: nat)
    ensures Gathered(traces, news + [s], clock) == WithSpan(Gathered(traces, news, clock), s, clock + |news| + 1)
    ensures news + [] == news
  {
    assert (news + [s])[..|news|] == news;
  }

  /** The same traces with the same spans, apart from their path shares. */
  ghost predicate SameSpans(a: Traces, b: Traces) {
    a.Keys == b.Keys && forall t :: t in a ==> b[t] == a[t].(contributions := b[t].contributions)
  }

  /** Trace `u` got a span after trace `t` did for the last time: the last of the new spans of the two decides, if there is one. */
  ghost predicate TouchedLater(before: Traces, news: seq<Span>, u: string, t: string) {
    if news == [] then u in before && t in before && before[u].lastUpdatedAt > before[t].lastUpdatedAt
    else if news[|news| - 1].traceID == t then false
    else if news[|news| - 1].traceID == u then true
    else TouchedLater(before, news[..|news| - 1], u, t)
  }

  ghost predicate Stamped(traces: Traces, clock: nat) {
    forall t :: t in traces ==> traces[t].lastUpdatedAt <= clock
  }

  lemma {:induction false} GatheredKeys(traces: Traces, news: seq<Span>, clock: nat)
    ensures Gathered(traces, news, clock).Keys == traces.Keys + TraceIDs(news)
  {
    if news != [] {
      GatheredKeys(traces, news[..|news| - 1], clock);
      assert forall s :: s in news <==> s in news[..|news| - 1] || s == news[|news| - 1];
    }
  }

  lemma {:induction false} GatheredLater(traces: Traces, news: seq<Span>, clock: nat, u: string, t: string)
    requires Stamped(traces, clock)
    ensures Stamped(Gathered(traces, news, clock), clock + |news|)
    ensures var all := Gathered(traces, news, clock);
            u in all && t in all ==> (all[u].lastUpdatedAt > all[t].lastUpdatedAt <==> TouchedLater(traces, news, u, t))
  {
    if news != [] { GatheredLater(traces, news[..|news| - 1], clock, u, t); }
  }

  /** The traces touched after `t`. */
  ghost function Later(traces: Traces, t: string): set<string> {
    set u | u in traces && t in traces && traces[u].lastUpdatedAt > traces[t].lastUpdatedAt
  }

  /** Some of the traces, as they were. */
  ghost predicate SomeOf(all: Traces, kept: Traces) {
    forall t :: t in kept ==> t in all && kept[t] == all[t]
  }

  /** Those that are gone were touched no later than any that stays. */
  ghost predicate OlderGone(all: Traces, kept: Traces) {
    forall t, u :: t in all && t !in kept && u in kept ==> all[t].lastUpdatedAt <= kept[u].lastUpdatedAt
  }

  /** No two traces were last touched at the same time. */
  ghost predicate TouchedApart(traces: Traces) {
    forall t, u :: t in traces && u in traces && traces[t].lastUpdatedAt == traces[u].lastUpdatedAt ==> t == u
  }

  /** The traces that stay are those with fewer than `max` others touched later. */
  ghost predicate LatestStay(all: Traces, max: nat, kept: Traces) {
    forall t :: t in all ==> (t in kept <==> |Later(all, t)| < max)
  }

  lemma AllStay(all: Traces)
    ensures SomeOf(all, all) && OlderGone(all, all)
  {}

  /** The trace touched longest ago goes. */
  lemma OneLess(all: Traces, kept: Traces, t: string)
    requires SomeOf(all, kept) && OlderGone(all, kept) && t in kept
    requires forall u :: u in kept ==> kept[t].lastUpdatedAt <= kept[u].lastUpdatedAt
    ensures SomeOf(all, kept - {t}) && OlderGone(all, kept - {t})
  {}

  /** If the traces that stay are as many as may stay, and later than those that go, they are the latest. */
  lemma LatestKept(all: Traces, max: nat, kept: Traces)
    requires SomeOf(all, kept) && OlderGone(all, kept) && TouchedApart(all)
    requires |kept| == |all| || (|all| > max && |kept| == max)
    requires |kept| <= max
    ensures LatestStay(all, max, kept)
  {
    hide SomeOf, OlderGone, TouchedApart, Later;
    forall t | t in all ensures t in kept <==> |Later(all, t)| < max {
      if t in kept {
        KeptEarlier(all, kept, t);
        Maps.SubsetSize(Later(all, t), kept.Keys - {t});
      } else {
        if |kept| == |all| { SameSizeSame(all, kept); }
        GoneEarlier(all, kept, t);
        Maps.SubsetSize(kept.Keys, Later(all, t));
      }
    }
  }

  lemma KeptEarlier(all: Traces, kept: Traces, t: string)
    requires SomeOf(all, kept) && OlderGone(all, kept) && t in kept
    ensures Later(all, t) <= kept.Keys - {t}
  {}

  lemma GoneEarlier(all: Traces, kept: Traces, t: string)
    requires SomeOf(all, kept) && OlderGone(all, kept) && TouchedApart(all) && t in all && t !in kept
    ensures kept.Keys <= Later(all, t)
  {}

  lemma SameSizeSame(all: Traces, kept: Traces)
    requires SomeOf(all, kept) && |kept| == |all|
    ensures kept.Keys == all.Keys
  {
    assert kept.Keys <= all.Keys;
    var rest := all.Keys - kept.Keys;
    assert all.Keys == kept.Keys + rest && |all.Keys| == |all| && |kept.Keys| == |kept|;
    assert |kept.Keys + rest| == |kept.Keys| + |rest|;
  }

  /** The traces that got a span after `t` did, before or among the new spans. */
  ghost function LaterThan(before: Traces, news: seq<Span>, t: string): set<string> {
    set u | u in before.Keys + TraceIDs(news) && TouchedLater(before, news, u, t)
  }

  /**
   * What must be retained of these traces and new spans: as many traces as may be, those that got spans last, each with all
   * its spans in the order in which they were taken in.
   */
  ghost predicate Retains(before: Traces, news: seq<Span>, clock: nat, max: nat, after: Traces) {
    && |after| == Least(max, |before.Keys + TraceIDs(news)|)
    && (forall t :: t in before.Keys + TraceIDs(news) ==> (t in after <==> |LaterThan(before, news, t)| < max))
    && SomeOfSpans(Gathered(before, news, clock), after)
  }

  /** Some of the traces with the same spans, apart from their path shares. */
  ghost predicate SomeOfSpans(all: Traces, kept: Traces) {
    forall t :: t in kept ==> t in all && kept[t] == all[t].(contributions := kept[t].contributions)
  }

  function Least(a: nat, b: nat): nat {
    if a < b then a else b
  }

  lemma LaterIs(before: Traces, news: seq<Span>, clock: nat, all: Traces, t: string)
    requires Stamped(before, clock) && SameSpans(Gathered(before, news, clock), all) && t in all
    ensures all.Keys == before.Keys + TraceIDs(news) && Later(all, t) == LaterThan(before, news, t)
  {
    hide Gathered, TouchedLater, TraceIDs, Stamped;
    GatheredKeys(before, news, clock);
    forall u | u in all ensures u in Later(all, t) <==> TouchedLater(before, news, u, t) {
      GatheredLater(before, news, clock, u, t);
    }
  }

  lemma RetainsKept(before: Traces, news: seq<Span>, clock: nat, all: Traces, max: nat, kept: Traces)
    requires Stamped(before, clock) && SameSpans(Gathered(before, news, clock), all) && SomeOf(all, kept)
    requires |kept| == (if |all| > max then max else |all|) && LatestStay(all, max, kept)
    ensures Retains(before, news, clock, max, kept)
  {
    hide Gathered, TraceIDs, Stamped, Later, LaterThan, SameSpans, SomeOf, SomeOfSpans;
    GatheredKeys(before, news, clock);
    SameKeys(Gathered(before, news, clock), all, kept);
    forall t | t in all ensures Later(all, t) == LaterThan(before, news, t) { LaterIs(before, news, clock, all, t); }
  }

  lemma SameKeys(g: Traces, all: Traces, kept: Traces)
    requires SameSpans(g, all) && SomeOf(all, kept)
    ensures all.Keys == g.Keys && |all| == |g.Keys| && SomeOfSpans(g, kept)
  {
    assert |all| == |all.Keys|;
  }
}
