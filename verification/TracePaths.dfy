/** The runtime paths of one trace: how they are collected, and that they depend on the set of its spans only. */
module TracePaths {
  import opened Telemetry
  import opened Spans
  import opened Forest

  const ENTRY_KINDS: set<string> := {"http-route", "worker", "controller", "service"}

  /** A path is identified by the normal form of its entrypoint and by its nodes. */
  datatype PathKey = PathKey(entrypoint: string, nodes: seq<string>)

  /** What one trace adds to each of its paths. */
  datatype Contribution = Contribution(duration: real, failed: bool)

  // ---- sorting by start time -----------------------------------------------------------------------------

  ghost predicate AllIn(spans: SpanMap, ids: seq<string>) {
    forall k :: 0 <= k < |ids| ==> ids[k] in spans
  }

  function Insert(spans: SpanMap, sorted: seq<string>, id: string): (r: seq<string>)
    requires AllIn(spans, sorted) && id in spans
    ensures AllIn(spans, r) && multiset(r) == multiset(sorted) + multiset{id}
  {
    if sorted == [] then [id]
    else
      var init, last := sorted[..|sorted| - 1], sorted[|sorted| - 1];
      assert sorted == init + [last];
      if spans[id].startTime < spans[last].startTime then Insert(spans, init, id) + [last] else sorted + [id]
  }

  /** `sort.SliceStable` by start time. */
  function SortByStart(spans: SpanMap, ids: seq<string>): (r: seq<string>)
    requires AllIn(spans, ids)
    ensures AllIn(spans, r) && multiset(r) == multiset(ids)
  {
    if ids == [] then []
    else
      assert ids == ids[..|ids| - 1] + [ids[|ids| - 1]];
      Insert(spans, SortByStart(spans, ids[..|ids| - 1]), ids[|ids| - 1])
  }

  ghost predicate Ordered(spans: SpanMap, ids: seq<string>) {
    AllIn(spans, ids) && forall i, j :: 0 <= i < j < |ids| ==> spans[ids[i]].startTime <= spans[ids[j]].startTime
  }

  lemma InsertElements(spans: SpanMap, sorted: seq<string>, id: string)
    requires AllIn(spans, sorted) && id in spans
    ensures forall x :: x in Insert(spans, sorted, id) ==> x == id || x in sorted
  {
    forall x | x in Insert(spans, sorted, id) ensures x == id || x in sorted {
      assert x in multiset(Insert(spans, sorted, id));
      assert x in multiset(sorted) + multiset{id};
    }
  }

  lemma {:induction false} InsertOrdered(spans: SpanMap, sorted: seq<string>, id: string)
    requires Ordered(spans, sorted) && id in spans
    ensures Ordered(spans, Insert(spans, sorted, id))
  {
    if sorted != [] {
      var init, last := sorted[..|sorted| - 1], sorted[|sorted| - 1];
      if spans[id].startTime < spans[last].startTime {
        InsertOrdered(spans, init, id);
        InsertElements(spans, init, id);
        assert forall x :: x in init ==> spans[x].startTime <= spans[last].startTime;
      }
    }
  }

  lemma {:induction false} SortOrdered(spans: SpanMap, ids: seq<string>)
    requires AllIn(spans, ids)
    ensures Ordered(spans, SortByStart(spans, ids))
  {
    if ids != [] {
      SortOrdered(spans, ids[..|ids| - 1]);
      InsertOrdered(spans, SortByStart(spans, ids[..|ids| - 1]), ids[|ids| - 1]);
    }
  }

  /** `x` stands somewhere before `y`. */
  ghost predicate Precedes(s: seq<string>, x: string, y: string) {
    exists i, j :: 0 <= i < j < |s| && s[i] == x && s[j] == y
  }

  lemma {:induction false} InsertBehind(spans: SpanMap, sorted: seq<string>, id: string, x: string)
    requires AllIn(spans, sorted) && id in spans && x in sorted && spans[x].startTime <= spans[id].startTime
    ensures Precedes(Insert(spans, sorted, id), x, id)
  {
    var init, last := sorted[..|sorted| - 1], sorted[|sorted| - 1];
    if spans[id].startTime < spans[last].startTime {
      InsertBehind(spans, init, id, x);
      PrecedesLonger(Insert(spans, init, id), last, x, id);
    } else {
      PrecedesLonger(sorted, id, x, id);
    }
  }

  lemma PrecedesLonger(s: seq<string>, last: string, x: string, y: string)
    requires Precedes(s, x, y) || (x in s && y == last)
    ensures Precedes(s + [last], x, y)
  {
    var more := s + [last];
    if Precedes(s, x, y) {
      var i, j :| 0 <= i < j < |s| && s[i] == x && s[j] == y;
      assert more[i] == x && more[j] == y;
    } else {
      var i :| 0 <= i < |s| && s[i] == x;
      assert more[i] == x && more[|s|] == y;
    }
  }

  lemma {:induction false} InsertKeepsOrder(spans: SpanMap, sorted: seq<string>, id: string, x: string, y: string)
    requires AllIn(spans, sorted) && id in spans && Precedes(sorted, x, y)
    ensures Precedes(Insert(spans, sorted, id), x, y)
  {
    var init, last := sorted[..|sorted| - 1], sorted[|sorted| - 1];
    if spans[id].startTime < spans[last].startTime {
      var i, j :| 0 <= i < j < |sorted| && sorted[i] == x && sorted[j] == y;
      if j < |init| {
        assert init[i] == x && init[j] == y;
        InsertKeepsOrder(spans, init, id, x, y);
      } else {
        assert init[i] == x && x in multiset(init);
        assert x in multiset(Insert(spans, init, id));
      }
      PrecedesLonger(Insert(spans, init, id), last, x, y);
    } else {
      PrecedesLonger(sorted, id, x, y);
    }
  }

  /** Spans that start together stay in the order in which they arrived. */
  lemma {:induction false} SortStable(spans: SpanMap, ids: seq<string>, x: string, y: string)
    requires AllIn(spans, ids) && Precedes(ids, x, y) && spans[x].startTime == spans[y].startTime
    ensures Precedes(SortByStart(spans, ids), x, y)
  {
    hide Insert;
    var init, last := ids[..|ids| - 1], ids[|ids| - 1];
    var i, j :| 0 <= i < j < |ids| && ids[i] == x && ids[j] == y;
    if j < |init| {
      assert init[i] == x && init[j] == y;
      SortStable(spans, init, x, y);
      InsertKeepsOrder(spans, SortByStart(spans, init), last, x, y);
    } else {
      assert init[i] == x && x in multiset(init);
      assert x in multiset(SortByStart(spans, init));
      InsertBehind(spans, SortByStart(spans, init), last, x);
    }
  }

  ghost predicate DistinctStarts(spans: SpanMap, ids: seq<string>) {
    AllIn(spans, ids) && forall i, j :: 0 <= i < j < |ids| ==> spans[ids[i]].startTime != spans[ids[j]].startTime
  }

  /** Lists of spans with different start times sort to the same list if they have the same elements. */
  lemma {:induction false} OrderedUnique(spans: SpanMap, a: seq<string>, b: seq<string>)
    requires Ordered(spans, a) && Ordered(spans, b) && DistinctStarts(spans, a) && multiset(a) == multiset(b)
    ensures a == b
  {
    SameLength(a, b);
    if a != [] {
      SameLast(spans, a, b);
      SameInits(a, b);
      OrderedUnique(spans, a[..|a| - 1], b[..|b| - 1]);
      assert a == a[..|a| - 1] + [a[|a| - 1]] && b == b[..|b| - 1] + [b[|b| - 1]];
    }
  }

  lemma SameLength(a: seq<string>, b: seq<string>)
    requires multiset(a) == multiset(b)
    ensures |a| == |b|
  {
    assert |multiset(a)| == |a| && |multiset(b)| == |b|;
  }

  lemma SameInits(a: seq<string>, b: seq<string>)
    requires multiset(a) == multiset(b) && a != [] && b != [] && a[|a| - 1] == b[|b| - 1]
    ensures multiset(a[..|a| - 1]) == multiset(b[..|b| - 1])
  {
    InitOf(a);
    InitOf(b);
  }

  lemma InitOf(a: seq<string>)
    requires a != []
    ensures multiset(a[..|a| - 1]) == multiset(a) - multiset{a[|a| - 1]}
  {
    assert a == a[..|a| - 1] + [a[|a| - 1]];
  }

  lemma SameLast(spans: SpanMap, a: seq<string>, b: seq<string>)
    requires Ordered(spans, a) && Ordered(spans, b) && DistinctStarts(spans, a) && multiset(a) == multiset(b)
    requires a != [] && b != []
    ensures a[|a| - 1] == b[|b| - 1]
  {
    var x, y := a[|a| - 1], b[|b| - 1];
    assert x in multiset(a) && y in multiset(b);
    assert x in multiset(b) && y in multiset(a);
    var i :| 0 <= i < |a| && a[i] == y;
    var j :| 0 <= j < |b| && b[j] == x;
  }

  lemma SortByStartUnique(spans: SpanMap, a: seq<string>, b: seq<string>)
    requires AllIn(spans, a) && AllIn(spans, b) && DistinctStarts(spans, a) && multiset(a) == multiset(b)
    ensures SortByStart(spans, a) == SortByStart(spans, b)
  {
    SortOrdered(spans, a);
    SortOrdered(spans, b);
    StartsStayDistinct(spans, a, SortByStart(spans, a));
    OrderedUnique(spans, SortByStart(spans, a), SortByStart(spans, b));
  }

  /** Different start times are a property of the elements, not of their order. */
  lemma {:induction false} StartsStayDistinct(spans: SpanMap, a: seq<string>, b: seq<string>)
    requires DistinctStarts(spans, a) && AllIn(spans, b) && multiset(a) == multiset(b)
    ensures DistinctStarts(spans, b)
  {
    forall i, j | 0 <= i < j < |b| ensures spans[b[i]].startTime != spans[b[j]].startTime {
      if spans[b[i]].startTime == spans[b[j]].startTime {
        assert b[i] in multiset(b) && b[j] in multiset(b);
        var k :| 0 <= k < |a| && a[k] == b[i];
        var l :| 0 <= l < |a| && a[l] == b[j];
        assert k == l;
        OnceOnly(a, b[i]);
        Twice(b, i, j);
      }
    }
  }

  lemma {:induction false} Twice(b: seq<string>, i: nat, j: nat)
    requires i < j < |b| && b[i] == b[j]
    ensures multiset(b)[b[i]] >= 2
  {
    var x := b[i];
    assert b == b[..j] + b[j..];
    assert b[..j][i] == x && b[j..][0] == x;
    assert x in multiset(b[..j]) && x in multiset(b[j..]);
  }

  lemma {:induction false} OnceOnly(a: seq<string>, x: string)
    requires Once(a)
    ensures multiset(a)[x] <= 1
  {
    if a != [] {
      var init := a[..|a| - 1];
      assert a == init + [a[|a| - 1]];
      OnceOnly(init, x);
      if x == a[|a| - 1] { assert x !in init; }
    }
  }

  // ---- the extent of a trace ------------------------------------------------------------------------------

  /** `round`: to two decimal places. */
  function Round(x: real): (r: real)
    ensures x >= 0.0 ==> r >= 0.0
  {
    (x * 100.0 + 0.5).Floor as real / 100.0
  }

  /** It is the nearest hundredth, and the upper one of two. */
  lemma RoundIs(x: real) returns (hundredths: int)
    ensures Round(x) == hundredths as real / 100.0 && x - 0.005 < Round(x) <= x + 0.005
  {
    hundredths := (x * 100.0 + 0.5).Floor;
    var r := hundredths as real / 100.0;
    assert r * 100.0 == hundredths as real;
  }

  /** The earliest start and the latest end of the spans. */
  ghost predicate IsExtent(spans: SpanMap, earliest: real, latest: real) {
    && (exists id :: id in spans && spans[id].startTime == earliest)
    && (exists id :: id in spans && spans[id].startTime + spans[id].duration == latest)
    && (forall id :: id in spans ==> earliest <= spans[id].startTime && spans[id].startTime + spans[id].duration <= latest)
  }

  ghost predicate Failed(spans: SpanMap) {
    exists id :: id in spans && spans[id].status == "error"
  }

  /** What a trace adds to each of its paths. */
  ghost predicate IsShare(spans: SpanMap, c: Contribution) {
    && c.failed == Failed(spans)
    && exists earliest, latest :: IsExtent(spans, earliest, latest) && c.duration == Round(latest - earliest)
  }

  lemma ShareUnique(spans: SpanMap, a: Contribution, b: Contribution)
    requires IsShare(spans, a) && IsShare(spans, b)
    ensures a == b
  {
    var e, l :| IsExtent(spans, e, l) && a.duration == Round(l - e);
    var e', l' :| IsExtent(spans, e', l') && b.duration == Round(l' - e');
    assert e == e' && l == l';
  }

  lemma ShareNonNegative(spans: SpanMap, c: Contribution)
    requires IsShare(spans, c) && forall id :: id in spans ==> spans[id].duration >= 0.0
    ensures c.duration >= 0.0
  {
    var e, l :| IsExtent(spans, e, l) && c.duration == Round(l - e);
    assert l - e >= 0.0;
  }

  /** Every span of the trace, once, in order of arrival. */
  ghost predicate Listed(spans: SpanMap, order: seq<string>) {
    (forall id :: id in order <==> id in spans) && Once(order)
  }

  /** The loop of `buildTrace` over start, end and status. */
  method Measure(spans: SpanMap, order: seq<string>) returns (c: Contribution, earliest: real)
    requires Listed(spans, order) && order != []
    ensures IsShare(spans, c)
    ensures exists latest :: IsExtent(spans, earliest, latest)
  {
    earliest := 0.0;
    var latest, failed := 0.0, false;
    for i := 0 to |order|
      invariant failed <==> exists k :: 0 <= k < i && spans[order[k]].status == "error"
      invariant i > 0 ==> (exists k :: 0 <= k < i && spans[order[k]].startTime == earliest)
      invariant i > 0 ==> (exists k :: 0 <= k < i && spans[order[k]].startTime + spans[order[k]].duration == latest)
      invariant forall k :: 0 <= k < i ==>
        earliest <= spans[order[k]].startTime && spans[order[k]].startTime + spans[order[k]].duration <= latest
    {
      var span := spans[order[i]];
      if i == 0 || span.startTime < earliest { earliest := span.startTime; }
      var end := span.startTime + span.duration;
      if i == 0 || end > latest { latest := end; }
      failed := failed || span.status == "error";
    }
    c := Contribution(Round(latest - earliest), failed);
    assert IsExtent(spans, earliest, latest);
  }

  // ---- roots and children -----------------------------------------------------------------------------------

  /** The roots among the spans, in order of arrival. */
  function RootList(spans: SpanMap, order: seq<string>): (r: seq<string>)
    requires AllIn(spans, order)
    ensures AllIn(spans, r) && forall x :: x in r <==> x in order && IsRoot(spans, x)
  {
    if order == [] then []
    else
      var id := order[|order| - 1];
      assert order == order[..|order| - 1] + [id];
      RootList(spans, order[..|order| - 1]) + (if IsRoot(spans, id) then [id] else [])
  }

  /** The spans that hang directly below `p`, in order of arrival. */
  function KidList(spans: SpanMap, order: seq<string>, p: string): (r: seq<string>)
    requires AllIn(spans, order)
    ensures AllIn(spans, r) && forall x :: x in r <==> x in order && x in Kids(spans, p)
  {
    hide TraceParent;
    if order == [] then []
    else
      var id := order[|order| - 1];
      assert order == order[..|order| - 1] + [id];
      KidList(spans, order[..|order| - 1], p) + (if IsItem(spans, id) && Parent(spans, id) == Some(p) then [id] else [])
  }

  /** Each list element differs from the others. */
  predicate Once<T(==)>(s: seq<T>) {
    forall i, j :: 0 <= i < j < |s| ==> s[i] != s[j]
  }

  /** Every item has the list of its kids as they arrived. */
  ghost predicate ListsUpTo(spans: SpanMap, order: seq<string>, children: map<string, seq<string>>)
    requires AllIn(spans, order)
  {
    children.Keys == Items(spans) && forall p :: p in children ==> children[p] == KidList(spans, order, p)
  }

  /** Every item has the list of its kids by start time, those that start together as they arrived. */
  ghost predicate ListsByStart(spans: SpanMap, order: seq<string>, children: map<string, seq<string>>)
    requires AllIn(spans, order)
  {
    children.Keys == Items(spans) && forall p :: p in children ==> children[p] == SortByStart(spans, KidList(spans, order, p))
  }

  /** `buildTrace`: hangs every item below its nearest parent, or makes it a root; sorts both by start time. */
  method BuildTrace(spans: SpanMap, order: seq<string>) returns (roots: seq<string>, children: map<string, seq<string>>)
    requires Listed(spans, order) && AllIn(spans, order)
    ensures roots == SortByStart(spans, RootList(spans, order)) && Ordered(spans, roots) && Once(roots)
    ensures ListsByStart(spans, order, children) && Linked(spans, children)
    ensures forall p :: p in children ==> Ordered(spans, children[p]) && Once(children[p])
  {
    hide TraceParent, Kids, Linked, ListsUpTo, ListsByStart, KidList;
    children := map id | id in spans && spans[id].kind in TRACE_KINDS :: [];
    roots := [];
    assert order[..0] == [];
    NothingHangs(spans, children);
    for i := 0 to |order|
      invariant AllIn(spans, order[..i]) && roots == RootList(spans, order[..i])
      invariant ListsUpTo(spans, order[..i], children)
    {
      var id := order[i];
      assert order[..i + 1] == order[..i] + [id];
      OneMoreItem(spans, order[..i], children, id);
      if spans[id].kind in TRACE_KINDS {
        var parent := FindTraceParent(spans, spans[id]);
        match parent
        case Some(p) => children := children[p := children[p] + [id]];
        case None => roots := roots + [id];
      }
    }
    assert order[..|order|] == order;
    RootsByStart(spans, order);
    roots := SortByStart(spans, roots);
    KidsSorted(spans, order, children);
    children := SortKids(spans, children);
  }

  lemma NothingHangs(spans: SpanMap, children: map<string, seq<string>>)
    requires children.Keys == Items(spans) && forall p :: p in children ==> children[p] == []
    ensures ListsUpTo(spans, [], children)
  {}

  lemma OneMoreItem(spans: SpanMap, order: seq<string>, children: map<string, seq<string>>, id: string)
    requires AllIn(spans, order) && ListsUpTo(spans, order, children) && id in spans
    ensures AllIn(spans, order + [id])
    ensures !IsItem(spans, id) || Parent(spans, id) == None ==> ListsUpTo(spans, order + [id], children)
    ensures IsItem(spans, id) && Parent(spans, id).Some? ==>
      var p := Parent(spans, id).value;
      p in children && ListsUpTo(spans, order + [id], children[p := children[p] + [id]])
  {
    hide TraceParent, Kids;
    assert (order + [id])[..|order|] == order;
    if Parent(spans, id).Some? { assert IsItem(spans, Parent(spans, id).value); }
  }

  /** A sorted list has each of its elements as often as before. */
  lemma SortedOnce(spans: SpanMap, ids: seq<string>)
    requires AllIn(spans, ids) && Once(ids)
    ensures Ordered(spans, SortByStart(spans, ids)) && Once(SortByStart(spans, ids))
  {
    hide SortByStart;
    SortOrdered(spans, ids);
    var r := SortByStart(spans, ids);
    forall i, j | 0 <= i < j < |r| ensures r[i] != r[j] {
      if r[i] == r[j] {
        Twice(r, i, j);
        OnceOnly(ids, r[i]);
      }
    }
  }

  lemma RootsByStart(spans: SpanMap, order: seq<string>)
    requires AllIn(spans, order) && Once(order)
    ensures var r := SortByStart(spans, RootList(spans, order)); Ordered(spans, r) && Once(r)
  {
    hide SortByStart, RootList;
    RootsDiffer(spans, order);
    SortedOnce(spans, RootList(spans, order));
  }

  lemma {:induction false} KidsDiffer(spans: SpanMap, order: seq<string>, p: string)
    requires AllIn(spans, order) && Once(order)
    ensures Once(KidList(spans, order, p))
  {
    hide Kids, TraceParent;
    if order != [] {
      var init, id := order[..|order| - 1], order[|order| - 1];
      KidsDiffer(spans, init, p);
      assert id !in KidList(spans, init, p);
    }
  }

  ghost predicate AllListed(spans: SpanMap, children: map<string, seq<string>>) {
    forall p :: p in children ==> AllIn(spans, children[p])
  }

  /** `sortTraceSpans` below the roots. */
  function SortKids(spans: SpanMap, children: map<string, seq<string>>): map<string, seq<string>>
    requires AllListed(spans, children)
  {
    map p | p in children :: SortByStart(spans, children[p])
  }

  lemma KidsSorted(spans: SpanMap, order: seq<string>, children: map<string, seq<string>>)
    requires Listed(spans, order) && AllIn(spans, order) && ListsUpTo(spans, order, children)
    ensures AllListed(spans, children)
    ensures var r := SortKids(spans, children);
            && Linked(spans, r) && ListsByStart(spans, order, r)
            && forall p :: p in r ==> Ordered(spans, r[p]) && Once(r[p])
  {
    hide SortByStart, TraceParent, KidList, Kids, Ordered, Once;
    forall p | p in children
      ensures AllIn(spans, children[p]) && Lists(SortByStart(spans, children[p]), Kids(spans, p))
      ensures Ordered(spans, SortByStart(spans, children[p])) && Once(SortByStart(spans, children[p]))
    {
      KidsOf(spans, order, p);
    }
    var r := SortKids(spans, children);
    forall id | IsItem(spans, id) ensures id in r && Lists(r[id], Kids(spans, id)) { assert id in Items(spans); }
  }

  lemma KidsOf(spans: SpanMap, order: seq<string>, p: string)
    requires Listed(spans, order) && AllIn(spans, order)
    ensures var ids := KidList(spans, order, p);
            && Lists(SortByStart(spans, ids), Kids(spans, p))
            && Ordered(spans, SortByStart(spans, ids)) && Once(SortByStart(spans, ids))
  {
    hide SortByStart, TraceParent;
    KidsDiffer(spans, order, p);
    SortedOnce(spans, KidList(spans, order, p));
    SortKeepsElements(spans, KidList(spans, order, p));
  }

  lemma SortKeepsElements(spans: SpanMap, ids: seq<string>)
    requires AllIn(spans, ids)
    ensures forall x :: x in SortByStart(spans, ids) <==> x in ids
  {
    var r := SortByStart(spans, ids);
    assert forall x :: x in r <==> x in multiset(r);
    assert forall x :: x in ids <==> x in multiset(ids);
  }

  // ---- the paths of a trace -----------------------------------------------------------------------------------

  predicate Entry(n: Naming, spans: SpanMap, r: string) {
    r in spans && ItemNode(n, spans[r]) != "" && spans[r].kind in ENTRY_KINDS
  }

  /** A node chain that a trace contributes: from an entry root down to a leaf. */
  ghost predicate Leads(n: Naming, spans: SpanMap, r: string, nodes: seq<string>) {
    IsRoot(spans, r) && Entry(n, spans, r) && nodes != [] && Reaches(n, spans, [r], nodes)
  }

  ghost predicate LastLead(n: Naming, spans: SpanMap, roots: seq<string>, k: nat, nodes: seq<string>) {
    k < |roots| && Leads(n, spans, roots[k], nodes) && forall j :: k < j < |roots| ==> !Leads(n, spans, roots[j], nodes)
  }

  /** The node chains of a list of roots, each with the name of the last root that has it. */
  ghost predicate IsUnique(n: Naming, spans: SpanMap, roots: seq<string>, u: map<seq<string>, string>) {
    && (forall nodes :: nodes in u <==> exists k :: 0 <= k < |roots| && Leads(n, spans, roots[k], nodes))
    && (forall k: nat, nodes :: LastLead(n, spans, roots, k, nodes) ==> nodes in u && roots[k] in spans && u[nodes] == spans[roots[k]].name)
  }

  lemma {:induction false} HasLast(n: Naming, spans: SpanMap, roots: seq<string>, k: nat, nodes: seq<string>)
    requires k < |roots| && Leads(n, spans, roots[k], nodes)
    ensures exists l: nat :: LastLead(n, spans, roots, l, nodes)
    decreases |roots| - k
  {
    if j :| k < j < |roots| && Leads(n, spans, roots[j], nodes) {
      HasLast(n, spans, roots, j, nodes);
    } else {
      assert LastLead(n, spans, roots, k, nodes);
    }
  }

  lemma UniqueUnique(n: Naming, spans: SpanMap, roots: seq<string>, a: map<seq<string>, string>, b: map<seq<string>, string>)
    requires IsUnique(n, spans, roots, a) && IsUnique(n, spans, roots, b)
    ensures a == b
  {
    hide Leads;
    forall nodes | nodes in a ensures nodes in b && a[nodes] == b[nodes] {
      var k :| 0 <= k < |roots| && Leads(n, spans, roots[k], nodes);
      HasLast(n, spans, roots, k, nodes);
      var l: nat :| LastLead(n, spans, roots, l, nodes);
    }
    assert a.Keys == b.Keys;
  }

  /** Chains noted for one root, over what earlier roots noted. */
  function Noted(u: map<seq<string>, string>, paths: seq<seq<string>>, name: string): map<seq<string>, string> {
    if paths == [] then u
    else
      var rest, nodes := Noted(u, paths[..|paths| - 1], name), paths[|paths| - 1];
      if nodes == [] then rest else rest[nodes := name]
  }

  lemma {:induction false} NotedIs(u: map<seq<string>, string>, paths: seq<seq<string>>, name: string)
    ensures forall nodes :: nodes in Noted(u, paths, name) <==> nodes in u || (nodes != [] && nodes in paths)
    ensures forall nodes :: nodes in Noted(u, paths, name) ==>
              Noted(u, paths, name)[nodes] == if nodes != [] && nodes in paths then name else u[nodes]
  {
    if paths != [] {
      NotedIs(u, paths[..|paths| - 1], name);
      assert forall nodes :: nodes in paths <==> nodes in paths[..|paths| - 1] || nodes == paths[|paths| - 1];
    }
  }

  /** One more root. */
  lemma UniqueStep(n: Naming, spans: SpanMap, roots: seq<string>, u: map<seq<string>, string>, r: string, paths: seq<seq<string>>)
    requires IsUnique(n, spans, roots, u) && r in spans
    requires forall nodes :: Leads(n, spans, r, nodes) <==> nodes != [] && nodes in paths
    ensures IsUnique(n, spans, roots + [r], Noted(u, paths, spans[r].name))
  {
    hide Leads;
    NotedIs(u, paths, spans[r].name);
    var all, next := roots + [r], Noted(u, paths, spans[r].name);
    assert forall k :: 0 <= k < |roots| ==> all[k] == roots[k];
    forall k: nat, nodes | LastLead(n, spans, all, k, nodes)
      ensures nodes in next && all[k] in spans && next[nodes] == spans[all[k]].name
    {
      assert all[|roots|] == r;
      if k < |roots| { assert LastLead(n, spans, roots, k, nodes); }
    }
    forall nodes ensures nodes in next <==> exists k :: 0 <= k < |all| && Leads(n, spans, all[k], nodes) {
      if nodes in u {
        var k :| 0 <= k < |roots| && Leads(n, spans, roots[k], nodes);
        assert Leads(n, spans, all[k], nodes);
      }
      if nodes != [] && nodes in paths { assert Leads(n, spans, all[|roots|], nodes); }
    }
  }

  ghost predicate AllRoots(spans: SpanMap, roots: seq<string>) {
    forall k :: 0 <= k < |roots| ==> IsRoot(spans, roots[k])
  }

  /** The chains below a list of roots, as they are met. */
  function Chains(n: Naming, spans: SpanMap, children: map<string, seq<string>>, roots: seq<string>): seq<seq<string>>
    requires Linked(spans, children) && AllRoots(spans, roots)
  {
    if roots == [] then []
    else
      var root := roots[|roots| - 1];
      SingleLine(spans, root);
      Chains(n, spans, children, roots[..|roots| - 1]) +
        (if Entry(n, spans, root) then CollectNodePaths(n, spans, children, [root], root, []) else [])
  }

  /** Each chain that is not empty once, in the order in which they are first met. */
  function FirstSeen(chains: seq<seq<string>>): seq<seq<string>> {
    if chains == [] then []
    else
      var earlier, nodes := FirstSeen(chains[..|chains| - 1]), chains[|chains| - 1];
      if nodes == [] || nodes in earlier then earlier else earlier + [nodes]
  }

  lemma {:induction false} FirstSeenIs(chains: seq<seq<string>>)
    ensures Once(FirstSeen(chains))
    ensures forall nodes :: nodes in FirstSeen(chains) <==> nodes != [] && nodes in chains
  {
    if chains != [] {
      var init := chains[..|chains| - 1];
      FirstSeenIs(init);
      assert forall nodes :: nodes in chains <==> nodes in init || nodes == chains[|chains| - 1];
    }
  }

  /** What stands earlier in the result is met before anything later in it. */
  lemma {:induction false} FirstSeenInOrder(chains: seq<seq<string>>, i: nat, j: nat, l: nat)
    requires i < j < |FirstSeen(chains)| && l < |chains| && chains[l] == FirstSeen(chains)[j]
    ensures exists k :: 0 <= k < l && chains[k] == FirstSeen(chains)[i]
  {
    var init := chains[..|chains| - 1];
    FirstSeenIs(init);
    FirstSeenIs(chains);
    if j < |FirstSeen(init)| {
      assert FirstSeen(init)[j] in FirstSeen(init);
      var k0 :| 0 <= k0 < |init| && init[k0] == FirstSeen(init)[j];
      FirstSeenInOrder(init, i, j, if l < |init| then l else k0);
    } else {
      assert FirstSeen(init)[i] in FirstSeen(init);
      var k :| 0 <= k < |init| && init[k] == FirstSeen(init)[i];
    }
  }

  /** The loops that fill `unique` and `uniqueOrder`. */
  method CollectPaths(n: Naming, spans: SpanMap, roots: seq<string>, children: map<string, seq<string>>)
    returns (unique: map<seq<string>, string>, uniqueOrder: seq<seq<string>>)
    requires Linked(spans, children) && AllRoots(spans, roots)
    ensures IsUnique(n, spans, roots, unique) && forall nodes :: nodes in uniqueOrder <==> nodes in unique
    ensures uniqueOrder == FirstSeen(Chains(n, spans, children, roots)) && Once(uniqueOrder)
  {
    hide Leads, Linked, TraceParent, CollectNodePaths, FirstSeen;
    unique, uniqueOrder := map[], [];
    NothingUnique(n, spans);
    NoneSeen();
    assert roots[..0] == [];
    for i := 0 to |roots|
      invariant IsUnique(n, spans, roots[..i], unique) && forall nodes :: nodes in uniqueOrder <==> nodes in unique
      invariant uniqueOrder == FirstSeen(Chains(n, spans, children, roots[..i]))
    {
      var root := roots[i];
      assert roots[..i + 1] == roots[..i] + [root];
      ChainsStep(n, spans, children, roots[..i], root);
      if ItemNode(n, spans[root]) == "" || spans[root].kind !in ENTRY_KINDS {
        NotAnEntry(n, spans, root);
        UniqueStep(n, spans, roots[..i], unique, root, []);
        assert Chains(n, spans, children, roots[..i]) + [] == Chains(n, spans, children, roots[..i]);
      } else {
        SingleLine(spans, root);
        var paths := CollectNodePaths(n, spans, children, [root], root, []);
        CollectedLead(n, spans, children, root);
        UniqueStep(n, spans, roots[..i], unique, root, paths);
        unique, uniqueOrder := NoteAll(unique, uniqueOrder, paths, spans[root].name, Chains(n, spans, children, roots[..i]));
      }
    }
    assert roots[..|roots|] == roots;
    FirstSeenIs(Chains(n, spans, children, roots));
  }

  lemma NoneSeen()
    ensures FirstSeen([]) == []
  {}

  lemma ChainsStep(n: Naming, spans: SpanMap, children: map<string, seq<string>>, roots: seq<string>, r: string)
    requires Linked(spans, children) && AllRoots(spans, roots) && IsRoot(spans, r)
    ensures AllRoots(spans, roots + [r]) && Line(spans, [r])
    ensures Chains(n, spans, children, roots + [r]) == Chains(n, spans, children, roots) +
              (if Entry(n, spans, r) then CollectNodePaths(n, spans, children, [r], r, []) else [])
  {
    hide Linked, CollectNodePaths, IsRoot;
    SingleLine(spans, r);
    assert (roots + [r])[..|roots|] == roots;
  }

  lemma NothingUnique(n: Naming, spans: SpanMap)
    ensures IsUnique(n, spans, [], map[])
  {}

  lemma SingleLine(spans: SpanMap, r: string)
    requires IsRoot(spans, r)
    ensures Line(spans, [r])
  {}

  lemma NotAnEntry(n: Naming, spans: SpanMap, r: string)
    requires r in spans && (ItemNode(n, spans[r]) == "" || spans[r].kind !in ENTRY_KINDS)
    ensures forall nodes :: !Leads(n, spans, r, nodes)
  {}

  lemma CollectedLead(n: Naming, spans: SpanMap, children: map<string, seq<string>>, r: string)
    requires IsRoot(spans, r) && Entry(n, spans, r) && Linked(spans, children) && Line(spans, [r])
    ensures forall nodes :: Leads(n, spans, r, nodes) <==>
              nodes != [] && nodes in CollectNodePaths(n, spans, children, [r], r, [])
  {
    hide CollectNodePaths, Reaches;
    assert [r][..0] == [];
    assert LineNodes(n, spans, []) == [];
    CollectIs(n, spans, children, [r], []);
  }

  method NoteAll(unique0: map<seq<string>, string>, order0: seq<seq<string>>, paths: seq<seq<string>>, name: string,
                 ghost met: seq<seq<string>>)
    returns (unique: map<seq<string>, string>, uniqueOrder: seq<seq<string>>)
    requires order0 == FirstSeen(met) && forall nodes :: nodes in order0 <==> nodes in unique0
    ensures unique == Noted(unique0, paths, name) && forall nodes :: nodes in uniqueOrder <==> nodes in unique
    ensures uniqueOrder == FirstSeen(met + paths)
  {
    hide Noted, FirstSeen;
    unique, uniqueOrder := unique0, order0;
    assert met + paths[..0] == met && paths[..0] == [];
    NothingNoted(unique0, name);
    for j := 0 to |paths|
      invariant unique == Noted(unique0, paths[..j], name) && forall nodes :: nodes in uniqueOrder <==> nodes in unique
      invariant uniqueOrder == FirstSeen(met + paths[..j])
    {
      var nodes := paths[j];
      NoteStep(unique0, met, paths, name, j);
      if |nodes| > 0 {
        if nodes !in unique { uniqueOrder := uniqueOrder + [nodes]; }
        unique := unique[nodes := name];
      }
    }
    assert paths[..|paths|] == paths;
  }

  lemma NothingNoted(u: map<seq<string>, string>, name: string)
    ensures Noted(u, [], name) == u
  {}

  lemma NoteStep(u: map<seq<string>, string>, met: seq<seq<string>>, paths: seq<seq<string>>, name: string, j: nat)
    requires j < |paths|
    ensures Noted(u, paths[..j + 1], name)
         == if paths[j] == [] then Noted(u, paths[..j], name) else Noted(u, paths[..j], name)[paths[j] := name]
    ensures var earlier := FirstSeen(met + paths[..j]);
            FirstSeen(met + paths[..j + 1]) == if paths[j] == [] || paths[j] in earlier then earlier else earlier + [paths[j]]
  {
    assert paths[..j + 1][..j] == paths[..j];
    assert (met + paths[..j + 1])[..|met| + j] == met + paths[..j];
  }

  /** What a trace should contribute, path by path. */
  function DesiredOf(n: Naming, u: map<seq<string>, string>, c: Contribution): map<PathKey, Contribution> {
    map nodes | nodes in u :: PathKey(n.entry(u[nodes]), nodes) := c
  }

  ghost predicate IsDesired(n: Naming, spans: SpanMap, order: seq<string>, d: map<PathKey, Contribution>)
    requires AllIn(spans, order)
  {
    exists u, c :: IsUnique(n, spans, SortByStart(spans, RootList(spans, order)), u) && IsShare(spans, c) && d == DesiredOf(n, u, c)
  }

  /** The paths of a trace do not depend on the order in which its spans arrived, if its roots start at different times. */
  lemma DesiredUnique(n: Naming, spans: SpanMap, a: seq<string>, b: seq<string>, d: map<PathKey, Contribution>, e: map<PathKey, Contribution>)
    requires AllIn(spans, a) && AllIn(spans, b) && Listed(spans, a) && Listed(spans, b)
    requires IsDesired(n, spans, a, d) && IsDesired(n, spans, b, e) && DistinctStarts(spans, RootList(spans, a))
    ensures d == e
  {
    hide IsUnique, IsShare, SortByStart, RootList;
    var roots := SortByStart(spans, RootList(spans, a));
    SameRoots(spans, a, b);
    SortByStartUnique(spans, RootList(spans, a), RootList(spans, b));
    var u, c :| IsUnique(n, spans, roots, u) && IsShare(spans, c) && d == DesiredOf(n, u, c);
    var v, c' :| IsUnique(n, spans, roots, v) && IsShare(spans, c') && e == DesiredOf(n, v, c');
    UniqueUnique(n, spans, roots, u, v);
    ShareUnique(spans, c, c');
  }

  lemma SameRoots(spans: SpanMap, a: seq<string>, b: seq<string>)
    requires AllIn(spans, a) && AllIn(spans, b) && Listed(spans, a) && Listed(spans, b)
    ensures multiset(RootList(spans, a)) == multiset(RootList(spans, b))
  {
    RootsDiffer(spans, a);
    RootsDiffer(spans, b);
    var r, t := RootList(spans, a), RootList(spans, b);
    forall x ensures multiset(r)[x] == multiset(t)[x] {
      OnceOnly(r, x);
      OnceOnly(t, x);
      assert x in multiset(r) <==> x in r;
      assert x in multiset(t) <==> x in t;
    }
  }

  lemma {:induction false} RootsDiffer(spans: SpanMap, order: seq<string>)
    requires AllIn(spans, order) && Once(order)
    ensures Once(RootList(spans, order))
  {
    if order != [] {
      var init, id := order[..|order| - 1], order[|order| - 1];
      RootsDiffer(spans, init);
      assert id !in RootList(spans, init);
    }
  }

  /** The loop that turns chains into paths, each once, in the order in which they were first seen. */
  method Desire(n: Naming, unique: map<seq<string>, string>, uniqueOrder: seq<seq<string>>, c: Contribution)
    returns (desired: map<PathKey, Contribution>, desiredOrder: seq<PathKey>)
    requires forall nodes :: nodes in uniqueOrder <==> nodes in unique
    ensures desired == DesiredOf(n, unique, c)
    ensures (forall p :: p in desiredOrder <==> p in desired) && Once(desiredOrder)
  {
    desired, desiredOrder := map[], [];
    for i := 0 to |uniqueOrder|
      invariant forall p :: p in desired <==> exists k :: 0 <= k < i && p == PathKey(n.entry(unique[uniqueOrder[k]]), uniqueOrder[k])
      invariant forall p :: p in desired ==> desired[p] == c
      invariant forall p :: p in desiredOrder <==> p in desired
      invariant Once(desiredOrder)
    {
      var nodes := uniqueOrder[i];
      var id := PathKey(n.entry(unique[nodes]), nodes);
      if id !in desired { desiredOrder := desiredOrder + [id]; }
      desired := desired[id := c];
    }
    forall nodes | nodes in unique ensures PathKey(n.entry(unique[nodes]), nodes) in desired {
      var k :| 0 <= k < |uniqueOrder| && uniqueOrder[k] == nodes;
    }
    assert desired.Keys == DesiredOf(n, unique, c).Keys;
  }

  // ---- how many paths a trace can have -----------------------------------------------------------------------

  /** The chain of the line that leads to a span. */
  ghost predicate EndsAt(n: Naming, spans: SpanMap, nodes: seq<string>, id: string) {
    exists path :: Line(spans, path) && path[|path| - 1] == id && LineNodes(n, spans, path) == nodes
  }

  lemma LeadEnds(n: Naming, spans: SpanMap, r: string, nodes: seq<string>) returns (id: string)
    requires Leads(n, spans, r, nodes)
    ensures id in Items(spans) && EndsAt(n, spans, nodes, id)
  {
    hide Along;
    var path :| Continues(spans, [r], path) && LineNodes(n, spans, path) == nodes;
    id := path[|path| - 1];
    LineItems(spans, path, |path| - 1);
  }

  lemma OneChain(n: Naming, spans: SpanMap, a: seq<string>, b: seq<string>, id: string)
    requires EndsAt(n, spans, a, id) && EndsAt(n, spans, b, id)
    ensures a == b
  {
    hide LineNodes;
    var p :| Line(spans, p) && p[|p| - 1] == id && LineNodes(n, spans, p) == a;
    var q :| Line(spans, q) && q[|q| - 1] == id && LineNodes(n, spans, q) == b;
    LineIsUnique(spans, p, q);
  }

  ghost predicate EndsIn(n: Naming, spans: SpanMap, nodes: seq<string>, ids: set<string>) {
    exists id :: id in ids && EndsAt(n, spans, nodes, id)
  }

  lemma {:induction false} ChainsFew(n: Naming, spans: SpanMap, paths: set<PathKey>, ids: set<string>)
    requires forall p :: p in paths ==> EndsIn(n, spans, p.nodes, ids)
    requires forall p, q :: p in paths && q in paths && p.nodes == q.nodes ==> p == q
    ensures |paths| <= |ids|
    decreases |paths|
  {
    hide EndsAt;
    if paths != {} {
      var p :| p in paths;
      assert EndsIn(n, spans, p.nodes, ids);
      var id :| id in ids && EndsAt(n, spans, p.nodes, id);
      forall q | q in paths - {p} ensures EndsIn(n, spans, q.nodes, ids - {id}) {
        assert EndsIn(n, spans, q.nodes, ids);
        var j :| j in ids && EndsAt(n, spans, q.nodes, j);
        if j == id { OneChain(n, spans, p.nodes, q.nodes, id); }
      }
      ChainsFew(n, spans, paths - {p}, ids - {id});
    }
  }

  /** A trace contributes at most one path for each span that it shows: a leaf has only one line of descent. */
  lemma DesiredFew(n: Naming, spans: SpanMap, roots: seq<string>, u: map<seq<string>, string>, c: Contribution)
    requires IsUnique(n, spans, roots, u)
    ensures |DesiredOf(n, u, c)| <= |Items(spans)|
  {
    hide EndsAt, Leads, Items;
    var d := DesiredOf(n, u, c);
    forall p | p in d.Keys ensures EndsIn(n, spans, p.nodes, Items(spans)) {
      var k :| 0 <= k < |roots| && Leads(n, spans, roots[k], p.nodes);
      var id := LeadEnds(n, spans, roots[k], p.nodes);
    }
    ChainsFew(n, spans, d.Keys, Items(spans));
    assert |d| == |d.Keys|;
  }

  /** A trace without roots should contribute nothing. */
  lemma RootlessDesired(n: Naming, spans: SpanMap, order: seq<string>, d: map<PathKey, Contribution>)
    requires AllIn(spans, order) && spans != map[] && RootList(spans, order) == []
    ensures IsDesired(n, spans, order, d) <==> d == map[]
  {
    hide IsShare, RootList;
    var c := ShareExists(spans);
    NothingUnique(n, spans);
    assert DesiredOf(n, map[], c) == map[];
    if u, c' :| IsUnique(n, spans, [], u) && IsShare(spans, c') && d == DesiredOf(n, u, c') {
      UniqueUnique(n, spans, [], u, map[]);
    }
  }

  lemma ShareExists(spans: SpanMap) returns (c: Contribution)
    requires spans != map[]
    ensures IsShare(spans, c)
  {
    var e, l := ExtentExists(spans, spans.Keys);
    c := Contribution(Round(l - e), Failed(spans));
    assert IsExtent(spans, e, l);
  }

  lemma {:induction false} ExtentExists(spans: SpanMap, ids: set<string>) returns (e: real, l: real)
    requires ids != {} && ids <= spans.Keys
    ensures (exists id :: id in ids && spans[id].startTime == e) && forall id :: id in ids ==> e <= spans[id].startTime
    ensures exists id :: id in ids && spans[id].startTime + spans[id].duration == l
    ensures forall id :: id in ids ==> spans[id].startTime + spans[id].duration <= l
    decreases |ids|
  {
    var id :| id in ids;
    e, l := spans[id].startTime, spans[id].startTime + spans[id].duration;
    if ids - {id} != {} {
      var e', l' := ExtentExists(spans, ids - {id});
      if e' < e { e := e'; }
      if l' > l { l := l'; }
    }
    assert forall x :: x in ids <==> x == id || x in ids - {id};
  }
}
