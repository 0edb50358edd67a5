/** Sums of call counts, errors and durations, over collections in which order does not matter. */
module Tallies {

  /** What a metric accumulates: calls, errors, total latency, and the latencies themselves. */
  datatype Tally = Tally(count: nat, errors: nat, total: real, samples: multiset<real>)

  const NONE := Tally(0, 0, 0.0, multiset{})

  function One(duration: real, failed: bool): Tally {
    Tally(1, if failed then 1 else 0, duration, multiset{duration})
  }

  function Plus(a: Tally, b: Tally): Tally {
    Tally(a.count + b.count, a.errors + b.errors, a.total + b.total, a.samples + b.samples)
  }

  /** No more calls, errors, latency or samples. */
  predicate Within(a: Tally, b: Tally) {
    a.count <= b.count && a.errors <= b.errors && a.total <= b.total && a.samples <= b.samples
  }

  /** The sum of the tallies of a collection. */
  ghost function Sum<X>(weigh: X -> Tally, m: multiset<X>): Tally
    decreases |m|
  {
    if m == multiset{} then NONE
    else
      var x :| x in m;
      Plus(weigh(x), Sum(weigh, m - multiset{x}))
  }

  lemma PlusSwaps(a: Tally, b: Tally, rest: Tally)
    ensures Plus(a, Plus(b, rest)) == Plus(b, Plus(a, rest))
  {}

  lemma PlusJoins(a: Tally, b: Tally, rest: Tally)
    ensures Plus(a, Plus(b, rest)) == Plus(b, Plus(a, rest)) == Plus(Plus(a, b), rest)
    ensures Plus(a, b) == Plus(b, a) && Plus(a, NONE) == a
  {}

  lemma TakeTwo<X>(m: multiset<X>, x: X, y: X)
    requires x in m && y in m && x != y
    ensures m - multiset{x} - multiset{y} == m - multiset{y} - multiset{x}
    ensures x in m - multiset{y} && y in m - multiset{x} && |m - multiset{x}| == |m - multiset{y}| == |m| - 1
  {}

  lemma {:induction false} SumTakes<X>(weigh: X -> Tally, m: multiset<X>, x: X)
    requires x in m
    ensures Sum(weigh, m) == Plus(weigh(x), Sum(weigh, m - multiset{x}))
    decreases |m|
  {
    hide Plus;
    var y :| y in m && Sum(weigh, m) == Plus(weigh(y), Sum(weigh, m - multiset{y}));
    if y != x {
      TakeTwo(m, x, y);
      SumTakes(weigh, m - multiset{y}, x);
      SumTakes(weigh, m - multiset{x}, y);
      PlusSwaps(weigh(x), weigh(y), Sum(weigh, m - multiset{x} - multiset{y}));
    }
  }

  /** Order does not matter: one more element adds its weight. */
  lemma SumAdds<X>(weigh: X -> Tally, m: multiset<X>, x: X)
    ensures Sum(weigh, m + multiset{x}) == Plus(Sum(weigh, m), weigh(x))
  {
    hide Plus;
    SumTakes(weigh, m + multiset{x}, x);
    assert m + multiset{x} - multiset{x} == m;
    PlusJoins(Sum(weigh, m), weigh(x), NONE);
  }

  lemma {:induction false} SumJoins<X>(weigh: X -> Tally, a: multiset<X>, b: multiset<X>)
    ensures Sum(weigh, a + b) == Plus(Sum(weigh, a), Sum(weigh, b))
    decreases |b|
  {
    hide Plus;
    PlusJoins(Sum(weigh, a), NONE, NONE);
    if b == multiset{} {
      assert a + b == a;
    } else {
      hide Sum;
      var x :| x in b;
      JoinTakes(a, b, x);
      SumJoins(weigh, a, b - multiset{x});
      SumTakes(weigh, b, x);
      SumTakes(weigh, a + b, x);
      PlusSwaps(weigh(x), Sum(weigh, a), Sum(weigh, b - multiset{x}));
    }
  }

  lemma JoinTakes<X>(a: multiset<X>, b: multiset<X>, x: X)
    requires x in b
    ensures a + b - multiset{x} == a + (b - multiset{x}) && x in a + b && |b - multiset{x}| == |b| - 1
  {}

  lemma {:induction false} SumNonNegative<X>(weigh: X -> Tally, m: multiset<X>)
    requires forall x :: x in m ==> weigh(x).total >= 0.0
    ensures Sum(weigh, m).total >= 0.0
    decreases |m|
  {
    if m != multiset{} {
      var x :| x in m;
      SumTakes(weigh, m, x);
      SumNonNegative(weigh, m - multiset{x});
    }
  }

  /** A part weighs no more than the whole. */
  lemma SumOfPart<X>(weigh: X -> Tally, part: multiset<X>, whole: multiset<X>)
    requires part <= whole && forall x :: x in whole ==> weigh(x).total >= 0.0
    ensures Within(Sum(weigh, part), Sum(weigh, whole))
  {
    hide Sum;
    assert part + (whole - part) == whole;
    SumJoins(weigh, part, whole - part);
    SumNonNegative(weigh, whole - part);
  }

  /** Two ways of weighing that agree on the collection give the same sum. */
  lemma {:induction false} SumAgrees<X>(weigh: X -> Tally, other: X -> Tally, m: multiset<X>)
    requires forall x :: x in m ==> weigh(x) == other(x)
    ensures Sum(weigh, m) == Sum(other, m)
    decreases |m|
  {
    if m != multiset{} {
      hide Plus;
      var x :| x in m;
      SumTakes(weigh, m, x);
      SumTakes(other, m, x);
      SumAgrees(weigh, other, m - multiset{x});
    }
  }

  /** With weights of nothing or at least one call, no calls in all means that nothing weighs anything. */
  lemma {:induction false} SumCounts<X>(weigh: X -> Tally, m: multiset<X>)
    requires forall x :: x in m ==> weigh(x) == NONE || weigh(x).count >= 1
    ensures Sum(weigh, m).count == 0 <==> forall x :: x in m ==> weigh(x) == NONE
    ensures Sum(weigh, m).count == 0 ==> Sum(weigh, m) == NONE
    decreases |m|
  {
    SumOfNothing(weigh);
    hide Sum, Plus;
    if m != multiset{} {
      var x :| x in m;
      SumTakes(weigh, m, x);
      SumCounts(weigh, m - multiset{x});
      Others(m, x);
      PlusCount(weigh(x), Sum(weigh, m - multiset{x}));
      PlusJoins(NONE, NONE, NONE);
    }
  }

  lemma SumOfNothing<X>(weigh: X -> Tally)
    ensures Sum(weigh, multiset{}) == NONE
  {}

  lemma PlusCount(a: Tally, b: Tally)
    ensures Plus(a, b).count == a.count + b.count
  {}

  lemma Others<X>(m: multiset<X>, x: X)
    requires x in m
    ensures forall y :: y in m <==> y == x || y in m - multiset{x}
  {}
}
