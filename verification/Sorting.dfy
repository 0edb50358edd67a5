/** Sets of identifiers as increasing lists: what `sort.Slice` makes of the keys of a map. */
module Sorting {

  ghost predicate Increasing(s: seq<nat>) {
    forall i, j :: 0 <= i < j < |s| ==> s[i] < s[j]
  }

  lemma {:induction false} HasMax(s: set<nat>)
    requires s != {}
    ensures exists m :: m in s && forall x :: x in s ==> x <= m
    decreases |s|
  {
    var x :| x in s;
    if s - {x} != {} {
      HasMax(s - {x});
      var m :| m in s - {x} && forall y :: y in s - {x} ==> y <= m;
      var top := if m < x then x else m;
      assert top in s && forall y :: y in s ==> y in s - {x} || y == x;
    } else {
      assert s == {x};
    }
  }

  function Max(s: set<nat>): (m: nat)
    requires s != {}
    ensures m in s && forall x :: x in s ==> x <= m
  {
    HasMax(s);
    var m :| m in s && forall x :: x in s ==> x <= m;
    m
  }

  /** The elements of a set in increasing order. */
  function Sort(s: set<nat>): (r: seq<nat>)
    ensures Increasing(r) && forall x :: x in r <==> x in s
    decreases |s|
  {
    if s == {} then [] else Sort(s - {Max(s)}) + [Max(s)]
  }

  lemma LastIsMax(r: seq<nat>)
    requires Increasing(r) && r != []
    ensures forall x :: x in r ==> x <= r[|r| - 1]
    ensures forall x :: x in r[..|r| - 1] <==> x in r && x != r[|r| - 1]
  {
    forall x | x in r ensures x <= r[|r| - 1] && (x != r[|r| - 1] ==> x in r[..|r| - 1]) {
      var k :| 0 <= k < |r| && r[k] == x;
    }
    var init := r[..|r| - 1];
    forall x | x in init ensures x < r[|r| - 1] {
      var k :| 0 <= k < |init| && init[k] == x;
    }
  }

  /** Only one increasing list has these elements. */
  lemma {:induction false} SortIsUnique(s: set<nat>, r: seq<nat>)
    requires Increasing(r) && forall x :: x in r <==> x in s
    ensures Sort(s) == r
  {
    if r == [] {
      assert s == {};
    } else {
      LastIsMax(r);
      assert r[|r| - 1] in r;
      assert Max(s) == r[|r| - 1];
      SortIsUnique(s - {Max(s)}, r[..|r| - 1]);
    }
  }
}
