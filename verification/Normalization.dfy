/**
 * What normalization does to any string, in terms of its pieces: how colons join, what becomes of other characters between
 * and around words, and that case does not matter. Together with what it leaves alone this determines the normal form.
 */
module Normalization {
  import opened Identity

  // ---- trimming ----------------------------------------------------------------------------------------------

  lemma {:induction false} TrimLeftThrough(a: string, rest: string, p: char -> bool)
    requires a != "" && !p(a[|a| - 1])
    ensures TrimLeft(a + rest, p) == TrimLeft(a, p) + rest
    ensures TrimLeft(a, p) != "" && TrimLeft(a, p)[|TrimLeft(a, p)| - 1] == a[|a| - 1]
  {
    if p(a[0]) {
      assert (a + rest)[1..] == a[1..] + rest;
      TrimLeftThrough(a[1..], rest, p);
    }
  }

  lemma {:induction false} TrimRightThrough(rest: string, b: string, p: char -> bool)
    requires b != "" && !p(b[0])
    ensures TrimRight(rest + b, p) == rest + TrimRight(b, p)
    ensures TrimRight(b, p) != "" && TrimRight(b, p)[0] == b[0]
    decreases |b|
  {
    if p(b[|b| - 1]) {
      assert (rest + b)[..|rest + b| - 1] == rest + b[..|b| - 1];
      TrimRightThrough(rest, b[..|b| - 1], p);
    }
  }

  lemma TrimKeepsEnd(s: string, p: char -> bool)
    requires s != "" && !p(s[|s| - 1])
    ensures TrimRight(s, p) == s
  {}

  lemma TrimKeepsStart(s: string, p: char -> bool)
    requires s != "" && !p(s[0])
    ensures TrimLeft(s, p) == s
  {}

  /** Trimming leaves what lies between characters that stay. */
  lemma TrimAround(a: string, m: string, b: string, p: char -> bool)
    requires a != "" && !p(a[|a| - 1]) && b != "" && !p(b[0])
    ensures Trim(a + m + b, p) == Trim(a, p) + m + Trim(b, p)
    ensures Trim(a, p) == TrimLeft(a, p) && Trim(b, p) == TrimRight(b, p)
    ensures Trim(a, p) != "" && Trim(a, p)[|Trim(a, p)| - 1] == a[|a| - 1] && Trim(b, p) != "" && Trim(b, p)[0] == b[0]
  {
    TrimLeftThrough(a, m + b, p);
    assert a + m + b == a + (m + b);
    TrimLeftThrough(a, "", p);
    TrimKeepsEnd(TrimLeft(a, p), p);
    var left := TrimLeft(a, p) + m;
    assert TrimLeft(a, p) + (m + b) == left + b;
    TrimRightThrough(left, b, p);
    TrimKeepsStart(b, p);
  }

  /** It does not matter from which end trimming begins. */
  lemma {:induction false} TrimEitherEnd(s: string, p: char -> bool)
    ensures TrimRight(TrimLeft(s, p), p) == TrimLeft(TrimRight(s, p), p)
    decreases |s|
  {
    if s != "" {
      if p(s[0]) {
        TrimEitherEnd(s[1..], p);
        TrimRightTail(s, p);
      } else {
        TrimRightThrough("", s, p);
        assert "" + s == s && "" + TrimRight(s, p) == TrimRight(s, p);
      }
    }
  }

  lemma {:induction false} TrimRightTail(s: string, p: char -> bool)
    requires s != "" && p(s[0])
    ensures TrimLeft(TrimRight(s, p), p) == TrimLeft(TrimRight(s[1..], p), p)
    decreases |s|
  {
    if p(s[|s| - 1]) {
      if |s| > 1 {
        assert s[..|s| - 1][1..] == s[1..][..|s[1..]| - 1];
        TrimRightTail(s[..|s| - 1], p);
      } else {
        assert s[..0] == "" && s[1..] == "";
      }
    }
  }

  // ---- runs of other characters ------------------------------------------------------------------------------

  lemma {:induction false} DashedParts(u: string, v: string)
    requires u == "" || v == "" || Allowed(u[|u| - 1]) || Allowed(v[0])
    ensures Dashed(u + v) == Dashed(u) + Dashed(v)
  {
    if u == "" {
      assert u + v == v;
    } else {
      assert (u + v)[1..] == u[1..] + v;
      DashedParts(u[1..], v);
    }
  }

  ghost predicate Run(x: string) {
    x != "" && forall k :: 0 <= k < |x| ==> !Allowed(x[k])
  }

  lemma {:induction false} DashedRun(x: string)
    requires Run(x)
    ensures Dashed(x) == "-"
  {
    if |x| > 1 { DashedRun(x[1..]); }
  }

  lemma {:induction false} DashedLast(q: string, c: char)
    requires !Allowed(c)
    ensures Dashed(q + [c]) == Dashed(q) || Dashed(q + [c]) == Dashed(q) + "-"
  {
    if q != "" {
      assert (q + [c])[1..] == q[1..] + [c];
      DashedLast(q[1..], c);
      if |q| == 1 { assert q[1..] == ""; }
    }
  }

  lemma {:induction false} DashedEnds(s: string)
    ensures s != "" && Edge(s[0]) ==> Dashed(s) != "" && Dashed(s)[0] == s[0]
    ensures s != "" && Edge(s[|s| - 1]) ==> Dashed(s) != "" && Dashed(s)[|Dashed(s)| - 1] == s[|s| - 1]
  {
    if |s| > 1 { DashedEnds(s[1..]); }
  }

  // ---- one part between colons ---------------------------------------------------------------------------------

  /** Between characters that stay, a part is cleaned piece by piece. */
  lemma PartAround(l: Letters, a: string, m: string, b: string)
    requires a != "" && b != "" && Edge(a[|a| - 1]) && Edge(b[0]) && !l.space(a[|a| - 1]) && !l.space(b[0])
    ensures CleanPart(l, a + m + b) == CleanPart(l, a) + Dashed(m) + CleanPart(l, b)
    ensures CleanPart(l, a) != "" && CleanPart(l, b) != ""
  {
    hide TrimLeft, TrimRight, Trim, Dashed;
    TrimAround(a, m, b, l.space);
    var a', b' := Trim(a, l.space), Trim(b, l.space);
    DashedParts(a', m + b');
    assert a' + m + b' == a' + (m + b');
    DashedParts(m, b');
    DashedEnds(a');
    DashedEnds(b');
    TrimAround(Dashed(a'), Dashed(m), Dashed(b'), IsDash());
    assert Dashed(a') + (Dashed(m) + Dashed(b')) == Dashed(a') + Dashed(m) + Dashed(b');
  }

  /** A character that is no word character adds nothing in front of a part. */
  lemma JunkInFront(l: Letters, c: char, part: string)
    requires l.Lawful() && !Edge(c)
    ensures CleanPart(l, [c] + part) == CleanPart(l, part)
  {
    hide TrimRight, Dashed;
    var s := [c] + part;
    assert s[1..] == part;
    if !l.space(c) { JunkTrimmed(l, c, part); }
  }

  lemma JunkTrimmed(l: Letters, c: char, part: string)
    requires l.Lawful() && !Edge(c) && !l.space(c)
    ensures CleanPart(l, [c] + part) == CleanPart(l, part)
  {
    hide Dashed;
    var s, q := [c] + part, TrimRight(part, l.space);
    TrimKeepsStart(s, l.space);
    TrimRightOne(c, part, l.space);
    assert Trim(s, l.space) == [c] + q;
    DashesInFront(c, q);
    TrimEitherEnd(part, l.space);
    SpacesInFront(l, q);
  }

  lemma {:induction false} TrimRightOne(c: char, part: string, p: char -> bool)
    requires !p(c)
    ensures TrimRight([c] + part, p) == [c] + TrimRight(part, p)
    decreases |part|
  {
    if part != "" && p(part[|part| - 1]) {
      assert ([c] + part)[..|part|] == [c] + part[..|part| - 1];
      TrimRightOne(c, part[..|part| - 1], p);
    }
  }

  lemma DashesInFront(c: char, q: string)
    requires !Edge(c)
    ensures Trim(Dashed([c] + q), IsDash()) == Trim(Dashed(q), IsDash())
  {
    hide TrimRight;
    assert ([c] + q)[1..] == q;
    var d := Dashed(q);
    assert ("-" + d)[1..] == d && "" + d == d;
    assert TrimLeft("-" + d, IsDash()) == TrimLeft(d, IsDash());
    assert Dashed([c] + q) == d || Dashed([c] + q) == "-" + d;
  }

  lemma {:induction false} SpacesInFront(l: Letters, q: string)
    requires l.Lawful()
    ensures Trim(Dashed(TrimLeft(q, l.space)), IsDash()) == Trim(Dashed(q), IsDash())
  {
    hide Dashed, TrimRight;
    if q != "" && l.space(q[0]) {
      SpacesInFront(l, q[1..]);
      assert q == [q[0]] + q[1..];
      DashesInFront(q[0], q[1..]);
    }
  }

  /** Nor does it behind one. */
  lemma JunkBehind(l: Letters, part: string, c: char)
    requires l.Lawful() && !Edge(c)
    ensures CleanPart(l, part + [c]) == CleanPart(l, part)
  {
    hide TrimLeft, Dashed;
    var s := part + [c];
    assert s[..|s| - 1] == part;
    TrimEitherEnd(s, l.space);
    TrimEitherEnd(part, l.space);
    if !l.space(c) { JunkCut(l, part, c); }
  }

  lemma JunkCut(l: Letters, part: string, c: char)
    requires l.Lawful() && !Edge(c) && !l.space(c)
    ensures CleanPart(l, part + [c]) == CleanPart(l, part)
  {
    hide Dashed;
    var s, q := part + [c], TrimLeft(part, l.space);
    TrimKeepsEnd(s, l.space);
    TrimLeftOne(part, c, l.space);
    TrimEitherEnd(s, l.space);
    assert Trim(s, l.space) == q + [c];
    DashesBehind(q, c);
    SpacesBehind(l, q);
  }

  lemma {:induction false} TrimLeftOne(part: string, c: char, p: char -> bool)
    requires !p(c)
    ensures TrimLeft(part + [c], p) == TrimLeft(part, p) + [c]
  {
    if part != "" && p(part[0]) {
      assert (part + [c])[1..] == part[1..] + [c];
      TrimLeftOne(part[1..], c, p);
    }
  }

  lemma DashesBehind(q: string, c: char)
    requires !Edge(c)
    ensures Trim(Dashed(q + [c]), IsDash()) == Trim(Dashed(q), IsDash())
  {
    hide TrimLeft;
    var d := Dashed(q);
    if Allowed(c) {
      DashedParts(q, [c]);
      assert Dashed([c]) == [c] + Dashed("") && Dashed("") == "" && [c] + "" == [c];
    } else {
      DashedLast(q, c);
    }
    assert Dashed(q + [c]) == d || Dashed(q + [c]) == d + "-";
    assert (d + "-")[..|d|] == d;
    assert TrimRight(d + "-", IsDash()) == TrimRight(d, IsDash());
    TrimEitherEnd(d + "-", IsDash());
    TrimEitherEnd(d, IsDash());
  }

  lemma {:induction false} SpacesBehind(l: Letters, q: string)
    requires l.Lawful()
    ensures Trim(Dashed(TrimRight(q, l.space)), IsDash()) == Trim(Dashed(q), IsDash())
    decreases |q|
  {
    hide Dashed, TrimLeft;
    if q != "" && l.space(q[|q| - 1]) {
      var init := q[..|q| - 1];
      SpacesBehind(l, init);
      assert q == init + [q[|q| - 1]];
      DashesBehind(init, q[|q| - 1]);
    }
  }

  // ---- lists of parts ---------------------------------------------------------------------------------------------

  lemma {:induction false} CleanPartsJoin(l: Letters, x: seq<string>, y: seq<string>)
    ensures CleanParts(l, x + y) == CleanParts(l, x) + CleanParts(l, y)
    decreases |y|
  {
    hide CleanPart;
    if y == [] {
      assert x + y == x;
    } else {
      assert (x + y)[..|x + y| - 1] == x + y[..|y| - 1];
      CleanPartsJoin(l, x, y[..|y| - 1]);
    }
  }

  lemma CleanOne(l: Letters, part: string)
    ensures CleanParts(l, [part]) == if CleanPart(l, part) == "" then [] else [CleanPart(l, part)]
  {
    hide CleanPart;
    assert [part][..0] == [] && CleanParts(l, []) == [];
  }

  /** The parts of two texts with a colon between them. */
  lemma {:induction false} SplitAtColon(u: string, v: string, c: char)
    ensures Split(u + [c] + v, c) == Split(u, c) + Split(v, c)
    decreases |u|
  {
    var i := Index(u, c);
    var s := u + [c] + v;
    IndexIs(s, c, i);
    assert s[..i] == u[..i];
    if i == |u| {
      assert u[..|u|] == u && s[i + 1..] == v;
    } else {
      assert s[i + 1..] == u[i + 1..] + [c] + v;
      SplitAtColon(u[i + 1..], v, c);
    }
  }

  /** A text is one part, or a part, a colon and the rest. */
  lemma SplitShape(s: string) returns (head: string, tail: string)
    ensures ':' !in head
    ensures if head == s then Split(s, ':') == [s] else s == head + [':'] + tail && Split(s, ':') == [head] + Split(tail, ':')
  {
    var i := Index(s, ':');
    head := s[..i];
    if i == |s| {
      assert s[..i] == s;
      tail := "";
    } else {
      tail := s[i + 1..];
      assert s == head + [':'] + tail;
      SplitHead(head, tail, ':');
    }
  }

  lemma SplitWord(s: string, c: char)
    requires c !in s
    ensures Split(s, c) == [s]
  {
    assert s[..|s|] == s;
    IndexIs(s, c, |s|);
  }

  lemma {:induction false} JoinParts(x: seq<string>, y: seq<string>, c: char)
    ensures Join(x + y, c) == if x == [] then Join(y, c) else if y == [] then Join(x, c) else Join(x, c) + [c] + Join(y, c)
  {
    if x == [] {
      assert x + y == y;
    } else if y == [] {
      assert x + y == x;
    } else if |x| == 1 {
      assert (x + y)[1..] == y;
    } else {
      assert (x + y)[1..] == x[1..] + y;
      JoinParts(x[1..], y, c);
      assert x[0] + [c] + (Join(x[1..], c) + [c] + Join(y, c)) == x[0] + [c] + Join(x[1..], c) + [c] + Join(y, c);
    }
  }

  // ---- whole values -----------------------------------------------------------------------------------------------

  /** The clean parts of a text in lower case. */
  function Words(l: Letters, s: string): seq<string> {
    CleanParts(l, Split(s, ':'))
  }

  lemma FrontJunk(l: Letters, c: char, s: string)
    requires l.Lawful() && !Edge(c) && c != ':'
    ensures Words(l, [c] + s) == Words(l, s)
  {
    hide CleanPart, CleanParts, Split;
    var parts := Split(s, ':');
    SplitLonger(c, s);
    assert parts == [parts[0]] + parts[1..];
    CleanPartsJoin(l, [[c] + parts[0]], parts[1..]);
    CleanPartsJoin(l, [parts[0]], parts[1..]);
    CleanOne(l, [c] + parts[0]);
    CleanOne(l, parts[0]);
    JunkInFront(l, c, parts[0]);
  }

  lemma SplitLonger(c: char, s: string)
    requires c != ':'
    ensures Split([c] + s, ':') == [[c] + Split(s, ':')[0]] + Split(s, ':')[1..]
  {
    hide Split;
    var head, tail := SplitShape(s);
    if head == s {
      SplitWord(s, ':');
      SplitWord([c] + s, ':');
    } else {
      assert [c] + s == ([c] + head) + [':'] + tail;
      SplitHead([c] + head, tail, ':');
    }
  }

  lemma BackJunk(l: Letters, s: string, c: char)
    requires l.Lawful() && !Edge(c) && c != ':'
    ensures Words(l, s + [c]) == Words(l, s)
  {
    hide CleanPart, CleanParts, Split;
    var parts := Split(s, ':');
    var n := |parts| - 1;
    SplitFurther(s, c);
    assert parts == parts[..n] + [parts[n]];
    CleanPartsJoin(l, parts[..n], [parts[n] + [c]]);
    CleanPartsJoin(l, parts[..n], [parts[n]]);
    CleanOne(l, parts[n] + [c]);
    CleanOne(l, parts[n]);
    JunkBehind(l, parts[n], c);
  }

  lemma {:induction false} SplitFurther(s: string, c: char)
    requires c != ':'
    ensures var parts := Split(s, ':'); Split(s + [c], ':') == parts[..|parts| - 1] + [parts[|parts| - 1] + [c]]
    decreases |s|
  {
    hide Split;
    var head, tail := SplitShape(s);
    if head == s {
      SplitWord(s + [c], ':');
      SplitWord(s, ':');
    } else {
      assert s + [c] == head + [':'] + (tail + [c]);
      SplitHead(head, tail + [c], ':');
      SplitFurther(tail, c);
    }
  }

  lemma {:induction false} TrimLeftWords(l: Letters, s: string)
    requires l.Lawful()
    ensures Words(l, TrimLeft(s, l.space)) == Words(l, s)
  {
    hide Words;
    if s != "" && l.space(s[0]) {
      TrimLeftWords(l, s[1..]);
      assert s == [s[0]] + s[1..];
      FrontJunk(l, s[0], s[1..]);
    }
  }

  lemma {:induction false} TrimRightWords(l: Letters, s: string)
    requires l.Lawful()
    ensures Words(l, TrimRight(s, l.space)) == Words(l, s)
    decreases |s|
  {
    hide Words;
    if s != "" && l.space(s[|s| - 1]) {
      var init := s[..|s| - 1];
      TrimRightWords(l, init);
      assert s == init + [s[|s| - 1]];
      BackJunk(l, init, s[|s| - 1]);
    }
  }

  lemma {:induction false} LoweredTrimLeft(l: Letters, s: string)
    requires l.Folds()
    ensures Lowered(l, TrimLeft(s, l.space)) == TrimLeft(Lowered(l, s), l.space)
  {
    if s != "" && l.space(s[0]) {
      LoweredTrimLeft(l, s[1..]);
      assert Lowered(l, s)[1..] == Lowered(l, s[1..]);
    }
  }

  lemma {:induction false} LoweredTrimRight(l: Letters, s: string)
    requires l.Folds()
    ensures Lowered(l, TrimRight(s, l.space)) == TrimRight(Lowered(l, s), l.space)
    decreases |s|
  {
    if s != "" && l.space(s[|s| - 1]) {
      LoweredTrimRight(l, s[..|s| - 1]);
      assert Lowered(l, s)[..|s| - 1] == Lowered(l, s[..|s| - 1]);
    }
  }

  /** White space around the value is taken care of by its parts. */
  lemma NormalizeIs(l: Letters, value: string)
    requires l.Lawful() && l.Folds()
    ensures Normalize(l, value) == Join(Words(l, Lowered(l, value)), ':')
  {
    hide Words, TrimLeft, TrimRight, Lowered;
    LoweredTrimLeft(l, value);
    LoweredTrimRight(l, TrimLeft(value, l.space));
    TrimRightWords(l, TrimLeft(Lowered(l, value), l.space));
    TrimLeftWords(l, Lowered(l, value));
    assert Words(l, Lowered(l, Trim(value, l.space))) == Words(l, Lowered(l, value));
    WordsAre(l, Lowered(l, Trim(value, l.space)));
  }

  lemma WordsAre(l: Letters, s: string)
    ensures Words(l, s) == CleanParts(l, Split(s, ':'))
  {}

  lemma LoweredParts(l: Letters, a: string, b: string)
    ensures Lowered(l, a + b) == Lowered(l, a) + Lowered(l, b)
  {}

  // ---- the laws -----------------------------------------------------------------------------------------------------

  /** Case does not matter. */
  lemma CaseIgnored(l: Letters, value: string)
    requires l.Lawful() && l.Folds()
    ensures Normalize(l, Lowered(l, value)) == Normalize(l, value)
  {
    hide Words, Join, Normalize;
    NormalizeIs(l, value);
    NormalizeIs(l, Lowered(l, value));
    assert Lowered(l, Lowered(l, value)) == Lowered(l, value);
  }

  /** Two texts with a colon between them: the normal forms with a colon between them, unless one of them is empty. */
  lemma ColonJoins(l: Letters, u: string, v: string)
    requires l.Lawful() && l.Folds()
    ensures var x, y := Normalize(l, u), Normalize(l, v);
            Normalize(l, u + ":" + v) == if x == "" then y else if y == "" then x else x + ":" + y
  {
    hide Normalize, CleanParts, Split, Join, Clean;
    NormalizeIs(l, u);
    NormalizeIs(l, v);
    NormalizeIs(l, u + ":" + v);
    LoweredParts(l, u, ":" + v);
    LoweredParts(l, ":", v);
    var a, b := Lowered(l, u), Lowered(l, v);
    assert Lowered(l, ":") == ":" && u + ":" + v == u + (":" + v) && a + (":" + b) == a + [':'] + b;
    SplitAtColon(a, b, ':');
    CleanPartsJoin(l, Split(a, ':'), Split(b, ':'));
    JoinParts(Words(l, a), Words(l, b), ':');
    WordsJoined(l, a);
    WordsJoined(l, b);
  }

  /** Only a text without words has an empty normal form. */
  lemma WordsJoined(l: Letters, s: string)
    ensures Words(l, s) == [] <==> Join(Words(l, s), ':') == ""
  {
    hide Clean;
    CleanPartsAre(l, Split(s, ':'));
    JoinNormal(Words(l, s));
  }

  /** Characters that begin or end no word, in front of a value or behind it, change nothing. */
  lemma {:induction false} JunkAround(l: Letters, x: string, value: string)
    requires l.Lawful() && l.Folds()
    requires forall k :: 0 <= k < |x| ==> !Edge(l.lower(x[k])) && l.lower(x[k]) != ':'
    ensures Normalize(l, x + value) == Normalize(l, value) && Normalize(l, value + x) == Normalize(l, value)
    decreases |x|
  {
    hide Normalize, Words, Join;
    if x == "" {
      assert x + value == value && value + x == value;
    } else {
      var n := |x| - 1;
      JunkAround(l, x[..n], value);
      var c := l.lower(x[n]);
      OneInFront(l, x[0], x[1..] + value);
      assert x + value == [x[0]] + (x[1..] + value);
      JunkAround(l, x[1..], value);
      assert value + x == (value + x[..n]) + [x[n]];
      OneBehind(l, value + x[..n], x[n]);
    }
  }

  lemma OneInFront(l: Letters, c: char, value: string)
    requires l.Lawful() && l.Folds() && !Edge(l.lower(c)) && l.lower(c) != ':'
    ensures Normalize(l, [c] + value) == Normalize(l, value)
  {
    hide Normalize, Words, Join;
    NormalizeIs(l, value);
    NormalizeIs(l, [c] + value);
    LoweredParts(l, [c], value);
    assert Lowered(l, [c]) == [l.lower(c)];
    FrontJunk(l, l.lower(c), Lowered(l, value));
  }

  lemma OneBehind(l: Letters, value: string, c: char)
    requires l.Lawful() && l.Folds() && !Edge(l.lower(c)) && l.lower(c) != ':'
    ensures Normalize(l, value + [c]) == Normalize(l, value)
  {
    hide Normalize, Words, Join;
    NormalizeIs(l, value);
    NormalizeIs(l, value + [c]);
    LoweredParts(l, value, [c]);
    assert Lowered(l, [c]) == [l.lower(c)];
    BackJunk(l, Lowered(l, value), l.lower(c));
  }

  /** A word ends here. */
  ghost predicate EndsWord(l: Letters, a: string) {
    a != "" && Edge(l.lower(a[|a| - 1]))
  }

  ghost predicate BeginsWord(l: Letters, b: string) {
    b != "" && Edge(l.lower(b[0]))
  }

  /** Characters that are not allowed, and are no colons. */
  ghost predicate Others(l: Letters, x: string) {
    x != "" && forall k :: 0 <= k < |x| ==> !Allowed(l.lower(x[k])) && l.lower(x[k]) != ':'
  }

  /** Between two words, whatever is no colon is put in the place of itself, cleaned. */
  lemma WordsAround(l: Letters, a: string, m: string, b: string)
    requires l.Lawful() && l.Folds() && EndsWord(l, a) && BeginsWord(l, b) && ':' !in Lowered(l, m)
    ensures Normalize(l, a + m + b) == Normalize(l, a) + Dashed(Lowered(l, m)) + Normalize(l, b)
  {
    hide Normalize, Words, Join, Dashed;
    NormalizeIs(l, a);
    NormalizeIs(l, b);
    NormalizeIs(l, a + m + b);
    LoweredParts(l, a, m);
    LoweredParts(l, a + m, b);
    LowerAround(l, Lowered(l, a), Lowered(l, m), Lowered(l, b));
  }

  lemma LowerAround(l: Letters, a: string, m: string, b: string)
    requires l.Lawful() && a != "" && Edge(a[|a| - 1]) && b != "" && Edge(b[0]) && ':' !in m
    ensures Join(Words(l, a + m + b), ':') == Join(Words(l, a), ':') + Dashed(m) + Join(Words(l, b), ':')
  {
    hide CleanPart, CleanParts, Split, Join, Dashed;
    var p, q := Split(a, ':'), Split(b, ':');
    var last := LastPart(a);
    var first := FirstPart(b);
    SplitAround(a, m, b);
    var mid := last + m + first;
    PartAround(l, last, m, first);
    CleanPartsJoin(l, p[..|p| - 1], [mid] + q[1..]);
    CleanPartsJoin(l, [mid], q[1..]);
    CleanPartsJoin(l, p[..|p| - 1], [last]);
    CleanPartsJoin(l, [first], q[1..]);
    CleanOne(l, mid);
    CleanOne(l, last);
    CleanOne(l, first);
    assert p == p[..|p| - 1] + [last] && q == [first] + q[1..];
    JoinAround(CleanParts(l, p[..|p| - 1]), CleanPart(l, last), Dashed(m), CleanPart(l, first), CleanParts(l, q[1..]));
  }

  /** The part that a text ends with. */
  lemma {:induction false} LastPart(a: string) returns (last: string)
    requires a != "" && a[|a| - 1] != ':'
    ensures var p := Split(a, ':'); last == p[|p| - 1] && last != "" && last[|last| - 1] == a[|a| - 1]
    decreases |a|
  {
    hide Split;
    var head, tail := SplitShape(a);
    if head == a {
      last := a;
    } else {
      last := LastPart(tail);
    }
  }

  lemma FirstPart(b: string) returns (first: string)
    requires b != "" && b[0] != ':'
    ensures first == Split(b, ':')[0] && first != "" && first[0] == b[0]
  {
    hide Split;
    var head, tail := SplitShape(b);
    first := head;
  }

  /** The parts of two texts that are joined without a colon: the last and the first become one. */
  lemma {:induction false} SplitAround(a: string, m: string, b: string)
    requires ':' !in m
    ensures var p, q := Split(a, ':'), Split(b, ':');
            Split(a + m + b, ':') == p[..|p| - 1] + ([p[|p| - 1] + m + q[0]] + q[1..])
    decreases |a|
  {
    hide Split;
    var head, tail := SplitShape(a);
    if head == a {
      SplitWord(a, ':');
      SplitInto(a + m, b);
    } else {
      assert a + m + b == head + [':'] + (tail + m + b);
      SplitHead(head, tail + m + b, ':');
      SplitAround(tail, m, b);
    }
  }

  lemma SplitInto(word: string, b: string)
    requires ':' !in word
    ensures Split(word + b, ':') == [word + Split(b, ':')[0]] + Split(b, ':')[1..]
  {
    hide Split;
    var head, tail := SplitShape(b);
    if head == b {
      SplitWord(b, ':');
      SplitWord(word + b, ':');
    } else {
      assert word + b == (word + head) + [':'] + tail;
      SplitHead(word + head, tail, ':');
    }
  }

  lemma {:induction false} JoinAround(x: seq<string>, a: string, m: string, b: string, y: seq<string>)
    ensures Join(x + ([a + m + b] + y), ':') == Join(x + [a], ':') + m + Join([b] + y, ':')
  {
    hide Join;
    JoinParts(x, [a + m + b] + y, ':');
    JoinParts(x, [a], ':');
    JoinParts([a + m + b], y, ':');
    JoinParts([b], y, ':');
    JoinOne(a + m + b);
    JoinOne(a);
    JoinOne(b);
  }

  lemma JoinOne(s: string)
    ensures Join([s], ':') == s
  {}

  /** A run of other characters between words becomes one dash. */
  lemma RunBecomesDash(l: Letters, a: string, x: string, b: string)
    requires l.Lawful() && l.Folds() && EndsWord(l, a) && BeginsWord(l, b) && Others(l, x)
    ensures Normalize(l, a + x + b) == Normalize(l, a) + "-" + Normalize(l, b)
  {
    hide Normalize, Dashed;
    WordsAround(l, a, x, b);
    DashedRun(Lowered(l, x));
  }

  /** Dashes between words stay as they are, also beside such a run; and words without anything between them are one. */
  lemma DashesStay(l: Letters, a: string, d: string, x: string, e: string, b: string)
    requires l.Lawful() && l.Folds() && EndsWord(l, a) && BeginsWord(l, b) && (x == "" || Others(l, x))
    requires forall k :: 0 <= k < |d| ==> d[k] == '-'
    requires forall k :: 0 <= k < |e| ==> e[k] == '-'
    ensures Normalize(l, a + (d + x + e) + b) == Normalize(l, a) + (d + (if x == "" then "" else "-") + e) + Normalize(l, b)
  {
    hide Normalize, Dashed;
    LoweredParts(l, d, x);
    LoweredParts(l, d + x, e);
    assert Lowered(l, d) == d && Lowered(l, e) == e;
    WordsAround(l, a, d + x + e, b);
    DashedKeeps(d);
    DashedKeeps(e);
    var y := Lowered(l, x);
    if x == "" {
      assert y == "" && d + y + e == d + e;
      DashedParts(d, e);
    } else {
      DashedRun(y);
      DashedParts(d, y);
      DashedParts(d + y, e);
    }
  }
}
