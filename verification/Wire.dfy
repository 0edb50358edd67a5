/**
 * The Protocol Buffers wire format: base-128 varints, tagged fields, and the loop that reads the fields of a message.
 * Reading works on the whole input at a position, as the reader of the source does.
 */
module Wire {
  import opened Bytes
  import opened Telemetry

  const TWO_TO_32: nat := 0x1_0000_0000
  const TWO_TO_64: nat := 0x1_0000_0000_0000_0000

  /** A value read and the position after it, or the exception that ends the decoding. */
  datatype Read<+T> = Fault | Got(value: T, next: nat)

  ghost predicate At(s: seq<byte>, pos: nat, part: seq<byte>) {
    pos + |part| <= |s| && s[pos..pos + |part|] == part
  }

  lemma AtParts(s: seq<byte>, pos: nat, a: seq<byte>, b: seq<byte>)
    requires At(s, pos, a + b)
    ensures At(s, pos, a) && At(s, pos + |a|, b)
  {
    Overlay(s, pos, a + b, |a + b|, 0, |a|);
    Overlay(s, pos, a + b, |a + b|, |a|, |a + b|);
    assert (a + b)[..|a|] == a && (a + b)[|a|..] == b;
    assert (a + b)[0..|a|] == a && (a + b)[|a|..|a + b|] == b;
  }

  /** Seven bits a byte, low bits first; the high bit says that more follow. */
  function Base128(n: nat): (s: seq<byte>)
    ensures |s| >= 1
  {
    if n < 128 then [n] else [n % 128 + 128] + Base128(n / 128)
  }

  function VarintFrom(s: seq<byte>, pos: nat, most: nat): (r: Read<nat>)
    ensures r.Got? ==> pos < r.next <= |s|
    decreases most
  {
    if most == 0 || pos >= |s| then Fault
    else if s[pos] < 128 then Got(s[pos], pos + 1)
    else
      match VarintFrom(s, pos + 1, most - 1)
      case Fault => Fault
      case Got(rest, next) => Got(s[pos] - 128 + 128 * rest, next)
  }

  /** `uint32`: a varint of at most ten bytes, its low 32 bits. */
  function Uint32(s: seq<byte>, pos: nat): (r: Read<nat>)
    ensures r.Got? ==> pos < r.next <= |s|
  {
    match VarintFrom(s, pos, 10)
    case Fault => Fault
    case Got(n, next) => Got(n % TWO_TO_32, next)
  }

  function Uint64(s: seq<byte>, pos: nat): (r: Read<nat>)
    ensures r.Got? ==> pos < r.next <= |s|
  {
    match VarintFrom(s, pos, 10)
    case Fault => Fault
    case Got(n, next) => Got(n % TWO_TO_64, next)
  }

  /** The next `size` bytes. */
  function Slice(s: seq<byte>, pos: nat, size: nat): (r: Read<seq<byte>>)
    ensures r.Got? ==> r.next == pos + size <= |s| && |r.value| == size
  {
    if pos + size <= |s| then Got(s[pos..pos + size], pos + size) else Fault
  }

  /** A length and that many bytes. */
  function Chunk(s: seq<byte>, pos: nat): (r: Read<seq<byte>>)
    ensures r.Got? ==> pos < r.next <= |s|
  {
    match Uint32(s, pos)
    case Fault => Fault
    case Got(size, next) => Slice(s, next, size)
  }

  lemma {:induction false} VarintRead(s: seq<byte>, pos: nat, n: nat, most: nat)
    requires At(s, pos, Base128(n)) && |Base128(n)| <= most
    ensures VarintFrom(s, pos, most) == Got(n, pos + |Base128(n)|)
    decreases n
  {
    AtParts(s, pos, [Base128(n)[0]], Base128(n)[1..]) by {
      assert [Base128(n)[0]] + Base128(n)[1..] == Base128(n);
    }
    assert s[pos] == Base128(n)[0];
    if n >= 128 {
      assert Base128(n)[1..] == Base128(n / 128);
      VarintRead(s, pos + 1, n / 128, most - 1);
    }
  }

  /** 128 to the power `k`. */
  function Sevens(k: nat): (r: nat)
    ensures r >= 1
  {
    if k == 0 then 1 else 128 * Sevens(k - 1)
  }

  lemma {:induction false} VarintSize(n: nat, k: nat)
    requires k >= 1 && n < Sevens(k)
    ensures |Base128(n)| <= k
  {
    if n >= 128 {
      assert n / 128 < Sevens(k - 1);
      VarintSize(n / 128, k - 1);
    }
  }

  /** Every 64-bit number fits the ten bytes that a reader accepts. */
  lemma Uint64RoundTrip(s: seq<byte>, pos: nat, n: nat)
    requires n < TWO_TO_64 && At(s, pos, Base128(n))
    ensures VarintFrom(s, pos, 10) == Got(n, pos + |Base128(n)|)
    ensures Uint64(s, pos) == Got(n, pos + |Base128(n)|)
  {
    Below(n, TWO_TO_64);
    assert Sevens(5) == 0x8_0000_0000;
    assert Sevens(10) == Sevens(5) * Sevens(5) by {
      assert Sevens(10) == 128 * (128 * (128 * (128 * (128 * Sevens(5)))));
    }
    VarintSize(n, 10);
    VarintRead(s, pos, n, 10);
  }

  lemma Below(n: nat, m: nat)
    requires n < m
    ensures n % m == n
  {}

  lemma Uint32RoundTrip(s: seq<byte>, pos: nat, n: nat)
    requires n < TWO_TO_32 && At(s, pos, Base128(n))
    ensures Uint32(s, pos) == Got(n, pos + |Base128(n)|)
  {
    hide Base128;
    Uint64RoundTrip(s, pos, n);
    Below(n, TWO_TO_32);
  }

  /** `bytes` and `string` fields, and nested messages: the length, then the content. */
  function Delimited(content: seq<byte>): (s: seq<byte>)
    ensures |s| > |content|
  {
    Base128(|content|) + content
  }

  lemma ChunkRoundTrip(s: seq<byte>, pos: nat, content: seq<byte>)
    requires |content| < TWO_TO_32 && At(s, pos, Delimited(content))
    ensures Uint32(s, pos) == Got(|content|, pos + |Base128(|content|)|)
    ensures At(s, pos + |Base128(|content|)|, content)
    ensures Chunk(s, pos) == Got(content, pos + |Delimited(content)|)
  {
    hide Base128, VarintFrom, Uint32;
    AtParts(s, pos, Base128(|content|), content);
    Uint32RoundTrip(s, pos, |content|);
  }

  // --- Fields of any kind, as another version of the protocol may send them.

  datatype Value = Whole(n: nat) | Eight(bytes: seq<byte>) | Bytes(content: seq<byte>) | Group(fields: seq<Field>) | Four(bytes: seq<byte>)

  datatype Field = Field(number: nat, value: Value)

  function WireType(v: Value): nat {
    match v
    case Whole(_) => 0
    case Eight(_) => 1
    case Bytes(_) => 2
    case Group(_) => 3
    case Four(_) => 5
  }

  predicate Sendable(f: Field)
    decreases f, 0
  {
    && 8 * f.number + 7 < TWO_TO_32
    && match f.value {
         case Whole(n) => n < TWO_TO_64
         case Eight(bytes) => |bytes| == 8
         case Bytes(content) => |content| < TWO_TO_32
         case Group(fields) => forall k :: 0 <= k < |fields| ==> Sendable(fields[k])
         case Four(bytes) => |bytes| == 4
       }
  }

  function Print(f: Field): (s: seq<byte>)
    ensures |s| >= 1
    decreases f, 0
  {
    Base128(8 * f.number + WireType(f.value)) + Body(f.value, f.number)
  }

  /** What follows the tag; a group ends with a tag of its own. */
  function Body(v: Value, number: nat): seq<byte>
    decreases v, 1
  {
    match v
    case Whole(n) => Base128(n)
    case Eight(bytes) => bytes
    case Bytes(content) => Delimited(content)
    case Group(fields) => PrintAll(fields) + Base128(8 * number + 4)
    case Four(bytes) => bytes
  }

  function PrintAll(fields: seq<Field>): seq<byte>
    decreases fields, 0
  {
    if fields == [] then [] else Print(fields[0]) + PrintAll(fields[1..])
  }

  /** `skipType`: the position after a value of that wire type. */
  function Skip(s: seq<byte>, pos: nat, wireType: nat): (r: Option<nat>)
    ensures r.Some? ==> pos <= r.value && (pos <= |s| ==> r.value <= |s|)
    decreases if pos <= |s| then |s| - pos else 0, 1
  {
    if wireType == 0 then Next(VarintFrom(s, pos, 10))
    else if wireType == 1 then Next(Slice(s, pos, 8))
    else if wireType == 2 then Next(Chunk(s, pos))
    else if wireType == 3 then SkipGroup(s, pos)
    else if wireType == 5 then Next(Slice(s, pos, 4))
    else None
  }

  function Next<T>(r: Read<T>): Option<nat> {
    match r
    case Fault => None
    case Got(_, next) => Some(next)
  }

  function SkipGroup(s: seq<byte>, pos: nat): (r: Option<nat>)
    ensures r.Some? ==> pos <= r.value <= |s|
    decreases if pos <= |s| then |s| - pos else 0, 0
  {
    match Uint32(s, pos)
    case Fault => None
    case Got(tag, next) =>
      if tag % 8 == 4 then Some(next)
      else
        match Skip(s, next, tag % 8)
        case None => None
        case Some(after) => SkipGroup(s, after)
  }

  /** The reader skips exactly what follows the tag of a field, groups included. */
  lemma {:induction false} SkipBody(s: seq<byte>, pos: nat, f: Field)
    requires Sendable(f) && At(s, pos, Body(f.value, f.number))
    ensures Skip(s, pos, WireType(f.value)) == Some(pos + |Body(f.value, f.number)|)
    decreases f, 0
  {
    hide Base128, VarintFrom, PrintAll, SkipGroup;
    match f.value
    case Whole(n) => Uint64RoundTrip(s, pos, n);
    case Eight(_) =>
    case Bytes(content) => ChunkRoundTrip(s, pos, content);
    case Group(fields) => SkipFields(s, pos, fields, f.number);
    case Four(_) =>
  }

  /** The first field of a group, up to the next tag. */
  lemma SkipOne(s: seq<byte>, pos: nat, fields: seq<Field>, last: seq<byte>)
    requires fields != [] && Sendable(fields[0]) && At(s, pos, PrintAll(fields) + last)
    ensures At(s, pos + |Print(fields[0])|, PrintAll(fields[1..]) + last)
    ensures SkipGroup(s, pos) == SkipGroup(s, pos + |Print(fields[0])|)
    ensures |PrintAll(fields) + last| == |Print(fields[0])| + |PrintAll(fields[1..]) + last|
    decreases fields, 1
  {
    hide Base128, VarintFrom, Uint32, Body, Skip;
    var f := fields[0];
    var tag, body, rest := 8 * f.number + WireType(f.value), Body(f.value, f.number), PrintAll(fields[1..]) + last;
    assert PrintAll(fields) + last == Base128(tag) + (body + rest);
    AtParts(s, pos, Base128(tag), body + rest);
    AtParts(s, pos + |Base128(tag)|, body, rest);
    Uint32RoundTrip(s, pos, tag);
    SkipBody(s, pos + |Base128(tag)|, f);
  }

  lemma {:induction false} SkipFields(s: seq<byte>, pos: nat, fields: seq<Field>, number: nat)
    requires 8 * number + 7 < TWO_TO_32 && At(s, pos, PrintAll(fields) + Base128(8 * number + 4))
    requires forall k :: 0 <= k < |fields| ==> Sendable(fields[k])
    ensures SkipGroup(s, pos) == Some(pos + |PrintAll(fields) + Base128(8 * number + 4)|)
    decreases fields, 2
  {
    hide Base128, VarintFrom, Uint32, Body, Skip;
    var last := Base128(8 * number + 4);
    if fields == [] {
      assert PrintAll(fields) + last == last;
      Uint32RoundTrip(s, pos, 8 * number + 4);
    } else {
      SkipOne(s, pos, fields, last);
      SkipFields(s, pos + |Print(fields[0])|, fields[1..], number);
    }
  }

  // --- The loop that reads a message.

  /** One turn: a tag, then whatever the decoder does with it. The decoder moves forward, within the input. */
  function Turn<S>(take: (seq<byte>, nat, nat, S) -> Read<S>, s: seq<byte>, pos: nat, state: S): (r: Read<S>)
    ensures r.Got? ==> pos < r.next <= |s|
  {
    match Uint32(s, pos)
    case Fault => Fault
    case Got(tag, next) =>
      var r := take(s, tag, next, state);
      if r.Got? && next <= r.next <= |s| then r else Fault
  }

  /** Turns until the position reaches `end`, which the last field may overrun. */
  function Message<S>(take: (seq<byte>, nat, nat, S) -> Read<S>, s: seq<byte>, pos: nat, end: nat, state: S): (r: Read<S>)
    ensures r.Got? ==> pos <= r.next && (pos <= |s| ==> r.next <= |s|)
    decreases if pos <= |s| then |s| - pos else 0
  {
    if pos >= end then Got(state, pos)
    else
      match Turn(take, s, pos, state)
      case Fault => Fault
      case Got(state', next) => Message(take, s, next, end, state')
  }

  /** Wherever these bytes stand within a message, reading them takes the decoder from one state to the other. */
  ghost predicate Carries<S(!new)>(take: (seq<byte>, nat, nat, S) -> Read<S>, part: seq<byte>, a: S, b: S) {
    forall s: seq<byte>, pos: nat, end: nat :: At(s, pos, part) && pos + |part| <= end ==>
      Message(take, s, pos, end, a) == Message(take, s, pos + |part|, end, b)
  }

  lemma CarriesNothing<S(!new)>(take: (seq<byte>, nat, nat, S) -> Read<S>, a: S)
    ensures Carries(take, [], a, a)
  {}

  lemma CarriesBoth<S(!new)>(take: (seq<byte>, nat, nat, S) -> Read<S>, p: seq<byte>, q: seq<byte>, a: S, b: S, d: S)
    requires Carries(take, p, a, b) && Carries(take, q, b, d)
    ensures Carries(take, p + q, a, d)
  {
    forall s: seq<byte>, pos: nat, end: nat | At(s, pos, p + q) && pos + |p + q| <= end
      ensures Message(take, s, pos, end, a) == Message(take, s, pos + |p + q|, end, d)
    {
      AtParts(s, pos, p, q);
      assert pos + |p + q| == pos + |p| + |q|;
    }
  }

  /** A whole message: the loop stops exactly at its end. */
  lemma CarriesAll<S(!new)>(take: (seq<byte>, nat, nat, S) -> Read<S>, part: seq<byte>, a: S, b: S, s: seq<byte>, pos: nat)
    requires Carries(take, part, a, b) && At(s, pos, part)
    ensures Message(take, s, pos, pos + |part|, a) == Got(b, pos + |part|)
  {}

  /** The decoder ignores a field it does not know. */
  ghost predicate Skips<S(!new)>(take: (seq<byte>, nat, nat, S) -> Read<S>, known: nat) {
    forall s: seq<byte>, tag: nat, pos: nat, state: S :: tag / 8 == 0 || tag / 8 > known ==>
      take(s, tag, pos, state) == (match Skip(s, pos, tag % 8) case None => Fault case Some(next) => Got(state, next))
  }

  ghost predicate Foreign(fields: seq<Field>, known: nat) {
    forall k :: 0 <= k < |fields| ==> Sendable(fields[k]) && (fields[k].number == 0 || fields[k].number > known)
  }

  /** One tagged field that the decoder takes. */
  lemma CarriesField<S(!new)>(take: (seq<byte>, nat, nat, S) -> Read<S>, tag: nat, body: seq<byte>, a: S, b: S)
    requires tag < TWO_TO_32
    requires forall s: seq<byte>, pos: nat :: At(s, pos, body) ==> take(s, tag, pos, a) == Got(b, pos + |body|)
    ensures Carries(take, Base128(tag) + body, a, b)
  {
    forall s: seq<byte>, pos: nat, end: nat | At(s, pos, Base128(tag) + body) && pos + |Base128(tag) + body| <= end
      ensures Message(take, s, pos, end, a) == Message(take, s, pos + |Base128(tag) + body|, end, b)
    {
      AtParts(s, pos, Base128(tag), body);
      Uint32RoundTrip(s, pos, tag);
      assert Turn(take, s, pos, a) == Got(b, pos + |Base128(tag)| + |body|);
    }
  }

  /** Unknown fields leave the decoder where it was. */
  lemma {:induction false} ForeignIgnored<S(!new)>(
    take: (seq<byte>, nat, nat, S) -> Read<S>, known: nat, fields: seq<Field>, a: S)
    requires Skips(take, known) && Foreign(fields, known)
    ensures Carries(take, PrintAll(fields), a, a)
  {
    if fields != [] {
      var f := fields[0];
      var tag, body := 8 * f.number + WireType(f.value), Body(f.value, f.number);
      assert tag / 8 == f.number && tag % 8 == WireType(f.value);
      forall s: seq<byte>, pos: nat | At(s, pos, body) ensures take(s, tag, pos, a) == Got(a, pos + |body|) {
        SkipBody(s, pos, f);
      }
      CarriesField(take, tag, body, a, a);
      ForeignIgnored(take, known, fields[1..], a);
      CarriesBoth(take, Print(f), PrintAll(fields[1..]), a, a, a);
    } else {
      CarriesNothing(take, a);
    }
  }
}
