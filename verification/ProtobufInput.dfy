/**
 * What the decoder makes of inputs that no encoder of this version wrote: fields of the envelope missing, repeated or in
 * another order, and messages that are cut off or not well formed.
 */
module ProtobufInput {
  import opened Bytes
  import opened Telemetry
  import opened Wire
  import opened Protobuf

  // --- Any fields of the envelope, in any order.

  /** A field of the envelope. */
  datatype Piece = Speaks(version: string) | Brings(payload: Payload)

  function PieceBytes(p: Platform, pad: Padding, place: seq<nat>, piece: Piece): seq<byte> {
    match piece
    case Speaks(version) => StringField(p, 10, version)
    case Brings(payload) => PayloadPart(p, pad, place, payload)
  }

  function PieceParts(p: Platform, pad: Padding, pieces: seq<Piece>): seq<seq<byte>> {
    seq(|pieces|, i requires 0 <= i < |pieces| => PieceBytes(p, pad, [i], pieces[i]))
  }

  /** These fields, with foreign fields between them and at every level below. */
  function PiecesBytes(p: Platform, pad: Padding, pieces: seq<Piece>): seq<byte> {
    Woven(pad, OfEnvelope, [], PieceParts(p, pad, pieces))
  }

  function After(a: Top, piece: Piece): Top {
    match piece
    case Speaks(version) => a.(protocolVersion := version)
    case Brings(Spans(batch)) => a.(batch := Some(NormalBatch(batch)))
    case Brings(Runtime(metrics)) => a.(metrics := Some(NormalMetrics(metrics)))
  }

  function AfterAll(pieces: seq<Piece>): Top {
    if pieces == [] then NO_TOP else After(AfterAll(pieces[..|pieces| - 1]), pieces[|pieces| - 1])
  }

  lemma BatchPiece(p: Platform, pad: Padding, place: seq<nat>, batch: Batch, a: Top)
    requires Sound(p) && Harmless(pad) && |BatchBytes(p, pad, place, batch)| < TWO_TO_32
    ensures Carries(TopTake(p), Tagged(18, Delimited(BatchBytes(p, pad, place, batch))), a, a.(batch := Some(NormalBatch(batch))))
  {
    hide Carries, Message, Base128, Chunk, Slice, Uint32, BatchBytes, BatchTake, NormalBatch, BatchOf;
    var take, content, b := TopTake(p), BatchBytes(p, pad, place, batch), a.(batch := Some(NormalBatch(batch)));
    var read := BatchCarries(p, pad, place, batch);
    forall s: seq<byte>, pos: nat | At(s, pos, Delimited(content)) ensures take(s, 18, pos, a) == Got(b, pos + |Delimited(content)|) {
      NestedRead(BatchTake(p), content, NO_BATCH, read, s, pos);
    }
    CarriesField(take, 18, Delimited(content), a, b);
  }

  lemma MetricsPiece(p: Platform, pad: Padding, place: seq<nat>, m: Metrics, a: Top)
    requires Sound(p) && Harmless(pad) && |MetricsBytes(p, pad, place, m)| < TWO_TO_32
    ensures Carries(TopTake(p), Tagged(26, Delimited(MetricsBytes(p, pad, place, m))), a, a.(metrics := Some(NormalMetrics(m))))
  {
    hide Carries, Message, Base128, Chunk, Slice, Uint32, MetricsBytes, MetricsTake, NormalMetrics;
    var take, content, b := TopTake(p), MetricsBytes(p, pad, place, m), a.(metrics := Some(NormalMetrics(m)));
    MetricsCarries(p, pad, place, m);
    forall s: seq<byte>, pos: nat | At(s, pos, Delimited(content)) ensures take(s, 26, pos, a) == Got(b, pos + |Delimited(content)|) {
      NestedRead(MetricsTake(p), content, NO_METRICS, NormalMetrics(m), s, pos);
    }
    CarriesField(take, 26, Delimited(content), a, b);
  }

  lemma VersionPiece(p: Platform, version: string, a: Top)
    requires Sound(p) && |p.utf8(version)| < TWO_TO_32
    ensures Carries(TopTake(p), StringField(p, 10, version), a, a.(protocolVersion := version))
  {
    hide Carries, Message, Base128, Chunk, Slice, Uint32;
    var take, body, b := TopTake(p), Delimited(p.utf8(version)), a.(protocolVersion := version);
    forall s: seq<byte>, pos: nat | At(s, pos, body) ensures take(s, 10, pos, a) == Got(b, pos + |body|) {
      StringRead(p, version, s, pos);
    }
    CarriesField(take, 10, body, a, b);
  }

  lemma PieceCarries(p: Platform, pad: Padding, place: seq<nat>, piece: Piece, a: Top)
    requires Sound(p) && Harmless(pad) && |PieceBytes(p, pad, place, piece)| < TWO_TO_32
    ensures Carries(TopTake(p), PieceBytes(p, pad, place, piece), a, After(a, piece))
  {
    hide Carries, Base128, BatchBytes, MetricsBytes, NormalBatch, NormalMetrics, TopTake;
    match piece
    case Speaks(version) => VersionPiece(p, version, a);
    case Brings(Spans(batch)) => BatchPiece(p, pad, place, batch, a);
    case Brings(Runtime(m)) => MetricsPiece(p, pad, place, m, a);
  }

  lemma PiecesCarry(p: Platform, pad: Padding, pieces: seq<Piece>)
    requires Sound(p) && Harmless(pad) && |PiecesBytes(p, pad, pieces)| < TWO_TO_32
    ensures Carries(TopTake(p), PiecesBytes(p, pad, pieces), NO_TOP, AfterAll(pieces))
  {
    hide Carries, PrintAll, Message, TopTake, Weave, PieceBytes, After;
    var parts := PieceParts(p, pad, pieces);
    var states := seq(|pieces| + 1, i requires 0 <= i <= |pieces| => AfterAll(pieces[..i]));
    forall i: nat | i < |parts| ensures Leads(TopTake(p), parts, states, i) {
      PartFits(pad, OfEnvelope, [], parts, 0, i);
      PieceCarries(p, pad, [i], pieces[i], states[i]);
      assert pieces[..i + 1][..i] == pieces[..i] && pieces[..i + 1][i] == pieces[i];
    }
    TopSkips(p);
    WeaveCarries(TopTake(p), pad, OfEnvelope, [], parts, states, 0);
    assert pieces[..0] == [] && pieces[..|pieces|] == pieces;
  }

  /** The last field that gives a version gives this one; without such a field it is empty. */
  ghost predicate SpeaksLast(pieces: seq<Piece>, version: string) {
    || (version == "" && forall k :: 0 <= k < |pieces| ==> pieces[k].Brings?)
    || exists k :: 0 <= k < |pieces| && pieces[k] == Speaks(version) && forall j :: k < j < |pieces| ==> pieces[j].Brings?
  }

  ghost predicate HasSpans(pieces: seq<Piece>) {
    exists k :: 0 <= k < |pieces| && pieces[k].Brings? && pieces[k].payload.Spans?
  }

  ghost predicate HasRuntime(pieces: seq<Piece>) {
    exists k :: 0 <= k < |pieces| && pieces[k].Brings? && pieces[k].payload.Runtime?
  }

  /** The last payload. */
  ghost predicate BringsLast(pieces: seq<Piece>, k: nat) {
    k < |pieces| && pieces[k].Brings? && forall j :: k < j < |pieces| ==> pieces[j].Speaks?
  }

  lemma {:induction false} AfterAllIs(pieces: seq<Piece>)
    ensures SpeaksLast(pieces, AfterAll(pieces).protocolVersion)
    ensures AfterAll(pieces).batch.Some? <==> HasSpans(pieces)
    ensures AfterAll(pieces).metrics.Some? <==> HasRuntime(pieces)
    ensures forall k: nat :: BringsLast(pieces, k) ==>
      match pieces[k].payload
      case Spans(batch) => AfterAll(pieces).batch == Some(NormalBatch(batch))
      case Runtime(m) => AfterAll(pieces).metrics == Some(NormalMetrics(m))
  {
    hide NormalBatch, NormalMetrics;
    if pieces != [] {
      var n := |pieces| - 1;
      var init := pieces[..n];
      AfterAllIs(init);
      assert pieces == init + [pieces[n]];
      forall k: nat | BringsLast(pieces, k) && k < n ensures BringsLast(init, k) {}
    }
  }

  lemma {:induction false} LastPayload(pieces: seq<Piece>) returns (k: nat)
    requires exists i :: 0 <= i < |pieces| && pieces[i].Brings?
    ensures BringsLast(pieces, k)
  {
    k := |pieces| - 1;
    if pieces[k].Speaks? {
      var init := pieces[..k];
      k := LastPayload(init);
      assert pieces[k] == init[k];
    }
  }

  /**
   * What an envelope of these fields means: its version is the last one given, and it is refused unless that is the
   * supported one; its payload is the last one given, and it is refused unless all payloads are of the same sort and there is one.
   */
  lemma PiecesDecoded(p: Platform, pad: Padding, pieces: seq<Piece>, version: string)
    requires Sound(p) && Harmless(pad) && |PiecesBytes(p, pad, pieces)| < TWO_TO_32 && SpeaksLast(pieces, version)
    ensures var r := Decoded(p, PiecesBytes(p, pad, pieces));
            if version != VERSION then r == Err(UnsupportedVersion)
            else if HasSpans(pieces) == HasRuntime(pieces) then r == Err(NotOnePayload)
            else exists k: nat :: BringsLast(pieces, k) && r == Ok(Normal(WireEnvelope(VERSION, pieces[k].payload)))
  {
    hide Carries, Message, PiecesBytes, TopTake, NormalBatch, NormalMetrics, AfterAll;
    var s := PiecesBytes(p, pad, pieces);
    PiecesCarry(p, pad, pieces);
    CarriesAll(TopTake(p), s, NO_TOP, AfterAll(pieces), s, 0);
    AfterAllIs(pieces);
    if version == VERSION && HasSpans(pieces) != HasRuntime(pieces) {
      var k := LastPayload(pieces);
      assert Decoded(p, s) == Ok(Normal(WireEnvelope(VERSION, pieces[k].payload)));
    }
  }

  // --- Messages cut off.

  lemma {:induction false} VarintCut(s: seq<byte>, pos: nat, n: nat, k: nat, most: nat)
    requires k < |Base128(n)| && pos + k == |s| && s[pos..] == Base128(n)[..k]
    ensures VarintFrom(s, pos, most) == Fault
    decreases n
  {
    if k > 0 && most > 0 {
      assert s[pos] == s[pos..][0] == n % 128 + 128;
      assert s[pos + 1..] == s[pos..][1..] == Base128(n / 128)[..k - 1];
      VarintCut(s, pos + 1, n / 128, k - 1, most - 1);
    }
  }

  /** A message whose end lies behind the end of the input is not read. */
  lemma BeyondFaults<S>(take: (seq<byte>, nat, nat, S) -> Read<S>, s: seq<byte>, pos: nat, end: nat, state: S)
    requires pos <= |s| < end
    ensures Message(take, s, pos, end, state) == Fault
  {
    var r := Message(take, s, pos, end, state);
    if r.Got? { MessageEnds(take, s, pos, end, state); }
  }

  lemma {:induction false} MessageEnds<S>(take: (seq<byte>, nat, nat, S) -> Read<S>, s: seq<byte>, pos: nat, end: nat, state: S)
    requires pos <= |s| && Message(take, s, pos, end, state).Got?
    ensures end <= Message(take, s, pos, end, state).next
    decreases |s| - pos
  {
    if pos < end {
      var turn := Turn(take, s, pos, state);
      MessageEnds(take, s, turn.next, end, turn.value);
    }
  }

  /** A length, and less than that many bytes. */
  lemma ChunkCut(s: seq<byte>, pos: nat, content: seq<byte>, k: nat)
    requires |content| < TWO_TO_32 && k < |Delimited(content)| && pos + k == |s| && s[pos..] == Delimited(content)[..k]
    ensures match Uint32(s, pos) case Fault => true case Got(size, next) => next <= |s| < next + size
  {
    hide Base128, VarintFrom;
    var length := Base128(|content|);
    if k < |length| {
      assert s[pos..] == length[..k];
      VarintCut(s, pos, |content|, k, 10);
    } else {
      assert s[pos..pos + |length|] == s[pos..][..|length|] == length;
      assert At(s, pos, length);
      Uint32RoundTrip(s, pos, |content|);
    }
  }

  /** A field of the envelope that is cut off is not taken. */
  lemma FieldCut(p: Platform, s: seq<byte>, pos: nat, tag: nat, content: seq<byte>, k: nat, state: Top)
    requires tag in {10, 18, 26} && |content| < TWO_TO_32
    requires 0 < k < |Tagged(tag, Delimited(content))| && pos + k == |s| && s[pos..] == Tagged(tag, Delimited(content))[..k]
    ensures Turn(TopTake(p), s, pos, state) == Fault
  {
    hide VarintFrom, BatchTake, MetricsTake, Message, Delimited;
    var body := Delimited(content);
    assert Base128(tag) == [tag] && Tagged(tag, body) == [tag] + body;
    assert s[pos..][0] == tag;
    assert At(s, pos, Base128(tag));
    Uint32RoundTrip(s, pos, tag);
    assert s[pos + 1..] == s[pos..][1..] == body[..k - 1];
    ChunkCut(s, pos + 1, content, k - 1);
    match Uint32(s, pos + 1)
    case Fault =>
    case Got(size, next) =>
      BeyondFaults(BatchTake(p), s, next, next + size, NO_BATCH);
      BeyondFaults(MetricsTake(p), s, next, next + size, NO_METRICS);
  }

  lemma BareBytes(p: Platform, e: WireEnvelope)
    ensures EnvelopeBytes(p, Bare(), e) == StringField(p, 10, e.protocolVersion) + PayloadPart(p, Bare(), [1], e.payload)
  {
    hide StringField, PayloadPart;
    var parts := EnvelopeParts(p, Bare(), e);
    assert PrintAll([]) == [];
    assert Weave(Bare(), OfEnvelope, [], parts, 2) == [];
    assert Weave(Bare(), OfEnvelope, [], parts, 1) == parts[1];
    assert Weave(Bare(), OfEnvelope, [], parts, 0) == parts[0] + parts[1];
  }

  /** No proper prefix of an encoded envelope is accepted: a message that was cut off is never taken for a shorter one. */
  lemma PrefixRefused(p: Platform, e: WireEnvelope, k: nat)
    requires Sound(p) && |EnvelopeBytes(p, Bare(), e)| < TWO_TO_32 && k < |EnvelopeBytes(p, Bare(), e)|
    ensures Decoded(p, EnvelopeBytes(p, Bare(), e)[..k]).Err?
  {
    hide EnvelopeBytes, Message, Turn, TopTake, Delimited, BatchBytes, MetricsBytes, Base128, Carries;
    BareBytes(p, e);
    var first, second := StringField(p, 10, e.protocolVersion), PayloadPart(p, Bare(), [1], e.payload);
    var s := (first + second)[..k];
    if k == 0 {
      EmptyMessage(TopTake(p), s, 0, NO_TOP);
    } else if k < |first| {
      assert s[0..] == first[..k];
      FieldCut(p, s, 0, 10, p.utf8(e.protocolVersion), k, NO_TOP);
      TurnFaults(TopTake(p), s, 0, k, NO_TOP);
    } else {
      VersionRead(p, e.protocolVersion, s);
      var top := NO_TOP.(protocolVersion := e.protocolVersion);
      if k == |first| {
        EmptyMessage(TopTake(p), s, k, top);
      } else {
        assert s[|first|..] == second[..k - |first|];
        PayloadCut(p, s, |first|, e.payload, k - |first|, top);
        TurnFaults(TopTake(p), s, |first|, k, top);
      }
    }
  }

  lemma EmptyMessage<S>(take: (seq<byte>, nat, nat, S) -> Read<S>, s: seq<byte>, pos: nat, state: S)
    ensures Message(take, s, pos, pos, state) == Got(state, pos)
  {}

  lemma TurnFaults<S>(take: (seq<byte>, nat, nat, S) -> Read<S>, s: seq<byte>, pos: nat, end: nat, state: S)
    requires pos < end && Turn(take, s, pos, state) == Fault
    ensures Message(take, s, pos, end, state) == Fault
  {}

  lemma VersionRead(p: Platform, version: string, s: seq<byte>)
    requires Sound(p) && |p.utf8(version)| < TWO_TO_32
    requires var first := StringField(p, 10, version); |first| <= |s| && s[..|first|] == first
    ensures Message(TopTake(p), s, 0, |s|, NO_TOP)
         == Message(TopTake(p), s, |StringField(p, 10, version)|, |s|, NO_TOP.(protocolVersion := version))
  {
    hide StringField, Message, TopTake;
    VersionPiece(p, version, NO_TOP);
    assert At(s, 0, StringField(p, 10, version));
  }

  lemma PayloadCut(p: Platform, s: seq<byte>, pos: nat, payload: Payload, k: nat, state: Top)
    requires |PayloadPart(p, Bare(), [1], payload)| < TWO_TO_32 && 0 < k < |PayloadPart(p, Bare(), [1], payload)|
    requires pos + k == |s| && s[pos..] == PayloadPart(p, Bare(), [1], payload)[..k]
    ensures Turn(TopTake(p), s, pos, state) == Fault
  {
    hide BatchBytes, MetricsBytes, TopTake, Turn, Base128;
    match payload
    case Spans(batch) => FieldCut(p, s, pos, 18, BatchBytes(p, Bare(), [1], batch), k, state);
    case Runtime(m) => FieldCut(p, s, pos, 26, MetricsBytes(p, Bare(), [1], m), k, state);
  }

  /** Wire types that do not exist, and the end of a group that was not begun, are errors wherever they stand. */
  lemma NoSuchType(p: Platform, pad: Padding, pieces: seq<Piece>, tag: nat, rest: seq<byte>)
    requires Sound(p) && Harmless(pad) && |PiecesBytes(p, pad, pieces)| < TWO_TO_32
    requires tag < TWO_TO_32 && tag % 8 in {4, 6, 7} && (tag / 8 == 0 || tag / 8 > Known(OfEnvelope))
    ensures Decoded(p, PiecesBytes(p, pad, pieces) + Base128(tag) + rest) == Err(Malformed)
  {
    hide PiecesBytes, Base128, Uint32, Message;
    var first := PiecesBytes(p, pad, pieces);
    var s := first + Base128(tag) + rest;
    assert At(s, 0, first) && At(s, |first|, Base128(tag));
    PiecesCarry(p, pad, pieces);
    Uint32RoundTrip(s, |first|, tag);
    assert Turn(TopTake(p), s, |first|, AfterAll(pieces)) == Fault;
    TurnFaults(TopTake(p), s, |first|, |s|, AfterAll(pieces));
  }
}
