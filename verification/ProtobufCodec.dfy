/** The encoder and the decoder of the telemetry protocol, as they append to a writer and advance a reader. */
module ProtobufCodec {
  import opened Bytes
  import opened Telemetry
  import opened Wire
  import opened Protobuf

  class Writer {
    var bytes: seq<byte>

    constructor ()
      ensures bytes == []
    {
      bytes := [];
    }

    /** A tag and what follows it. */
    method Put(tag: nat, body: seq<byte>)
      modifies this
      ensures bytes == old(bytes) + Tagged(tag, body)
    {
      bytes := bytes + Base128(tag) + body;
    }

    method PutString(p: Platform, tag: nat, s: string)
      modifies this
      ensures bytes == old(bytes) + Optional(p, tag, s)
    {
      if s != "" { Put(tag, Delimited(p.utf8(s))); }
    }
  }

  /** Parts written one after the other. */
  function Concat(parts: seq<seq<byte>>): seq<byte> {
    if parts == [] then [] else Concat(parts[..|parts| - 1]) + parts[|parts| - 1]
  }

  lemma ConcatNext(parts: seq<seq<byte>>, k: nat)
    requires k < |parts|
    ensures Concat(parts[..k + 1]) == Concat(parts[..k]) + parts[k]
  {
    assert parts[..k + 1][..k] == parts[..k];
  }

  /** The bytes of a writer after `k` parts. */
  function Onto(written: seq<byte>, parts: seq<seq<byte>>, k: nat): seq<byte>
    requires k <= |parts|
  {
    if k == 0 then written else Onto(written, parts, k - 1) + parts[k - 1]
  }

  lemma OntoNext(written: seq<byte>, parts: seq<seq<byte>>, k: nat)
    requires k < |parts|
    ensures Onto(written, parts, k + 1) == Onto(written, parts, k) + parts[k] && Onto(written, parts, 0) == written
  {}

  lemma {:induction false} OntoIs(written: seq<byte>, parts: seq<seq<byte>>, k: nat)
    requires k <= |parts|
    ensures Onto(written, parts, k) == written + Concat(parts[..k])
  {
    if k > 0 {
      OntoIs(written, parts, k - 1);
      ConcatNext(parts, k - 1);
    }
  }

  /** Without foreign fields, weaving is writing one part after the other. */
  lemma {:induction false} BareWeave(level: Level, place: seq<nat>, parts: seq<seq<byte>>, k: nat)
    requires k <= |parts|
    ensures Concat(parts[..k]) + Weave(Bare(), level, place, parts, k) == Concat(parts)
    decreases |parts| - k
  {
    if k == |parts| {
      assert parts[..k] == parts;
    } else {
      ConcatNext(parts, k);
      BareWeave(level, place, parts, k + 1);
      assert Weave(Bare(), level, place, parts, k) == parts[k] + Weave(Bare(), level, place, parts, k + 1);
    }
  }

  method EncodeValue(p: Platform, v: Scalar, w: Writer, ghost place: seq<nat>)
    modifies w
    ensures w.bytes == old(w.bytes) + ValueBytes(p, Bare(), place, v)
  {
    ghost var parts := ValueParts(p, v);
    match v {
      case Words(text) => w.Put(10, Delimited(p.utf8(text)));
      case Amount(number) => w.Put(17, number);
      case Flag(flag) => w.Put(24, Base128(if flag then 1 else 0));
    }
    assert Concat(parts) == parts[0] by { assert parts[..0] == []; }
    BareWeave(OfValue, place, parts, 0);
  }

  method EncodeEntry(p: Platform, entry: (string, Scalar), w: Writer, ghost place: seq<nat>)
    modifies w
    ensures w.bytes == old(w.bytes) + EntryBytes(p, Bare(), place, entry)
  {
    hide ValueBytes, Base128;
    ghost var parts := EntryParts(p, Bare(), place, entry);
    w.Put(10, Delimited(p.utf8(entry.0)));
    var attribute := new Writer();
    EncodeValue(p, entry.1, attribute, place + [1]);
    w.Put(18, Delimited(attribute.bytes));
    assert Concat(parts) == parts[0] + parts[1] by { ConcatNext(parts, 0); ConcatNext(parts, 1); assert parts[..2] == parts; }
    BareWeave(OfEntry, place, parts, 0);
  }

  method EncodeSpan(p: Platform, span: WireSpan, w: Writer, ghost place: seq<nat>)
    modifies w
    ensures w.bytes == old(w.bytes) + SpanBytes(p, Bare(), place, span)
  {
    hide EntryBytes, Base128, Concat, Weave, EntriesOf, Delimited;
    ghost var parts, written := SpanParts(p, Bare(), place, span), w.bytes;
    EncodeFixed(p, span, w);
    var entries := EntriesOf(p, span);
    assert parts[..8] == ScalarParts(p, span);
    for i := 0 to |entries|
      invariant w.bytes == written + Concat(parts[..8 + i])
    {
      var entry := new Writer();
      EncodeEntry(p, entries[i], entry, place + [8 + i]);
      assert entry.bytes == EntryBytes(p, Bare(), place + [8 + i], entries[i]);
      assert parts[8 + i] == Tagged(74, Delimited(entry.bytes));
      w.Put(74, Delimited(entry.bytes));
      ConcatNext(parts, 8 + i);
      Joined(written, Concat(parts[..8 + i]), parts[8 + i]);
    }
    assert parts[..8 + |entries|] == parts && parts[..0] == [];
    BareWeave(OfSpan, place, parts, 0);
    assert Concat(parts[..0]) == [] by { NothingYet(); }
  }

  lemma Joined(a: seq<byte>, b: seq<byte>, d: seq<byte>)
    ensures (a + b) + d == a + (b + d)
  {}

  lemma NothingYet()
    ensures Concat([]) == []
  {}

  /** The fields of a span that are written once. */
  method EncodeFixed(p: Platform, span: WireSpan, w: Writer)
    modifies w
    ensures w.bytes == old(w.bytes) + Concat(ScalarParts(p, span))
  {
    hide Onto, Base128, Concat, Delimited, Optional;
    ghost var parts, written := ScalarParts(p, span), w.bytes;
    assert parts[..8] == parts;
    w.PutString(p, 10, span.traceID);
    OntoNext(written, parts, 0);
    w.PutString(p, 18, span.spanID);
    OntoNext(written, parts, 1);
    w.PutString(p, 26, OrEmpty(span.parentSpanID));
    OntoNext(written, parts, 2);
    w.PutString(p, 34, span.name);
    OntoNext(written, parts, 3);
    w.Put(40, Base128(KindCode(span.kind)));
    OntoNext(written, parts, 4);
    w.Put(49, span.startTime);
    OntoNext(written, parts, 5);
    w.Put(57, span.duration);
    OntoNext(written, parts, 6);
    w.Put(64, Base128(StatusCode(span.status)));
    OntoNext(written, parts, 7);
    OntoIs(written, parts, 8);
  }

  method EncodeSpanBatch(p: Platform, batch: Batch, w: Writer, ghost place: seq<nat>)
    modifies w
    ensures w.bytes == old(w.bytes) + BatchBytes(p, Bare(), place, batch)
  {
    hide SpanBytes, Base128, Concat, Weave, Delimited, Optional;
    ghost var parts, written := BatchParts(p, Bare(), place, batch), w.bytes;
    NothingYet();
    assert parts[..0] == [];
    w.PutString(p, 10, batch.serviceName);
    ConcatNext(parts, 0);
    w.PutString(p, 18, OrEmpty(batch.nodeVersion));
    ConcatNext(parts, 1);
    for i := 0 to |batch.spans|
      invariant w.bytes == written + Concat(parts[..2 + i])
    {
      var span := new Writer();
      EncodeSpan(p, batch.spans[i], span, place + [2 + i]);
      assert span.bytes == SpanBytes(p, Bare(), place + [2 + i], batch.spans[i]);
      assert parts[2 + i] == Tagged(26, Delimited(span.bytes));
      w.Put(26, Delimited(span.bytes));
      ConcatNext(parts, 2 + i);
      Joined(written, Concat(parts[..2 + i]), parts[2 + i]);
    }
    assert parts[..2 + |batch.spans|] == parts;
    BareWeave(OfBatch, place, parts, 0);
  }

  method EncodeRuntimeMetrics(p: Platform, m: Metrics, w: Writer, ghost place: seq<nat>)
    modifies w
    ensures w.bytes == old(w.bytes) + MetricsBytes(p, Bare(), place, m)
  {
    hide Bare, Wrapped, Tagged, PrintAll, StringField, Print;
    hide Onto, Base128, Concat, Weave, Delimited, Optional;
    ghost var parts, written := MetricsParts(p, m), w.bytes;
    NothingYet();
    assert parts[..0] == [] && parts[..8] == parts;
    w.Put(9, m.timestamp);
    OntoNext(written, parts, 0);
    w.PutString(p, 18, m.serviceName);
    OntoNext(written, parts, 1);
    w.Put(24, Base128(Wrapped(m.rssBytes)));
    OntoNext(written, parts, 2);
    w.Put(32, Base128(Wrapped(m.heapUsedBytes)));
    OntoNext(written, parts, 3);
    w.Put(40, Base128(Wrapped(m.heapTotalBytes)));
    OntoNext(written, parts, 4);
    w.Put(49, m.cpuPercent);
    OntoNext(written, parts, 5);
    w.Put(57, m.eventLoopUtilization);
    OntoNext(written, parts, 6);
    w.Put(65, m.uptimeSeconds);
    OntoNext(written, parts, 7);
    OntoIs(written, parts, 8);
    BareWeave(OfMetrics, place, parts, 0);
  }

  method EncodeTelemetryEnvelope(p: Platform, e: WireEnvelope) returns (bytes: seq<byte>)
    ensures bytes == EnvelopeBytes(p, Bare(), e)
  {
    hide Base128, Concat, Weave, Delimited, BatchBytes, MetricsBytes;
    ghost var parts := EnvelopeParts(p, Bare(), e);
    NothingYet();
    assert parts[..0] == [] && parts[..2] == parts;
    var w := new Writer();
    var content := new Writer();
    w.Put(10, Delimited(p.utf8(e.protocolVersion)));
    ConcatNext(parts, 0);
    match e.payload {
      case Spans(batch) =>
        EncodeSpanBatch(p, batch, content, [1]);
        assert content.bytes == BatchBytes(p, Bare(), [1], batch);
        w.Put(18, Delimited(content.bytes));
      case Runtime(metrics) =>
        EncodeRuntimeMetrics(p, metrics, content, [1]);
        assert content.bytes == MetricsBytes(p, Bare(), [1], metrics);
        w.Put(26, Delimited(content.bytes));
    }
    ConcatNext(parts, 1);
    BareWeave(OfEnvelope, [], parts, 0);
    bytes := w.bytes;
  }

  /** What a reader method returned and where it left the reader. */
  ghost predicate Reads<T>(expected: Read<T>, result: Option<T>, pos: nat) {
    match expected
    case Fault => result == None
    case Got(value, next) => result == Some(value) && pos == next
  }

  class Reader {
    const input: seq<byte>
    var pos: nat

    constructor (input: seq<byte>)
      ensures this.input == input && pos == 0
    {
      this.input := input;
      pos := 0;
    }

    method GetUint32() returns (r: Option<nat>)
      modifies `pos
      ensures Reads(Uint32(input, old(pos)), r, pos)
    {
      var got := Uint32(input, pos);
      if got.Fault? { return None; }
      r, pos := Some(got.value), got.next;
    }

    method GetUint64() returns (r: Option<nat>)
      modifies `pos
      ensures Reads(Uint64(input, old(pos)), r, pos)
    {
      var got := Uint64(input, pos);
      if got.Fault? { return None; }
      r, pos := Some(got.value), got.next;
    }

    method GetString(p: Platform) returns (r: Option<string>)
      modifies `pos
      ensures Reads(String(p, input, old(pos)), r, pos)
    {
      var got := String(p, input, pos);
      if got.Fault? { return None; }
      r, pos := Some(got.value), got.next;
    }

    method GetDouble() returns (r: Option<Double>)
      modifies `pos
      ensures Reads(Float(input, old(pos)), r, pos)
    {
      var got := Float(input, pos);
      if got.Fault? { return None; }
      r, pos := Some(got.value), got.next;
    }

    method SkipType(wireType: nat) returns (ok: bool)
      modifies `pos
      ensures match Skip(input, old(pos), wireType) case None => !ok case Some(next) => ok && pos == next
    {
      var next := Skip(input, pos, wireType);
      if next.None? { return false; }
      ok, pos := true, next.value;
    }
  }

  method DecodeAttribute(p: Platform, r: Reader, length: nat) returns (value: Option<Option<Scalar>>)
    modifies r`pos
    ensures Reads(Message(ValueTake(p), r.input, old(r.pos), old(r.pos) + length, None), value, r.pos)
  {
    hide Skip, String, Float, Uint32;
    var end := r.pos + length;
    var state: Option<Scalar> := None;
    while r.pos < end
      invariant Message(ValueTake(p), r.input, r.pos, end, state) == Message(ValueTake(p), r.input, old(r.pos), end, None)
      decreases if r.pos <= |r.input| then |r.input| - r.pos else 0
    {
      var tag := r.GetUint32();
      if tag.None? { return None; }
      match tag.value / 8 {
        case 1 =>
          var v := r.GetString(p);
          if v.None? { return None; }
          state := Some(Words(v.value));
        case 2 =>
          var v := r.GetDouble();
          if v.None? { return None; }
          state := Some(Amount(v.value));
        case 3 =>
          var v := r.GetUint32();
          if v.None? { return None; }
          state := Some(Scalar.Flag(v.value != 0));
        case _ =>
          var ok := r.SkipType(tag.value % 8);
          if !ok { return None; }
      }
    }
    value := Some(state);
  }

  method DecodeAttributeEntry(p: Platform, r: Reader, length: nat) returns (value: Option<EntryState>)
    modifies r`pos
    ensures Reads(Message(EntryTake(p), r.input, old(r.pos), old(r.pos) + length, NO_ENTRY), value, r.pos)
  {
    hide Skip, String, Float, Uint32, Uint64, ValueTake;
    var end, state := r.pos + length, NO_ENTRY;
    while r.pos < end
      invariant Message(EntryTake(p), r.input, r.pos, end, state) == Message(EntryTake(p), r.input, old(r.pos), end, NO_ENTRY)
      decreases if r.pos <= |r.input| then |r.input| - r.pos else 0
    {
      var tag := r.GetUint32();
      if tag.None? { return None; }
      match tag.value / 8 {
        case 1 =>
          var v := r.GetString(p);
          if v.None? { return None; }
          state := state.(key := v.value);
        case 2 =>
          var size := r.GetUint32();
          if size.None? { return None; }
          var v := DecodeAttribute(p, r, size.value);
          if v.None? { return None; }
          state := state.(value := v.value);
        case _ =>
          var ok := r.SkipType(tag.value % 8);
          if !ok { return None; }
      }
    }
    value := Some(state);
  }

  method DecodeSpan(p: Platform, r: Reader, length: nat) returns (value: Option<SpanState>)
    modifies r`pos
    ensures Reads(Message(SpanTake(p), r.input, old(r.pos), old(r.pos) + length, NO_SPAN), value, r.pos)
  {
    hide CodeKind, TakeEntry, Chunk, Next, Assign;
    hide Skip, String, Float, Uint32, Uint64, EntryTake;
    var end, state := r.pos + length, NO_SPAN;
    while r.pos < end
      invariant Message(SpanTake(p), r.input, r.pos, end, state) == Message(SpanTake(p), r.input, old(r.pos), end, NO_SPAN)
      decreases if r.pos <= |r.input| then |r.input| - r.pos else 0
    {
      var tag := r.GetUint32();
      if tag.None? { return None; }
      match tag.value / 8 {
        case 1 =>
          var v := r.GetString(p);
          if v.None? { return None; }
          state := state.(traceID := v.value);
        case 2 =>
          var v := r.GetString(p);
          if v.None? { return None; }
          state := state.(spanID := v.value);
        case 3 =>
          var v := r.GetString(p);
          if v.None? { return None; }
          state := state.(parentSpanID := v.value);
        case 4 =>
          var v := r.GetString(p);
          if v.None? { return None; }
          state := state.(name := v.value);
        case 5 =>
          var v := r.GetUint32();
          if v.None? { return None; }
          state := state.(kind := CodeKind(v.value));
        case 6 =>
          var v := r.GetDouble();
          if v.None? { return None; }
          state := state.(startTime := v.value);
        case 7 =>
          var v := r.GetDouble();
          if v.None? { return None; }
          state := state.(duration := v.value);
        case 8 =>
          var v := r.GetUint32();
          if v.None? { return None; }
          state := state.(status := if v.value == 2 then Failed else Fine);
        case 9 =>
          var size := r.GetUint32();
          if size.None? { return None; }
          var v := DecodeAttributeEntry(p, r, size.value);
          if v.None? { return None; }
          state := state.(attributes := WithEntry(state.attributes, v.value));
        case _ =>
          var ok := r.SkipType(tag.value % 8);
          if !ok { return None; }
      }
    }
    value := Some(state);
  }

  method DecodeSpanBatch(p: Platform, r: Reader, length: nat) returns (value: Option<BatchState>)
    modifies r`pos
    ensures Reads(Message(BatchTake(p), r.input, old(r.pos), old(r.pos) + length, NO_BATCH), value, r.pos)
  {
    hide Skip, String, Float, Uint32, Uint64, SpanTake;
    var end, state := r.pos + length, NO_BATCH;
    while r.pos < end
      invariant Message(BatchTake(p), r.input, r.pos, end, state) == Message(BatchTake(p), r.input, old(r.pos), end, NO_BATCH)
      decreases if r.pos <= |r.input| then |r.input| - r.pos else 0
    {
      var tag := r.GetUint32();
      if tag.None? { return None; }
      match tag.value / 8 {
        case 1 =>
          var v := r.GetString(p);
          if v.None? { return None; }
          state := state.(serviceName := v.value);
        case 2 =>
          var v := r.GetString(p);
          if v.None? { return None; }
          state := state.(nodeVersion := v.value);
        case 3 =>
          var size := r.GetUint32();
          if size.None? { return None; }
          var v := DecodeSpan(p, r, size.value);
          if v.None? { return None; }
          state := state.(spans := state.spans + [SpanOf(v.value)]);
        case _ =>
          var ok := r.SkipType(tag.value % 8);
          if !ok { return None; }
      }
    }
    value := Some(state);
  }

  method DecodeRuntimeMetrics(p: Platform, r: Reader, length: nat) returns (value: Option<Metrics>)
    modifies r`pos
    ensures Reads(Message(MetricsTake(p), r.input, old(r.pos), old(r.pos) + length, NO_METRICS), value, r.pos)
  {
    hide Skip, String, Float, Uint32, Uint64;
    var end, state := r.pos + length, NO_METRICS;
    while r.pos < end
      invariant Message(MetricsTake(p), r.input, r.pos, end, state) == Message(MetricsTake(p), r.input, old(r.pos), end, NO_METRICS)
      decreases if r.pos <= |r.input| then |r.input| - r.pos else 0
    {
      var tag := r.GetUint32();
      if tag.None? { return None; }
      match tag.value / 8 {
        case 1 =>
          var v := r.GetDouble();
          if v.None? { return None; }
          state := state.(timestamp := v.value);
        case 2 =>
          var v := r.GetString(p);
          if v.None? { return None; }
          state := state.(serviceName := v.value);
        case 3 =>
          var v := r.GetUint64();
          if v.None? { return None; }
          state := state.(rssBytes := v.value);
        case 4 =>
          var v := r.GetUint64();
          if v.None? { return None; }
          state := state.(heapUsedBytes := v.value);
        case 5 =>
          var v := r.GetUint64();
          if v.None? { return None; }
          state := state.(heapTotalBytes := v.value);
        case 6 =>
          var v := r.GetDouble();
          if v.None? { return None; }
          state := state.(cpuPercent := v.value);
        case 7 =>
          var v := r.GetDouble();
          if v.None? { return None; }
          state := state.(eventLoopUtilization := v.value);
        case 8 =>
          var v := r.GetDouble();
          if v.None? { return None; }
          state := state.(uptimeSeconds := v.value);
        case _ =>
          var ok := r.SkipType(tag.value % 8);
          if !ok { return None; }
      }
    }
    value := Some(state);
  }

  /** The loop over the fields of the envelope. */
  method DecodeFields(p: Platform, r: Reader, end: nat) returns (value: Option<Top>)
    modifies r`pos
    ensures Reads(Message(TopTake(p), r.input, old(r.pos), end, NO_TOP), value, r.pos)
  {
    hide Skip, String, Float, Uint32, Uint64, BatchTake, MetricsTake, BatchOf;
    var state := NO_TOP;
    while r.pos < end
      invariant Message(TopTake(p), r.input, r.pos, end, state) == Message(TopTake(p), r.input, old(r.pos), end, NO_TOP)
      decreases if r.pos <= |r.input| then |r.input| - r.pos else 0
    {
      var tag := r.GetUint32();
      if tag.None? { return None; }
      match tag.value / 8 {
        case 1 =>
          var v := r.GetString(p);
          if v.None? { return None; }
          state := state.(protocolVersion := v.value);
        case 2 =>
          var size := r.GetUint32();
          if size.None? { return None; }
          var v := DecodeSpanBatch(p, r, size.value);
          if v.None? { return None; }
          state := state.(batch := Some(BatchOf(v.value)));
        case 3 =>
          var size := r.GetUint32();
          if size.None? { return None; }
          var v := DecodeRuntimeMetrics(p, r, size.value);
          if v.None? { return None; }
          state := state.(metrics := Some(v.value));
        case _ =>
          var ok := r.SkipType(tag.value % 8);
          if !ok { return None; }
      }
    }
    value := Some(state);
  }

  method DecodeTelemetryEnvelope(p: Platform, input: seq<byte>) returns (result: Result<WireEnvelope, DecodeError>)
    ensures result == Decoded(p, input)
  {
    hide Message, TopTake, EnvelopeOf;
    var r := new Reader(input);
    var top := DecodeFields(p, r, |input|);
    if top.None? { return Err(Malformed); }
    result := EnvelopeOf(top.value);
  }
}
