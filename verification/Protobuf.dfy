/**
 * The telemetry codec of the protocol package: what the encoder writes, what the decoder reads back, and why fields
 * that a newer sender adds do not disturb it. Positions run over the whole input, as they do in the source: a nested
 * message knows only the position where it ends.
 */
module Protobuf {
  import opened Bytes
  import opened Telemetry
  import opened Wire

  const VERSION := "1.0"

  /** A double, as the eight bytes that stand for it. */
  type Double = b: seq<byte> | |b| == 8 witness [0, 0, 0, 0, 0, 0, 0, 0]

  const ZERO: Double := [0, 0, 0, 0, 0, 0, 0, 0]

  datatype Scalar = Words(text: string) | Amount(number: Double) | Flag(flag: bool)

  datatype Kind =
    HttpRoute | Controller | Service | Database | Redis | Queue | Worker | ExternalHttp | Custom | Internal

  datatype Status = Fine | Failed

  datatype WireSpan = WireSpan(
    traceID: string,
    spanID: string,
    parentSpanID: Option<string>,
    name: string,
    kind: Kind,
    startTime: Double,
    duration: Double,
    status: Status,
    attributes: Option<map<string, Scalar>>)

  datatype Batch = Batch(serviceName: string, nodeVersion: Option<string>, spans: seq<WireSpan>)

  /** Byte counts are the integers that the sender measured. */
  datatype Metrics = Metrics(
    timestamp: Double,
    serviceName: string,
    rssBytes: int,
    heapUsedBytes: int,
    heapTotalBytes: int,
    cpuPercent: Double,
    eventLoopUtilization: Double,
    uptimeSeconds: Double)

  datatype Payload = Spans(batch: Batch) | Runtime(metrics: Metrics)

  datatype WireEnvelope = WireEnvelope(protocolVersion: string, payload: Payload)

  datatype DecodeError = Malformed | UnsupportedVersion | NotOnePayload

  /** The platform: UTF-8, and the order in which an object lists its properties. */
  datatype Platform = Platform(
    utf8: string -> seq<byte>,
    text: seq<byte> -> string,
    entries: map<string, Scalar> -> seq<(string, Scalar)>)

  ghost predicate Lists(entries: seq<(string, Scalar)>, m: map<string, Scalar>) {
    && (forall i, j :: 0 <= i < j < |entries| ==> entries[i].0 != entries[j].0)
    && (forall i :: 0 <= i < |entries| ==> entries[i].0 in m && m[entries[i].0] == entries[i].1)
    && (forall key :: key in m ==> exists i :: 0 <= i < |entries| && entries[i].0 == key)
  }

  ghost predicate Sound(p: Platform) {
    && (forall s: string :: p.text(p.utf8(s)) == s)
    && (forall m: map<string, Scalar> :: Lists(p.entries(m), m))
  }

  function KindCode(kind: Kind): nat {
    match kind
    case HttpRoute => 1
    case Controller => 2
    case Service => 3
    case Database => 4
    case Redis => 5
    case Queue => 6
    case Worker => 7
    case ExternalHttp => 8
    case Custom => 9
    case Internal => 10
  }

  function CodeKind(code: nat): Kind {
    match code
    case 1 => HttpRoute
    case 2 => Controller
    case 3 => Service
    case 4 => Database
    case 5 => Redis
    case 6 => Queue
    case 7 => Worker
    case 8 => ExternalHttp
    case 9 => Custom
    case _ => Internal
  }

  /** Assigning a property of a plain object: `__proto__` names no property of its own, and a scalar is ignored there. */
  function Assign(m: map<string, Scalar>, key: string, value: Scalar): map<string, Scalar> {
    if key == "__proto__" then m else m[key := value]
  }

  // --- What the encoder writes, with foreign fields in between.

  datatype Level = OfEnvelope | OfBatch | OfSpan | OfEntry | OfValue | OfMetrics

  /** The highest field number that the decoder knows at a level. */
  function Known(level: Level): nat {
    match level
    case OfEnvelope => 3
    case OfBatch => 3
    case OfSpan => 9
    case OfEntry => 2
    case OfValue => 3
    case OfMetrics => 8
  }

  /** The fields inserted at each place: a place is the path of part numbers from the envelope down. */
  type Padding = (Level, seq<nat>) -> seq<Field>

  ghost predicate Harmless(pad: Padding) {
    forall level: Level, place: seq<nat> :: Foreign(pad(level, place), Known(level))
  }

  function Bare(): Padding {
    (level, place) => []
  }

  /** The parts from number `k` on, each after the fields inserted before it, then the fields inserted at the end. */
  function Weave(pad: Padding, level: Level, place: seq<nat>, parts: seq<seq<byte>>, k: nat): seq<byte>
    requires k <= |parts|
    decreases |parts| - k
  {
    PrintAll(pad(level, place + [k])) + if k == |parts| then [] else parts[k] + Weave(pad, level, place, parts, k + 1)
  }

  function Woven(pad: Padding, level: Level, place: seq<nat>, parts: seq<seq<byte>>): seq<byte> {
    Weave(pad, level, place, parts, 0)
  }

  function Tagged(tag: nat, body: seq<byte>): seq<byte> {
    Base128(tag) + body
  }

  function StringField(p: Platform, tag: nat, s: string): seq<byte> {
    Tagged(tag, Delimited(p.utf8(s)))
  }

  /** A string field, left out when empty. */
  function Optional(p: Platform, tag: nat, s: string): seq<byte> {
    if s == "" then [] else StringField(p, tag, s)
  }

  function OrEmpty(s: Option<string>): string {
    if s.Some? then s.value else ""
  }

  function ValueParts(p: Platform, v: Scalar): seq<seq<byte>> {
    match v
    case Words(text) => [StringField(p, 10, text)]
    case Amount(number) => [Tagged(17, number)]
    case Flag(flag) => [Tagged(24, Base128(if flag then 1 else 0))]
  }

  function ValueBytes(p: Platform, pad: Padding, place: seq<nat>, v: Scalar): seq<byte> {
    Woven(pad, OfValue, place, ValueParts(p, v))
  }

  function EntryParts(p: Platform, pad: Padding, place: seq<nat>, entry: (string, Scalar)): seq<seq<byte>> {
    [StringField(p, 10, entry.0), Tagged(18, Delimited(ValueBytes(p, pad, place + [1], entry.1)))]
  }

  function EntryBytes(p: Platform, pad: Padding, place: seq<nat>, entry: (string, Scalar)): seq<byte> {
    Woven(pad, OfEntry, place, EntryParts(p, pad, place, entry))
  }

  function AttributeParts(p: Platform, pad: Padding, place: seq<nat>, entries: seq<(string, Scalar)>): seq<seq<byte>> {
    seq(|entries|, i requires 0 <= i < |entries| => Tagged(74, Delimited(EntryBytes(p, pad, place + [8 + i], entries[i]))))
  }

  function EntriesOf(p: Platform, span: WireSpan): seq<(string, Scalar)> {
    if span.attributes.Some? then p.entries(span.attributes.value) else []
  }

  function StatusCode(status: Status): nat {
    if status == Failed then 2 else 1
  }

  function ScalarParts(p: Platform, span: WireSpan): (parts: seq<seq<byte>>)
    ensures |parts| == 8
  {
    [ Optional(p, 10, span.traceID),
      Optional(p, 18, span.spanID),
      Optional(p, 26, OrEmpty(span.parentSpanID)),
      Optional(p, 34, span.name),
      Tagged(40, Base128(KindCode(span.kind))),
      Tagged(49, span.startTime),
      Tagged(57, span.duration),
      Tagged(64, Base128(StatusCode(span.status)))]
  }

  function SpanParts(p: Platform, pad: Padding, place: seq<nat>, span: WireSpan): seq<seq<byte>> {
    ScalarParts(p, span) + AttributeParts(p, pad, place, EntriesOf(p, span))
  }

  function SpanBytes(p: Platform, pad: Padding, place: seq<nat>, span: WireSpan): seq<byte> {
    Woven(pad, OfSpan, place, SpanParts(p, pad, place, span))
  }

  function SpansParts(p: Platform, pad: Padding, place: seq<nat>, spans: seq<WireSpan>): seq<seq<byte>> {
    seq(|spans|, i requires 0 <= i < |spans| => Tagged(26, Delimited(SpanBytes(p, pad, place + [2 + i], spans[i]))))
  }

  function BatchParts(p: Platform, pad: Padding, place: seq<nat>, batch: Batch): seq<seq<byte>> {
    [Optional(p, 10, batch.serviceName), Optional(p, 18, OrEmpty(batch.nodeVersion))] + SpansParts(p, pad, place, batch.spans)
  }

  function BatchBytes(p: Platform, pad: Padding, place: seq<nat>, batch: Batch): seq<byte> {
    Woven(pad, OfBatch, place, BatchParts(p, pad, place, batch))
  }

  /** `uint64`: the low 64 bits, two's complement for a negative count. */
  function Wrapped(n: int): (r: nat)
    ensures r < TWO_TO_64
  {
    n % TWO_TO_64
  }

  function MetricsParts(p: Platform, m: Metrics): (parts: seq<seq<byte>>)
    ensures |parts| == 8
  {
    [ Tagged(9, m.timestamp),
      Optional(p, 18, m.serviceName),
      Tagged(24, Base128(Wrapped(m.rssBytes))),
      Tagged(32, Base128(Wrapped(m.heapUsedBytes))),
      Tagged(40, Base128(Wrapped(m.heapTotalBytes))),
      Tagged(49, m.cpuPercent),
      Tagged(57, m.eventLoopUtilization),
      Tagged(65, m.uptimeSeconds)]
  }

  function MetricsBytes(p: Platform, pad: Padding, place: seq<nat>, m: Metrics): seq<byte> {
    Woven(pad, OfMetrics, place, MetricsParts(p, m))
  }

  function PayloadPart(p: Platform, pad: Padding, place: seq<nat>, payload: Payload): seq<byte> {
    match payload
    case Spans(batch) => Tagged(18, Delimited(BatchBytes(p, pad, place, batch)))
    case Runtime(metrics) => Tagged(26, Delimited(MetricsBytes(p, pad, place, metrics)))
  }

  function EnvelopeParts(p: Platform, pad: Padding, e: WireEnvelope): seq<seq<byte>> {
    [StringField(p, 10, e.protocolVersion), PayloadPart(p, pad, [1], e.payload)]
  }

  /** The printed envelope, with foreign fields inserted at every level. */
  function EnvelopeBytes(p: Platform, pad: Padding, e: WireEnvelope): seq<byte> {
    Woven(pad, OfEnvelope, [], EnvelopeParts(p, pad, e))
  }

  // --- What the decoder does with a field: the cases of its `switch`, and `skipType` for every other number.

  function Mapped<T, S>(r: Read<T>, f: T -> S): Read<S> {
    match r
    case Fault => Fault
    case Got(value, next) => Got(f(value), next)
  }

  function Skipped<S>(s: seq<byte>, tag: nat, pos: nat, state: S): Read<S> {
    match Skip(s, pos, tag % 8)
    case None => Fault
    case Some(next) => Got(state, next)
  }

  function String(p: Platform, s: seq<byte>, pos: nat): (r: Read<string>)
    ensures r.Got? ==> pos < r.next <= |s|
  {
    match Chunk(s, pos)
    case Fault => Fault
    case Got(content, next) => Got(p.text(content), next)
  }

  function Float(s: seq<byte>, pos: nat): (r: Read<Double>)
    ensures r.Got? ==> pos < r.next <= |s|
  {
    match Slice(s, pos, 8)
    case Fault => Fault
    case Got(b, next) => Got(b, next)
  }

  /** A nested message: its length, then its fields. */
  function Nested<S>(take: (seq<byte>, nat, nat, S) -> Read<S>, s: seq<byte>, pos: nat, start: S): (r: Read<S>)
    ensures r.Got? ==> pos < r.next <= |s|
  {
    match Uint32(s, pos)
    case Fault => Fault
    case Got(length, next) => Message(take, s, next, next + length, start)
  }

  function TakeValue(p: Platform, s: seq<byte>, tag: nat, pos: nat, state: Option<Scalar>): Read<Option<Scalar>> {
    match tag / 8
    case 1 => Mapped(String(p, s, pos), v => Some(Words(v)))
    case 2 => Mapped(Float(s, pos), v => Some(Amount(v)))
    case 3 => Mapped(Uint32(s, pos), v => Some(Scalar.Flag(v != 0)))
    case _ => Skipped(s, tag, pos, state)
  }

  function ValueTake(p: Platform): (seq<byte>, nat, nat, Option<Scalar>) -> Read<Option<Scalar>> {
    (s: seq<byte>, tag: nat, pos: nat, state: Option<Scalar>) => TakeValue(p, s, tag, pos, state)
  }

  datatype EntryState = EntryState(key: string, value: Option<Scalar>)

  const NO_ENTRY := EntryState("", None)

  function TakeEntry(p: Platform, s: seq<byte>, tag: nat, pos: nat, state: EntryState): Read<EntryState> {
    match tag / 8
    case 1 => Mapped(String(p, s, pos), v => state.(key := v))
    case 2 => Mapped(Nested(ValueTake(p), s, pos, None), v => state.(value := v))
    case _ => Skipped(s, tag, pos, state)
  }

  function EntryTake(p: Platform): (seq<byte>, nat, nat, EntryState) -> Read<EntryState> {
    (s: seq<byte>, tag: nat, pos: nat, state: EntryState) => TakeEntry(p, s, tag, pos, state)
  }

  /** The locals of the span decoder; an absent parent and an empty one are the same to it. */
  datatype SpanState = SpanState(
    traceID: string,
    spanID: string,
    parentSpanID: string,
    name: string,
    kind: Kind,
    startTime: Double,
    duration: Double,
    status: Status,
    attributes: map<string, Scalar>)

  const NO_SPAN := SpanState("", "", "", "", Internal, ZERO, ZERO, Fine, map[])

  function WithEntry(m: map<string, Scalar>, entry: EntryState): map<string, Scalar> {
    if entry.key != "" && entry.value.Some? then Assign(m, entry.key, entry.value.value) else m
  }

  function TakeSpan(p: Platform, s: seq<byte>, tag: nat, pos: nat, state: SpanState): Read<SpanState> {
    match tag / 8
    case 1 => Mapped(String(p, s, pos), v => state.(traceID := v))
    case 2 => Mapped(String(p, s, pos), v => state.(spanID := v))
    case 3 => Mapped(String(p, s, pos), v => state.(parentSpanID := v))
    case 4 => Mapped(String(p, s, pos), v => state.(name := v))
    case 5 => Mapped(Uint32(s, pos), v => state.(kind := CodeKind(v)))
    case 6 => Mapped(Float(s, pos), v => state.(startTime := v))
    case 7 => Mapped(Float(s, pos), v => state.(duration := v))
    case 8 => Mapped(Uint32(s, pos), v => state.(status := if v == 2 then Failed else Fine))
    case 9 => Mapped(Nested(EntryTake(p), s, pos, NO_ENTRY), v => state.(attributes := WithEntry(state.attributes, v)))
    case _ => Skipped(s, tag, pos, state)
  }

  function SpanTake(p: Platform): (seq<byte>, nat, nat, SpanState) -> Read<SpanState> {
    (s: seq<byte>, tag: nat, pos: nat, state: SpanState) => TakeSpan(p, s, tag, pos, state)
  }

  function NonEmpty(s: string): Option<string> {
    if s == "" then None else Some(s)
  }

  function SpanOf(state: SpanState): WireSpan {
    WireSpan(state.traceID, state.spanID, NonEmpty(state.parentSpanID), state.name, state.kind, state.startTime,
             state.duration, state.status, if state.attributes == map[] then None else Some(state.attributes))
  }

  datatype BatchState = BatchState(serviceName: string, nodeVersion: string, spans: seq<WireSpan>)

  const NO_BATCH := BatchState("", "", [])

  function TakeBatch(p: Platform, s: seq<byte>, tag: nat, pos: nat, state: BatchState): Read<BatchState> {
    match tag / 8
    case 1 => Mapped(String(p, s, pos), v => state.(serviceName := v))
    case 2 => Mapped(String(p, s, pos), v => state.(nodeVersion := v))
    case 3 => Mapped(Nested(SpanTake(p), s, pos, NO_SPAN), v => state.(spans := state.spans + [SpanOf(v)]))
    case _ => Skipped(s, tag, pos, state)
  }

  function BatchTake(p: Platform): (seq<byte>, nat, nat, BatchState) -> Read<BatchState> {
    (s: seq<byte>, tag: nat, pos: nat, state: BatchState) => TakeBatch(p, s, tag, pos, state)
  }

  function BatchOf(state: BatchState): Batch {
    Batch(state.serviceName, NonEmpty(state.nodeVersion), state.spans)
  }

  const NO_METRICS := Metrics(ZERO, "", 0, 0, 0, ZERO, ZERO, ZERO)

  function TakeMetrics(p: Platform, s: seq<byte>, tag: nat, pos: nat, state: Metrics): Read<Metrics> {
    match tag / 8
    case 1 => Mapped(Float(s, pos), v => state.(timestamp := v))
    case 2 => Mapped(String(p, s, pos), v => state.(serviceName := v))
    case 3 => Mapped(Uint64(s, pos), v => state.(rssBytes := v))
    case 4 => Mapped(Uint64(s, pos), v => state.(heapUsedBytes := v))
    case 5 => Mapped(Uint64(s, pos), v => state.(heapTotalBytes := v))
    case 6 => Mapped(Float(s, pos), v => state.(cpuPercent := v))
    case 7 => Mapped(Float(s, pos), v => state.(eventLoopUtilization := v))
    case 8 => Mapped(Float(s, pos), v => state.(uptimeSeconds := v))
    case _ => Skipped(s, tag, pos, state)
  }

  function MetricsTake(p: Platform): (seq<byte>, nat, nat, Metrics) -> Read<Metrics> {
    (s: seq<byte>, tag: nat, pos: nat, state: Metrics) => TakeMetrics(p, s, tag, pos, state)
  }

  datatype Top = Top(protocolVersion: string, batch: Option<Batch>, metrics: Option<Metrics>)

  const NO_TOP := Top("", None, None)

  function TakeTop(p: Platform, s: seq<byte>, tag: nat, pos: nat, state: Top): Read<Top> {
    match tag / 8
    case 1 => Mapped(String(p, s, pos), v => state.(protocolVersion := v))
    case 2 => Mapped(Nested(BatchTake(p), s, pos, NO_BATCH), v => state.(batch := Some(BatchOf(v))))
    case 3 => Mapped(Nested(MetricsTake(p), s, pos, NO_METRICS), v => state.(metrics := Some(v)))
    case _ => Skipped(s, tag, pos, state)
  }

  function TopTake(p: Platform): (seq<byte>, nat, nat, Top) -> Read<Top> {
    (s: seq<byte>, tag: nat, pos: nat, state: Top) => TakeTop(p, s, tag, pos, state)
  }

  /** The two checks after the loop. */
  function EnvelopeOf(top: Top): Result<WireEnvelope, DecodeError> {
    if top.protocolVersion != VERSION then Err(UnsupportedVersion)
    else if top.batch.Some? == top.metrics.Some? then Err(NotOnePayload)
    else Ok(WireEnvelope(VERSION, if top.batch.Some? then Spans(top.batch.value) else Runtime(top.metrics.value)))
  }

  function Decoded(p: Platform, input: seq<byte>): Result<WireEnvelope, DecodeError> {
    match Message(TopTake(p), input, 0, |input|, NO_TOP)
    case Fault => Err(Malformed)
    case Got(top, _) => EnvelopeOf(top)
  }

  // --- What survives the way there and back.

  /** The attributes that come back: those with a key, but for the one key that an object cannot take. */
  function Returned(m: map<string, Scalar>): map<string, Scalar> {
    map key | key in m && key != "" && key != "__proto__" :: m[key]
  }

  function NormalAttributes(attributes: Option<map<string, Scalar>>): Option<map<string, Scalar>> {
    if attributes.None? || Returned(attributes.value) == map[] then None else Some(Returned(attributes.value))
  }

  function NormalSpan(span: WireSpan): WireSpan {
    span.(parentSpanID := NonEmpty(OrEmpty(span.parentSpanID)), attributes := NormalAttributes(span.attributes))
  }

  function NormalSpans(spans: seq<WireSpan>): seq<WireSpan> {
    seq(|spans|, i requires 0 <= i < |spans| => NormalSpan(spans[i]))
  }

  function NormalBatch(batch: Batch): Batch {
    Batch(batch.serviceName, NonEmpty(OrEmpty(batch.nodeVersion)), NormalSpans(batch.spans))
  }

  function NormalMetrics(m: Metrics): Metrics {
    m.(rssBytes := Wrapped(m.rssBytes), heapUsedBytes := Wrapped(m.heapUsedBytes), heapTotalBytes := Wrapped(m.heapTotalBytes))
  }

  /** What a receiver gets for an envelope. */
  function Normal(e: WireEnvelope): WireEnvelope {
    match e.payload
    case Spans(batch) => e.(payload := Spans(NormalBatch(batch)))
    case Runtime(metrics) => e.(payload := Runtime(NormalMetrics(metrics)))
  }

  predicate Counts(n: int) {
    0 <= n < TWO_TO_64
  }

  predicate CleanSpan(span: WireSpan) {
    && span.parentSpanID != Some("")
    && (span.attributes.Some? ==>
          span.attributes.value != map[] && "" !in span.attributes.value && "__proto__" !in span.attributes.value)
  }

  /** Optional values are present or absent but not empty, attributes have proper keys, counts fit 64 bits. */
  predicate Clean(e: WireEnvelope) {
    match e.payload
    case Spans(batch) =>
      batch.nodeVersion != Some("") && forall i :: 0 <= i < |batch.spans| ==> CleanSpan(batch.spans[i])
    case Runtime(m) => Counts(m.rssBytes) && Counts(m.heapUsedBytes) && Counts(m.heapTotalBytes)
  }

  // --- From one state to the next, part by part.

  /** Part `i` takes the decoder from state `i` to state `i + 1`. */
  ghost predicate Leads<S(!new)>(take: (seq<byte>, nat, nat, S) -> Read<S>, parts: seq<seq<byte>>, states: seq<S>, i: nat) {
    i < |parts| && i + 1 < |states| && Carries(take, parts[i], states[i], states[i + 1])
  }

  /** Foreign fields between the parts change nothing. */
  lemma {:induction false} WeaveCarries<S(!new)>(
    take: (seq<byte>, nat, nat, S) -> Read<S>, pad: Padding, level: Level, place: seq<nat>,
    parts: seq<seq<byte>>, states: seq<S>, k: nat)
    requires Harmless(pad) && Skips(take, Known(level)) && k <= |parts| && |states| == |parts| + 1
    requires forall i :: k <= i < |parts| ==> Leads(take, parts, states, i)
    ensures Carries(take, Weave(pad, level, place, parts, k), states[k], states[|parts|])
    decreases |parts| - k
  {
    hide Carries, Message, PrintAll;
    var fields := pad(level, place + [k]);
    ForeignIgnored(take, Known(level), fields, states[k]);
    if k == |parts| {
      assert Weave(pad, level, place, parts, k) == PrintAll(fields);
    } else {
      assert Leads(take, parts, states, k);
      WeaveCarries(take, pad, level, place, parts, states, k + 1);
      var rest := Weave(pad, level, place, parts, k + 1);
      CarriesBoth(take, parts[k], rest, states[k], states[k + 1], states[|parts|]);
      CarriesBoth(take, PrintAll(fields), parts[k] + rest, states[k], states[k], states[|parts|]);
    }
  }

  /** A nested message is read back whole. */
  lemma NestedRead<S(!new)>(
    take: (seq<byte>, nat, nat, S) -> Read<S>, content: seq<byte>, a: S, b: S, s: seq<byte>, pos: nat)
    requires Carries(take, content, a, b) && |content| < TWO_TO_32 && At(s, pos, Delimited(content))
    ensures Nested(take, s, pos, a) == Got(b, pos + |Delimited(content)|)
  {
    hide Carries, Message, Uint32, Chunk;
    ChunkRoundTrip(s, pos, content);
    CarriesAll(take, content, a, b, s, pos + |Base128(|content|)|);
  }

  lemma StringRead(p: Platform, x: string, s: seq<byte>, pos: nat)
    requires Sound(p) && |p.utf8(x)| < TWO_TO_32 && At(s, pos, Delimited(p.utf8(x)))
    ensures String(p, s, pos) == Got(x, pos + |Delimited(p.utf8(x))|)
  {
    hide Chunk;
    ChunkRoundTrip(s, pos, p.utf8(x));
  }

  lemma FloatRead(d: Double, s: seq<byte>, pos: nat)
    requires At(s, pos, d)
    ensures Float(s, pos) == Got(d, pos + |d|)
  {}

  lemma {:induction false} PartFits(pad: Padding, level: Level, place: seq<nat>, parts: seq<seq<byte>>, k: nat, i: nat)
    requires k <= i < |parts|
    ensures |parts[i]| <= |Weave(pad, level, place, parts, k)|
    decreases |parts| - k
  {
    hide PrintAll;
    if k < i { PartFits(pad, level, place, parts, k + 1, i); }
  }

  lemma ValueSkips(p: Platform)
    ensures Skips(ValueTake(p), Known(OfValue))
  {
    hide Skip;
  }

  lemma EntrySkips(p: Platform)
    ensures Skips(EntryTake(p), Known(OfEntry))
  {
    hide Skip;
  }

  lemma SpanSkips(p: Platform)
    ensures Skips(SpanTake(p), Known(OfSpan))
  {
    hide Skip;
  }

  lemma BatchSkips(p: Platform)
    ensures Skips(BatchTake(p), Known(OfBatch))
  {
    hide Skip;
  }

  lemma MetricsSkips(p: Platform)
    ensures Skips(MetricsTake(p), Known(OfMetrics))
  {
    hide Skip;
  }

  lemma TopSkips(p: Platform)
    ensures Skips(TopTake(p), Known(OfEnvelope))
  {
    hide Skip;
  }

  lemma ValueCarries(p: Platform, pad: Padding, place: seq<nat>, v: Scalar)
    requires Sound(p) && Harmless(pad) && |ValueBytes(p, pad, place, v)| < TWO_TO_32
    ensures Carries(ValueTake(p), ValueBytes(p, pad, place, v), None, Some(v))
  {
    hide Carries, PrintAll, Message, Base128, Chunk, Slice, Uint32;
    var take, parts := ValueTake(p), ValueParts(p, v);
    PartFits(pad, OfValue, place, parts, 0, 0);
    match v {
      case Words(text) =>
        forall s: seq<byte>, pos: nat | At(s, pos, Delimited(p.utf8(text)))
          ensures take(s, 10, pos, None) == Got(Some(v), pos + |Delimited(p.utf8(text))|)
        {
          StringRead(p, text, s, pos);
        }
        CarriesField(take, 10, Delimited(p.utf8(text)), None, Some(v));
      case Amount(number) =>
        forall s: seq<byte>, pos: nat | At(s, pos, number) ensures take(s, 17, pos, None) == Got(Some(v), pos + |number|) {
          FloatRead(number, s, pos);
        }
        CarriesField(take, 17, number, None, Some(v));
      case Flag(flag) =>
        var n := if flag then 1 else 0;
        forall s: seq<byte>, pos: nat | At(s, pos, Base128(n))
          ensures take(s, 24, pos, None) == Got(Some(v), pos + |Base128(n)|)
        {
          Uint32RoundTrip(s, pos, n);
        }
        CarriesField(take, 24, Base128(n), None, Some(v));
    }
    ValueSkips(p);
    assert Leads(take, parts, [None, Some(v)], 0);
    WeaveCarries(take, pad, OfValue, place, parts, [None, Some(v)], 0);
  }

  lemma EntryCarries(p: Platform, pad: Padding, place: seq<nat>, entry: (string, Scalar))
    requires Sound(p) && Harmless(pad) && |EntryBytes(p, pad, place, entry)| < TWO_TO_32
    ensures Carries(EntryTake(p), EntryBytes(p, pad, place, entry), NO_ENTRY, EntryState(entry.0, Some(entry.1)))
  {
    hide Carries, PrintAll, Message, Base128, Chunk, Slice, Uint32, ValueBytes;
    var take, parts := EntryTake(p), EntryParts(p, pad, place, entry);
    var a, b, d := NO_ENTRY, EntryState(entry.0, None), EntryState(entry.0, Some(entry.1));
    PartFits(pad, OfEntry, place, parts, 0, 0);
    PartFits(pad, OfEntry, place, parts, 0, 1);
    var key := p.utf8(entry.0);
    forall s: seq<byte>, pos: nat | At(s, pos, Delimited(key)) ensures take(s, 10, pos, a) == Got(b, pos + |Delimited(key)|) {
      StringRead(p, entry.0, s, pos);
    }
    CarriesField(take, 10, Delimited(key), a, b);
    var content := ValueBytes(p, pad, place + [1], entry.1);
    ValueCarries(p, pad, place + [1], entry.1);
    forall s: seq<byte>, pos: nat | At(s, pos, Delimited(content))
      ensures take(s, 18, pos, b) == Got(d, pos + |Delimited(content)|)
    {
      NestedRead(ValueTake(p), content, None, Some(entry.1), s, pos);
    }
    CarriesField(take, 18, Delimited(content), b, d);
    EntrySkips(p);
    assert Leads(take, parts, [a, b, d], 0) && Leads(take, parts, [a, b, d], 1);
    WeaveCarries(take, pad, OfEntry, place, parts, [a, b, d], 0);
  }

  // --- Spans.

  function WithString(a: SpanState, tag: nat, x: string): SpanState {
    match tag
    case 10 => a.(traceID := x)
    case 18 => a.(spanID := x)
    case 26 => a.(parentSpanID := x)
    case _ => a.(name := x)
  }

  lemma SpanString(p: Platform, tag: nat, x: string, a: SpanState)
    requires Sound(p) && tag in {10, 18, 26, 34} && |Optional(p, tag, x)| < TWO_TO_32 && WithString(a, tag, "") == a
    ensures Carries(SpanTake(p), Optional(p, tag, x), a, WithString(a, tag, x))
  {
    hide Carries, Message, Base128, Chunk, Slice, Uint32;
    var take, body, b := SpanTake(p), Delimited(p.utf8(x)), WithString(a, tag, x);
    if x == "" {
      CarriesNothing(take, a);
    } else {
      forall s: seq<byte>, pos: nat | At(s, pos, body) ensures take(s, tag, pos, a) == Got(b, pos + |body|) {
        StringRead(p, x, s, pos);
      }
      CarriesField(take, tag, body, a, b);
    }
  }

  function WithCode(a: SpanState, tag: nat, n: nat): SpanState {
    if tag == 40 then a.(kind := CodeKind(n)) else a.(status := if n == 2 then Failed else Fine)
  }

  lemma SpanCode(p: Platform, tag: nat, n: nat, a: SpanState)
    requires tag in {40, 64} && n < TWO_TO_32
    ensures Carries(SpanTake(p), Tagged(tag, Base128(n)), a, WithCode(a, tag, n))
  {
    hide Carries, Message, Base128, Chunk, Slice, Uint32;
    var take, body, b := SpanTake(p), Base128(n), WithCode(a, tag, n);
    forall s: seq<byte>, pos: nat | At(s, pos, body) ensures take(s, tag, pos, a) == Got(b, pos + |body|) {
      Uint32RoundTrip(s, pos, n);
    }
    CarriesField(take, tag, body, a, b);
  }

  lemma SpanFloat(p: Platform, tag: nat, d: Double, a: SpanState)
    requires tag in {49, 57}
    ensures Carries(SpanTake(p), Tagged(tag, d), a, if tag == 49 then a.(startTime := d) else a.(duration := d))
  {
    hide Carries, Message, Base128, Chunk, Slice, Uint32;
    var take, b := SpanTake(p), if tag == 49 then a.(startTime := d) else a.(duration := d);
    forall s: seq<byte>, pos: nat | At(s, pos, d) ensures take(s, tag, pos, a) == Got(b, pos + |d|) {
      FloatRead(d, s, pos);
    }
    CarriesField(take, tag, d, a, b);
  }

  function Folded(entries: seq<(string, Scalar)>): map<string, Scalar> {
    if entries == [] then map[]
    else
      var last := entries[|entries| - 1];
      WithEntry(Folded(entries[..|entries| - 1]), EntryState(last.0, Some(last.1)))
  }

  lemma SpanAttribute(p: Platform, pad: Padding, place: seq<nat>, entry: (string, Scalar), a: SpanState)
    requires Sound(p) && Harmless(pad) && |EntryBytes(p, pad, place, entry)| < TWO_TO_32
    ensures Carries(SpanTake(p), Tagged(74, Delimited(EntryBytes(p, pad, place, entry))), a,
                    a.(attributes := WithEntry(a.attributes, EntryState(entry.0, Some(entry.1)))))
  {
    hide Carries, Message, Base128, Chunk, Slice, Uint32, EntryBytes, WithEntry;
    var take, content, e := SpanTake(p), EntryBytes(p, pad, place, entry), EntryState(entry.0, Some(entry.1));
    var b := a.(attributes := WithEntry(a.attributes, e));
    EntryCarries(p, pad, place, entry);
    forall s: seq<byte>, pos: nat | At(s, pos, Delimited(content))
      ensures take(s, 74, pos, a) == Got(b, pos + |Delimited(content)|)
    {
      NestedRead(EntryTake(p), content, NO_ENTRY, e, s, pos);
    }
    CarriesField(take, 74, Delimited(content), a, b);
  }

  /** The decoder's locals once the fixed fields of a span are read. */
  function Plain(span: WireSpan): SpanState {
    SpanState(span.traceID, span.spanID, OrEmpty(span.parentSpanID), span.name, span.kind, span.startTime, span.duration,
              span.status, map[])
  }

  function FixedStates(span: WireSpan): (states: seq<SpanState>)
    ensures |states| == 8
  {
    var a1 := NO_SPAN.(traceID := span.traceID);
    var a2 := a1.(spanID := span.spanID);
    var a3 := a2.(parentSpanID := OrEmpty(span.parentSpanID));
    var a4 := a3.(name := span.name);
    var a5 := a4.(kind := span.kind);
    var a6 := a5.(startTime := span.startTime);
    [NO_SPAN, a1, a2, a3, a4, a5, a6, a6.(duration := span.duration)]
  }

  function SpanStates(span: WireSpan, entries: seq<(string, Scalar)>): seq<SpanState> {
    FixedStates(span)
    + seq(|entries| + 1, i requires 0 <= i <= |entries| => Plain(span).(attributes := Folded(entries[..i])))
  }

  lemma FixedLead(p: Platform, pad: Padding, place: seq<nat>, span: WireSpan, i: nat)
    requires Sound(p) && |SpanBytes(p, pad, place, span)| < TWO_TO_32 && i < 8
    ensures Leads(SpanTake(p), SpanParts(p, pad, place, span), SpanStates(span, EntriesOf(p, span)), i)
  {
    hide Carries, PrintAll, Message, Base128, AttributeParts, SpanTake, Weave;
    var parts, entries := SpanParts(p, pad, place, span), EntriesOf(p, span);
    var states := SpanStates(span, entries);
    assert Folded(entries[..0]) == map[];
    assert states[8] == Plain(span);
    PartFits(pad, OfSpan, place, parts, 0, i);
    assert parts[i] == ScalarParts(p, span)[i];
    if i == 0 { SpanString(p, 10, span.traceID, states[0]); }
    else if i == 1 { SpanString(p, 18, span.spanID, states[1]); }
    else if i == 2 { SpanString(p, 26, OrEmpty(span.parentSpanID), states[2]); }
    else if i == 3 { SpanString(p, 34, span.name, states[3]); }
    else if i == 4 { SpanCode(p, 40, KindCode(span.kind), states[4]); }
    else if i == 5 { SpanFloat(p, 49, span.startTime, states[5]); }
    else if i == 6 { SpanFloat(p, 57, span.duration, states[6]); }
    else { SpanCode(p, 64, StatusCode(span.status), states[7]); }
  }

  lemma AttributeLead(p: Platform, pad: Padding, place: seq<nat>, span: WireSpan, i: nat)
    requires Sound(p) && Harmless(pad) && |SpanBytes(p, pad, place, span)| < TWO_TO_32 && i < |EntriesOf(p, span)|
    ensures Leads(SpanTake(p), SpanParts(p, pad, place, span), SpanStates(span, EntriesOf(p, span)), 8 + i)
  {
    hide Carries, PrintAll, Message, Base128, ScalarParts, SpanTake, Weave, EntryBytes, WithEntry, EntriesOf;
    var parts, entries := SpanParts(p, pad, place, span), EntriesOf(p, span);
    var states := SpanStates(span, entries);
    PartFits(pad, OfSpan, place, parts, 0, 8 + i);
    assert parts[8 + i] == Tagged(74, Delimited(EntryBytes(p, pad, place + [8 + i], entries[i])));
    assert entries[..i + 1][..i] == entries[..i];
    SpanAttribute(p, pad, place + [8 + i], entries[i], states[8 + i]);
  }

  lemma SpanCarries(p: Platform, pad: Padding, place: seq<nat>, span: WireSpan)
    requires Sound(p) && Harmless(pad) && |SpanBytes(p, pad, place, span)| < TWO_TO_32
    ensures Carries(SpanTake(p), SpanBytes(p, pad, place, span), NO_SPAN,
                    Plain(span).(attributes := Folded(EntriesOf(p, span))))
  {
    hide Carries, PrintAll, Message, Base128, ScalarParts, SpanTake, Weave, EntryBytes, WithEntry, EntriesOf, Leads, Folded;
    var parts, entries := SpanParts(p, pad, place, span), EntriesOf(p, span);
    var states := SpanStates(span, entries);
    forall i: nat | 0 <= i < |parts| ensures Leads(SpanTake(p), parts, states, i) {
      if i < 8 { FixedLead(p, pad, place, span, i); } else { AttributeLead(p, pad, place, span, i - 8); }
    }
    SpanSkips(p);
    WeaveCarries(SpanTake(p), pad, OfSpan, place, parts, states, 0);
    assert entries[..|entries|] == entries;
  }

  lemma {:induction false} FoldedHas(entries: seq<(string, Scalar)>)
    requires forall i, j :: 0 <= i < j < |entries| ==> entries[i].0 != entries[j].0
    ensures forall i :: 0 <= i < |entries| && entries[i].0 != "" && entries[i].0 != "__proto__" ==>
              entries[i].0 in Folded(entries) && Folded(entries)[entries[i].0] == entries[i].1
    ensures forall key :: key in Folded(entries) ==>
              key != "" && key != "__proto__" && exists i :: 0 <= i < |entries| && entries[i].0 == key
  {
    if entries != [] {
      var front := entries[..|entries| - 1];
      FoldedHas(front);
      forall i | 0 <= i < |front| ensures front[i] == entries[i] {}
    }
  }

  lemma FoldedReturns(p: Platform, m: map<string, Scalar>)
    requires Sound(p)
    ensures Folded(p.entries(m)) == Returned(m)
  {
    hide Folded;
    var entries := p.entries(m);
    assert Lists(entries, m);
    FoldedHas(entries);
    forall key | key in Returned(m) ensures key in Folded(entries) && Folded(entries)[key] == m[key] {
      var i :| 0 <= i < |entries| && entries[i].0 == key;
    }
  }

  lemma SpanReturns(p: Platform, span: WireSpan)
    requires Sound(p)
    ensures SpanOf(Plain(span).(attributes := Folded(EntriesOf(p, span)))) == NormalSpan(span)
  {
    if span.attributes.Some? { FoldedReturns(p, span.attributes.value); }
  }

  // --- Batches, metrics, envelopes.

  function BatchStates(batch: Batch): (states: seq<BatchState>)
    ensures |states| == |batch.spans| + 3
  {
    var a1 := NO_BATCH.(serviceName := batch.serviceName);
    var a2 := a1.(nodeVersion := OrEmpty(batch.nodeVersion));
    [NO_BATCH, a1] + seq(|batch.spans| + 1, i requires 0 <= i <= |batch.spans| => a2.(spans := NormalSpans(batch.spans[..i])))
  }

  lemma BatchString(p: Platform, tag: nat, x: string, a: BatchState, b: BatchState)
    requires Sound(p) && tag in {10, 18} && |Optional(p, tag, x)| < TWO_TO_32
    requires b == if tag == 10 then a.(serviceName := x) else a.(nodeVersion := x)
    requires x == "" ==> a == b
    ensures Carries(BatchTake(p), Optional(p, tag, x), a, b)
  {
    hide Carries, Message, Base128, Chunk, Slice, Uint32;
    var take, body := BatchTake(p), Delimited(p.utf8(x));
    if x == "" {
      CarriesNothing(take, a);
    } else {
      forall s: seq<byte>, pos: nat | At(s, pos, body) ensures take(s, tag, pos, a) == Got(b, pos + |body|) {
        StringRead(p, x, s, pos);
      }
      CarriesField(take, tag, body, a, b);
    }
  }

  lemma BatchSpan(p: Platform, pad: Padding, place: seq<nat>, span: WireSpan, a: BatchState)
    requires Sound(p) && Harmless(pad) && |SpanBytes(p, pad, place, span)| < TWO_TO_32
    ensures Carries(BatchTake(p), Tagged(26, Delimited(SpanBytes(p, pad, place, span))), a,
                    a.(spans := a.spans + [NormalSpan(span)]))
  {
    hide Carries, Message, Base128, Chunk, Slice, Uint32, SpanBytes, SpanTake, Folded;
    var take, content := BatchTake(p), SpanBytes(p, pad, place, span);
    var b, read := a.(spans := a.spans + [NormalSpan(span)]), Plain(span).(attributes := Folded(EntriesOf(p, span)));
    SpanCarries(p, pad, place, span);
    SpanReturns(p, span);
    forall s: seq<byte>, pos: nat | At(s, pos, Delimited(content))
      ensures take(s, 26, pos, a) == Got(b, pos + |Delimited(content)|)
    {
      NestedRead(SpanTake(p), content, NO_SPAN, read, s, pos);
    }
    CarriesField(take, 26, Delimited(content), a, b);
  }

  lemma BatchLead(p: Platform, pad: Padding, place: seq<nat>, batch: Batch, i: nat)
    requires Sound(p) && Harmless(pad) && |BatchBytes(p, pad, place, batch)| < TWO_TO_32 && i < |batch.spans| + 2
    ensures Leads(BatchTake(p), BatchParts(p, pad, place, batch), BatchStates(batch), i)
  {
    hide Carries, PrintAll, Message, Base128, BatchTake, Weave, SpanBytes, NormalSpan;
    var parts, states := BatchParts(p, pad, place, batch), BatchStates(batch);
    PartFits(pad, OfBatch, place, parts, 0, i);
    if i == 0 {
      BatchString(p, 10, batch.serviceName, states[0], states[1]);
    } else if i == 1 {
      assert NormalSpans(batch.spans[..0]) == [];
      BatchString(p, 18, OrEmpty(batch.nodeVersion), states[1], states[2]);
    } else {
      var k := i - 2;
      assert parts[i] == Tagged(26, Delimited(SpanBytes(p, pad, place + [2 + k], batch.spans[k])));
      assert NormalSpans(batch.spans[..k + 1]) == NormalSpans(batch.spans[..k]) + [NormalSpan(batch.spans[k])];
      BatchSpan(p, pad, place + [2 + k], batch.spans[k], states[i]);
    }
  }

  lemma BatchCarries(p: Platform, pad: Padding, place: seq<nat>, batch: Batch) returns (read: BatchState)
    requires Sound(p) && Harmless(pad) && |BatchBytes(p, pad, place, batch)| < TWO_TO_32
    ensures Carries(BatchTake(p), BatchBytes(p, pad, place, batch), NO_BATCH, read) && BatchOf(read) == NormalBatch(batch)
  {
    hide Carries, PrintAll, Message, Base128, BatchTake, Weave, SpanBytes, Leads, NormalSpan;
    var parts, states := BatchParts(p, pad, place, batch), BatchStates(batch);
    forall i: nat | 0 <= i < |parts| ensures Leads(BatchTake(p), parts, states, i) {
      BatchLead(p, pad, place, batch, i);
    }
    BatchSkips(p);
    WeaveCarries(BatchTake(p), pad, OfBatch, place, parts, states, 0);
    assert batch.spans[..|batch.spans|] == batch.spans;
    read := states[|parts|];
  }

  function MetricsStates(m: Metrics): (states: seq<Metrics>)
    ensures |states| == 9
  {
    var a1 := NO_METRICS.(timestamp := m.timestamp);
    var a2 := a1.(serviceName := m.serviceName);
    var a3 := a2.(rssBytes := Wrapped(m.rssBytes));
    var a4 := a3.(heapUsedBytes := Wrapped(m.heapUsedBytes));
    var a5 := a4.(heapTotalBytes := Wrapped(m.heapTotalBytes));
    var a6 := a5.(cpuPercent := m.cpuPercent);
    var a7 := a6.(eventLoopUtilization := m.eventLoopUtilization);
    [NO_METRICS, a1, a2, a3, a4, a5, a6, a7, a7.(uptimeSeconds := m.uptimeSeconds)]
  }

  lemma MetricsFloat(p: Platform, tag: nat, d: Double, a: Metrics, b: Metrics)
    requires tag in {9, 49, 57, 65}
    requires b == match tag
                  case 9 => a.(timestamp := d)
                  case 49 => a.(cpuPercent := d)
                  case 57 => a.(eventLoopUtilization := d)
                  case _ => a.(uptimeSeconds := d)
    ensures Carries(MetricsTake(p), Tagged(tag, d), a, b)
  {
    hide Carries, Message, Base128, Chunk, Slice, Uint32, Uint64;
    var take := MetricsTake(p);
    forall s: seq<byte>, pos: nat | At(s, pos, d) ensures take(s, tag, pos, a) == Got(b, pos + |d|) {
      FloatRead(d, s, pos);
    }
    CarriesField(take, tag, d, a, b);
  }

  lemma MetricsCount(p: Platform, tag: nat, n: nat, a: Metrics, b: Metrics)
    requires tag in {24, 32, 40} && n < TWO_TO_64
    requires b == match tag
                  case 24 => a.(rssBytes := n)
                  case 32 => a.(heapUsedBytes := n)
                  case _ => a.(heapTotalBytes := n)
    ensures Carries(MetricsTake(p), Tagged(tag, Base128(n)), a, b)
  {
    hide Carries, Message, Base128, Chunk, Slice, Uint32, Uint64;
    var take := MetricsTake(p);
    forall s: seq<byte>, pos: nat | At(s, pos, Base128(n)) ensures take(s, tag, pos, a) == Got(b, pos + |Base128(n)|) {
      Uint64RoundTrip(s, pos, n);
    }
    CarriesField(take, tag, Base128(n), a, b);
  }

  lemma MetricsName(p: Platform, x: string, a: Metrics)
    requires Sound(p) && |Optional(p, 18, x)| < TWO_TO_32 && a.serviceName == ""
    ensures Carries(MetricsTake(p), Optional(p, 18, x), a, a.(serviceName := x))
  {
    hide Carries, Message, Base128, Chunk, Slice, Uint32, Uint64;
    var take, body, b := MetricsTake(p), Delimited(p.utf8(x)), a.(serviceName := x);
    if x == "" {
      CarriesNothing(take, a);
    } else {
      forall s: seq<byte>, pos: nat | At(s, pos, body) ensures take(s, 18, pos, a) == Got(b, pos + |body|) {
        StringRead(p, x, s, pos);
      }
      CarriesField(take, 18, body, a, b);
    }
  }

  lemma MetricsLead(p: Platform, m: Metrics, i: nat)
    requires Sound(p) && i < 8 && |MetricsParts(p, m)[i]| < TWO_TO_32
    ensures Leads(MetricsTake(p), MetricsParts(p, m), MetricsStates(m), i)
  {
    hide Carries, PrintAll, Message, Base128, MetricsTake;
    var states := MetricsStates(m);
    var a, b := states[i], states[i + 1];
    if i == 0 { MetricsFloat(p, 9, m.timestamp, a, b); }
    else if i == 1 { MetricsName(p, m.serviceName, a); }
    else if i == 2 { MetricsCount(p, 24, Wrapped(m.rssBytes), a, b); }
    else if i == 3 { MetricsCount(p, 32, Wrapped(m.heapUsedBytes), a, b); }
    else if i == 4 { MetricsCount(p, 40, Wrapped(m.heapTotalBytes), a, b); }
    else if i == 5 { MetricsFloat(p, 49, m.cpuPercent, a, b); }
    else if i == 6 { MetricsFloat(p, 57, m.eventLoopUtilization, a, b); }
    else { MetricsFloat(p, 65, m.uptimeSeconds, a, b); }
  }

  lemma MetricsCarries(p: Platform, pad: Padding, place: seq<nat>, m: Metrics)
    requires Sound(p) && Harmless(pad) && |MetricsBytes(p, pad, place, m)| < TWO_TO_32
    ensures Carries(MetricsTake(p), MetricsBytes(p, pad, place, m), NO_METRICS, NormalMetrics(m))
  {
    hide Carries, PrintAll, Message, Base128, MetricsTake, Weave, Leads, MetricsParts;
    var parts, states := MetricsParts(p, m), MetricsStates(m);
    forall i: nat | 0 <= i < |parts| ensures Leads(MetricsTake(p), parts, states, i) {
      PartFits(pad, OfMetrics, place, parts, 0, i);
      MetricsLead(p, m, i);
    }
    MetricsSkips(p);
    WeaveCarries(MetricsTake(p), pad, OfMetrics, place, parts, states, 0);
  }

  function TopOf(e: WireEnvelope): Top {
    match Normal(e).payload
    case Spans(batch) => Top(e.protocolVersion, Some(batch), None)
    case Runtime(metrics) => Top(e.protocolVersion, None, Some(metrics))
  }

  lemma PayloadCarries(p: Platform, pad: Padding, e: WireEnvelope)
    requires Sound(p) && Harmless(pad) && |PayloadPart(p, pad, [1], e.payload)| < TWO_TO_32
    ensures Carries(TopTake(p), PayloadPart(p, pad, [1], e.payload), NO_TOP.(protocolVersion := e.protocolVersion), TopOf(e))
  {
    hide Carries, Message, Base128, Chunk, Slice, Uint32, BatchBytes, MetricsBytes, BatchTake, MetricsTake;
    hide NormalBatch, NormalMetrics, BatchOf;
    var take, a, b := TopTake(p), NO_TOP.(protocolVersion := e.protocolVersion), TopOf(e);
    match e.payload
    case Spans(batch) =>
      var content := BatchBytes(p, pad, [1], batch);
      var read := BatchCarries(p, pad, [1], batch);
      forall s: seq<byte>, pos: nat | At(s, pos, Delimited(content))
        ensures take(s, 18, pos, a) == Got(b, pos + |Delimited(content)|)
      {
        NestedRead(BatchTake(p), content, NO_BATCH, read, s, pos);
      }
      CarriesField(take, 18, Delimited(content), a, b);
    case Runtime(m) =>
      var content := MetricsBytes(p, pad, [1], m);
      MetricsCarries(p, pad, [1], m);
      forall s: seq<byte>, pos: nat | At(s, pos, Delimited(content))
        ensures take(s, 26, pos, a) == Got(b, pos + |Delimited(content)|)
      {
        NestedRead(MetricsTake(p), content, NO_METRICS, NormalMetrics(m), s, pos);
      }
      CarriesField(take, 26, Delimited(content), a, b);
  }

  lemma EnvelopeCarries(p: Platform, pad: Padding, e: WireEnvelope)
    requires Sound(p) && Harmless(pad) && |EnvelopeBytes(p, pad, e)| < TWO_TO_32
    ensures Carries(TopTake(p), EnvelopeBytes(p, pad, e), NO_TOP, TopOf(e))
  {
    hide Carries, Message, Base128, Chunk, Slice, Uint32, PayloadPart, PrintAll, TopOf;
    var take, parts := TopTake(p), EnvelopeParts(p, pad, e);
    var a, b := NO_TOP, NO_TOP.(protocolVersion := e.protocolVersion);
    PartFits(pad, OfEnvelope, [], parts, 0, 0);
    PartFits(pad, OfEnvelope, [], parts, 0, 1);
    var body := Delimited(p.utf8(e.protocolVersion));
    forall s: seq<byte>, pos: nat | At(s, pos, body) ensures take(s, 10, pos, a) == Got(b, pos + |body|) {
      StringRead(p, e.protocolVersion, s, pos);
    }
    CarriesField(take, 10, body, a, b);
    PayloadCarries(p, pad, e);
    TopSkips(p);
    var states := [a, b, TopOf(e)];
    assert Leads(take, parts, states, 0) && Leads(take, parts, states, 1);
    WeaveCarries(take, pad, OfEnvelope, [], parts, states, 0);
  }

  /**
   * What a receiver decodes, whatever foreign fields, groups included, stand between the fields of any message: the
   * normal form of what was sent, or an error exactly when the sender speaks another version.
   */
  lemma RoundTrip(p: Platform, pad: Padding, e: WireEnvelope)
    requires Sound(p) && Harmless(pad) && |EnvelopeBytes(p, pad, e)| < TWO_TO_32
    ensures Decoded(p, EnvelopeBytes(p, pad, e)) ==
            if e.protocolVersion == VERSION then Ok(Normal(e)) else Err(UnsupportedVersion)
  {
    hide Carries, Message, EnvelopeBytes, TopTake;
    var s := EnvelopeBytes(p, pad, e);
    EnvelopeCarries(p, pad, e);
    CarriesAll(TopTake(p), s, NO_TOP, TopOf(e), s, 0);
  }

  lemma NormalIffClean(e: WireEnvelope)
    ensures Normal(e) == e <==> Clean(e)
  {
    match e.payload
    case Spans(batch) =>
      forall i | 0 <= i < |batch.spans| ensures NormalSpan(batch.spans[i]) == batch.spans[i] <==> CleanSpan(batch.spans[i]) {
        SpanNormalIffClean(batch.spans[i]);
      }
      if Clean(e) { assert NormalSpans(batch.spans) == batch.spans; }
    case Runtime(m) => CountKept(m.rssBytes); CountKept(m.heapUsedBytes); CountKept(m.heapTotalBytes);
  }

  lemma CountKept(n: int)
    ensures Wrapped(n) == n <==> Counts(n)
  {}

  lemma SpanNormalIffClean(span: WireSpan)
    ensures NormalSpan(span) == span <==> CleanSpan(span)
  {
    if span.attributes.Some? {
      var m := span.attributes.value;
      if "" in m || "__proto__" in m {
        assert Returned(m) != m;
      } else {
        assert Returned(m) == m;
      }
    }
  }

  /** Decoding gives back the very envelope that was encoded exactly when the version and every value are proper. */
  lemma RoundTripIff(p: Platform, pad: Padding, e: WireEnvelope)
    requires Sound(p) && Harmless(pad) && |EnvelopeBytes(p, pad, e)| < TWO_TO_32
    ensures Decoded(p, EnvelopeBytes(p, pad, e)) == Ok(e) <==> e.protocolVersion == VERSION && Clean(e)
  {
    hide Decoded, EnvelopeBytes, Clean, Normal;
    RoundTrip(p, pad, e);
    NormalIffClean(e);
  }

  const ODD_SPAN := WireSpan("t", "s", None, "n", Service, ZERO, ZERO, Fine, Some(map["__proto__" := Scalar.Flag(true)]))

  /** A span whose only attribute is called `__proto__` comes back without attributes. */
  lemma ProtoKeyLost(p: Platform, serviceName: string)
    requires Sound(p)
    requires |EnvelopeBytes(p, Bare(), WireEnvelope(VERSION, Spans(Batch(serviceName, None, [ODD_SPAN]))))| < TWO_TO_32
    ensures Decoded(p, EnvelopeBytes(p, Bare(), WireEnvelope(VERSION, Spans(Batch(serviceName, None, [ODD_SPAN])))))
         == Ok(WireEnvelope(VERSION, Spans(Batch(serviceName, None, [ODD_SPAN.(attributes := None)]))))
  {
    hide Decoded, EnvelopeBytes;
    RoundTrip(p, Bare(), WireEnvelope(VERSION, Spans(Batch(serviceName, None, [ODD_SPAN]))));
    assert Returned(map["__proto__" := Scalar.Flag(true)]) == map[];
    assert NormalSpans([ODD_SPAN]) == [ODD_SPAN.(attributes := None)];
  }
}
