/** The telemetry values that travel from admission to the topology engine. */
module Telemetry {

  datatype Option<+T> = None | Some(value: T)

  /** A success value or the error of the source, named by a constructor of `E`. */
  datatype Result<+T, +E> = Ok(value: T) | Err(error: E)

  function Elements<T>(s: seq<T>): set<T> {
    set x | x in s
  }

  /** An attribute value; a number carries the decimal text that the runtime prints for it. */
  datatype AttributeValue = Text(text: string) | Numeric(number: real, printed: string) | Flag(flag: bool)

  datatype Span = Span(
    traceID: string,
    spanID: string,
    parentSpanID: string,
    name: string,
    kind: string,
    startTime: real,
    duration: real,
    status: string,
    attributes: map<string, AttributeValue>)

  datatype SpanBatch = SpanBatch(serviceName: string, nodeVersion: string, spans: seq<Span>)

  datatype RuntimeMetrics = RuntimeMetrics(
    timestamp: real,
    serviceName: string,
    rssBytes: nat,
    heapUsedBytes: nat,
    heapTotalBytes: nat,
    cpuPercent: real,
    eventLoopUtilization: real,
    uptimeSeconds: real)

  datatype Envelope = Envelope(
    protocolVersion: string,
    spanBatch: Option<SpanBatch>,
    runtimeMetrics: Option<RuntimeMetrics>)
}
