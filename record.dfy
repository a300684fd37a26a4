/**
 * The normalized record handed to delivery handlers, and the pure field
 * mapping that builds one from a context, a source name, a payload, a clock
 * reading and an idempotency key.
 */
module Records {
  import opened Wrappers
  import opened Values

  /** `Record`: the unit of delivery. Empty strings are Go's zero values. */
  datatype Record = Record(
    source: string,
    destination: string,
    time: Time,
    traceID: string,
    idempotencyKey: string,
    sequenceID: string,
    tenantID: string,
    dataClassification: string,
    data: Value)

  /** The function a client holds in `timeNow`: the system clock
      (`time.Now`) or a fixed one, as tests inject. */
  datatype Clock = SystemClock | FixedClock(at: Time)

  /** The function a client holds in `newUUID`: `uuid.NewString` or a
      fixed key. */
  datatype KeySource = RandomUuid | FixedKey(key: string)

  /** Calling a clock. `reading` is what the system clock shows at the call:
      the clock itself is outside the model. */
  function ReadClock(c: Clock, reading: Time): (t: Time)
    ensures c.FixedClock? ==> t == c.at
    ensures c.SystemClock? ==> t == reading
  {
    match c
    case SystemClock => reading
    case FixedClock(at) => at
  }

  /** Calling a key source. `drawn` is the fresh random UUID string the
      generator would return. */
  function DrawKey(k: KeySource, drawn: string): (key: string)
    ensures k.FixedKey? ==> key == k.key
    ensures k.RandomUuid? ==> key == drawn
  {
    match k
    case RandomUuid => drawn
    case FixedKey(key) => key
  }

  /** The trace id carried by a context: the decimal trace id of its span,
      or empty when it carries no span. */
  function TraceIdOf(ctx: Context): (id: string)
    ensures id == "" <==> ctx.span.None?
    ensures ctx.span.Some? ==> ParseDecimal(id) == ctx.span.value as nat
    ensures forall i :: 0 <= i < |id| ==> '0' <= id[i] <= '9'
    ensures |id| > 1 ==> id[0] != '0'
  {
    match ctx.span
    case None => ""
    case Some(t) => ParseDecimalOfDecimal(t as nat); Decimal(t as nat)
  }

  /** The record `newRecord` returns once the clock has been read (`now`)
      and a key drawn (`key`): source and payload unchanged, the time in
      UTC, the trace id from the context, the key as drawn, and every other
      field empty. */
  function BuildRecord(ctx: Context, source: string, data: Value, now: Time, key: string): (r: Record)
    ensures r.source == source && r.data == data
    ensures r.time.unixNano == now.unixNano && r.time.offset == 0
    ensures r.idempotencyKey == key
    ensures r.traceID == "" <==> ctx.span.None?
    ensures ctx.span.Some? ==> ParseDecimal(r.traceID) == ctx.span.value as nat
    ensures forall i :: 0 <= i < |r.traceID| ==> '0' <= r.traceID[i] <= '9'
    ensures |r.traceID| > 1 ==> r.traceID[0] != '0'
    ensures r.traceID == TraceIdOf(ctx)
    ensures r.destination == "" && r.sequenceID == "" && r.tenantID == "" && r.dataClassification == ""
  {
    Record(
      source := source,
      destination := "",
      time := UTC(now),
      traceID := TraceIdOf(ctx),
      idempotencyKey := key,
      sequenceID := "",
      tenantID := "",
      dataClassification := "",
      data := data)
  }
}
