/** src/bridge.rs and src/asdu.rs: from a cached message to the one-object ASDU that leaves the bridge. */
module Shaping {
  import opened Messages

  // Quality descriptor bits (section 7.2.6.3 of IEC 60870-5-101).
  const NT: byte := 0x40

  function MapQuality(q: QualityField): byte {
    match q
    case Good => 0x00
    case Invalid => 0x80
    case NotTopical => 0x40
    case Substituted => 0x20
    case Blocked => 0x10
    case Overflow => 0x01
  }

  predicate HasNt(quality: byte) {
    (quality / NT) % 2 == 1
  }

  /** `quality |= NOT_TOPICAL` */
  function AddNt(quality: byte): byte {
    if HasNt(quality) then quality else quality + NT
  }

  /** Cause of transmission numbers (section 7.2.3 of IEC 60870-5-101). */
  function MapCot(cot: CotField): byte {
    match cot
    case Spontaneous => 3
    case Periodic => 1
    case BackgroundScan => 2
    case Interrogated => 20
    case ReturnInfoRemote => 11
    case ReturnInfoLocal => 12
  }

  // ---- type inference ----

  function Truncate(r: real): int {
    if r >= 0.0 then r.Floor else -(-r).Floor
  }

  predicate IsScaledNumber(value: real) {
    value - Truncate(value) as real == 0.0 && -32768.0 <= value <= 32767.0
  }

  function InferType(value: DataValue): DataType {
    match value
    case Bool(_) => SinglePoint
    case Number(n) => if IsScaledNumber(n) then Scaled else Float
  }

  // ---- output policy ----

  datatype OutputPolicy = OutputPolicy(sendTimestamps: bool, maxAge: Option<nat>)

  datatype Outgoing = Outgoing(message: Message, notTopical: bool)

  predicate OlderThanLimit(t: Nanos, now: Nanos, maxAge: nat) {
    now - t > maxAge
  }

  function PrepareForOutput(msg: Message, receivedAt: Nanos, now: Nanos, policy: OutputPolicy): Outgoing {
    var notTopical :=
      policy.maxAge.Some? &&
      var maxAge := policy.maxAge.value;
      var stale := OlderThanLimit(receivedAt, now, maxAge)
                   || (msg.timestamp.Some? && OlderThanLimit(msg.timestamp.value, now, maxAge));
      stale && msg.quality != Invalid;
    var message := if policy.sendTimestamps then msg else msg.(timestamp := None);
    Outgoing(message, notTopical)
  }

  // ---- dispatch ----

  datatype DispatchContext = DispatchContext(
    ca: u16, ioa: u32, quality: byte, cot: byte, dataType: DataType, timestampMs: Option<nat>)

  function ContextFromMessage(msg: Message, defaultCa: u16): DispatchContext {
    DispatchContext(
      msg.ca.UnwrapOr(defaultCa),
      msg.ioa,
      MapQuality(msg.quality),
      MapCot(msg.cot),
      if msg.dataType.Some? then msg.dataType.value else InferType(msg.value),
      if msg.timestamp.Some? then Some(ToCp56Millis(msg.timestamp.value)) else None)
  }

  const TWO_TO_64: int := 0x1_0000_0000_0000_0000

  /** `unix_timestamp_nanos() as u64 / 1_000_000`: the cast keeps the low 64 bits. */
  function ToCp56Millis(nanos: Nanos): nat {
    (nanos % TWO_TO_64) / 1_000_000
  }

  /** What a `DataSink` is asked to send. */
  datatype SinkCall =
    | SendSinglePoint(cot: byte, ca: u16, ioa: u32, on: bool, quality: byte)
    | SendMeasuredFloat(cot: byte, ca: u16, ioa: u32, bits: Bits32, quality: byte)
    | SendMeasuredScaled(cot: byte, ca: u16, ioa: u32, raw: i16, quality: byte)
    | EnqueueTimed(cot: byte, ca: u16, ioa: u32, value: DataValue, dataType: DataType, quality: byte, stampMs: nat)

  function OutgoingContext(out: Outgoing, defaultCa: u16): DispatchContext {
    var context := ContextFromMessage(out.message, defaultCa);
    if out.notTopical then context.(quality := AddNt(context.quality)) else context
  }

  function DispatchOutgoing(p: Platform, out: Outgoing, defaultCa: u16): SinkCall {
    DispatchContextCall(p, OutgoingContext(out, defaultCa), out.message.value)
  }

  function DispatchContextCall(p: Platform, c: DispatchContext, value: DataValue): SinkCall {
    match c.dataType
    case SinglePoint => DispatchSinglePoint(c, value)
    case Float => DispatchFloatLike(p, c, value)
    case Normalized => DispatchFloatLike(p, c, value)
    case Scaled => DispatchScaled(c, value)
    case DoublePoint => DispatchDoublePoint(c, value)
  }

  function DispatchSinglePoint(c: DispatchContext, value: DataValue): SinkCall {
    if c.timestampMs.Some?
    then EnqueueTimed(c.cot, c.ca, c.ioa, value, SinglePoint, c.quality, c.timestampMs.value)
    else SendSinglePoint(c.cot, c.ca, c.ioa, AsSinglePointValue(value), c.quality)
  }

  function DispatchFloatLike(p: Platform, c: DispatchContext, value: DataValue): SinkCall {
    if c.timestampMs.Some?
    then EnqueueTimed(c.cot, c.ca, c.ioa, value, c.dataType, c.quality, c.timestampMs.value)
    else SendMeasuredFloat(c.cot, c.ca, c.ioa, AsFloatValue(p, value), c.quality)
  }

  function DispatchScaled(c: DispatchContext, value: DataValue): SinkCall {
    if c.timestampMs.Some?
    then EnqueueTimed(c.cot, c.ca, c.ioa, value, Scaled, c.quality, c.timestampMs.value)
    else SendMeasuredScaled(c.cot, c.ca, c.ioa, AsScaledValue(value), c.quality)
  }

  function DispatchDoublePoint(c: DispatchContext, value: DataValue): SinkCall {
    DispatchSinglePoint(c, value)
  }

  function AsSinglePointValue(value: DataValue): bool {
    match value
    case Bool(b) => b
    case Number(n) => n != 0.0
  }

  function AsFloatValue(p: Platform, value: DataValue): Bits32 {
    match value
    case Bool(b) => if b then p.toF32(1.0) else p.toF32(0.0)
    case Number(n) => p.toF32(n)
  }

  function Clamp(r: real, low: real, high: real): real
    requires low <= high
  {
    if r < low then low else if r > high then high else r
  }

  function AsScaledValue(value: DataValue): i16 {
    match value
    case Bool(b) => if b then 1 else 0
    case Number(n) => Truncate(Clamp(n, -32768.0, 32767.0))
  }

  // ---- information objects (src/asdu.rs) ----

  datatype Carried =
    | CarriedSingle(on: bool) | CarriedDouble(on: bool) | CarriedScaled(raw: int) | CarriedFloat(bits: Bits32)

  // Type identifications (section 7.2.1.1 of IEC 60870-5-101).
  const M_SP_NA_1: byte := 1
  const M_ME_NA_1: byte := 9
  const M_ME_NB_1: byte := 11
  const M_ME_NC_1: byte := 13
  const M_SP_TB_1: byte := 30
  const M_DP_TB_1: byte := 31
  const M_ME_TD_1: byte := 34
  const M_ME_TE_1: byte := 35
  const M_ME_TF_1: byte := 36

  datatype InformationObject = InformationObject(
    typeId: byte, ioa: u32, carried: Carried, quality: byte, stampMs: Option<nat>)

  /** An ASDU with exactly one information object. */
  datatype Asdu = Asdu(cot: byte, ca: u16, io: InformationObject)

  /** `create_information_object`, the timed conversions. */
  function CreateInformationObject(
    p: Platform, ioa: u32, value: DataValue, dataType: DataType, quality: byte, ms: nat): InformationObject
  {
    match dataType
    case SinglePoint =>
      InformationObject(M_SP_TB_1, ioa, CarriedSingle(TimedOn(value)), quality, Some(ms))
    case DoublePoint =>
      InformationObject(M_DP_TB_1, ioa, CarriedDouble(TimedOn(value)), quality, Some(ms))
    case Scaled =>
      var raw := match value
        case Bool(true) => 1
        case Bool(false) => 0
        case Number(n) => Truncate(Clamp(n, -32768.0, 32767.0));
      InformationObject(M_ME_TE_1, ioa, CarriedScaled(raw), quality, Some(ms))
    case Float =>
      InformationObject(M_ME_TF_1, ioa, CarriedFloat(TimedFloat(p, value)), quality, Some(ms))
    case Normalized =>
      InformationObject(M_ME_TD_1, ioa, CarriedFloat(TimedFloat(p, value)), quality, Some(ms))
  }

  predicate TimedOn(value: DataValue) {
    value == Bool(true) || (value.Number? && value.number != 0.0)
  }

  function TimedFloat(p: Platform, value: DataValue): Bits32 {
    match value
    case Bool(true) => p.toF32(1.0)
    case Bool(false) => p.toF32(0.0)
    case Number(n) => p.toF32(n)
  }

  /** The one-object ASDU a sink builds for a call. */
  function SingleObjectAsdu(p: Platform, call: SinkCall): Asdu {
    match call
    case SendSinglePoint(cot, ca, ioa, on, q) =>
      Asdu(cot, ca, InformationObject(M_SP_NA_1, ioa, CarriedSingle(on), q, None))
    case SendMeasuredFloat(cot, ca, ioa, bits, q) =>
      Asdu(cot, ca, InformationObject(M_ME_NC_1, ioa, CarriedFloat(bits), q, None))
    case SendMeasuredScaled(cot, ca, ioa, raw, q) =>
      Asdu(cot, ca, InformationObject(M_ME_NB_1, ioa, CarriedScaled(raw), q, None))
    case EnqueueTimed(cot, ca, ioa, value, dataType, q, ms) =>
      Asdu(cot, ca, CreateInformationObject(p, ioa, value, dataType, q, ms))
  }

  function OutgoingAsdu(p: Platform, out: Outgoing, defaultCa: u16): Asdu {
    SingleObjectAsdu(p, DispatchOutgoing(p, out, defaultCa))
  }

  // ---- properties ----

  function UntimedCounterpart(typeId: byte): byte {
    if typeId == M_SP_TB_1 then M_SP_NA_1
    else if typeId == M_ME_TD_1 then M_ME_NA_1
    else if typeId == M_ME_TE_1 then M_ME_NB_1
    else if typeId == M_ME_TF_1 then M_ME_NC_1
    else typeId
  }

  function EffectiveType(msg: Message): DataType {
    if msg.dataType.Some? then msg.dataType.value else InferType(msg.value)
  }

  /** Turning timestamps off keeps everything but the time tag; only a normalized point changes type. */
  lemma TimedAndUntimedAgree(p: Platform, out: Outgoing, defaultCa: u16)
    requires out.message.timestamp.Some?
    ensures
      var timed := OutgoingAsdu(p, out, defaultCa);
      var bare := OutgoingAsdu(p, out.(message := out.message.(timestamp := None)), defaultCa);
      && timed.ca == bare.ca && timed.cot == bare.cot
      && timed.io.ioa == bare.io.ioa && timed.io.quality == bare.io.quality
      && timed.io.carried == bare.io.carried
      && timed.io.stampMs.Some? && bare.io.stampMs.None?
      && (UntimedCounterpart(timed.io.typeId) == bare.io.typeId <==> EffectiveType(out.message) != Normalized)
      && (EffectiveType(out.message) == Normalized ==> timed.io.typeId == M_ME_TD_1 && bare.io.typeId == M_ME_NC_1)
  {
  }

  /** `create_information_object` can make a double point; `dispatch_context` never asks it to. */
  lemma NoDoublePointLeaves(p: Platform, out: Outgoing, defaultCa: u16)
    ensures var io := OutgoingAsdu(p, out, defaultCa).io; io.typeId != M_DP_TB_1 && !io.carried.CarriedDouble?
  {
  }

  lemma TruncateMonotone(a: real, b: real)
    requires a <= b
    ensures Truncate(a) <= Truncate(b)
  {
  }

  /** Clamp first, then cut toward zero. */
  lemma ScaledIsClampedTruncation(n: real)
    ensures -32768 <= AsScaledValue(Number(n)) <= 32767
    ensures n >= 32767.0 ==> AsScaledValue(Number(n)) == 32767
    ensures n <= -32768.0 ==> AsScaledValue(Number(n)) == -32768
    ensures 0.0 <= n <= 32767.0 ==> AsScaledValue(Number(n)) as real <= n < AsScaledValue(Number(n)) as real + 1.0
    ensures -32768.0 <= n <= 0.0 ==> AsScaledValue(Number(n)) as real - 1.0 < n <= AsScaledValue(Number(n)) as real
  {
  }

  lemma ScaledMonotone(a: real, b: real)
    requires a <= b
    ensures AsScaledValue(Number(a)) <= AsScaledValue(Number(b))
  {
    TruncateMonotone(Clamp(a, -32768.0, 32767.0), Clamp(b, -32768.0, 32767.0));
  }

  /** A number goes out unchanged as a scaled value exactly when inference would have picked that type. */
  lemma ScaledExactIffInferred(n: real)
    ensures AsScaledValue(Number(n)) as real == n <==> InferType(Number(n)) == Scaled
  {
  }

  /** Rounding to the nearest integer, halves away from zero. */
  function RoundHalfAway(r: real): int {
    if r >= 0.0 then (r + 0.5).Floor else -(-r + 0.5).Floor
  }

  /**
   * The documentation says scaled values are rounded and clamped; the code clamps and cuts toward zero. The two
   * agree exactly on inputs whose clamped fraction is under a half; on the others the code is one short.
   */
  lemma ScaledIsRoundedIff(n: real)
    ensures var c := Clamp(n, -32768.0, 32767.0);
            var cut := AsScaledValue(Number(n));
            && (cut == RoundHalfAway(c) <==> -0.5 < c - Truncate(c) as real < 0.5)
            && RoundHalfAway(c) - cut in {-1, 0, 1}
            && (RoundHalfAway(c) > cut ==> n > 0.0) && (RoundHalfAway(c) < cut ==> n < 0.0)
            && RoundHalfAway(c) == Clamp(RoundHalfAway(n) as real, -32768.0, 32767.0).Floor
  {
    var c := Clamp(n, -32768.0, 32767.0);
    assert -32768 <= RoundHalfAway(c) <= 32767;
  }

  /** An input on either side of zero that is not rounded. */
  lemma ScaledIsNotRounded()
    ensures AsScaledValue(Number(2.75)) == 2 && RoundHalfAway(2.75) == 3
    ensures AsScaledValue(Number(-2.75)) == -2 && RoundHalfAway(-2.75) == -3
  {
    assert (2.75 as real).Floor == 2 && (3.25 as real).Floor == 3;
  }

  /** The millisecond count handed to the library is exact from the epoch up to the 64-bit cast. */
  lemma StampExactIff(nanos: Nanos)
    ensures ToCp56Millis(nanos) == nanos / 1_000_000 <==> 0 <= nanos < 0x1_0000_0000_0000_0000
  {
  }

  // ---- staleness ----

  /** A later look at the same cached point never clears an added NT bit. */
  lemma NtNeverClears(msg: Message, receivedAt: Nanos, earlier: Nanos, later: Nanos, policy: OutputPolicy)
    requires earlier <= later
    requires PrepareForOutput(msg, receivedAt, earlier, policy).notTopical
    ensures PrepareForOutput(msg, receivedAt, later, policy).notTopical
  {
  }

  lemma NtNeverAddedToInvalid(p: Platform, msg: Message, receivedAt: Nanos, now: Nanos, policy: OutputPolicy, ca: u16)
    requires msg.quality == Invalid
    ensures OutgoingAsdu(p, PrepareForOutput(msg, receivedAt, now, policy), ca).io.quality == 0x80
  {
  }

  /** A spontaneous send looks at the arrival clock twice, so only the source time can make it stale. */
  lemma SpontaneousNtFromSourceTime(msg: Message, now: Nanos, policy: OutputPolicy)
    ensures PrepareForOutput(msg, now, now, policy).notTopical
       <==> policy.maxAge.Some? && msg.quality != Invalid && msg.timestamp.Some?
            && now - msg.timestamp.value > policy.maxAge.value
  {
  }
}
