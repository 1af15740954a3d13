/** src/validation.rs: the checks a message must pass before it reaches the cache. */
module Validation {
  import opened Messages

  datatype ValidationError =
    | IoaOutOfRange | CaOutOfRange | TimestampBeforeEpoch
    | NormalizedOutOfRange | NormalizedNotNumeric | PointNotBoolean

  datatype Verdict = Pass | Fail(error: ValidationError) {
    predicate IsFailure() { Fail? }
    function PropagateFailure(): Verdict
      requires Fail?
    { this }
  }

  function ValidateMessage(msg: Message): Verdict {
    var Message(ioa, _, _, ca, _, _, _) := msg;
    :- ValidateIoa(ioa);
    :- ValidateCa(ca);
    :- ValidateTimestamp(msg.timestamp);
    :- ValidateNormalizedValue(msg.dataType, msg.value);
    :- ValidateBooleanPointValue(msg.dataType, msg.value);
    Pass
  }

  function ValidateIoa(ioa: u32): Verdict {
    if !(1 <= ioa <= 16_777_215) then Fail(IoaOutOfRange) else Pass
  }

  function ValidateCa(ca: Option<u16>): Verdict {
    if ca.Some? && !(1 <= ca.value <= 65_534) then Fail(CaOutOfRange) else Pass
  }

  function ValidateTimestamp(timestamp: Option<Nanos>): Verdict {
    if timestamp.Some? && timestamp.value < 0 then Fail(TimestampBeforeEpoch) else Pass
  }

  function ValidateNormalizedValue(dataType: Option<DataType>, value: DataValue): Verdict {
    if dataType != Some(Normalized) then Pass
    else match value
      case Number(n) => if -1.0 <= n <= 1.0 then Pass else Fail(NormalizedOutOfRange)
      case Bool(_) => Fail(NormalizedNotNumeric)
  }

  function ValidateBooleanPointValue(dataType: Option<DataType>, value: DataValue): Verdict {
    if dataType != Some(SinglePoint) && dataType != Some(DoublePoint) then Pass
    else if value.Bool? then Pass
    else Fail(PointNotBoolean)
  }

  predicate Valid(msg: Message) {
    ValidateMessage(msg).Pass?
  }

  /** A point type goes with booleans only, a normalized type with -1..1 only. */
  predicate ValueFits(dataType: Option<DataType>, value: DataValue) {
    match dataType
    case None => true
    case Some(Float) => true
    case Some(Scaled) => true
    case Some(Normalized) => value.Number? && -1.0 <= value.number <= 1.0
    case Some(SinglePoint) => value.Bool?
    case Some(DoublePoint) => value.Bool?
  }

  /** What the five checks demand together, whichever comes first. */
  lemma ValidIff(msg: Message)
    ensures Valid(msg) <==>
              && 0 < msg.ioa < 0x100_0000
              && msg.ca !in {Some(0), Some(65535)}
              && (msg.timestamp.Some? ==> msg.timestamp.value >= 0)
              && ValueFits(msg.dataType, msg.value)
  {
    assert msg.ca.Some? ==> 0 <= msg.ca.value < 65536;
  }
}
