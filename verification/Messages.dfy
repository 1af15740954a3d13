/** The message schema of src/message.rs, plus the small vocabulary every module shares. */
module Messages {
  type byte = x: int | 0 <= x < 256
  type u16 = x: int | 0 <= x < 0x1_0000
  type u32 = x: int | 0 <= x < 0x1_0000_0000
  type i16 = x: int | -0x8000 <= x < 0x8000

  /** An f32 is opaque: only its four octets are visible. */
  type Bits32 = s: seq<byte> | |s| == 4 witness [0, 0, 0, 0]

  /** A CP56Time2a time tag: seven octets. */
  type Stamp = s: seq<byte> | |s| == 7 witness [0, 0, 0, 0, 0, 0, 0]

  datatype Option<+T> = None | Some(value: T) {
    function UnwrapOr(default: T): T {
      if Some? then value else default
    }
  }

  datatype DataValue = Bool(on: bool) | Number(number: real)

  datatype DataType = Float | Scaled | Normalized | SinglePoint | DoublePoint

  datatype QualityField = Good | Invalid | NotTopical | Substituted | Blocked | Overflow

  datatype CotField =
    | Spontaneous | Periodic | BackgroundScan | Interrogated | ReturnInfoRemote | ReturnInfoLocal

  /** An `OffsetDateTime` is its distance to the Unix epoch in nanoseconds. */
  type Nanos = int

  datatype Message = Message(
    ioa: u32,
    value: DataValue,
    dataType: Option<DataType>,
    ca: Option<u16>,
    quality: QualityField,
    cot: CotField,
    timestamp: Option<Nanos>)

  /** The bits of a time tag that are not part of the date: IV, GEN, SU, day of week, and the reserved ones. */
  datatype Extras = Extras(invalid: bool, substituted: bool, summerTime: bool, hourSpare: int, dayOfWeek: int, monthSpare: int, yearSpare: bool)

  predicate ValidExtras(x: Extras) {
    0 <= x.hourSpare < 4 && 0 <= x.dayOfWeek < 8 && 0 <= x.monthSpare < 16
  }

  type TagBits = x: Extras | ValidExtras(x) witness Extras(false, false, false, 0, 0, 0, false)

  /** What the library decides: `as f32`, the normalized encoding, and the spare bits of a time tag. */
  datatype Platform = Platform(toF32: real -> Bits32, normalize: Bits32 -> i16, tagBits: nat -> TagBits)

  /** Octets put together, low one first. */
  function Le2(b0: int, b1: int): int { b0 + 256 * b1 }

  function Le3(b0: int, b1: int, b2: int): int { b0 + 256 * b1 + 65536 * b2 }
}
