/** demo/scraper/print_messages.py: `decode_asdu` and `decode_value`. */
module PrintDecoder {
  import opened Calendar
  import opened Messages
  import opened Wire
  import opened TimeTag

  /** A Python value: normalized values are `raw / 32767.0`, short floats stay opaque. */
  datatype PyValue = PyBool(on: bool) | PyFraction(fraction: real) | PyInt(n: int) | PyFloat(bits: Bits32)

  datatype Printed = Printed(
    ca: int, ioa: int, typeId: byte, cot: int, value: PyValue, qds: byte, timestamp: Option<DateTime>)

  /** `decode_value`: a value and the octets it takes, None for an unknown type, or IndexError / struct.error. */
  datatype ValueResult = Value(value: PyValue, consumed: nat) | NoValue | TooShort

  function UnpackI16(lo: byte, hi: byte): i16 {
    var n := Le2(lo, hi);
    if n >= 32768 then n - 65536 else n
  }

  /** `decode_value(type_id, asdu[offset:])` */
  function DecodeValue(typeId: byte, asdu: seq<byte>, offset: nat): (r: ValueResult)
    requires offset <= |asdu|
    ensures r.Value? ==> r.consumed >= 1
  {
    var payload := |asdu| - offset;
    if IsSingle(typeId) then
      if payload < 1 then TooShort else Value(PyBool(asdu[offset] % 2 == 1), 1)
    else if IsNormalized(typeId) then
      if payload < 2 then TooShort
      else Value(PyFraction(UnpackI16(asdu[offset], asdu[offset + 1]) as real / 32767.0), 3)
    else if IsScaled(typeId) then
      if payload < 2 then TooShort else Value(PyInt(UnpackI16(asdu[offset], asdu[offset + 1])), 3)
    else if IsShort(typeId) then
      if payload < 4 then TooShort else Value(PyFloat(asdu[offset..offset + 4]), 5)
    else NoValue
  }

  /** The fields read once from the ASDU header. */
  datatype Fields = Fields(typeId: byte, sq: bool, cot: int, ca: int)

  /** The messages decoded when the loop ends, and whether it ended in an exception. */
  datatype Trace = Trace(points: seq<Printed>, raised: bool)

  /** One turn of the loop: it stops, fails, or reads an object and moves on. */
  datatype Turn = Stop | Fail | Read(printed: Printed, next: nat)

  function ReadObject(f: Fields, first: bool, ioa: int, asdu: seq<byte>, offset: nat): (turn: Turn)
    ensures turn.Read? ==> turn.next <= |asdu|
  {
    if offset + 3 > |asdu| then Stop
    else if first || !f.sq then
      ReadElement(f, Le3(asdu[offset], asdu[offset + 1], asdu[offset + 2]), asdu, offset + 3)
    else
      ReadElement(f, ioa + 1, asdu, offset)
  }

  function ReadElement(f: Fields, ioa: int, asdu: seq<byte>, offset: nat): (turn: Turn)
    requires offset <= |asdu|
    ensures turn.Read? ==> turn.next <= |asdu| && turn.printed.ioa == ioa
  {
    match DecodeValue(f.typeId, asdu, offset)
    case TooShort => Fail
    case NoValue => Stop
    case Value(value, consumed) =>
      var end := offset + consumed;
      if end > |asdu| then Stop
      else
        var printed := Printed(f.ca, ioa, f.typeId, f.cot, value, asdu[end - 1], None);
        if !IsTimed(f.typeId) then Read(printed, end)
        else if end + 7 > |asdu| then Stop
        else Read(printed.(timestamp := Some(DecodeCp56(asdu[end..end + 7]))), end + 7)
  }

  /** The loop from some iteration on. */
  function ReadFrom(f: Fields, decoded: seq<Printed>, ioa: int, count: nat, asdu: seq<byte>, offset: nat): Trace
    decreases count
  {
    if count == 0 then Trace(decoded, false)
    else match ReadObject(f, decoded == [], ioa, asdu, offset)
      case Stop => Trace(decoded, false)
      case Fail => Trace(decoded, true)
      case Read(printed, next) => ReadFrom(f, decoded + [printed], printed.ioa, count - 1, asdu, next)
  }

  function HeaderFields(asdu: seq<byte>): Fields
    requires |asdu| >= 6
  {
    Fields(asdu[0], asdu[1] >= 128, asdu[2] % 64, Le2(asdu[4], asdu[5]))
  }

  function DecodeAsdu(asdu: seq<byte>): Trace {
    if |asdu| < 6 then Trace([], false)
    else ReadFrom(HeaderFields(asdu), [], 0, asdu[1] % 128, asdu, 6)
  }

  /** One turn of the loop, with its early exits. */
  method RunTurn(f: Fields, index: nat, lastIoa: int, asdu: seq<byte>, start: nat) returns (turn: Turn)
    ensures turn == ReadObject(f, index == 0, lastIoa, asdu, start)
  {
    var ioa, offset := lastIoa, start;
    if offset + 3 > |asdu| { return Stop; }
    if index == 0 || !f.sq {
      ioa := Le3(asdu[offset], asdu[offset + 1], asdu[offset + 2]);
      offset := offset + 3;
    } else {
      ioa := ioa + 1;
    }
    var v := DecodeValue(f.typeId, asdu, offset);
    if v.TooShort? { return Fail; }
    if v.NoValue? || offset + v.consumed > |asdu| { return Stop; }
    var qds := asdu[offset + v.consumed - 1];
    offset := offset + v.consumed;
    var timestamp := None;
    if IsTimed(f.typeId) {
      if offset + 7 > |asdu| { return Stop; }
      timestamp := Some(DecodeCp56(asdu[offset..offset + 7]));
      offset := offset + 7;
    }
    return Read(Printed(f.ca, ioa, f.typeId, f.cot, v.value, qds, timestamp), offset);
  }

  /** The loop itself. `raised` means that Python left it with an exception and returned nothing. */
  method RunDecodeAsdu(asdu: seq<byte>) returns (decoded: seq<Printed>, raised: bool)
    ensures Trace(decoded, raised) == DecodeAsdu(asdu)
  {
    decoded, raised := [], false;
    if |asdu| < 6 { return; }
    var f := HeaderFields(asdu);
    var count := asdu[1] % 128;
    var offset, ioa, index := 6, 0, 0;
    while index < count
      invariant 0 <= index <= count && 6 <= offset <= |asdu|
      invariant !raised
      invariant index == |decoded|
      invariant ReadFrom(f, decoded, ioa, count - index, asdu, offset) == DecodeAsdu(asdu)
    {
      var turn := RunTurn(f, index, ioa, asdu, offset);
      if turn.Stop? { return; }
      if turn.Fail? { raised := true; return; }
      decoded := decoded + [turn.printed];
      ioa := turn.printed.ioa;
      offset := turn.next;
      index := index + 1;
    }
  }

  // ---- inversion ----

  function ValueOf(e: Element): PyValue {
    match e
    case Single(on) => PyBool(on)
    case Normalized(raw) => PyFraction(raw as real / 32767.0)
    case Scaled(raw) => PyInt(raw)
    case Short(bits) => PyFloat(bits)
  }

  function StampOf(point: Point): Option<DateTime> {
    if |point.stamp| == 7 then Some(DecodeCp56(point.stamp)) else None
  }

  /** What a reader should print for a point, said without reference to octets. */
  function Expected(h: Header, point: Point): Printed {
    Printed(h.ca, point.ioa, h.typeId, h.cotOctet % 64, ValueOf(point.element), QualityOctet(point), StampOf(point))
  }

  function ExpectedAll(h: Header, points: seq<Point>): (all: seq<Printed>)
    ensures |all| == |points|
  {
    if points == [] then [] else ExpectedAll(h, points[..|points| - 1]) + [Expected(h, points[|points| - 1])]
  }

  function FieldsOf(h: Header, sq: bool): Fields {
    Fields(h.typeId, sq, h.cotOctet % 64, h.ca)
  }

  lemma I16Inverts(raw: i16)
    ensures var e := EncodeI16(raw); UnpackI16(e[0], e[1]) == raw
  {
  }

  /** `octets` stand at `offset`. */
  predicate At(asdu: seq<byte>, offset: nat, octets: seq<byte>) {
    offset + |octets| <= |asdu| && asdu[offset..offset + |octets|] == octets
  }

  lemma AtSplits(asdu: seq<byte>, offset: nat, a: seq<byte>, b: seq<byte>)
    requires At(asdu, offset, a + b)
    ensures At(asdu, offset, a) && At(asdu, offset + |a|, b)
  {
    var all := asdu[offset..offset + |a + b|];
    assert all[..|a|] == a && all[|a|..] == b;
  }

  lemma ValueReads(h: Header, point: Point, asdu: seq<byte>, offset: nat)
    requires Fits(h.typeId, point)
    requires At(asdu, offset, EncodeValue(point.element) + [QualityOctet(point)])
    ensures DecodeValue(h.typeId, asdu, offset) == Value(ValueOf(point.element), |EncodeValue(point.element)| + 1)
    ensures asdu[offset + |EncodeValue(point.element)|] == QualityOctet(point)
  {
    var octets := EncodeValue(point.element);
    AtSplits(asdu, offset, octets, [QualityOctet(point)]);
    var here := asdu[offset..offset + |octets|];
    match point.element {
      case Single(_) =>
      case Normalized(raw) => I16Inverts(raw); assert here[0] == asdu[offset] && here[1] == asdu[offset + 1];
      case Scaled(raw) => I16Inverts(raw); assert here[0] == asdu[offset] && here[1] == asdu[offset + 1];
      case Short(bits) =>
    }
  }

  lemma ElementReads(h: Header, sq: bool, point: Point, asdu: seq<byte>, offset: nat)
    requires Fits(h.typeId, point) && At(asdu, offset, EncodeElement(point))
    ensures ReadElement(FieldsOf(h, sq), point.ioa, asdu, offset)
         == Read(Expected(h, point), offset + |EncodeElement(point)|)
  {
    AtSplits(asdu, offset, EncodeValue(point.element) + [QualityOctet(point)], point.stamp);
    ValueReads(h, point, asdu, offset);
  }

  lemma IoaReads(ioa: Ioa, asdu: seq<byte>, offset: nat)
    requires At(asdu, offset, EncodeIoa(ioa))
    ensures Le3(asdu[offset], asdu[offset + 1], asdu[offset + 2]) == ioa
  {
    var here := asdu[offset..offset + 3];
    assert here[0] == asdu[offset] && here[1] == asdu[offset + 1] && here[2] == asdu[offset + 2];
  }

  /** One turn of the loop over one whole encoded object. */
  lemma ObjectReads(h: Header, sq: bool, first: bool, ioa: int, point: Point, asdu: seq<byte>, offset: nat)
    requires Fits(h.typeId, point) && At(asdu, offset, EncodeObject(first || !sq, point))
    requires first || !sq || point.ioa == ioa + 1
    requires offset + 3 <= |asdu|
    ensures ReadObject(FieldsOf(h, sq), first, ioa, asdu, offset)
         == Read(Expected(h, point), offset + |EncodeObject(first || !sq, point)|)
  {
    if first || !sq {
      AtSplits(asdu, offset, EncodeIoa(point.ioa), EncodeElement(point));
      IoaReads(point.ioa, asdu, offset);
      ElementReads(h, sq, point, asdu, offset + 3);
    } else {
      assert EncodeObject(false, point) == EncodeElement(point);
      ElementReads(h, sq, point, asdu, offset);
    }
  }

  /** Where object `k` starts in the encoded ASDU; `BodyLength` gives it in closed form. */
  function Offset(sq: bool, points: seq<Point>, k: nat): nat
    requires k <= |points|
  {
    6 + |EncodeBody(sq, true, points[..k])|
  }

  /** The encoded ASDU seen from object `k`. */
  lemma BodyAround(sq: bool, points: seq<Point>, k: nat)
    requires k < |points|
    ensures var obj := EncodeObject(k == 0 || !sq, points[k]);
            && EncodeBody(sq, true, points[..k + 1]) == EncodeBody(sq, true, points[..k]) + obj
            && EncodeBody(sq, true, points)
               == EncodeBody(sq, true, points[..k + 1]) + EncodeBody(sq, false, points[k + 1..])
  {
    assert points[..k + 1] + points[k + 1..] == points;
    BodySplits(sq, true, points[..k + 1], points[k + 1..]);
    assert points[..k + 1] == points[..k] + [points[k]];
    BodySplits(sq, true, points[..k], [points[k]]);
    SingletonBody(sq, k == 0, points[k]);
  }

  lemma SingletonBody(sq: bool, first: bool, point: Point)
    ensures EncodeBody(sq, first, [point]) == EncodeObject(first || !sq, point)
  {
    assert [point][1..] == [];
  }

  lemma AtMiddle(a: seq<byte>, b: seq<byte>, c: seq<byte>, d: seq<byte>)
    ensures At(a + (b + c + d), |a| + |b|, c)
  {
  }

  lemma ObjectAt(h: Header, sq: bool, points: seq<Point>, k: nat)
    requires k < |points| <= 127
    ensures Offset(sq, points, k + 1) == Offset(sq, points, k) + |EncodeObject(k == 0 || !sq, points[k])|
    ensures At(EncodeAsdu(h, sq, points), Offset(sq, points, k), EncodeObject(k == 0 || !sq, points[k]))
  {
    BodyAround(sq, points, k);
    AtMiddle(EncodeHeader(h, Vsq(sq, |points|)), EncodeBody(sq, true, points[..k]),
             EncodeObject(k == 0 || !sq, points[k]), EncodeBody(sq, false, points[k + 1..]));
  }

  lemma AtInPrefix(asdu: seq<byte>, whole: seq<byte>, offset: nat, octets: seq<byte>)
    requires asdu <= whole && At(whole, offset, octets) && offset + |octets| <= |asdu|
    ensures At(asdu, offset, octets)
  {
  }

  lemma HeaderReads(h: Header, sq: bool, points: seq<Point>, asdu: seq<byte>)
    requires |points| <= 127 && asdu <= EncodeAsdu(h, sq, points) && |asdu| >= 6
    ensures HeaderFields(asdu) == FieldsOf(h, sq) && asdu[1] % 128 == |points|
  {
    var whole := EncodeAsdu(h, sq, points);
    assert whole[..6] == EncodeHeader(h, Vsq(sq, |points|));
    assert forall i | 0 <= i < 6 :: asdu[i] == whole[..6][i];
  }

  /** The address the loop remembers when it comes to object `k`. */
  function IoaBefore(points: seq<Point>, k: nat): int
    requires k <= |points|
  {
    if k == 0 then 0 else points[k - 1].ioa
  }

  lemma OneTurn(
    f: Fields, decoded: seq<Printed>, ioa: int, count: nat, asdu: seq<byte>, offset: nat, printed: Printed, next: nat)
    requires count > 0 && ReadObject(f, decoded == [], ioa, asdu, offset) == Read(printed, next)
    ensures ReadFrom(f, decoded, ioa, count, asdu, offset)
         == ReadFrom(f, decoded + [printed], printed.ioa, count - 1, asdu, next)
  {
  }

  /** Object `j` as the loop finds it. */
  lemma TurnReads(h: Header, sq: bool, points: seq<Point>, asdu: seq<byte>, j: nat)
    requires j < |points| <= 127 && AllFit(h.typeId, points) && (sq ==> Consecutive(points))
    requires asdu <= EncodeAsdu(h, sq, points)
    requires Roomy(sq, points, j, |asdu|)
    ensures ReadObject(FieldsOf(h, sq), j == 0, IoaBefore(points, j), asdu, Offset(sq, points, j))
         == Read(Expected(h, points[j]), Offset(sq, points, j + 1))
  {
    ObjectAt(h, sq, points, j);
    AtInPrefix(asdu, EncodeAsdu(h, sq, points), Offset(sq, points, j), EncodeObject(j == 0 || !sq, points[j]));
    ObjectReads(h, sq, j == 0, IoaBefore(points, j), points[j], asdu, Offset(sq, points, j));
  }

  /** Object `j` lies within the first `n` octets and passes the address check. */
  predicate Roomy(sq: bool, points: seq<Point>, j: nat, n: nat)
    requires j < |points|
  {
    Offset(sq, points, j) + 3 <= n && Offset(sq, points, j + 1) <= n
  }

  /** What the loop has still to do after `k` turns. */
  function Resume(h: Header, sq: bool, points: seq<Point>, asdu: seq<byte>, k: nat): Trace
    requires k <= |points|
  {
    ReadFrom(FieldsOf(h, sq), ExpectedAll(h, points[..k]), IoaBefore(points, k), |points| - k, asdu, Offset(sq, points, k))
  }

  lemma ResumeStep(h: Header, sq: bool, points: seq<Point>, asdu: seq<byte>, j: nat)
    requires j < |points| <= 127 && AllFit(h.typeId, points) && (sq ==> Consecutive(points))
    requires asdu <= EncodeAsdu(h, sq, points) && Roomy(sq, points, j, |asdu|)
    ensures Resume(h, sq, points, asdu, j) == Resume(h, sq, points, asdu, j + 1)
  {
    TurnReads(h, sq, points, asdu, j);
    OneTurn(FieldsOf(h, sq), ExpectedAll(h, points[..j]), IoaBefore(points, j), |points| - j, asdu,
            Offset(sq, points, j), Expected(h, points[j]), Offset(sq, points, j + 1));
    ExpectedSnoc(h, points, j);
  }

  /** After `k` turns over a whole or cut encoded ASDU the first `k` objects have been decoded. */
  lemma {:induction false} ReadsFirst(h: Header, sq: bool, points: seq<Point>, asdu: seq<byte>, k: nat)
    requires k <= |points| <= 127 && AllFit(h.typeId, points) && (sq ==> Consecutive(points))
    requires 6 <= |asdu| && asdu <= EncodeAsdu(h, sq, points)
    requires forall j | 0 <= j < k :: Roomy(sq, points, j, |asdu|)
    ensures DecodeAsdu(asdu) == Resume(h, sq, points, asdu, k)
  {
    if k == 0 {
      HeaderReads(h, sq, points, asdu);
    } else {
      ReadsFirst(h, sq, points, asdu, k - 1);
      ResumeStep(h, sq, points, asdu, k - 1);
    }
  }

  lemma ExpectedSnoc(h: Header, points: seq<Point>, j: nat)
    requires j < |points|
    ensures ExpectedAll(h, points[..j + 1]) == ExpectedAll(h, points[..j]) + [Expected(h, points[j])]
  {
    assert points[..j + 1][..j] == points[..j];
  }

  /** How many objects survive: one-octet elements behind a shared address lose the last two. */
  function Kept(typeId: byte, sq: bool, n: nat): (kept: nat)
    ensures kept <= n
  {
    if sq && typeId == 1 && n >= 2 then (if n == 2 then 1 else n - 2) else n
  }

  /** Object offsets in closed form. */
  lemma OffsetClosedForm(typeId: byte, sq: bool, points: seq<Point>, k: nat)
    requires AllFit(typeId, points) && k <= |points|
    ensures Offset(sq, points, k)
         == 6 + k * ElementSize(typeId) + (if !sq then 3 * k else if k > 0 then 3 else 0)
  {
    BodyLength(typeId, sq, true, points[..k]);
  }

  lemma {:induction false} ProductGrows(size: nat, j: nat, n: nat)
    requires j <= n
    ensures j * size + (if j < n then size else 0) <= n * size
    decreases n
  {
    if j < n {
      ProductGrows(size, j, n - 1);
      assert n * size == (n - 1) * size + size;
    }
  }

  /** Later objects start at later offsets; only packed single points start less than three octets apart. */
  lemma OffsetsGrow(h: Header, sq: bool, points: seq<Point>, j: nat, k: nat)
    requires AllFit(h.typeId, points) && j <= k <= |points| <= 127
    ensures Offset(sq, points, j) <= Offset(sq, points, k) <= |EncodeAsdu(h, sq, points)|
    ensures Offset(sq, points, |points|) == |EncodeAsdu(h, sq, points)|
    ensures j < k && !(sq && h.typeId == 1) ==> Offset(sq, points, j) + 3 <= Offset(sq, points, k)
    ensures sq && h.typeId == 1 && j > 0 ==> Offset(sq, points, k) == Offset(sq, points, j) + k - j
  {
    OffsetClosedForm(h.typeId, sq, points, j);
    OffsetClosedForm(h.typeId, sq, points, k);
    OffsetClosedForm(h.typeId, sq, points, |points|);
    ProductGrows(ElementSize(h.typeId), j, k);
    ProductGrows(ElementSize(h.typeId), k, |points|);
    assert points[..|points|] == points;
  }

  /** For every list of up to 127 objects: how much of it the reader gives back, and never an exception. */
  lemma DecodeKeeps(h: Header, sq: bool, points: seq<Point>)
    requires |points| <= 127 && AllFit(h.typeId, points) && (sq ==> Consecutive(points))
    ensures DecodeAsdu(EncodeAsdu(h, sq, points))
         == Trace(ExpectedAll(h, points[..Kept(h.typeId, sq, |points|)]), false)
  {
    var asdu := EncodeAsdu(h, sq, points);
    var n, k := |points|, Kept(h.typeId, sq, |points|);
    forall j | 0 <= j < k
      ensures Roomy(sq, points, j, |asdu|)
    {
      OffsetsGrow(h, sq, points, j, n);
      OffsetsGrow(h, sq, points, j + 1, n);
      OffsetsGrow(h, sq, points, 0, 1);
      ObjectAt(h, sq, points, 0);
    }
    OffsetsGrow(h, sq, points, k, n);
    ReadsFirst(h, sq, points, asdu, k);
  }

  /** The reader inverts the encoder exactly when it is not given two or more packed single points. */
  lemma DecodeInvertsIff(h: Header, sq: bool, points: seq<Point>)
    requires |points| <= 127 && AllFit(h.typeId, points) && (sq ==> Consecutive(points))
    ensures DecodeAsdu(EncodeAsdu(h, sq, points)) == Trace(ExpectedAll(h, points), false)
       <==> !(sq && h.typeId == 1 && |points| >= 2)
  {
    DecodeKeeps(h, sq, points);
    assert points[..|points|] == points;
  }

  // ---- truncation ----

  /**
   * Octets of an object that pass the address check but leave too few for its value: behind an own address none for a
   * single point, up to one for 16 bits, up to three for a float; behind a shared one only three of a float.
   */
  predicate RaisesAt(typeId: byte, withIoa: bool, cut: nat) {
    if typeId in {1, 30} then withIoa && cut == 3
    else if typeId in {13, 36} then cut == 3 || (withIoa && cut in {4, 5, 6})
    else withIoa && cut in {3, 4}
  }

  /** The offsets of packed single points behind their shared address. */
  lemma PackedOffset(h: Header, points: seq<Point>, k: nat)
    requires AllFit(h.typeId, points) && h.typeId == 1 && k <= |points|
    ensures Offset(true, points, k) == if k == 0 then 6 else 9 + k
  {
    OffsetClosedForm(h.typeId, true, points, k);
  }

  /** Of `whole` packed single points the reader takes all but two, and asks for no more. */
  lemma PackedStop(h: Header, points: seq<Point>, asdu: seq<byte>, whole: nat)
    requires AllFit(h.typeId, points) && h.typeId == 1 && Consecutive(points) && 0 < whole < |points| <= 127
    requires asdu <= EncodeAsdu(h, true, points) && |asdu| == Offset(true, points, whole)
    ensures DecodeAsdu(asdu) == Trace(ExpectedAll(h, points[..Kept(h.typeId, true, whole)]), false)
  {
    var k := Kept(h.typeId, true, whole);
    PackedOffset(h, points, whole);
    PackedOffset(h, points, k);
    forall j | 0 <= j < k
      ensures Roomy(true, points, j, |asdu|)
    {
      PackedOffset(h, points, j);
      PackedOffset(h, points, j + 1);
    }
    ReadsFirst(h, true, points, asdu, k);
  }

  lemma RoomyBefore(h: Header, sq: bool, points: seq<Point>, k: nat, n: nat)
    requires AllFit(h.typeId, points) && k <= |points| <= 127 && (!(sq && h.typeId == 1) || k == 0)
    requires Offset(sq, points, k) <= n
    ensures forall j | 0 <= j < k :: Roomy(sq, points, j, n)
  {
    forall j | 0 <= j < k
      ensures Roomy(sq, points, j, n)
    {
      OffsetsGrow(h, sq, points, j, k);
      OffsetsGrow(h, sq, points, j + 1, k);
    }
  }

  /**
   * Cutting an ASDU inside object `whole` gives what the objects before it would give alone, or an exception if the
   * cut is unlucky. Of packed single points only the first can be cut, so only there.
   */
  lemma TruncationRaisesIff(h: Header, sq: bool, points: seq<Point>, whole: nat, cut: nat)
    requires AllFit(h.typeId, points) && (sq ==> Consecutive(points)) && whole < |points| <= 127
    requires cut < |EncodeObject(whole == 0 || !sq, points[whole])|
    ensures Offset(sq, points, whole) + cut <= |EncodeAsdu(h, sq, points)|
    ensures DecodeAsdu(EncodeAsdu(h, sq, points)[..Offset(sq, points, whole) + cut])
         == Trace(ExpectedAll(h, points[..Kept(h.typeId, sq, whole)]), RaisesAt(h.typeId, whole == 0 || !sq, cut))
  {
    ObjectAt(h, sq, points, whole);
    var offset := Offset(sq, points, whole);
    var asdu := EncodeAsdu(h, sq, points)[..offset + cut];
    if sq && h.typeId == 1 && whole > 0 {
      ElementSizeIsLength(h.typeId, points[whole]);
      PackedStop(h, points, asdu, whole);
    } else {
      RoomyBefore(h, sq, points, whole, |asdu|);
      ReadsFirst(h, sq, points, asdu, whole);
      PartialObject(h, sq, whole == 0, IoaBefore(points, whole), points[whole], asdu, offset);
    }
  }

  lemma PartialObject(h: Header, sq: bool, first: bool, ioa: int, point: Point, asdu: seq<byte>, offset: nat)
    requires Fits(h.typeId, point) && offset <= |asdu| < offset + |EncodeObject(first || !sq, point)|
    ensures ReadObject(FieldsOf(h, sq), first, ioa, asdu, offset)
         == if RaisesAt(h.typeId, first || !sq, |asdu| - offset) then Fail else Stop
  {
    ElementSizeIsLength(h.typeId, point);
  }

  /** What a cut ASDU still yields for one turn, the whole one yields too. */
  lemma TurnStable(f: Fields, first: bool, ioa: int, asdu: seq<byte>, whole: seq<byte>, offset: nat)
    requires asdu <= whole && ReadObject(f, first, ioa, asdu, offset).Read?
    ensures ReadObject(f, first, ioa, whole, offset) == ReadObject(f, first, ioa, asdu, offset)
  {
    var start := if first || !f.sq then offset + 3 else offset;
    ValueStable(f.typeId, asdu, whole, start);
    var end := start + DecodeValue(f.typeId, asdu, start).consumed;
    if IsTimed(f.typeId) {
      assert asdu[end..end + 7] == whole[end..end + 7];
    }
  }

  lemma ValueStable(typeId: byte, asdu: seq<byte>, whole: seq<byte>, offset: nat)
    requires asdu <= whole && offset <= |asdu| && DecodeValue(typeId, asdu, offset).Value?
    ensures DecodeValue(typeId, whole, offset) == DecodeValue(typeId, asdu, offset)
  {
    if IsShort(typeId) {
      assert asdu[offset..offset + 4] == whole[offset..offset + 4];
    }
  }

  lemma {:induction false} KeepsDecoded(f: Fields, decoded: seq<Printed>, ioa: int, count: nat, asdu: seq<byte>, offset: nat)
    ensures decoded <= ReadFrom(f, decoded, ioa, count, asdu, offset).points
    decreases count
  {
    if count > 0 {
      match ReadObject(f, decoded == [], ioa, asdu, offset)
      case Read(p, next) => KeepsDecoded(f, decoded + [p], p.ioa, count - 1, asdu, next);
      case _ =>
    }
  }

  lemma {:induction false} ReadFromPrefix(
    f: Fields, decoded: seq<Printed>, ioa: int, count: nat, asdu: seq<byte>, whole: seq<byte>, offset: nat)
    requires asdu <= whole
    ensures ReadFrom(f, decoded, ioa, count, asdu, offset).points
         <= ReadFrom(f, decoded, ioa, count, whole, offset).points
    decreases count
  {
    if count > 0 {
      match ReadObject(f, decoded == [], ioa, asdu, offset)
      case Read(p, next) =>
        TurnStable(f, decoded == [], ioa, asdu, whole, offset);
        ReadFromPrefix(f, decoded + [p], p.ioa, count - 1, asdu, whole, next);
      case _ =>
        KeepsDecoded(f, decoded, ioa, count, whole, offset);
    }
  }

  /** Whatever the octets are: what was decoded of a cut ASDU is a prefix of what the whole one gives. */
  lemma TruncationGivesPrefix(asdu: seq<byte>, n: nat)
    requires n <= |asdu|
    ensures DecodeAsdu(asdu[..n]).points <= DecodeAsdu(asdu).points
  {
    if n >= 6 {
      ReadFromPrefix(HeaderFields(asdu), [], 0, asdu[1] % 128, asdu[..n], asdu, 6);
    }
  }
}
