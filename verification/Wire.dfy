/**
 The octets of an ASDU as IEC 60870-5-101 lays them out: the reference encoder both readers are proved against.
 Masks and shifts on octets are written as `%`, `/` and `*` by powers of two; an `|` of disjoint bits is a sum.
 */
module Wire {
  import opened Messages

  /** An information object address, three octets (section 7.2.5). */
  type Ioa = x: int | 0 <= x < 0x100_0000

  datatype Element = Single(on: bool) | Normalized(raw: i16) | Scaled(raw: i16) | Short(bits: Bits32)

  /** One information object; `stamp` is empty or a seven-octet time tag. */
  datatype Point = Point(ioa: Ioa, element: Element, quality: byte, stamp: seq<byte>)

  datatype Header = Header(typeId: byte, cotOctet: byte, originator: byte, ca: u16)

  predicate IsSingle(typeId: byte) { typeId == 1 || typeId == 30 }

  predicate IsNormalized(typeId: byte) { typeId == 9 || typeId == 34 }

  predicate IsScaled(typeId: byte) { typeId == 11 || typeId == 35 }

  predicate IsShort(typeId: byte) { typeId == 13 || typeId == 36 }

  predicate IsTimed(typeId: byte) { typeId == 30 || 34 <= typeId <= 36 }

  predicate Fits(typeId: byte, point: Point) {
    && (match point.element
        case Single(_) => IsSingle(typeId)
        case Normalized(_) => IsNormalized(typeId)
        case Scaled(_) => IsScaled(typeId)
        case Short(_) => IsShort(typeId))
    && |point.stamp| == (if IsTimed(typeId) then 7 else 0)
  }

  predicate AllFit(typeId: byte, points: seq<Point>) {
    forall p | p in points :: Fits(typeId, p)
  }

  /** With SQ=1 only the first address is sent, so the others must follow it one by one. */
  predicate Consecutive(points: seq<Point>) {
    forall i | 0 <= i < |points| :: points[i].ioa == points[0].ioa + i
  }

  function Low(n: nat): byte { n % 256 }

  function High(n: u16): byte { n / 256 }

  function EncodeU16(n: u16): seq<byte> { [Low(n), High(n)] }

  function EncodeIoa(ioa: Ioa): seq<byte> {
    [Low(ioa), Low(ioa / 256), ioa / 65536]
  }

  /** Two's complement, low octet first. */
  function EncodeI16(raw: i16): seq<byte> {
    EncodeU16(if raw < 0 then raw + 65536 else raw)
  }

  /** The SIQ octet (section 7.2.6.1): quality bits above, the point itself in bit 1. */
  function Siq(quality: byte, on: bool): byte {
    quality / 16 * 16 + if on then 1 else 0
  }

  /** The quality octet that ends an element's value. */
  function QualityOctet(point: Point): byte {
    if point.element.Single? then Siq(point.quality, point.element.on) else point.quality
  }

  function EncodeValue(element: Element): seq<byte> {
    match element
    case Single(_) => []
    case Normalized(raw) => EncodeI16(raw)
    case Scaled(raw) => EncodeI16(raw)
    case Short(bits) => bits
  }

  function EncodeElement(point: Point): seq<byte> {
    EncodeValue(point.element) + [QualityOctet(point)] + point.stamp
  }

  function EncodeObject(withIoa: bool, point: Point): seq<byte> {
    (if withIoa then EncodeIoa(point.ioa) else []) + EncodeElement(point)
  }

  /** The information objects; `first` says that none was written before. */
  function EncodeBody(sq: bool, first: bool, points: seq<Point>): seq<byte> {
    if points == [] then []
    else EncodeObject(first || !sq, points[0]) + EncodeBody(sq, false, points[1..])
  }

  /** The variable structure qualifier (section 7.2.2): seven bits of count, SQ in the eighth. */
  function Vsq(sq: bool, count: nat): byte
    requires count <= 127
  {
    count + if sq then 128 else 0
  }

  function EncodeHeader(h: Header, vsq: byte): seq<byte> {
    [h.typeId, vsq, h.cotOctet, h.originator] + EncodeU16(h.ca)
  }

  function EncodeAsdu(h: Header, sq: bool, points: seq<Point>): seq<byte>
    requires |points| <= 127
  {
    EncodeHeader(h, Vsq(sq, |points|)) + EncodeBody(sq, true, points)
  }

  /** Octets one element takes, time tag included. */
  function ElementSize(typeId: byte): nat {
    (if IsSingle(typeId) then 1 else if IsShort(typeId) then 5 else 3)
    + if IsTimed(typeId) then 7 else 0
  }

  lemma ElementSizeIsLength(typeId: byte, point: Point)
    requires Fits(typeId, point)
    ensures |EncodeElement(point)| == ElementSize(typeId)
  {
  }

  /** Where the i-th object starts: the readers' loop offset in closed form. */
  lemma {:induction false} BodyLength(typeId: byte, sq: bool, first: bool, points: seq<Point>)
    requires AllFit(typeId, points)
    ensures |EncodeBody(sq, first, points)|
         == |points| * ElementSize(typeId)
            + 3 * (if !sq then |points| else if first && points != [] then 1 else 0)
  {
    if points != [] {
      var rest := points[1..];
      BodyLength(typeId, sq, false, rest);
      ElementSizeIsLength(typeId, points[0]);
      assert points == [points[0]] + rest;
      BodyUnfolds(sq, first, points[0], rest);
      OneMore(|rest|, ElementSize(typeId));
    }
  }

  lemma OneMore(n: nat, size: nat)
    ensures (n + 1) * size == n * size + size
  {
  }

  lemma BodyUnfolds(sq: bool, first: bool, point: Point, rest: seq<Point>)
    ensures EncodeBody(sq, first, [point] + rest) == EncodeObject(first || !sq, point) + EncodeBody(sq, false, rest)
  {
    assert ([point] + rest)[1..] == rest;
  }

  lemma HeadOfSum(a: seq<Point>, b: seq<Point>)
    requires a != []
    ensures a + b == [a[0]] + (a[1..] + b) && a == [a[0]] + a[1..]
  {
  }

  lemma Glue(whole: seq<byte>, left: seq<byte>, obj: seq<byte>, rest: seq<byte>, u: seq<byte>, v: seq<byte>)
    requires whole == obj + rest && rest == u + v && left == obj + u
    ensures whole == left + v
  {
  }

  lemma {:induction false} BodySplits(sq: bool, first: bool, a: seq<Point>, b: seq<Point>)
    ensures EncodeBody(sq, first, a + b) == EncodeBody(sq, first, a) + EncodeBody(sq, first && a == [], b)
  {
    if a == [] {
      assert a + b == b;
    } else {
      var rest := a[1..];
      HeadOfSum(a, b);
      BodySplits(sq, false, rest, b);
      BodyUnfolds(sq, first, a[0], rest + b);
      BodyUnfolds(sq, first, a[0], rest);
      Glue(EncodeBody(sq, first, a + b), EncodeBody(sq, first, a), EncodeObject(first || !sq, a[0]),
           EncodeBody(sq, false, rest + b), EncodeBody(sq, false, rest), EncodeBody(sq, false, b));
    }
  }
}
