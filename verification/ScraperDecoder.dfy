/** demo/scraper/scraper.py: its own `decode_asdu`, which must stay total on truncated input. */
module ScraperDecoder {
  import opened Messages
  import opened Wire
  import P = PrintDecoder

  datatype QualityName = IsInvalid | IsNotTopical | IsSubstituted | IsBlocked | IsOverflow | IsGood

  function QualityString(qds: byte): QualityName {
    if qds / 0x80 % 2 == 1 then IsInvalid
    else if qds / 0x40 % 2 == 1 then IsNotTopical
    else if qds / 0x20 % 2 == 1 then IsSubstituted
    else if qds / 0x10 % 2 == 1 then IsBlocked
    else if qds % 2 == 1 then IsOverflow
    else IsGood
  }

  datatype Tags =
    | Temperature(line: int, span: int) | SpanAmpacity(line: int, span: int)
    | LineAmpacity(line: int) | Unknown(line: int, ioa: int)

  function IoaToTags(ioa: int, ca: int): Tags {
    if 1001 <= ioa <= 1010 then Temperature(ca, ioa - 1001 + 1)
    else if 2001 <= ioa <= 2010 then SpanAmpacity(ca, ioa - 2001 + 1)
    else if ioa == 3001 then LineAmpacity(ca)
    else Unknown(ca, ioa)
  }

  /** The words for a quality octet, by the range it lies in: the highest bit set decides. */
  lemma QualityByRange(qds: byte)
    ensures QualityString(qds) == IsInvalid <==> qds >= 128
    ensures QualityString(qds) == IsNotTopical <==> 64 <= qds < 128
    ensures QualityString(qds) == IsSubstituted <==> 32 <= qds < 64
    ensures QualityString(qds) == IsBlocked <==> 16 <= qds < 32
    ensures QualityString(qds) == IsOverflow <==> qds in {1, 3, 5, 7, 9, 11, 13, 15}
    ensures QualityString(qds) == IsGood <==> qds in {0, 2, 4, 6, 8, 10, 12, 14}
  {
  }

  /** The tags name the point: no two addresses share theirs, and the measurements are where the demo puts them. */
  lemma TagsNameThePoint(ioa: int, ca: int, ioa': int, ca': int)
    ensures IoaToTags(ioa, ca) == IoaToTags(ioa', ca') ==> ioa == ioa' && ca == ca'
    ensures 1 <= ioa <= 10 ==> IoaToTags(1000 + ioa, ca) == Temperature(ca, ioa)
    ensures 1 <= ioa <= 10 ==> IoaToTags(2000 + ioa, ca) == SpanAmpacity(ca, ioa)
    ensures IoaToTags(3001, ca) == LineAmpacity(ca)
    ensures !(1001 <= ioa <= 1010) && !(2001 <= ioa <= 2010) && ioa != 3001 <==> IoaToTags(ioa, ca).Unknown?
  {
  }

  /** `float(...)` of an unpacked value: exact for a 16-bit integer, opaque for a short float. */
  datatype Reading = Whole(n: int) | ShortFloat(bits: Bits32)

  datatype ScrapedPoint = ScrapedPoint(value: Reading, quality: QualityName, tags: Tags)

  /** One turn of the loop: leave it, or a point, its address and the next offset. */
  datatype Turn = Break | Got(point: ScrapedPoint, ioa: int, next: nat)

  function ScrapeObject(typeId: byte, sq: bool, ca: int, first: bool, ioa: int, asdu: seq<byte>, offset: nat): (turn: Turn)
    requires typeId == 11 || typeId == 13
    ensures turn.Got? ==> turn.next <= |asdu|
  {
    if offset + 3 > |asdu| then Break
    else if first || !sq then
      ScrapeElement(typeId, ca, Le3(asdu[offset], asdu[offset + 1], asdu[offset + 2]), asdu, offset + 3)
    else
      ScrapeElement(typeId, ca, ioa + 1, asdu, offset)
  }

  function ScrapeElement(typeId: byte, ca: int, ioa: int, asdu: seq<byte>, offset: nat): (turn: Turn)
    ensures turn.Got? ==> turn.next <= |asdu|
  {
    if typeId == 13 then
      if offset + 5 > |asdu| then Break
      else
        Got(ScrapedPoint(ShortFloat(asdu[offset..offset + 4]), QualityString(asdu[offset + 4]), IoaToTags(ioa, ca)),
            ioa, offset + 5)
    else
      if offset + 3 > |asdu| then Break
      else
        Got(ScrapedPoint(Whole(P.UnpackI16(asdu[offset], asdu[offset + 1])), QualityString(asdu[offset + 2]), IoaToTags(ioa, ca)),
            ioa, offset + 3)
  }

  /** The loop from some iteration on. */
  function ScrapeFrom(
    typeId: byte, sq: bool, ca: int, points: seq<ScrapedPoint>, ioa: int, count: nat, asdu: seq<byte>, offset: nat)
    : seq<ScrapedPoint>
    requires typeId == 11 || typeId == 13
    decreases count
  {
    if count == 0 then points
    else match ScrapeObject(typeId, sq, ca, points == [], ioa, asdu, offset)
      case Break => points
      case Got(point, here, next) => ScrapeFrom(typeId, sq, ca, points + [point], here, count - 1, asdu, next)
  }

  function DecodeAsdu(asdu: seq<byte>): seq<ScrapedPoint> {
    if |asdu| < 6 || (asdu[0] != 11 && asdu[0] != 13) then []
    else ScrapeFrom(asdu[0], asdu[1] >= 128, Le2(asdu[4], asdu[5]), [], 0, asdu[1] % 128, asdu, 6)
  }

  /** One turn of the loop, with its early exits; no index is ever out of range. */
  method RunTurn(typeId: byte, sq: bool, ca: int, i: nat, lastIoa: int, asdu: seq<byte>, start: nat) returns (turn: Turn)
    requires typeId == 11 || typeId == 13
    ensures turn == ScrapeObject(typeId, sq, ca, i == 0, lastIoa, asdu, start)
  {
    var ioa, offset := lastIoa, start;
    if offset + 3 > |asdu| { return Break; }
    if i == 0 || !sq {
      ioa := Le3(asdu[offset], asdu[offset + 1], asdu[offset + 2]);
      offset := offset + 3;
    } else {
      ioa := ioa + 1;
    }
    var value, qds;
    if typeId == 13 {
      if offset + 5 > |asdu| { return Break; }
      value, qds := ShortFloat(asdu[offset..offset + 4]), asdu[offset + 4];
      offset := offset + 5;
    } else {
      if offset + 3 > |asdu| { return Break; }
      value, qds := Whole(P.UnpackI16(asdu[offset], asdu[offset + 1])), asdu[offset + 2];
      offset := offset + 3;
    }
    return Got(ScrapedPoint(value, QualityString(qds), IoaToTags(ioa, ca)), ioa, offset);
  }

  method RunDecodeAsdu(asdu: seq<byte>) returns (points: seq<ScrapedPoint>)
    ensures points == DecodeAsdu(asdu)
  {
    points := [];
    if |asdu| < 6 { return; }
    var typeId, vsq, ca := asdu[0], asdu[1], Le2(asdu[4], asdu[5]);
    var sq, count := vsq >= 128, vsq % 128;
    if typeId != 11 && typeId != 13 { return; }
    var offset, ioa := 6, 0;
    for i := 0 to count
      invariant i == |points| && 6 <= offset <= |asdu|
      invariant ScrapeFrom(typeId, sq, ca, points, ioa, count - i, asdu, offset) == DecodeAsdu(asdu)
    {
      var turn := RunTurn(typeId, sq, ca, i, ioa, asdu, offset);
      if turn.Break? { return; }
      points := points + [turn.point];
      ioa := turn.ioa;
      offset := turn.next;
    }
  }

  // ---- the two readers agree ----

  /** A point of the other reader in this reader's words. */
  function Reword(p: P.Printed): ScrapedPoint {
    ScrapedPoint(
      match p.value
      case PyInt(n) => Whole(n)
      case PyFloat(bits) => ShortFloat(bits)
      case PyBool(_) => Whole(0)
      case PyFraction(_) => Whole(0),
      QualityString(p.qds), IoaToTags(p.ioa, p.ca))
  }

  function RewordAll(printed: seq<P.Printed>): (all: seq<ScrapedPoint>)
    ensures |all| == |printed|
  {
    if printed == [] then [] else RewordAll(printed[..|printed| - 1]) + [Reword(printed[|printed| - 1])]
  }

  lemma RewordSnoc(printed: seq<P.Printed>, p: P.Printed)
    ensures RewordAll(printed + [p]) == RewordAll(printed) + [Reword(p)]
  {
    assert (printed + [p])[..|printed|] == printed;
  }

  lemma TurnAgrees(f: P.Fields, first: bool, ioa: int, asdu: seq<byte>, offset: nat)
    requires f.typeId == 11 || f.typeId == 13
    ensures ScrapeObject(f.typeId, f.sq, f.ca, first, ioa, asdu, offset)
         == match P.ReadObject(f, first, ioa, asdu, offset)
            case Read(p, next) => Got(Reword(p), p.ioa, next)
            case _ => Break
  {
  }

  lemma Unfold(f: P.Fields, points: seq<ScrapedPoint>, ioa: int, count: nat, asdu: seq<byte>, offset: nat)
    requires (f.typeId == 11 || f.typeId == 13) && count > 0
    ensures ScrapeFrom(f.typeId, f.sq, f.ca, points, ioa, count, asdu, offset)
         == match ScrapeObject(f.typeId, f.sq, f.ca, points == [], ioa, asdu, offset)
            case Break => points
            case Got(p, here, next) =>
              ScrapeFrom(f.typeId, f.sq, f.ca, points + [p], here, count - 1, asdu, next)
  {
  }

  /** One turn of both loops. */
  lemma AgreesStep(f: P.Fields, decoded: seq<P.Printed>, ioa: int, count: nat, asdu: seq<byte>, offset: nat)
    requires (f.typeId == 11 || f.typeId == 13) && count > 0
    requires match P.ReadObject(f, decoded == [], ioa, asdu, offset)
             case Stop => true
             case Fail => true
             case Read(p, next) => Agree(f, decoded + [p], p.ioa, count - 1, asdu, next)
    ensures Agree(f, decoded, ioa, count, asdu, offset)
  {
    var turn := P.ReadObject(f, decoded == [], ioa, asdu, offset);
    TurnAgrees(f, decoded == [], ioa, asdu, offset);
    Unfold(f, RewordAll(decoded), ioa, count, asdu, offset);
    if turn.Read? {
      RewordSnoc(decoded, turn.printed);
      P.OneTurn(f, decoded, ioa, count, asdu, offset, turn.printed, turn.next);
    }
  }

  /** From here on both readers decode the same. */
  predicate Agree(f: P.Fields, decoded: seq<P.Printed>, ioa: int, count: nat, asdu: seq<byte>, offset: nat)
    requires f.typeId == 11 || f.typeId == 13
  {
    ScrapeFrom(f.typeId, f.sq, f.ca, RewordAll(decoded), ioa, count, asdu, offset)
    == RewordAll(P.ReadFrom(f, decoded, ioa, count, asdu, offset).points)
  }

  lemma {:induction false} FromAgrees(
    f: P.Fields, decoded: seq<P.Printed>, ioa: int, count: nat, asdu: seq<byte>, offset: nat)
    requires f.typeId == 11 || f.typeId == 13
    ensures Agree(f, decoded, ioa, count, asdu, offset)
    decreases count
  {
    if count > 0 {
      var turn := P.ReadObject(f, decoded == [], ioa, asdu, offset);
      if turn.Read? {
        FromAgrees(f, decoded + [turn.printed], turn.printed.ioa, count - 1, asdu, turn.next);
      }
      AgreesStep(f, decoded, ioa, count, asdu, offset);
    }
  }

  /** On every octet string the two independently written readers decode the same points. */
  lemma ReadersAgree(asdu: seq<byte>)
    requires |asdu| >= 6 && (asdu[0] == 11 || asdu[0] == 13)
    ensures DecodeAsdu(asdu) == RewordAll(P.DecodeAsdu(asdu).points)
  {
    FromAgrees(P.HeaderFields(asdu), [], 0, asdu[1] % 128, asdu, 6);
  }

  lemma RewordPrefix(a: seq<P.Printed>, b: seq<P.Printed>)
    requires a <= b
    ensures RewordAll(a) <= RewordAll(b)
    decreases |b|
  {
    if a != b {
      RewordPrefix(a, b[..|b| - 1]);
      RewordSnoc(b[..|b| - 1], b[|b| - 1]);
    }
  }

  /** Cutting an ASDU anywhere gives a prefix of the full decode. */
  lemma TruncationGivesPrefix(asdu: seq<byte>, n: nat)
    requires n <= |asdu|
    ensures DecodeAsdu(asdu[..n]) <= DecodeAsdu(asdu)
  {
    if n >= 6 && (asdu[0] == 11 || asdu[0] == 13) {
      P.TruncationGivesPrefix(asdu, n);
      ReadersAgree(asdu[..n]);
      ReadersAgree(asdu);
      RewordPrefix(P.DecodeAsdu(asdu[..n]).points, P.DecodeAsdu(asdu).points);
    }
  }

  /** This reader inverts the encoder for its two types, SQ or not. */
  lemma DecodeInverts(h: Header, sq: bool, points: seq<Point>)
    requires h.typeId == 11 || h.typeId == 13
    requires |points| <= 127 && AllFit(h.typeId, points) && (sq ==> Consecutive(points))
    ensures DecodeAsdu(EncodeAsdu(h, sq, points)) == RewordAll(P.ExpectedAll(h, points))
  {
    P.DecodeInvertsIff(h, sq, points);
    assert EncodeAsdu(h, sq, points)[0] == h.typeId;
    ReadersAgree(EncodeAsdu(h, sq, points));
  }
}
