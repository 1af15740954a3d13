/**
 Where print_messages.py finds what it prints, octet by octet: `decode_asdu` on any octets, encoded or not, told by
 positions alone. Types are those of section 7.2.1.1 of IEC 60870-5-101.
 */
module OctetLayout {
  import opened Calendar
  import opened Messages
  import opened PrintDecoder
  import T = TimeTag

  predicate Known(typeId: byte) {
    typeId in {1, 9, 11, 13, 30, 34, 35, 36}
  }

  /** Octets from one value to behind its time tag. */
  function Width(typeId: byte): nat {
    match typeId
    case 1 => 1
    case 9 => 3
    case 11 => 3
    case 13 => 5
    case 30 => 8
    case 34 => 10
    case 35 => 10
    case 36 => 12
    case _ => 0
  }

  /** Where the value of object `k` stands. */
  function ValueAt(asdu: seq<byte>, k: nat): nat
    requires |asdu| >= 6
  {
    if asdu[1] < 128 then 9 + k * (Width(asdu[0]) + 3) else 9 + k * Width(asdu[0])
  }

  function Pair(asdu: seq<byte>, i: nat): int
    requires i + 2 <= |asdu|
  {
    (asdu[i] as int) + 256 * (asdu[i + 1] as int)
  }

  function Triple(asdu: seq<byte>, i: nat): int
    requires i + 3 <= |asdu|
  {
    (asdu[i] as int) + 256 * (asdu[i + 1] as int) + 65536 * (asdu[i + 2] as int)
  }

  /** Two's complement. */
  function Signed(n: int): int {
    if n < 32768 then n else n - 65536
  }

  function TagAt(asdu: seq<byte>, i: nat): DateTime
    requires i + 7 <= |asdu|
  {
    DateTime(2000 + (asdu[i + 6] as int) % 128, asdu[i + 5] % 16, asdu[i + 4] % 32, asdu[i + 3] % 32, asdu[i + 2] % 64,
             Pair(asdu, i) / 1000, Pair(asdu, i) % 1000)
  }

  /** Object `k` is there, time tag included. */
  predicate Present(asdu: seq<byte>, k: nat)
    requires |asdu| >= 6
  {
    Known(asdu[0]) && ValueAt(asdu, k) + Width(asdu[0]) <= |asdu|
  }

  /** Its own address in front of the value, or the shared one counted on. */
  function AddressOf(asdu: seq<byte>, k: nat): int
    requires |asdu| >= 6 && Present(asdu, k)
  {
    if asdu[1] < 128 then Triple(asdu, ValueAt(asdu, k) - 3) else Triple(asdu, 6) + k
  }

  function ObjectOf(asdu: seq<byte>, k: nat): Printed
    requires |asdu| >= 6 && Present(asdu, k)
  {
    var v := ValueAt(asdu, k);
    var ca, ioa, cot := Pair(asdu, 4), AddressOf(asdu, k), asdu[2] % 64;
    match asdu[0]
    case 1 => Printed(ca, ioa, 1, cot, PyBool(asdu[v] % 2 == 1), asdu[v], None)
    case 30 => Printed(ca, ioa, 30, cot, PyBool(asdu[v] % 2 == 1), asdu[v], Some(TagAt(asdu, v + 1)))
    case 9 => Printed(ca, ioa, 9, cot, PyFraction(Signed(Pair(asdu, v)) as real / 32767.0), asdu[v + 2], None)
    case 34 =>
      Printed(ca, ioa, 34, cot, PyFraction(Signed(Pair(asdu, v)) as real / 32767.0), asdu[v + 2], Some(TagAt(asdu, v + 3)))
    case 11 => Printed(ca, ioa, 11, cot, PyInt(Signed(Pair(asdu, v))), asdu[v + 2], None)
    case 35 => Printed(ca, ioa, 35, cot, PyInt(Signed(Pair(asdu, v))), asdu[v + 2], Some(TagAt(asdu, v + 3)))
    case 13 => Printed(ca, ioa, 13, cot, PyFloat(asdu[v..v + 4]), asdu[v + 4], None)
    case _ => Printed(ca, ioa, 36, cot, PyFloat(asdu[v..v + 4]), asdu[v + 4], Some(TagAt(asdu, v + 5)))
  }

  /** The loop offset at object `k`. */
  function StartAt(asdu: seq<byte>, k: nat): nat
    requires |asdu| >= 6
  {
    if asdu[1] < 128 || k == 0 then ValueAt(asdu, k) - 3 else ValueAt(asdu, k)
  }

  lemma StartsInARow(asdu: seq<byte>, k: nat)
    requires |asdu| >= 6
    ensures StartAt(asdu, 0) == 6
    ensures StartAt(asdu, k + 1) == ValueAt(asdu, k) + Width(asdu[0])
    ensures ValueAt(asdu, k) <= ValueAt(asdu, k + 1)
  {
    var w := Width(asdu[0]);
    assert (k + 1) * (w + 3) == k * (w + 3) + (w + 3) && (k + 1) * w == k * w + w;
  }

  function AddressBefore(asdu: seq<byte>, k: nat): int
    requires |asdu| >= 6 && (k > 0 ==> Present(asdu, k - 1))
  {
    if k == 0 then 0 else AddressOf(asdu, k - 1)
  }

  lemma TagReads(asdu: seq<byte>, at: nat)
    requires at + 7 <= |asdu|
    ensures T.DecodeCp56(asdu[at..at + 7]) == TagAt(asdu, at)
  {
  }

  lemma ElementAt(f: Fields, ioa: int, asdu: seq<byte>, k: nat)
    requires |asdu| >= 6 && Present(asdu, k) && f == HeaderFields(asdu) && ioa == AddressOf(asdu, k)
    ensures ReadElement(f, ioa, asdu, ValueAt(asdu, k)) == Read(ObjectOf(asdu, k), ValueAt(asdu, k) + Width(asdu[0]))
  {
    if Width(asdu[0]) >= 8 {
      TagReads(asdu, ValueAt(asdu, k) + Width(asdu[0]) - 7);
    }
  }

  /** The first `n` objects are there; packed single points lose their tail, so only the first of them is certain. */
  predicate Complete(asdu: seq<byte>, n: nat)
    requires |asdu| >= 6
  {
    (asdu[0] != 1 || asdu[1] < 128 || n <= 1) && forall k | 0 <= k < n :: Present(asdu, k)
  }

  lemma TurnAt(asdu: seq<byte>, k: nat)
    requires |asdu| >= 6 && Complete(asdu, k + 1)
    ensures ReadObject(HeaderFields(asdu), k == 0, AddressBefore(asdu, k), asdu, StartAt(asdu, k))
         == Read(ObjectOf(asdu, k), StartAt(asdu, k + 1))
  {
    assert Present(asdu, k);
    StartsInARow(asdu, k);
    ElementAt(HeaderFields(asdu), AddressOf(asdu, k), asdu, k);
  }

  function ObjectsOf(asdu: seq<byte>, n: nat): (all: seq<Printed>)
    requires |asdu| >= 6 && Complete(asdu, n)
    ensures |all| == n
  {
    if n == 0 then [] else ObjectsOf(asdu, n - 1) + [ObjectOf(asdu, n - 1)]
  }

  /** What the loop has still to do after `n` turns. */
  function Rest(asdu: seq<byte>, n: nat): Trace
    requires |asdu| >= 6 && n <= (asdu[1] as int) % 128 && Complete(asdu, n)
  {
    ReadFrom(HeaderFields(asdu), ObjectsOf(asdu, n), AddressBefore(asdu, n), asdu[1] % 128 - n, asdu, StartAt(asdu, n))
  }

  lemma RestStep(asdu: seq<byte>, n: nat)
    requires |asdu| >= 6 && n < (asdu[1] as int) % 128 && Complete(asdu, n + 1)
    ensures Complete(asdu, n) && Rest(asdu, n) == Rest(asdu, n + 1)
  {
    assert Present(asdu, n);
    TurnAt(asdu, n);
    OneTurn(HeaderFields(asdu), ObjectsOf(asdu, n), AddressBefore(asdu, n), asdu[1] % 128 - n, asdu,
            StartAt(asdu, n), ObjectOf(asdu, n), StartAt(asdu, n + 1));
  }

  lemma {:induction false} ReadsSoFar(asdu: seq<byte>, n: nat)
    requires |asdu| >= 6 && n <= (asdu[1] as int) % 128 && Complete(asdu, n)
    ensures DecodeAsdu(asdu) == Rest(asdu, n)
  {
    if n > 0 {
      RestStep(asdu, n - 1);
      ReadsSoFar(asdu, n - 1);
    } else {
      StartsInARow(asdu, 0);
    }
  }

  lemma {:induction false} ObjectInRow(asdu: seq<byte>, n: nat, k: nat)
    requires |asdu| >= 6 && k < n && Complete(asdu, n)
    ensures ObjectsOf(asdu, n)[k] == ObjectOf(asdu, k)
  {
    if k < n - 1 {
      ObjectInRow(asdu, n - 1, k);
    }
  }

  /** On any octets: whatever objects are announced and there are printed, each from its own positions. */
  lemma PrintedByPosition(asdu: seq<byte>, n: nat, k: nat)
    requires |asdu| >= 6 && k < n <= (asdu[1] as int) % 128 && Complete(asdu, n)
    ensures |DecodeAsdu(asdu).points| >= n && DecodeAsdu(asdu).points[k] == ObjectOf(asdu, k)
  {
    ReadsSoFar(asdu, n);
    KeepsDecoded(HeaderFields(asdu), ObjectsOf(asdu, n), AddressBefore(asdu, n), asdu[1] % 128 - n, asdu, StartAt(asdu, n));
    ObjectInRow(asdu, n, k);
  }

  /** Other types print nothing and raise nothing. */
  lemma UnknownTypesAreSkipped(asdu: seq<byte>)
    requires |asdu| < 6 || !Known(asdu[0])
    ensures DecodeAsdu(asdu) == Trace([], false)
  {
  }
}
