/** APDU framing of print_messages.py: `recv_exact` and `recv_apdu` over a TCP stream split anywhere. */
module Framing {
  import opened Messages

  const START: byte := 0x68

  function Flatten(chunks: seq<seq<byte>>): seq<byte> {
    if chunks == [] then [] else chunks[0] + Flatten(chunks[1..])
  }

  /** A connected socket: the reads the network will offer, in order. When none is left the peer has closed. */
  class Socket {
    var chunks: seq<seq<byte>>

    ghost predicate Valid()
      reads this
    {
      forall i | 0 <= i < |chunks| :: chunks[i] != []
    }

    ghost function Stream(): seq<byte>
      reads this
    {
      Flatten(chunks)
    }

    constructor (chunks: seq<seq<byte>>)
      requires forall i | 0 <= i < |chunks| :: chunks[i] != []
      ensures Valid() && Stream() == Flatten(chunks)
    {
      this.chunks := chunks;
    }

    /** `sock.recv(n)`: at most `n` octets, and none only when the peer has closed. */
    method Recv(n: nat) returns (chunk: seq<byte>)
      requires Valid() && n > 0
      modifies this
      ensures Valid() && old(Stream()) == chunk + Stream()
      ensures |chunk| <= n && (chunk == [] <==> old(Stream()) == [])
    {
      if chunks == [] { return []; }
      var head := chunks[0];
      if |head| <= n {
        chunk, chunks := head, chunks[1..];
      } else {
        chunk, chunks := head[..n], [head[n..]] + chunks[1..];
        assert chunks[1..] == old(chunks)[1..];
      }
    }
  }

  /** None is `ConnectionError`: the peer closed before `n` octets came. */
  method RecvExact(sock: Socket, n: nat) returns (r: Option<seq<byte>>)
    requires sock.Valid()
    modifies sock
    ensures sock.Valid()
    ensures |old(sock.Stream())| >= n ==> r == Some(old(sock.Stream())[..n]) && sock.Stream() == old(sock.Stream())[n..]
    ensures |old(sock.Stream())| < n ==> r == None && sock.Stream() == []
  {
    var buf := [];
    while |buf| < n
      invariant sock.Valid() && |buf| <= n
      invariant old(sock.Stream()) == buf + sock.Stream()
    {
      var chunk := sock.Recv(n - |buf|);
      if chunk == [] { return None; }
      buf := buf + chunk;
    }
    r := Some(buf);
  }

  datatype Apdu = Frame(bytes: seq<byte>) | Closed | BadStart(octet: byte)

  function FrameLength(length: int): int { 2 + length }

  /** `recv_apdu` on the stream, and what is left of the stream. */
  function TakeApdu(stream: seq<byte>): (r: (Apdu, seq<byte>))
    ensures r.0.Frame? ==> |r.1| < |stream| && r.0.bytes + r.1 == stream && |r.0.bytes| >= 2
  {
    if |stream| == 0 then (Closed, [])
    else if stream[0] != START then (BadStart(stream[0]), stream[1..])
    else if |stream| == 1 || |stream| < FrameLength(stream[1]) then (Closed, [])
    else (Frame(stream[..FrameLength(stream[1])]), stream[FrameLength(stream[1])..])
  }

  method RecvApdu(sock: Socket) returns (r: Apdu)
    requires sock.Valid()
    modifies sock
    ensures sock.Valid() && (r, sock.Stream()) == TakeApdu(old(sock.Stream()))
  {
    ghost var stream := sock.Stream();
    var start := RecvExact(sock, 1);
    if start.None? { return Closed; }
    if start.value[0] != START { return BadStart(start.value[0]); }
    var length := RecvExact(sock, 1);
    if length.None? { return Closed; }
    var body := RecvExact(sock, length.value[0]);
    assert stream[1..][1..] == stream[2..];
    if body.None? { return Closed; }
    r := Frame(start.value + length.value + body.value);
    assert r.bytes == stream[..2 + stream[1]];
  }

  // ---- framing does not depend on the split ----

  type Body = b: seq<byte> | |b| <= 255

  function Framed(body: Body): seq<byte> {
    [START, |body|] + body
  }

  function FramedAll(bodies: seq<Body>): seq<byte> {
    if bodies == [] then [] else Framed(bodies[0]) + FramedAll(bodies[1..])
  }

  /** What does not begin with 0x68 is refused, and only that. */
  lemma BadStartIff(stream: seq<byte>)
    ensures TakeApdu(stream).0.BadStart? <==> stream != [] && stream[0] != 0x68
    ensures TakeApdu(stream).0.Frame? <==> |stream| >= 2 && stream[0] == 0x68 && |stream| >= 2 + stream[1] as int
  {
  }

  lemma TakesOneFrame(body: Body, rest: seq<byte>)
    ensures TakeApdu(Framed(body) + rest) == (Frame(Framed(body)), rest)
    ensures Framed(body) == [0x68, |body|] + body
  {
    var stream := Framed(body) + rest;
    assert stream[0] == START && stream[1] == |body|;
    assert stream[..2 + |body|] == Framed(body) && stream[2 + |body|..] == rest;
  }

  /** Repeated `recv_apdu` on a connection that carries whole frames gives back exactly those frames. */
  method RecvAll(sock: Socket, ghost bodies: seq<Body>) returns (frames: seq<seq<byte>>, end: Apdu)
    requires sock.Valid() && sock.Stream() == FramedAll(bodies)
    modifies sock
    ensures |frames| == |bodies| && forall i | 0 <= i < |bodies| :: frames[i] == Framed(bodies[i])
    ensures end == Closed
  {
    frames := [];
    while true
      invariant sock.Valid() && |frames| <= |bodies| && sock.Stream() == FramedAll(bodies[|frames|..])
      invariant forall i | 0 <= i < |frames| :: frames[i] == Framed(bodies[i])
      decreases |sock.Stream()|
    {
      ghost var left := bodies[|frames|..];
      if left != [] {
        TakesOneFrame(left[0], FramedAll(left[1..]));
        assert left[1..] == bodies[|frames| + 1..];
      }
      end := RecvApdu(sock);
      if !end.Frame? { return; }
      frames := frames + [end.bytes];
    }
  }
}
