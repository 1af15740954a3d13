/** The session of print_messages.py: interrogations, 15-bit sequence numbers, S-frames and printing. */
module Session {
  import opened Messages
  import opened Framing
  import P = PrintDecoder

  // ---- frames (sections 5.1 and 5.3 of IEC 60870-5-104) ----

  /** A sequence number in a pair of control octets: `(n << 1) & 0xFF`, `(n >> 7) & 0xFF`. */
  function SeqOctets(n: nat): seq<byte> {
    [2 * n % 256, n / 128 % 256]
  }

  function SFrame(rr: nat): seq<byte> {
    [START, 4, 1, 0] + SeqOctets(rr)
  }

  /** `ca & 0xFF`, `(ca >> 8) & 0xFF`; any Python integer is accepted. */
  function GiFrame(ss: nat, rr: nat, ca: int): seq<byte> {
    [START, 14] + SeqOctets(ss) + SeqOctets(rr) + [100, 1, 6, 0, ca % 256, ca / 256 % 256, 0, 0, 0, 20]
  }

  const STARTDT_ACT: seq<byte> := [START, 4, 0x07, 0, 0, 0]
  const TESTFR_CON: seq<byte> := [START, 4, 0x83, 0, 0, 0]

  predicate IsIFrame(cf0: byte) { cf0 % 2 == 0 }

  predicate IsUFrame(cf0: byte) { cf0 % 4 == 3 }

  function ParseSendSeq(cf0: byte, cf1: byte): nat {
    cf0 / 2 + cf1 * SEVEN_BITS
  }

  const SEVEN_BITS: int := 128

  // ---- the loop as a function ----

  datatype Config = Config(giInterval: real, giCas: seq<int>)

  /** `dead` is set once an exception has left the loop. */
  datatype State = State(
    ss: nat, rr: nat, lastGi: real, sent: seq<seq<byte>>, printed: seq<P.Printed>, dead: bool)

  const INITIAL := State(0, 0, 0.0, [STARTDT_ACT], [], false)

  function Next15(n: nat): nat { (n + 1) % 0x8000 }

  function SendGis(s: State, cas: seq<int>): State
    decreases |cas|
  {
    if cas == [] then s
    else SendGis(s.(sent := s.sent + [GiFrame(s.ss, s.rr, cas[0])], ss := Next15(s.ss)), cas[1..])
  }

  function Interrogate(s: State, c: Config, now: real): State {
    if (c.giInterval == 0.0 && s.lastGi == 0.0) || (c.giInterval > 0.0 && now - s.lastGi >= c.giInterval)
    then SendGis(s, c.giCas).(lastGi := now)
    else s
  }

  /** One received frame; its control field is octets 2..6. */
  function Receive(s: State, apdu: seq<byte>): State {
    if |apdu| < 3 then s.(dead := true)
    else if IsUFrame(apdu[2]) then
      if apdu[2] == 0x43 then s.(sent := s.sent + [TESTFR_CON]) else s
    else if !IsIFrame(apdu[2]) then s
    else if |apdu| < 4 then s.(dead := true)
    else
      var rr := Next15(ParseSendSeq(apdu[2], apdu[3]));
      var decoded := P.DecodeAsdu(if |apdu| < 6 then [] else apdu[6..]);
      if decoded.raised then s.(rr := rr, dead := true)
      else s.(rr := rr, printed := s.printed + decoded.points, sent := s.sent + [SFrame(rr)])
  }

  /** The state when the loop ends on a stream; `clock` gives the reading of iteration `i`. */
  function RunStream(s: State, c: Config, clock: nat -> real, i: nat, stream: seq<byte>): State
    decreases |stream|
  {
    var asked := Interrogate(s, c, clock(i));
    var (apdu, rest) := TakeApdu(stream);
    if !apdu.Frame? then asked.(dead := true)
    else
      var after := Receive(asked, apdu.bytes);
      if after.dead then after else RunStream(after, c, clock, i + 1, rest)
  }

  /** The session object: `main` with its local variables as fields. */
  class Reader {
    var state: State
    const sock: Socket

    constructor (sock: Socket)
      requires sock.Valid()
      ensures this.sock == sock && state == INITIAL
    {
      this.sock := sock;
      state := INITIAL;
    }

    /** The handshake: the first frame must confirm STARTDT, or `main` raises. */
    method AwaitStart()
      requires sock.Valid()
      modifies this, sock
      ensures sock.Valid() && sock.Stream() == TakeApdu(old(sock.Stream())).1
      ensures var apdu := TakeApdu(old(sock.Stream())).0;
              state == old(state).(dead := !(apdu.Frame? && |apdu.bytes| > 2 && apdu.bytes[2] == 0x0B))
    {
      var apdu := RecvApdu(sock);
      state := state.(dead := !apdu.Frame? || |apdu.bytes| <= 2 || apdu.bytes[2] != 0x0B);
    }

    method SendInterrogations(cas: seq<int>)
      modifies this
      ensures state == SendGis(old(state), cas)
    {
      for k := 0 to |cas|
        invariant SendGis(state, cas[k..]) == SendGis(old(state), cas)
      {
        state := state.(sent := state.sent + [GiFrame(state.ss, state.rr, cas[k])]);
        state := state.(ss := Next15(state.ss));
      }
    }

    /** The `while True` loop; it ends when the peer closes or an exception is raised. */
    method Loop(c: Config, clock: nat -> real)
      requires sock.Valid() && !state.dead
      modifies this, sock
      ensures sock.Valid() && state == RunStream(old(state), c, clock, 0, old(sock.Stream()))
    {
      var i := 0;
      while true
        invariant sock.Valid() && !state.dead
        invariant RunStream(state, c, clock, i, sock.Stream()) == RunStream(old(state), c, clock, 0, old(sock.Stream()))
        decreases |sock.Stream()|
      {
        var now := clock(i);
        if c.giInterval == 0.0 && state.lastGi == 0.0 {
          SendInterrogations(c.giCas);
          state := state.(lastGi := now);
        } else if c.giInterval > 0.0 && now - state.lastGi >= c.giInterval {
          SendInterrogations(c.giCas);
          state := state.(lastGi := now);
        }
        var apdu := RecvApdu(sock);
        if !apdu.Frame? {
          state := state.(dead := true);
          return;
        }
        state := Receive(state, apdu.bytes);
        if state.dead { return; }
        i := i + 1;
      }
    }
  }

  // ---- runs over whole frames ----

  function RunFrames(s: State, c: Config, clock: nat -> real, i: nat, bodies: seq<Body>): State
    decreases |bodies|
  {
    var asked := Interrogate(s, c, clock(i));
    if bodies == [] then asked.(dead := true)
    else
      var after := Receive(asked, Framed(bodies[0]));
      if after.dead then after else RunFrames(after, c, clock, i + 1, bodies[1..])
  }

  /** However the network splits the frames, the session sees them one by one. */
  lemma {:induction false} StreamIsFrames(s: State, c: Config, clock: nat -> real, i: nat, bodies: seq<Body>)
    ensures RunStream(s, c, clock, i, FramedAll(bodies)) == RunFrames(s, c, clock, i, bodies)
    decreases |bodies|
  {
    if bodies != [] {
      TakesOneFrame(bodies[0], FramedAll(bodies[1..]));
      var after := Receive(Interrogate(s, c, clock(i)), Framed(bodies[0]));
      if !after.dead {
        StreamIsFrames(after, c, clock, i + 1, bodies[1..]);
      }
    }
  }

  // ---- sequence numbers ----

  /** The number a frame carries in a pair of octets. */
  function SeqAt(frame: seq<byte>, i: nat): nat
    requires i + 1 < |frame|
  {
    ParseSendSeq(frame[i], frame[i + 1])
  }

  /** A number below 2^15 stands in the upper fifteen bits of two octets, low octet first. */
  lemma ParseInvertsSeq(n: nat)
    requires n < 0x8000
    ensures var cf := SeqOctets(n); ParseSendSeq(cf[0], cf[1]) == n && IsIFrame(cf[0]) && !IsUFrame(cf[0])
    ensures SeqOctets(n) == [2 * (n % 128), n / 128]
  {
  }

  /** Frames this reader makes are never taken for another kind, and carry their numbers. */
  lemma MadeFramesAreRecognised(ss: nat, rr: nat, ca: int)
    requires ss < 0x8000 && rr < 0x8000
    ensures var f := GiFrame(ss, rr, ca);
            |f| == 2 + f[1] as int && IsIFrame(f[2]) && !IsUFrame(f[2]) && SeqAt(f, 2) == ss && SeqAt(f, 4) == rr
    ensures var f := SFrame(rr);
            |f| == 2 + f[1] as int && !IsIFrame(f[2]) && !IsUFrame(f[2]) && SeqAt(f, 4) == rr
    ensures IsUFrame(STARTDT_ACT[2]) && IsUFrame(TESTFR_CON[2])
    ensures !IsIFrame(STARTDT_ACT[2]) && !IsIFrame(TESTFR_CON[2])
  {
    ParseInvertsSeq(ss);
    ParseInvertsSeq(rr);
    assert GiFrame(ss, rr, ca)[2..4] == SeqOctets(ss) && GiFrame(ss, rr, ca)[4..6] == SeqOctets(rr);
    assert SFrame(rr)[4..6] == SeqOctets(rr);
  }

  // ---- against a server that numbers its I-frames from 0 ----

  datatype ServerFrame =
    | Info(nr: nat, asdu: seq<byte>) | Supervisory(nr: nat) | Unnumbered(cf0: byte)

  predicate Sendable(f: ServerFrame) {
    match f
    case Info(_, asdu) => |asdu| <= 249
    case Supervisory(_) => true
    case Unnumbered(cf0) => IsUFrame(cf0)
  }

  predicate AllSendable(frames: seq<ServerFrame>) {
    forall i | 0 <= i < |frames| :: Sendable(frames[i])
  }

  /** The APDU body a server sends, `ns` being the number of I-frames before it. */
  function ServerBody(f: ServerFrame, ns: nat): Body
    requires Sendable(f)
  {
    match f
    case Info(nr, asdu) => SeqOctets(ns % 0x8000) + SeqOctets(nr % 0x8000) + asdu
    case Supervisory(nr) => [1, 0] + SeqOctets(nr % 0x8000)
    case Unnumbered(cf0) => [cf0, 0, 0, 0]
  }

  function ServerBodies(frames: seq<ServerFrame>, ns: nat): seq<Body>
    requires AllSendable(frames)
    decreases |frames|
  {
    if frames == [] then []
    else [ServerBody(frames[0], ns)] + ServerBodies(frames[1..], if frames[0].Info? then ns + 1 else ns)
  }

  function Infos(frames: seq<ServerFrame>): nat {
    if frames == [] then 0 else (if frames[0].Info? then 1 else 0) + Infos(frames[1..])
  }

  /** Everything the I-frames say, in order. */
  function DecodeAll(frames: seq<ServerFrame>): seq<P.Printed> {
    if frames == [] then []
    else DecodeOne(frames[0]) + DecodeAll(frames[1..])
  }

  function DecodeOne(f: ServerFrame): seq<P.Printed> {
    if f.Info? then P.DecodeAsdu(f.asdu).points else []
  }

  predicate Decodable(f: ServerFrame) {
    f.Info? ==> !P.DecodeAsdu(f.asdu).raised
  }

  predicate AllDecodable(frames: seq<ServerFrame>) {
    forall i | 0 <= i < |frames| :: Decodable(frames[i])
  }

  /** Interrogations are I-frames with ten octets of ASDU; acknowledgements are bare S-frames. */
  predicate OfKind(f: seq<byte>, interrogation: bool) {
    if interrogation then |f| == 16 && IsIFrame(f[2])
    else |f| == 6 && !IsIFrame(f[2]) && !IsUFrame(f[2])
  }

  /** The frames of one kind among those sent. */
  function Kind(sent: seq<seq<byte>>, interrogations: bool): seq<seq<byte>> {
    if sent == [] then []
    else
      var last := sent[|sent| - 1];
      Kind(sent[..|sent| - 1], interrogations) + if OfKind(last, interrogations) then [last] else []
  }

  function Gis(sent: seq<seq<byte>>): seq<seq<byte>> { Kind(sent, true) }

  function Acks(sent: seq<seq<byte>>): seq<seq<byte>> { Kind(sent, false) }

  lemma KindSnoc(sent: seq<seq<byte>>, f: seq<byte>, interrogations: bool)
    ensures Kind(sent + [f], interrogations)
         == Kind(sent, interrogations) + if OfKind(f, interrogations) then [f] else []
  {
    assert (sent + [f])[..|sent|] == sent;
  }

  /** The k-th interrogation carries N(S) = k mod 2^15, a GI frame for some station address. */
  predicate GiNumbered(gis: seq<seq<byte>>, k: nat)
    requires k < |gis|
  {
    |gis[k]| == 16 && SeqAt(gis[k], 2) == k % 0x8000
  }

  /** The k-th acknowledgement names k + 1 received frames. */
  predicate AckNumbered(acks: seq<seq<byte>>, k: nat)
    requires k < |acks|
  {
    acks[k] == SFrame((k + 1) % 0x8000)
  }

  /** The numbering a session keeps after `n` I-frames. */
  ghost predicate Numbered(s: State, n: nat) {
    && s.rr == n % 0x8000
    && s.ss == |Gis(s.sent)| % 0x8000
    && (forall k | 0 <= k < |Gis(s.sent)| :: GiNumbered(Gis(s.sent), k))
    && |Acks(s.sent)| == n
    && (forall k | 0 <= k < n :: AckNumbered(Acks(s.sent), k))
  }

  lemma InitiallyNumbered()
    ensures Numbered(INITIAL, 0)
  {
    KindSnoc([], STARTDT_ACT, true);
    KindSnoc([], STARTDT_ACT, false);
    assert [] + [STARTDT_ACT] == INITIAL.sent;
  }

  lemma NextMod(x: nat)
    ensures Next15(x % 0x8000) == (x + 1) % 0x8000
  {
  }

  lemma OneGi(s: State, n: nat, ca: int)
    requires Numbered(s, n)
    ensures Numbered(s.(sent := s.sent + [GiFrame(s.ss, s.rr, ca)], ss := Next15(s.ss)), n)
  {
    var f := GiFrame(s.ss, s.rr, ca);
    MadeFramesAreRecognised(s.ss, s.rr, ca);
    KindSnoc(s.sent, f, true);
    KindSnoc(s.sent, f, false);
    var before := Gis(s.sent);
    var gis := before + [f];
    NextMod(|before|);
    assert |f| == 16 && OfKind(f, true) && !OfKind(f, false);
    var after := s.(sent := s.sent + [f], ss := Next15(s.ss));
    assert Gis(after.sent) == gis && Acks(after.sent) == Acks(s.sent);
    forall k | 0 <= k < |gis| ensures GiNumbered(gis, k) {
      assert k < |before| ==> GiNumbered(before, k);
    }
  }

  lemma {:induction false} GisKeepNumbers(s: State, n: nat, cas: seq<int>)
    requires Numbered(s, n)
    ensures Numbered(SendGis(s, cas), n)
    ensures SendGis(s, cas).printed == s.printed && SendGis(s, cas).dead == s.dead
    ensures |Gis(SendGis(s, cas).sent)| == |Gis(s.sent)| + |cas|
    decreases |cas|
  {
    if cas != [] {
      var f := GiFrame(s.ss, s.rr, cas[0]);
      OneGi(s, n, cas[0]);
      KindSnoc(s.sent, f, true);
      MadeFramesAreRecognised(s.ss, s.rr, cas[0]);
      GisKeepNumbers(s.(sent := s.sent + [f], ss := Next15(s.ss)), n, cas[1..]);
    }
  }

  lemma OneAck(s: State, n: nat, printed: seq<P.Printed>)
    requires Numbered(s, n)
    ensures var rr := (n + 1) % 0x8000;
            Numbered(s.(rr := rr, printed := printed, sent := s.sent + [SFrame(rr)]), n + 1)
  {
    var f := SFrame((n + 1) % 0x8000);
    KindSnoc(s.sent, f, true);
    KindSnoc(s.sent, f, false);
    MadeFramesAreRecognised(0, (n + 1) % 0x8000, 0);
    var before := Acks(s.sent);
    var acks := before + [f];
    assert |f| == 6 && OfKind(f, false) && !OfKind(f, true);
    var after := s.(rr := (n + 1) % 0x8000, printed := printed, sent := s.sent + [f]);
    assert Gis(after.sent) == Gis(s.sent) && Acks(after.sent) == acks;
    forall k | 0 <= k < n + 1 ensures AckNumbered(acks, k) {
      assert k < n ==> AckNumbered(before, k);
    }
  }

  lemma TestFrameKeepsNumbers(s: State, n: nat)
    requires Numbered(s, n)
    ensures Numbered(s.(sent := s.sent + [TESTFR_CON]), n)
  {
    KindSnoc(s.sent, TESTFR_CON, true);
    KindSnoc(s.sent, TESTFR_CON, false);
    assert Gis(s.sent + [TESTFR_CON]) == Gis(s.sent) && Acks(s.sent + [TESTFR_CON]) == Acks(s.sent);
  }

  lemma ReceiveInfo(s: State, n: nat, f: ServerFrame)
    requires f.Info? && Sendable(f)
    ensures var decoded := P.DecodeAsdu(f.asdu);
            var rr := (n + 1) % 0x8000;
            Receive(s, Framed(ServerBody(f, n)))
            == if decoded.raised then s.(rr := rr, dead := true)
               else s.(rr := rr, printed := s.printed + decoded.points, sent := s.sent + [SFrame(rr)])
  {
    var apdu := Framed(ServerBody(f, n));
    ParseInvertsSeq(n % 0x8000);
    NextMod(n);
    assert apdu[2] == SeqOctets(n % 0x8000)[0] && apdu[3] == SeqOctets(n % 0x8000)[1];
    assert apdu[6..] == f.asdu;
  }

  lemma ReceiveOther(s: State, n: nat, f: ServerFrame)
    requires !f.Info? && Sendable(f)
    ensures Receive(s, Framed(ServerBody(f, n)))
         == if f == Unnumbered(0x43) then s.(sent := s.sent + [TESTFR_CON]) else s
  {
    var apdu := Framed(ServerBody(f, n));
    assert apdu[2] == ServerBody(f, n)[0];
  }

  lemma ReceiveNumbers(s: State, n: nat, f: ServerFrame)
    requires Numbered(s, n) && !s.dead && Sendable(f) && Decodable(f)
    ensures var after := Receive(s, Framed(ServerBody(f, n)));
            && !after.dead
            && Numbered(after, n + if f.Info? then 1 else 0)
            && after.printed == s.printed + DecodeOne(f)
  {
    if f.Info? {
      ReceiveInfo(s, n, f);
      OneAck(s, n, s.printed + P.DecodeAsdu(f.asdu).points);
    } else {
      ReceiveOther(s, n, f);
      TestFrameKeepsNumbers(s, n);
    }
  }

  lemma OneRound(s: State, c: Config, now: real, n: nat, f: ServerFrame)
    requires Numbered(s, n) && !s.dead && Sendable(f) && Decodable(f)
    ensures var after := Receive(Interrogate(s, c, now), Framed(ServerBody(f, n)));
            && !after.dead
            && Numbered(after, n + if f.Info? then 1 else 0)
            && after.printed == s.printed + DecodeOne(f)
  {
    GisKeepNumbers(s, n, c.giCas);
    ReceiveNumbers(Interrogate(s, c, now), n, f);
  }

  lemma FramesUnfold(frames: seq<ServerFrame>, n: nat)
    requires frames != [] && AllSendable(frames) && AllDecodable(frames)
    ensures Sendable(frames[0]) && Decodable(frames[0]) && AllSendable(frames[1..]) && AllDecodable(frames[1..])
    ensures ServerBodies(frames, n)
         == [ServerBody(frames[0], n)] + ServerBodies(frames[1..], n + if frames[0].Info? then 1 else 0)
    ensures Infos(frames) == (if frames[0].Info? then 1 else 0) + Infos(frames[1..])
    ensures DecodeAll(frames) == DecodeOne(frames[0]) + DecodeAll(frames[1..])
  {
  }

  /** The state after the first frame of a run, and the run that goes on from it. */
  lemma RunUnfolds(s: State, c: Config, clock: nat -> real, i: nat, f: ServerFrame, n: nat, rest: seq<Body>)
    returns (after: State)
    requires Numbered(s, n) && !s.dead && Sendable(f) && Decodable(f)
    ensures Numbered(after, n + if f.Info? then 1 else 0) && !after.dead
    ensures after.printed == s.printed + DecodeOne(f)
    ensures RunFrames(s, c, clock, i, [ServerBody(f, n)] + rest) == RunFrames(after, c, clock, i + 1, rest)
  {
    OneRound(s, c, clock(i), n, f);
    after := Receive(Interrogate(s, c, clock(i)), Framed(ServerBody(f, n)));
  }

  lemma EmptyRun(s: State, c: Config, clock: nat -> real, i: nat, n: nat)
    requires Numbered(s, n)
    ensures Tracks(s, RunFrames(s, c, clock, i, []), n, [])
  {
    GisKeepNumbers(s, n, c.giCas);
  }

  /** From `s`, which had seen `n` I-frames, the server's `frames` lead to `end`. */
  ghost predicate Tracks(s: State, end: State, n: nat, frames: seq<ServerFrame>) {
    Numbered(end, n + Infos(frames)) && end.printed == s.printed + DecodeAll(frames)
  }

  lemma TracksStep(s: State, after: State, end: State, n: nat, frames: seq<ServerFrame>)
    requires frames != [] && after.printed == s.printed + DecodeOne(frames[0])
    requires Tracks(after, end, n + if frames[0].Info? then 1 else 0, frames[1..])
    ensures Tracks(s, end, n, frames)
  {
    PrintedAssociates(s.printed, DecodeOne(frames[0]), DecodeAll(frames[1..]));
  }

  lemma PrintedAssociates(a: seq<P.Printed>, b: seq<P.Printed>, c: seq<P.Printed>)
    ensures a + b + c == a + (b + c)
  {
  }

  /** Over every run: numbers, acknowledgements and printed messages follow the server's I-frames. */
  lemma {:induction false} SessionNumbers(
    s: State, c: Config, clock: nat -> real, i: nat, frames: seq<ServerFrame>, n: nat)
    requires Numbered(s, n) && !s.dead && AllSendable(frames) && AllDecodable(frames)
    ensures Tracks(s, RunFrames(s, c, clock, i, ServerBodies(frames, n)), n, frames)
    decreases |frames|
  {
    if frames == [] {
      EmptyRun(s, c, clock, i, n);
    } else {
      var rest := frames[1..];
      var m := n + if frames[0].Info? then 1 else 0;
      FramesUnfold(frames, n);
      var after := RunUnfolds(s, c, clock, i, frames[0], n, ServerBodies(rest, m));
      SessionNumbers(after, c, clock, i + 1, rest, m);
      TracksStep(s, after, RunFrames(after, c, clock, i + 1, ServerBodies(rest, m)), n, frames);
    }
  }

  /** What any frame does, by the first octet of its body; too short ones end the session in an exception. */
  lemma AnyFrame(s: State, body: Body)
    ensures body == [] || (|body| == 1 && body[0] % 2 == 0) ==> Receive(s, Framed(body)) == s.(dead := true)
    ensures body != [] && body[0] % 4 == 1 ==> Receive(s, Framed(body)) == s
    ensures body != [] && body[0] % 4 == 3 ==>
              Receive(s, Framed(body)) == if body[0] == 0x43 then s.(sent := s.sent + [[0x68, 4, 0x83, 0, 0, 0]]) else s
    ensures |body| >= 2 && body[0] % 2 == 0 ==>
              var decoded := P.DecodeAsdu(if |body| < 4 then [] else body[4..]);
              var rr := ((body[0] as int) / 2 + 128 * (body[1] as int) + 1) % 0x8000;
              Receive(s, Framed(body))
              == if decoded.raised then s.(rr := rr, dead := true)
                 else s.(rr := rr, printed := s.printed + decoded.points, sent := s.sent + [SFrame(rr)])
  {
    var apdu := Framed(body);
    assert |apdu| == 2 + |body|;
    if |body| >= 1 { assert apdu[2] == body[0]; }
    if |body| >= 2 { assert apdu[3] == body[1]; }
    if |body| >= 4 { assert apdu[6..] == body[4..]; }
  }

  // ---- when and whom the loop interrogates ----

  /** The reading of the last round before reading `n`, or 0 if there was none. */
  function LastRound(c: Config, clock: nat -> real, n: nat): real
    decreases n, 0
  {
    if n == 0 then 0.0 else if Due(c, clock, n - 1) then clock(n - 1) else LastRound(c, clock, n - 1)
  }

  /** A round of interrogations is due at reading `n`: once, or each time the interval has passed since the last. */
  predicate Due(c: Config, clock: nat -> real, n: nat)
    decreases n, 1
  {
    if c.giInterval == 0.0 then LastRound(c, clock, n) == 0.0
    else c.giInterval > 0.0 && clock(n) - LastRound(c, clock, n) >= c.giInterval
  }

  /** Rounds due among the first `n` readings. */
  function Rounds(c: Config, clock: nat -> real, n: nat): nat {
    if n == 0 then 0 else Rounds(c, clock, n - 1) + if Due(c, clock, n - 1) then 1 else 0
  }

  /** The last round is the latest due reading, if there is one. */
  lemma {:induction false} LastRoundIsLatest(c: Config, clock: nat -> real, n: nat) returns (j: int)
    ensures -1 <= j < n && (forall k | j < k < n :: !Due(c, clock, k))
    ensures LastRound(c, clock, n) == if j < 0 then 0.0 else clock(j)
    ensures j >= 0 ==> Due(c, clock, j)
    decreases n
  {
    j := -1;
    if n > 0 {
      if Due(c, clock, n - 1) { j := n - 1; } else { j := LastRoundIsLatest(c, clock, n - 1); }
    }
  }

  /** With interval 0 and a clock past its origin, one round at the first reading and none after. */
  lemma {:induction false} ZeroIntervalDue(c: Config, clock: nat -> real, n: nat)
    requires c.giInterval == 0.0 && forall i: nat :: clock(i) > 0.0
    ensures Due(c, clock, n) <==> n == 0
    ensures Rounds(c, clock, n) == if n == 0 then 0 else 1
    ensures n > 0 ==> LastRound(c, clock, n) > 0.0
  {
    if n > 0 {
      ZeroIntervalDue(c, clock, n - 1);
    }
  }

  /** With a positive interval a round goes out at a reading exactly when the interval has passed since the last one. */
  lemma PositiveIntervalDue(c: Config, clock: nat -> real, n: nat) returns (j: int)
    requires c.giInterval > 0.0
    ensures -1 <= j < n && (forall k | j < k < n :: !Due(c, clock, k)) && (j >= 0 ==> Due(c, clock, j))
    ensures Due(c, clock, n) <==> clock(n) - (if j < 0 then 0.0 else clock(j)) >= c.giInterval
  {
    j := LastRoundIsLatest(c, clock, n);
  }

  /** A station interrogation for a common address: section 7.3.4.1 of IEC 60870-5-101 in an I-frame. */
  predicate AsksFor(f: seq<byte>, ca: int) {
    && |f| == 16 && f[0] == 0x68 && f[1] == 14 && f[2] % 2 == 0
    && f[6] == 100 && f[7] == 1 && f[8] == 6 && f[9] == 0
    && (f[10] as int) + 256 * (f[11] as int) == ca % 65536
    && f[12] == 0 && f[13] == 0 && f[14] == 0 && f[15] == 20
  }

  lemma GiFrameAsksFor(ss: nat, rr: nat, ca: int)
    ensures AsksFor(GiFrame(ss, rr, ca), ca)
  {
    LowSixteen(ca);
  }

  lemma LowSixteen(n: int)
    ensures n % 256 + 256 * (n / 256 % 256) == n % 65536
  {
    var q := n / 256 / 256;
    assert n == 256 * (n / 256) + n % 256 && n / 256 == 256 * q + n / 256 % 256;
    assert n == 65536 * q + (256 * (n / 256 % 256) + n % 256);
  }

  /** Round `r` asks every station in turn. */
  predicate RoundSent(gis: seq<seq<byte>>, cas: seq<int>, r: nat) {
    && (r + 1) * |cas| <= |gis|
    && forall j | 0 <= j < |cas| :: AsksAt(gis, r * |cas| + j, cas[j])
  }

  predicate AsksAt(gis: seq<seq<byte>>, k: int, ca: int) {
    0 <= k < |gis| && AsksFor(gis[k], ca)
  }

  /** After `n` readings the rounds due have gone out, complete and in turn, and nothing else was asked. */
  ghost predicate Asked(s: State, c: Config, clock: nat -> real, n: nat) {
    && s.lastGi == LastRound(c, clock, n)
    && |Gis(s.sent)| == Rounds(c, clock, n) * |c.giCas|
    && forall r | 0 <= r < Rounds(c, clock, n) :: RoundSent(Gis(s.sent), c.giCas, r)
  }

  lemma InitiallyAsked(c: Config, clock: nat -> real)
    ensures Asked(INITIAL, c, clock, 0)
  {
    KindSnoc([], STARTDT_ACT, true);
    assert [] + [STARTDT_ACT] == INITIAL.sent;
  }

  /** What a round adds. */
  lemma {:induction false} RoundAdds(s: State, cas: seq<int>) returns (more: seq<seq<byte>>)
    ensures Gis(SendGis(s, cas).sent) == Gis(s.sent) + more && |more| == |cas|
    ensures forall j | 0 <= j < |cas| :: AsksFor(more[j], cas[j])
    ensures SendGis(s, cas).lastGi == s.lastGi
    decreases |cas|
  {
    more := [];
    if cas != [] {
      var f := GiFrame(s.ss, s.rr, cas[0]);
      GiFrameAsksFor(s.ss, s.rr, cas[0]);
      KindSnoc(s.sent, f, true);
      var rest := RoundAdds(s.(sent := s.sent + [f], ss := Next15(s.ss)), cas[1..]);
      more := [f] + rest;
      assert Gis(s.sent) + [f] + rest == Gis(s.sent) + more;
    }
  }

  lemma RoundsKept(gis: seq<seq<byte>>, more: seq<seq<byte>>, cas: seq<int>, rounds: nat)
    requires |gis| == rounds * |cas| && forall r | 0 <= r < rounds :: RoundSent(gis, cas, r)
    requires |more| == |cas| && forall j | 0 <= j < |cas| :: AsksFor(more[j], cas[j])
    ensures |gis + more| == (rounds + 1) * |cas|
    ensures forall r | 0 <= r < rounds + 1 :: RoundSent(gis + more, cas, r)
  {
    forall r | 0 <= r < rounds + 1 ensures RoundSent(gis + more, cas, r) {
      if r < rounds {
        RoundGrows(gis, more, cas, r);
      } else {
        assert forall j | 0 <= j < |cas| :: AsksAt(gis + more, r * |cas| + j, cas[j]);
      }
    }
  }

  lemma RoundGrows(gis: seq<seq<byte>>, more: seq<seq<byte>>, cas: seq<int>, r: nat)
    requires RoundSent(gis, cas, r)
    ensures RoundSent(gis + more, cas, r)
  {
    forall j | 0 <= j < |cas| ensures AsksAt(gis + more, r * |cas| + j, cas[j]) {
      assert AsksAt(gis, r * |cas| + j, cas[j]);
    }
  }

  lemma InterrogateAsks(s: State, c: Config, clock: nat -> real, n: nat)
    requires Asked(s, c, clock, n)
    ensures Asked(Interrogate(s, c, clock(n)), c, clock, n + 1)
  {
    if Due(c, clock, n) {
      var more := RoundAdds(s, c.giCas);
      RoundsKept(Gis(s.sent), more, c.giCas, Rounds(c, clock, n));
    }
  }

  /** Nothing received makes the loop ask. */
  lemma ReceiveAsksNothing(s: State, apdu: seq<byte>)
    ensures Gis(Receive(s, apdu).sent) == Gis(s.sent) && Receive(s, apdu).lastGi == s.lastGi
    ensures s.sent <= Receive(s, apdu).sent
  {
    var t := Receive(s, apdu);
    if |t.sent| > |s.sent| {
      var f := t.sent[|s.sent|];
      assert t.sent == s.sent + [f] && |f| == 6;
      KindSnoc(s.sent, f, true);
    }
  }

  /** Over every run of the loop, whatever arrives: exactly the rounds due at the readings taken. */
  lemma {:induction false} RunAsks(s: State, c: Config, clock: nat -> real, i: nat, stream: seq<byte>)
    returns (readings: nat)
    requires Asked(s, c, clock, i)
    ensures readings > i && Asked(RunStream(s, c, clock, i, stream), c, clock, readings)
    decreases |stream|
  {
    var asked := Interrogate(s, c, clock(i));
    InterrogateAsks(s, c, clock, i);
    readings := i + 1;
    var (apdu, rest) := TakeApdu(stream);
    if apdu.Frame? {
      var after := Receive(asked, apdu.bytes);
      ReceiveAsksNothing(asked, apdu.bytes);
      if !after.dead {
        readings := RunAsks(after, c, clock, i + 1, rest);
      }
    }
  }

  lemma {:induction false} SendGisAppends(s: State, cas: seq<int>)
    ensures |SendGis(s, cas).sent| == |s.sent| + |cas| && s.sent <= SendGis(s, cas).sent
    ensures forall j | 0 <= j < |cas| :: AsksFor(SendGis(s, cas).sent[|s.sent| + j], cas[j])
    decreases |cas|
  {
    if cas != [] {
      var f := GiFrame(s.ss, s.rr, cas[0]);
      GiFrameAsksFor(s.ss, s.rr, cas[0]);
      var next := s.(sent := s.sent + [f], ss := Next15(s.ss));
      SendGisAppends(next, cas[1..]);
      forall j | 0 <= j < |cas| ensures AsksFor(SendGis(s, cas).sent[|s.sent| + j], cas[j]) {
        if j > 0 {
          assert SendGis(s, cas).sent[|s.sent| + j] == SendGis(next, cas[1..]).sent[|next.sent| + (j - 1)];
          assert cas[j] == cas[1..][j - 1];
        }
      }
    }
  }

  lemma {:induction false} RunOnlyAppends(s: State, c: Config, clock: nat -> real, i: nat, stream: seq<byte>)
    ensures Interrogate(s, c, clock(i)).sent <= RunStream(s, c, clock, i, stream).sent
    decreases |stream|
  {
    var asked := Interrogate(s, c, clock(i));
    var (apdu, rest) := TakeApdu(stream);
    if apdu.Frame? {
      var after := Receive(asked, apdu.bytes);
      ReceiveAsksNothing(asked, apdu.bytes);
      if !after.dead {
        RunOnlyAppends(after, c, clock, i + 1, rest);
        SendGisAppends(after, c.giCas);
      }
    }
  }

  /** With the default interval 0: every station is asked once, before anything else is sent, and never again. */
  lemma DefaultAsksOnceAtStart(c: Config, clock: nat -> real, stream: seq<byte>)
    requires c.giInterval == 0.0 && forall i: nat :: clock(i) > 0.0
    ensures var end := RunStream(INITIAL, c, clock, 0, stream);
            && |Gis(end.sent)| == |c.giCas| < |end.sent|
            && end.sent[0] == [0x68, 4, 7, 0, 0, 0]
            && forall j | 0 <= j < |c.giCas| :: AsksFor(end.sent[1 + j], c.giCas[j])
  {
    InitiallyAsked(c, clock);
    var n := RunAsks(INITIAL, c, clock, 0, stream);
    ZeroIntervalDue(c, clock, n);
    RunOnlyAppends(INITIAL, c, clock, 0, stream);
    SendGisAppends(INITIAL, c.giCas);
  }

  // ---- everything a session sends, octet by octet ----

  function FifteenBits(n: nat): seq<byte> {
    [2 * (n % 0x8000 % 128), n % 0x8000 / 128]
  }

  function Asking(ns: nat, nr: nat, ca: int): seq<byte> {
    [0x68, 14] + FifteenBits(ns) + FifteenBits(nr) + [100, 1, 6, 0, ca % 256, ca / 256 % 256, 0, 0, 0, 20]
  }

  /** I-frames among the first `k` frames. */
  function Seen(frames: seq<ServerFrame>, k: nat): nat
    requires k <= |frames|
  {
    if k == 0 then 0 else Seen(frames, k - 1) + if frames[k - 1].Info? then 1 else 0
  }

  /** One interrogation per station, numbered on from `ns`. */
  function Round(cas: seq<int>, ns: nat, nr: nat): seq<seq<byte>> {
    seq(|cas|, j requires 0 <= j < |cas| => Asking(ns + j, nr, cas[j]))
  }

  /** Interrogations sent before reading `n`. */
  function AskedBefore(c: Config, clock: nat -> real, n: nat): nat {
    if n == 0 then 0 else AskedBefore(c, clock, n - 1) + if Due(c, clock, n - 1) then |c.giCas| else 0
  }

  function RoundIfDue(c: Config, clock: nat -> real, n: nat, nr: nat): seq<seq<byte>> {
    if Due(c, clock, n) then Round(c.giCas, AskedBefore(c, clock, n), nr) else []
  }

  function Mod15(n: nat): nat { n % 0x8000 }

  /** An I-frame is acknowledged with the number of I-frames so far, a test is confirmed, the rest is not answered. */
  function Reaction(f: ServerFrame, seen: nat): seq<seq<byte>> {
    match f
    case Info(_, _) => [[0x68, 4, 1, 0] + FifteenBits(seen)]
    case Supervisory(_) => []
    case Unnumbered(cf0) => if cf0 == 0x43 then [[0x68, 4, 0x83, 0, 0, 0]] else []
  }

  /** What has been sent when the first `k` frames have been dealt with. */
  function Script(c: Config, clock: nat -> real, frames: seq<ServerFrame>, k: nat): seq<seq<byte>>
    requires k <= |frames|
  {
    if k == 0 then [[0x68, 4, 7, 0, 0, 0]]
    else Script(c, clock, frames, k - 1) + RoundIfDue(c, clock, k - 1, Seen(frames, k - 1))
         + Reaction(frames[k - 1], Seen(frames, k))
  }

  ghost predicate OnScript(s: State, c: Config, clock: nat -> real, frames: seq<ServerFrame>, k: nat)
    requires k <= |frames|
  {
    && !s.dead && s.sent == Script(c, clock, frames, k) && s.lastGi == LastRound(c, clock, k)
    && s.rr == Mod15(Seen(frames, k)) && s.ss == Mod15(AskedBefore(c, clock, k))
  }

  lemma FramesAsWritten(n: nat, nr: nat, ca: int)
    ensures GiFrame(Mod15(n), Mod15(nr), ca) == Asking(n, nr, ca)
    ensures SFrame(Mod15(n)) == [0x68, 4, 1, 0] + FifteenBits(n)
  {
    ParseInvertsSeq(n % 0x8000);
    ParseInvertsSeq(nr % 0x8000);
  }

  lemma {:induction false} SendGisIsRound(s: State, cas: seq<int>, n: nat, nr: nat)
    requires s.ss == Mod15(n) && s.rr == Mod15(nr)
    ensures SendGis(s, cas) == s.(sent := s.sent + Round(cas, n, nr), ss := Mod15(n + |cas|))
    decreases |cas|
  {
    if cas == [] {
      assert s.sent + Round(cas, n, nr) == s.sent;
    } else {
      var f := GiFrame(s.ss, s.rr, cas[0]);
      FramesAsWritten(n, nr, cas[0]);
      NextMod(n);
      SendGisIsRound(s.(sent := s.sent + [f], ss := Next15(s.ss)), cas[1..], n + 1, nr);
      RoundUnfolds(cas, n, nr);
      assert s.sent + [f] + Round(cas[1..], n + 1, nr) == s.sent + ([f] + Round(cas[1..], n + 1, nr));
    }
  }

  lemma RoundUnfolds(cas: seq<int>, n: nat, nr: nat)
    requires cas != []
    ensures Round(cas, n, nr) == [Asking(n, nr, cas[0])] + Round(cas[1..], n + 1, nr)
  {
  }

  /** The state after the interrogations of a turn. */
  ghost predicate RoundDone(t: State, c: Config, clock: nat -> real, frames: seq<ServerFrame>, k: nat)
    requires k <= |frames|
  {
    && !t.dead && t.sent == Script(c, clock, frames, k) + RoundIfDue(c, clock, k, Seen(frames, k))
    && t.lastGi == LastRound(c, clock, k + 1)
    && t.rr == Mod15(Seen(frames, k)) && t.ss == Mod15(AskedBefore(c, clock, k + 1))
  }

  lemma InterrogateOnScript(s: State, c: Config, clock: nat -> real, frames: seq<ServerFrame>, k: nat)
    requires k <= |frames| && OnScript(s, c, clock, frames, k)
    ensures RoundDone(Interrogate(s, c, clock(k)), c, clock, frames, k)
  {
    if Due(c, clock, k) {
      SendGisIsRound(s, c.giCas, AskedBefore(c, clock, k), Seen(frames, k));
    } else {
      assert s.sent + [] == s.sent;
    }
  }

  lemma ReceiveReacts(s: State, n: nat, f: ServerFrame, m: nat)
    requires s.rr == Mod15(n) && !s.dead && Sendable(f) && Decodable(f)
    requires m == n + if f.Info? then 1 else 0
    ensures var t := Receive(s, Framed(ServerBody(f, n)));
            && !t.dead && t.sent == s.sent + Reaction(f, m) && t.rr == Mod15(m) && t.ss == s.ss && t.lastGi == s.lastGi
  {
    if f.Info? {
      ReceiveInfo(s, n, f);
      FramesAsWritten(n + 1, 0, 0);
    } else {
      ReceiveOther(s, n, f);
      assert s.sent + [] == s.sent;
    }
  }

  lemma ReactionOnScript(t: State, u: State, c: Config, clock: nat -> real, frames: seq<ServerFrame>, k: nat)
    requires k < |frames| && RoundDone(t, c, clock, frames, k)
    requires !u.dead && u.sent == t.sent + Reaction(frames[k], Seen(frames, k + 1))
    requires u.rr == Mod15(Seen(frames, k + 1)) && u.ss == t.ss && u.lastGi == t.lastGi
    ensures OnScript(u, c, clock, frames, k + 1)
  {
    assert Script(c, clock, frames, k + 1)
        == Script(c, clock, frames, k) + RoundIfDue(c, clock, k, Seen(frames, k)) + Reaction(frames[k], Seen(frames, k + 1));
  }

  /** One turn of the loop keeps to the script. */
  lemma TurnOnScript(s: State, c: Config, clock: nat -> real, frames: seq<ServerFrame>, k: nat) returns (after: State)
    requires k < |frames| && OnScript(s, c, clock, frames, k) && Sendable(frames[k]) && Decodable(frames[k])
    ensures after == Receive(Interrogate(s, c, clock(k)), Framed(ServerBody(frames[k], Seen(frames, k))))
    ensures OnScript(after, c, clock, frames, k + 1)
  {
    var asked := Interrogate(s, c, clock(k));
    after := Receive(asked, Framed(ServerBody(frames[k], Seen(frames, k))));
    InterrogateOnScript(s, c, clock, frames, k);
    ReceiveReacts(asked, Seen(frames, k), frames[k], Seen(frames, k + 1));
    ReactionOnScript(asked, after, c, clock, frames, k);
  }

  lemma BodiesFrom(frames: seq<ServerFrame>, k: nat)
    requires k < |frames| && AllSendable(frames)
    ensures AllSendable(frames[k..]) && AllSendable(frames[k + 1..])
    ensures ServerBodies(frames[k..], Seen(frames, k))
         == [ServerBody(frames[k], Seen(frames, k))] + ServerBodies(frames[k + 1..], Seen(frames, k + 1))
  {
    assert frames[k..][1..] == frames[k + 1..];
  }

  lemma RunTurn(s: State, c: Config, clock: nat -> real, k: nat, body: Body, rest: seq<Body>)
    requires !Receive(Interrogate(s, c, clock(k)), Framed(body)).dead
    ensures RunFrames(s, c, clock, k, [body] + rest)
         == RunFrames(Receive(Interrogate(s, c, clock(k)), Framed(body)), c, clock, k + 1, rest)
  {
  }

  ghost predicate EndsOnScript(end: State, c: Config, clock: nat -> real, frames: seq<ServerFrame>) {
    end.sent == Script(c, clock, frames, |frames|) + RoundIfDue(c, clock, |frames|, Seen(frames, |frames|))
  }

  lemma LastTurn(s: State, c: Config, clock: nat -> real, frames: seq<ServerFrame>) returns (end: State)
    requires OnScript(s, c, clock, frames, |frames|)
    ensures AllSendable(frames[|frames|..])
    ensures end == RunFrames(s, c, clock, |frames|, ServerBodies(frames[|frames|..], Seen(frames, |frames|)))
    ensures EndsOnScript(end, c, clock, frames)
  {
    InterrogateOnScript(s, c, clock, frames, |frames|);
    end := RunFrames(s, c, clock, |frames|, []);
    assert frames[|frames|..] == [];
  }

  lemma {:induction false} SessionFollowsScript(
    s: State, c: Config, clock: nat -> real, frames: seq<ServerFrame>, k: nat)
    returns (end: State)
    requires k <= |frames| && OnScript(s, c, clock, frames, k) && AllSendable(frames) && AllDecodable(frames)
    ensures AllSendable(frames[k..])
    ensures end == RunFrames(s, c, clock, k, ServerBodies(frames[k..], Seen(frames, k)))
    ensures EndsOnScript(end, c, clock, frames)
    decreases |frames| - k
  {
    if k == |frames| {
      end := LastTurn(s, c, clock, frames);
    } else {
      var after := TurnOfSession(s, c, clock, frames, k);
      end := SessionFollowsScript(after, c, clock, frames, k + 1);
    }
  }

  lemma TurnOfSession(s: State, c: Config, clock: nat -> real, frames: seq<ServerFrame>, k: nat) returns (after: State)
    requires k < |frames| && OnScript(s, c, clock, frames, k) && AllSendable(frames) && AllDecodable(frames)
    ensures OnScript(after, c, clock, frames, k + 1)
    ensures AllSendable(frames[k..]) && AllSendable(frames[k + 1..])
    ensures RunFrames(s, c, clock, k, ServerBodies(frames[k..], Seen(frames, k)))
         == RunFrames(after, c, clock, k + 1, ServerBodies(frames[k + 1..], Seen(frames, k + 1)))
  {
    BodiesFrom(frames, k);
    after := TurnOnScript(s, c, clock, frames, k);
    RunTurn(s, c, clock, k, ServerBody(frames[k], Seen(frames, k)), ServerBodies(frames[k + 1..], Seen(frames, k + 1)));
  }

  const STARTDT_CON: Body := [0x0B, 0, 0, 0]

  /** The same, told of the octets a socket delivers in any chunks, from the confirmation of STARTDT on. */
  method RunSession(
    c: Config, clock: nat -> real, chunks: seq<seq<byte>>, ghost frames: seq<ServerFrame>)
    returns (end: State)
    requires AllSendable(frames) && AllDecodable(frames)
    requires forall i | 0 <= i < |chunks| :: chunks[i] != []
    requires Flatten(chunks) == Framed(STARTDT_CON) + FramedAll(ServerBodies(frames, 0))
    ensures Numbered(end, Infos(frames)) && end.printed == DecodeAll(frames)
    ensures EndsOnScript(end, c, clock, frames)
  {
    var sock := new Socket(chunks);
    var reader := new Reader(sock);
    TakesOneFrame(STARTDT_CON, FramedAll(ServerBodies(frames, 0)));
    reader.AwaitStart();
    reader.Loop(c, clock);
    end := reader.state;
    InitiallyNumbered();
    StreamIsFrames(INITIAL, c, clock, 0, ServerBodies(frames, 0));
    SessionNumbers(INITIAL, c, clock, 0, frames, 0);
    assert frames[0..] == frames;
    ghost var scripted := SessionFollowsScript(INITIAL, c, clock, frames, 0);
  }
}
