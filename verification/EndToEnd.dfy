/**
 From a handled message to what `print_messages.py` shows for it: cache, replay, encoding, framing, TCP chunks,
 framing undone and decoding, in one statement.
 */
module EndToEnd {
  import opened Calendar
  import opened Messages
  import opened Validation
  import opened Shaping
  import opened Interrogation
  import opened BridgeRun
  import opened BridgeTheorems
  import B = Bridge
  import C = ScraperDecoder
  import F = Framing
  import P = PrintDecoder
  import S = Session
  import T = TimeTag
  import W = Wire

  // ---- the wire form of an ASDU of the bridge ----

  /** What the encoder asks of an information object: an address of three octets and a value of the announced type. */
  predicate OnWire(io: InformationObject) {
    && io.ioa < 0x100_0000
    && (io.stampMs.Some? <==> W.IsTimed(io.typeId))
    && (match io.carried
        case CarriedSingle(_) => W.IsSingle(io.typeId)
        case CarriedDouble(_) => false
        case CarriedScaled(raw) => W.IsScaled(io.typeId) && -0x8000 <= raw < 0x8000
        case CarriedFloat(_) => W.IsShort(io.typeId) || io.typeId == M_ME_TD_1)
  }

  function WireElement(p: Platform, io: InformationObject): W.Element
    requires OnWire(io)
  {
    match io.carried
    case CarriedSingle(on) => W.Single(on)
    case CarriedScaled(raw) => W.Scaled(raw)
    case CarriedFloat(bits) => if io.typeId == M_ME_TD_1 then W.Normalized(p.normalize(bits)) else W.Short(bits)
  }

  function WirePoint(p: Platform, io: InformationObject): W.Point
    requires OnWire(io)
  {
    W.Point(io.ioa, WireElement(p, io), io.quality, if io.stampMs.Some? then T.StampFor(p, io.stampMs.value) else [])
  }

  function WireHeader(asdu: Asdu): W.Header {
    W.Header(asdu.io.typeId, asdu.cot, 0, asdu.ca)
  }

  function AsduOctets(p: Platform, asdu: Asdu): seq<byte>
    requires OnWire(asdu.io)
  {
    W.EncodeAsdu(WireHeader(asdu), false, [WirePoint(p, asdu.io)])
  }

  /** The interrogation command a master sent; confirmation and termination echo it. */
  datatype Request = Request(originator: byte, ca: u16, qoi: byte)

  const C_IC_NA_1: byte := 100
  const ACTIVATION_CON: byte := 7
  const ACTIVATION_TERM: byte := 10
  const NEGATIVE: byte := 0x40

  function CommandOctets(q: Request, cot: byte): seq<byte> {
    [C_IC_NA_1, 1, cot, q.originator] + W.EncodeU16(q.ca) + [0, 0, 0, q.qoi]
  }

  predicate ReplyOnWire(reply: Reply) {
    reply.Data? ==> OnWire(reply.asdu.io)
  }

  function ReplyOctets(p: Platform, q: Request, reply: Reply): seq<byte>
    requires ReplyOnWire(reply)
  {
    match reply
    case ActCon(negative) => CommandOctets(q, if negative then ACTIVATION_CON + NEGATIVE else ACTIVATION_CON)
    case Data(asdu) => AsduOctets(p, asdu)
    case ActTerm => CommandOctets(q, ACTIVATION_TERM)
  }

  // ---- what should be printed for a cached point, told from the message alone ----

  predicate SentTimed(r: Replay, msg: Message) {
    r.policy.sendTimestamps && msg.timestamp.Some?
  }

  function ToldType(msg: Message, timed: bool): byte {
    match EffectiveType(msg)
    case SinglePoint => if timed then 30 else 1
    case DoublePoint => if timed then 30 else 1
    case Scaled => if timed then 35 else 11
    case Normalized => if timed then 34 else 13
    case Float => if timed then 36 else 13
  }

  function ToldValue(p: Platform, msg: Message, timed: bool): P.PyValue {
    match EffectiveType(msg)
    case SinglePoint => P.PyBool(AsSinglePointValue(msg.value))
    case DoublePoint => P.PyBool(AsSinglePointValue(msg.value))
    case Scaled => P.PyInt(AsScaledValue(msg.value))
    case Float => P.PyFloat(AsFloatValue(p, msg.value))
    case Normalized =>
      var bits := AsFloatValue(p, msg.value);
      if timed then P.PyFraction(p.normalize(bits) as real / 32767.0) else P.PyFloat(bits)
  }

  predicate IsStale(r: Replay, point: CachedPoint) {
    && r.policy.maxAge.Some? && point.message.quality != Invalid
    && (|| r.now - point.receivedAt > r.policy.maxAge.value
        || (point.message.timestamp.Some? && r.now - point.message.timestamp.value > r.policy.maxAge.value))
  }

  function ToldQuality(r: Replay, point: CachedPoint): byte {
    var q := MapQuality(point.message.quality);
    if IsStale(r, point) then AddNt(q) else q
  }

  /** The printed quality octet; a single point shares it with its own bit, which displaces the overflow bit. */
  function ToldQds(r: Replay, point: CachedPoint): byte {
    var q := ToldQuality(r, point);
    if ToldValue(r.p, point.message, false).PyBool? then W.Siq(q, AsSinglePointValue(point.message.value)) else q
  }

  /** The time a reader is told: a date of its century, since a tag has two digits for the year. */
  function ToldTime(r: Replay, msg: Message): Option<DateTime> {
    if SentTimed(r, msg) then Some(T.TwoDigitYear(DateOf(ToCp56Millis(msg.timestamp.value)))) else None
  }

  function Told(r: Replay, point: CachedPoint): P.Printed {
    var timed := SentTimed(r, point.message);
    P.Printed(
      point.message.ca.UnwrapOr(r.defaultCa), point.message.ioa, ToldType(point.message, timed), 20,
      ToldValue(r.p, point.message, timed), ToldQds(r, point),
      ToldTime(r, point.message))
  }

  function ToldAll(r: Replay, store: Store, keys: seq<Key>): (all: seq<P.Printed>)
    requires forall i | 0 <= i < |keys| :: keys[i] in store
    ensures |all| == |keys|
  {
    seq(|keys|, i requires 0 <= i < |keys| => Told(r, store[keys[i]]))
  }

  // ---- one ASDU ----

  /** Whatever the value and its type are, only the address decides whether a point can be encoded. */
  lemma OnWireIffAddressFits(r: Replay, point: CachedPoint)
    ensures OnWire(ReplayAsdu(r, point).io) <==> point.message.ioa < 0x100_0000
  {
  }

  /** Validation is what makes the three-octet address lossless. */
  lemma ReplayOnWire(r: Replay, point: CachedPoint)
    requires Valid(point.message)
    ensures OnWire(ReplayAsdu(r, point).io)
  {
    OnWireIffAddressFits(r, point);
  }

  function ExpectedOf(p: Platform, asdu: Asdu): P.Printed
    requires OnWire(asdu.io)
  {
    P.Expected(WireHeader(asdu), WirePoint(p, asdu.io))
  }

  lemma OneObjectReads(p: Platform, asdu: Asdu)
    requires OnWire(asdu.io)
    ensures P.DecodeAsdu(AsduOctets(p, asdu)) == P.Trace([ExpectedOf(p, asdu)], false)
    ensures |AsduOctets(p, asdu)| <= 249
  {
    var h, point := WireHeader(asdu), WirePoint(p, asdu.io);
    P.DecodeInvertsIff(h, false, [point]);
    assert [point][..0] == [];
    P.SingletonBody(false, true, point);
    W.ElementSizeIsLength(h.typeId, point);
  }

  lemma CommandReads(q: Request, cot: byte)
    ensures P.DecodeAsdu(CommandOctets(q, cot)) == P.Trace([], false)
  {
  }

  /** Everything in the replayed ASDU but the value. */
  lemma ReplayHeader(r: Replay, point: CachedPoint)
    ensures var asdu := ReplayAsdu(r, point);
            var timed := SentTimed(r, point.message);
            && asdu.cot == 20 && asdu.ca == point.message.ca.UnwrapOr(r.defaultCa)
            && asdu.io.ioa == point.message.ioa
            && asdu.io.typeId == ToldType(point.message, timed)
            && asdu.io.quality == ToldQuality(r, point)
            && asdu.io.stampMs == if timed then Some(ToCp56Millis(point.message.timestamp.value)) else None
  {
  }

  lemma ReplayValue(r: Replay, point: CachedPoint)
    requires Valid(point.message)
    ensures OnWire(ReplayAsdu(r, point).io)
    ensures P.ValueOf(WireElement(r.p, ReplayAsdu(r, point).io))
         == ToldValue(r.p, point.message, SentTimed(r, point.message))
    ensures WireElement(r.p, ReplayAsdu(r, point).io).Single?
       <==> ToldValue(r.p, point.message, false).PyBool?
  {
    ReplayOnWire(r, point);
  }

  lemma ReplayTime(r: Replay, point: CachedPoint)
    requires OnWire(ReplayAsdu(r, point).io)
    ensures P.StampOf(WirePoint(r.p, ReplayAsdu(r, point).io)) == ToldTime(r, point.message)
  {
    ReplayHeader(r, point);
    var ms := ReplayAsdu(r, point).io.stampMs;
    if ms.Some? {
      T.StampReadsIff(r.p, ms.value);
    }
  }

  lemma ReplayIsExpected(r: Replay, point: CachedPoint)
    requires Valid(point.message)
    ensures OnWire(ReplayAsdu(r, point).io)
    ensures ExpectedOf(r.p, ReplayAsdu(r, point)) == Told(r, point)
  {
    ReplayValue(r, point);
    ReplayHeader(r, point);
    ReplayTime(r, point);
    var asdu := ReplayAsdu(r, point);
    ExpectedTold(r, point, WireHeader(asdu), WirePoint(r.p, asdu.io));
  }

  /** Decoding the replayed ASDU tells the message. */
  lemma ReplayTells(r: Replay, point: CachedPoint)
    requires Valid(point.message)
    ensures OnWire(ReplayAsdu(r, point).io)
    ensures P.DecodeAsdu(AsduOctets(r.p, ReplayAsdu(r, point))) == P.Trace([Told(r, point)], false)
  {
    ReplayIsExpected(r, point);
    OneObjectReads(r.p, ReplayAsdu(r, point));
  }

  lemma ExpectedTold(r: Replay, point: CachedPoint, h: W.Header, wire: W.Point)
    requires var timed := SentTimed(r, point.message);
             && h.cotOctet == 20 && h.ca == point.message.ca.UnwrapOr(r.defaultCa)
             && h.typeId == ToldType(point.message, timed)
             && wire.ioa == point.message.ioa && wire.quality == ToldQuality(r, point)
             && P.ValueOf(wire.element) == ToldValue(r.p, point.message, timed)
             && (wire.element.Single? <==> ToldValue(r.p, point.message, false).PyBool?)
             && P.StampOf(wire) == ToldTime(r, point.message)
    ensures P.Expected(h, wire) == Told(r, point)
  {
  }

  // ---- the spontaneous stream ----

  lemma CallCause(p: Platform, context: DispatchContext, value: DataValue, cot: byte)
    ensures SingleObjectAsdu(p, DispatchContextCall(p, context.(cot := cot), value))
         == SingleObjectAsdu(p, DispatchContextCall(p, context, value)).(cot := cot)
  {
  }

  lemma ContextCause(out: Outgoing, ca: u16, cot: CotField)
    ensures OutgoingContext(out.(message := out.message.(cot := cot)), ca) == OutgoingContext(out, ca).(cot := MapCot(cot))
  {
  }

  /** The cause of transmission touches nothing else in the ASDU. */
  lemma CauseIsApart(p: Platform, out: Outgoing, ca: u16, cot: CotField)
    ensures OutgoingAsdu(p, out.(message := out.message.(cot := cot)), ca) == OutgoingAsdu(p, out, ca).(cot := MapCot(cot))
  {
    ContextCause(out, ca, cot);
    CallCause(p, OutgoingContext(out, ca), out.message.value, MapCot(cot));
  }

  /** A spontaneous ASDU is the replay of the message at the moment it arrived, under its own cause. */
  lemma SpontaneousIsReplay(c: Config, h: Handled)
    ensures SpontaneousAsdu(c, h)
         == ReplayAsdu(Replay(c.p, c.defaultCa, c.policy, h.now), PointOf(h)).(cot := MapCot(h.message.cot))
  {
    var out := PrepareForOutput(h.message, h.now, h.now, c.policy);
    var ca := h.message.ca.UnwrapOr(c.defaultCa);
    CauseIsApart(c.p, out, ca, Interrogated);
    CauseIsApart(c.p, out, ca, h.message.cot);
    assert out.(message := out.message.(cot := h.message.cot)) == out;
  }

  lemma ExpectedCause(p: Platform, asdu: Asdu, cot: byte)
    requires OnWire(asdu.io) && cot < 64
    ensures ExpectedOf(p, asdu.(cot := cot)) == ExpectedOf(p, asdu).(cot := cot)
  {
  }

  /** A spontaneous ASDU is read like the replay it equals, under its own cause. */
  lemma SpontaneousTells(c: Config, h: Handled)
    requires Valid(h.message)
    ensures OnWire(SpontaneousAsdu(c, h).io)
    ensures P.DecodeAsdu(AsduOctets(c.p, SpontaneousAsdu(c, h)))
         == P.Trace([Told(Replay(c.p, c.defaultCa, c.policy, h.now), PointOf(h)).(cot := MapCot(h.message.cot))], false)
  {
    var r := Replay(c.p, c.defaultCa, c.policy, h.now);
    SpontaneousIsReplay(c, h);
    ReplayIsExpected(r, PointOf(h));
    ExpectedCause(c.p, ReplayAsdu(r, PointOf(h)), MapCot(h.message.cot));
    OneObjectReads(c.p, SpontaneousAsdu(c, h));
  }

  // ---- the whole reply ----

  ghost predicate AllOnWire(replies: seq<Reply>) {
    forall i | 0 <= i < |replies| :: ReplyOnWire(replies[i])
  }

  /**
   * The I-frames are a merge of these two streams of ASDUs, each in its own order; S- and U-frames may stand anywhere
   * between them.
   */
  ghost predicate Carries(p: Platform, q: Request, frames: seq<S.ServerFrame>, replies: seq<Reply>, others: seq<Reply>)
    requires AllOnWire(replies) && AllOnWire(others)
    decreases frames
  {
    if frames == [] then replies == [] && others == []
    else if frames[0].Info? then
      || (Leads(p, q, frames[0].asdu, replies) && Carries(p, q, frames[1..], replies[1..], others))
      || (Leads(p, q, frames[0].asdu, others) && Carries(p, q, frames[1..], replies, others[1..]))
    else S.Sendable(frames[0]) && Carries(p, q, frames[1..], replies, others)
  }

  predicate Leads(p: Platform, q: Request, asdu: seq<byte>, replies: seq<Reply>)
    requires AllOnWire(replies)
  {
    replies != [] && asdu == ReplyOctets(p, q, replies[0])
  }

  /** `all` is a merge of `a` and `b`, each in its own order. */
  ghost predicate Interleaves(all: seq<P.Printed>, a: seq<P.Printed>, b: seq<P.Printed>) {
    if all == [] then a == [] && b == []
    else
      || (a != [] && all[0] == a[0] && Interleaves(all[1..], a[1..], b))
      || (b != [] && all[0] == b[0] && Interleaves(all[1..], a, b[1..]))
  }

  lemma InterleavesLeft(front: seq<P.Printed>, all: seq<P.Printed>, a: seq<P.Printed>, b: seq<P.Printed>)
    requires Interleaves(all, a, b) && |front| <= 1
    ensures Interleaves(front + all, front + a, b)
  {
    if front == [] {
      assert front + all == all && front + a == a;
    } else {
      assert (front + all)[1..] == all && (front + a)[1..] == a;
    }
  }

  lemma InterleavesRight(front: seq<P.Printed>, all: seq<P.Printed>, a: seq<P.Printed>, b: seq<P.Printed>)
    requires Interleaves(all, a, b) && |front| <= 1
    ensures Interleaves(front + all, a, front + b)
  {
    if front == [] {
      assert front + all == all && front + b == b;
    } else {
      assert (front + all)[1..] == all && (front + b)[1..] == b;
    }
  }

  lemma {:induction false} MergedAlone(all: seq<P.Printed>, a: seq<P.Printed>)
    requires Interleaves(all, a, [])
    ensures all == a
  {
    if all != [] {
      MergedAlone(all[1..], a[1..]);
    }
  }

  lemma {:induction false} InterleavedLength(all: seq<P.Printed>, a: seq<P.Printed>, b: seq<P.Printed>)
    requires Interleaves(all, a, b)
    ensures |all| == |a| + |b|
  {
    if all != [] {
      if a != [] && all[0] == a[0] && Interleaves(all[1..], a[1..], b) {
        InterleavedLength(all[1..], a[1..], b);
      } else {
        InterleavedLength(all[1..], a, b[1..]);
      }
    }
  }

  function SaidBy(p: Platform, q: Request, replies: seq<Reply>): seq<P.Printed>
    requires AllOnWire(replies)
  {
    if replies == [] then []
    else P.DecodeAsdu(ReplyOctets(p, q, replies[0])).points + SaidBy(p, q, replies[1..])
  }

  lemma ReplyReads(p: Platform, q: Request, reply: Reply)
    requires ReplyOnWire(reply)
    ensures |ReplyOctets(p, q, reply)| <= 249 && !P.DecodeAsdu(ReplyOctets(p, q, reply)).raised
    ensures |P.DecodeAsdu(ReplyOctets(p, q, reply)).points| == if reply.Data? then 1 else 0
  {
    match reply
    case ActCon(negative) => CommandReads(q, if negative then ACTIVATION_CON + NEGATIVE else ACTIVATION_CON);
    case Data(asdu) => OneObjectReads(p, asdu);
    case ActTerm => CommandReads(q, ACTIVATION_TERM);
  }

  /** What a merge of two streams makes the reader print, and that it can be read at all. */
  ghost predicate IsRead(
    p: Platform, q: Request, frames: seq<S.ServerFrame>, replies: seq<Reply>, others: seq<Reply>)
    requires AllOnWire(replies) && AllOnWire(others)
  {
    && S.AllSendable(frames) && S.AllDecodable(frames)
    && Interleaves(S.DecodeAll(frames), SaidBy(p, q, replies), SaidBy(p, q, others))
    && S.Infos(frames) == |replies| + |others|
  }

  lemma ReadLeft(
    p: Platform, q: Request, f: S.ServerFrame, rest: seq<S.ServerFrame>, replies: seq<Reply>, others: seq<Reply>)
    requires AllOnWire(replies) && AllOnWire(others) && f.Info? && Leads(p, q, f.asdu, replies)
    requires IsRead(p, q, rest, replies[1..], others)
    ensures IsRead(p, q, [f] + rest, replies, others)
  {
    ReplyReads(p, q, replies[0]);
    InterleavesLeft(S.DecodeOne(f), S.DecodeAll(rest), SaidBy(p, q, replies[1..]), SaidBy(p, q, others));
    Fine(f, rest);
  }

  lemma ReadRight(
    p: Platform, q: Request, f: S.ServerFrame, rest: seq<S.ServerFrame>, replies: seq<Reply>, others: seq<Reply>)
    requires AllOnWire(replies) && AllOnWire(others) && f.Info? && Leads(p, q, f.asdu, others)
    requires IsRead(p, q, rest, replies, others[1..])
    ensures IsRead(p, q, [f] + rest, replies, others)
  {
    ReplyReads(p, q, others[0]);
    InterleavesRight(S.DecodeOne(f), S.DecodeAll(rest), SaidBy(p, q, replies), SaidBy(p, q, others[1..]));
    Fine(f, rest);
  }

  lemma SilentFrame(f: S.ServerFrame, rest: seq<S.ServerFrame>)
    requires !f.Info? && S.Sendable(f) && S.AllSendable(rest) && S.AllDecodable(rest)
    ensures S.AllSendable([f] + rest) && S.AllDecodable([f] + rest)
    ensures S.DecodeAll([f] + rest) == S.DecodeAll(rest) && S.Infos([f] + rest) == S.Infos(rest)
  {
    Fine(f, rest);
    assert S.DecodeOne(f) == [];
  }

  lemma ReadNothing(
    p: Platform, q: Request, f: S.ServerFrame, rest: seq<S.ServerFrame>, replies: seq<Reply>, others: seq<Reply>)
    requires AllOnWire(replies) && AllOnWire(others) && !f.Info? && S.Sendable(f)
    requires IsRead(p, q, rest, replies, others)
    ensures IsRead(p, q, [f] + rest, replies, others)
  {
    SilentFrame(f, rest);
  }

  lemma {:induction false} CarriedIsRead(
    p: Platform, q: Request, frames: seq<S.ServerFrame>, replies: seq<Reply>, others: seq<Reply>)
    requires AllOnWire(replies) && AllOnWire(others) && Carries(p, q, frames, replies, others)
    ensures IsRead(p, q, frames, replies, others)
    decreases |frames|
  {
    if frames != [] {
      var f, rest := frames[0], frames[1..];
      assert frames == [f] + rest;
      if !f.Info? {
        CarriedIsRead(p, q, rest, replies, others);
        ReadNothing(p, q, f, rest, replies, others);
      } else if Leads(p, q, f.asdu, replies) && Carries(p, q, rest, replies[1..], others) {
        CarriedIsRead(p, q, rest, replies[1..], others);
        ReadLeft(p, q, f, rest, replies, others);
      } else {
        CarriedIsRead(p, q, rest, replies, others[1..]);
        ReadRight(p, q, f, rest, replies, others);
      }
    }
  }

  lemma Fine(f: S.ServerFrame, rest: seq<S.ServerFrame>)
    requires S.Sendable(f) && S.Decodable(f) && S.AllSendable(rest) && S.AllDecodable(rest)
    ensures S.AllSendable([f] + rest) && S.AllDecodable([f] + rest)
    ensures S.DecodeAll([f] + rest) == S.DecodeOne(f) + S.DecodeAll(rest)
    ensures S.Infos([f] + rest) == (if f.Info? then 1 else 0) + S.Infos(rest)
  {
    assert ([f] + rest)[1..] == rest;
  }

  ghost predicate AllValid(store: Store, keys: seq<Key>) {
    forall i | 0 <= i < |keys| :: keys[i] in store && Valid(store[keys[i]].message)
  }

  lemma DataOnWire(r: Replay, store: Store, keys: seq<Key>)
    requires AllValid(store, keys)
    ensures AllOnWire(DataFor(r, store, keys))
  {
    forall i | 0 <= i < |keys| ensures ReplyOnWire(DataFor(r, store, keys)[i]) {
      ReplayOnWire(r, store[keys[i]]);
    }
  }

  lemma DataUnfolds(r: Replay, store: Store, keys: seq<Key>)
    requires keys != [] && forall i | 0 <= i < |keys| :: keys[i] in store
    ensures DataFor(r, store, keys) == [Data(ReplayAsdu(r, store[keys[0]]))] + DataFor(r, store, keys[1..])
    ensures ToldAll(r, store, keys) == [Told(r, store[keys[0]])] + ToldAll(r, store, keys[1..])
  {
  }

  lemma SaidByUnfolds(p: Platform, q: Request, reply: Reply, rest: seq<Reply>)
    requires ReplyOnWire(reply) && AllOnWire(rest)
    ensures AllOnWire([reply] + rest)
    ensures SaidBy(p, q, [reply] + rest) == P.DecodeAsdu(ReplyOctets(p, q, reply)).points + SaidBy(p, q, rest)
  {
    assert ([reply] + rest)[1..] == rest;
  }

  lemma {:induction false} DataIsTold(q: Request, r: Replay, store: Store, keys: seq<Key>)
    requires AllValid(store, keys)
    ensures AllOnWire(DataFor(r, store, keys))
    ensures SaidBy(r.p, q, DataFor(r, store, keys)) == ToldAll(r, store, keys)
    decreases |keys|
  {
    if keys != [] {
      DataUnfolds(r, store, keys);
      DataIsTold(q, r, store, keys[1..]);
      DataReplyTells(r, q, store[keys[0]]);
      SaidByUnfolds(r.p, q, Data(ReplayAsdu(r, store[keys[0]])), DataFor(r, store, keys[1..]));
    }
  }

  lemma DataReplyTells(r: Replay, q: Request, point: CachedPoint)
    requires Valid(point.message)
    ensures ReplyOnWire(Data(ReplayAsdu(r, point)))
    ensures P.DecodeAsdu(ReplyOctets(r.p, q, Data(ReplayAsdu(r, point)))).points == [Told(r, point)]
  {
    ReplayTells(r, point);
  }

  lemma {:induction false} SaidBySplits(p: Platform, q: Request, a: seq<Reply>, b: seq<Reply>)
    requires AllOnWire(a) && AllOnWire(b) && AllOnWire(a + b)
    ensures SaidBy(p, q, a + b) == SaidBy(p, q, a) + SaidBy(p, q, b)
    decreases |a|
  {
    if a == [] {
      assert a + b == b;
    } else {
      assert (a + b)[1..] == a[1..] + b;
      SaidBySplits(p, q, a[1..], b);
    }
  }

  /** What a connection was sent for one interrogation, the framing replies being refusable like the data. */
  function ReplySent(con: bool, data: seq<Reply>, term: bool): seq<Reply> {
    (if con then [ActCon(false)] else []) + data + (if term then [ActTerm] else [])
  }

  lemma ReplySentOnWire(con: bool, data: seq<Reply>, term: bool)
    requires AllOnWire(data)
    ensures AllOnWire(ReplySent(con, data, term))
  {
  }

  /** A confirmation or termination in front of or behind other replies prints nothing. */
  lemma SilentHead(p: Platform, q: Request, reply: Reply, rest: seq<Reply>)
    requires !reply.Data? && AllOnWire(rest)
    ensures AllOnWire([reply] + rest) && SaidBy(p, q, [reply] + rest) == SaidBy(p, q, rest)
  {
    ReplyReads(p, q, reply);
    SaidByUnfolds(p, q, reply, rest);
  }

  lemma SilentTail(p: Platform, q: Request, rest: seq<Reply>, reply: Reply)
    requires !reply.Data? && AllOnWire(rest)
    ensures AllOnWire(rest + [reply]) && SaidBy(p, q, rest + [reply]) == SaidBy(p, q, rest)
  {
    SilentHead(p, q, reply, []);
    assert [reply] + [] == [reply];
    SaidBySplits(p, q, rest, [reply]);
  }

  lemma FramingSaysNothing(p: Platform, q: Request, con: bool, data: seq<Reply>, term: bool)
    requires AllOnWire(data)
    ensures AllOnWire(ReplySent(con, data, term))
    ensures SaidBy(p, q, ReplySent(con, data, term)) == SaidBy(p, q, data)
  {
    var confirmed := (if con then [ActCon(false)] else []) + data;
    assert !con ==> confirmed == data;
    if con { SilentHead(p, q, ActCon(false), data); }
    assert !term ==> ReplySent(con, data, term) == confirmed;
    if term { SilentTail(p, q, confirmed, ActTerm); }
  }

  lemma MergeFacts(all: seq<P.Printed>, a: seq<P.Printed>, b: seq<P.Printed>)
    requires Interleaves(all, a, b)
    ensures |all| == |a| + |b| && (b == [] ==> all == a)
  {
    InterleavedLength(all, a, b);
    if b == [] { MergedAlone(all, a); }
  }

  /** What the replies say, one after the other. */
  ghost predicate Spoken(p: Platform, q: Request, replies: seq<Reply>, told: seq<P.Printed>)
    requires AllOnWire(replies)
  {
    SaidBy(p, q, replies) == told
  }

  /** Two streams of ASDUs on one connection, as a session reads them: a merge of what each says. */
  method ReadStreams(
    ghost p: Platform, ghost q: Request, ghost replies: seq<Reply>, ghost others: seq<Reply>,
    ghost a: seq<P.Printed>, ghost b: seq<P.Printed>,
    ghost frames: seq<S.ServerFrame>, reader: S.Config, clock: nat -> real, chunks: seq<seq<byte>>)
    returns (end: S.State)
    requires AllOnWire(replies) && AllOnWire(others) && Carries(p, q, frames, replies, others)
    requires Spoken(p, q, replies, a) && Spoken(p, q, others, b)
    requires forall i | 0 <= i < |chunks| :: chunks[i] != []
    requires S.AllSendable(frames)
    requires F.Flatten(chunks) == F.Framed(S.STARTDT_CON) + F.FramedAll(S.ServerBodies(frames, 0))
    ensures Interleaves(end.printed, a, b) && |end.printed| == |a| + |b| && (b == [] ==> end.printed == a)
    ensures S.Numbered(end, S.Infos(frames)) && S.Infos(frames) == |replies| + |others|
  {
    CarriedIsRead(p, q, frames, replies, others);
    MergeFacts(S.DecodeAll(frames), a, b);
    end := S.RunSession(reader, clock, chunks, frames);
  }

  // ---- the interrogations of a run ----

  /** A replay saw, for every key handled by then, the last message handled for it; and nothing else. */
  lemma SnapshotIsLatest(c: Config, es: seq<Event>, g: GiRecord, k: Key)
    requires Runs(c, INITIAL, es) && g in Run(c, INITIAL, es).gis
    ensures var s := Run(c, INITIAL, es);
            && g.handledBefore <= |s.handled|
            && var i := LastIndex(c, s.handled, g.handledBefore, k);
               && (k in g.snapshot <==> i >= 0)
               && (k in g.snapshot ==>
                     && g.snapshot[k] == PointOf(s.handled[i]) && Valid(s.handled[i].message)
                     && KeyOf(s.handled[i].message, c.defaultCa) == k)
  {
    InvInitially(c);
    InvAlways(c, INITIAL, es);
    FoldIsLastWrite(c, Run(c, INITIAL, es).handled, g.handledBefore, k);
  }

  lemma SnapshotIsValid(c: Config, es: seq<Event>, g: GiRecord)
    requires Runs(c, INITIAL, es) && g in Run(c, INITIAL, es).gis
    ensures |g.order| == |g.outcomes| && AllValid(g.snapshot, Select(g.order, g.outcomes))
    ensures Keyed(g.snapshot, c.defaultCa) && Enumerates(g.order, g.snapshot)
  {
    ReplyIsDefined(c, es, g);
    var keys := Select(g.order, g.outcomes);
    forall i | 0 <= i < |keys| ensures keys[i] in g.snapshot && Valid(g.snapshot[keys[i]].message) {
      SnapshotIsLatest(c, es, g, keys[i]);
    }
    forall k | k in g.snapshot ensures KeyOf(g.snapshot[k].message, c.defaultCa) == k {
      SnapshotIsLatest(c, es, g, k);
    }
  }

  /** Everything sent for an interrogation of a run; validation makes all of it fit for the wire. */
  ghost function Sent(c: Config, es: seq<Event>, g: GiRecord, con: bool, term: bool): (replies: seq<Reply>)
    requires Runs(c, INITIAL, es) && g in Run(c, INITIAL, es).gis
    ensures AllOnWire(replies)
  {
    ReplyIsDefined(c, es, g);
    SnapshotIsValid(c, es, g);
    DataOnWire(ReplayOf(c, g), g.snapshot, Select(g.order, g.outcomes));
    ReplySentOnWire(con, ReplyOf(c, g), term);
    ReplySent(con, ReplyOf(c, g), term)
  }

  function ReplayOf(c: Config, g: GiRecord): Replay {
    Replay(c.p, c.defaultCa, c.policy, g.now)
  }

  /** `printed` tells the last message handled for `k` before the replay. */
  ghost predicate TellsLastHandled(c: Config, s: State, g: GiRecord, k: Key, printed: P.Printed) {
    && g.handledBefore <= |s.handled|
    && var i := LastIndex(c, s.handled, g.handledBefore, k);
       i >= 0 && (printed.ca, printed.ioa) == k && printed == Told(ReplayOf(c, g), PointOf(s.handled[i]))
  }

  /** One message per cached key that was not refused, each telling the last message handled for its key. */
  ghost predicate TellsSnapshot(c: Config, s: State, g: GiRecord, printed: seq<P.Printed>) {
    && |g.order| == |g.outcomes|
    && var keys := Select(g.order, g.outcomes);
       && |printed| == |keys| && NoDuplicates(keys)
       && (forall i | 0 <= i < |printed| :: keys[i] in g.snapshot && TellsLastHandled(c, s, g, keys[i], printed[i]))
       && |printed| + Refusals(g.outcomes) == |g.snapshot|
       && (Refusals(g.outcomes) == 0 ==> forall k | k in g.snapshot :: k in keys)
  }

  lemma ToldTellsSnapshot(c: Config, es: seq<Event>, g: GiRecord)
    requires Runs(c, INITIAL, es) && g in Run(c, INITIAL, es).gis
    ensures |g.order| == |g.outcomes| && AllValid(g.snapshot, Select(g.order, g.outcomes))
    ensures TellsSnapshot(c, Run(c, INITIAL, es), g, ToldAll(ReplayOf(c, g), g.snapshot, Select(g.order, g.outcomes)))
  {
    SnapshotIsValid(c, es, g);
    ReplyShape(ReplayOf(c, g), g.snapshot, g.order, g.outcomes);
    var keys := Select(g.order, g.outcomes);
    forall i | 0 <= i < |keys|
      ensures TellsLastHandled(c, Run(c, INITIAL, es), g, keys[i], Told(ReplayOf(c, g), g.snapshot[keys[i]]))
    {
      SnapshotIsLatest(c, es, g, keys[i]);
    }
    if Refusals(g.outcomes) == 0 {
      NoRefusalSelectsAll(g.order, g.outcomes);
    }
  }

  /** The handled messages whose spontaneous ASDUs stand at these places of the run's stream. */
  ghost predicate InStream(s: State, heard: seq<nat>) {
    forall i | 0 <= i < |heard| :: heard[i] < |s.spontaneous|
  }

  /** Those ASDUs, as they went out. */
  ghost function Heard(c: Config, es: seq<Event>, heard: seq<nat>): (data: seq<Reply>)
    requires Runs(c, INITIAL, es) && InStream(Run(c, INITIAL, es), heard)
    ensures AllOnWire(data) && |data| == |heard|
  {
    var s := Run(c, INITIAL, es);
    var data := seq(|heard|, i requires 0 <= i < |heard| => Data(s.spontaneous[heard[i]].asdu));
    HeardOnWire(c, es, heard, data);
    data
  }

  lemma StreamIsHandled(c: Config, es: seq<Event>, j: nat)
    requires Runs(c, INITIAL, es) && j < |Run(c, INITIAL, es).spontaneous|
    ensures var s := Run(c, INITIAL, es);
            j < |s.handled| && Valid(s.handled[j].message) && s.spontaneous[j] == Enqueued(j, SpontaneousAsdu(c, s.handled[j]))
  {
    InvInitially(c);
    InvAlways(c, INITIAL, es);
  }

  lemma HeardOnWire(c: Config, es: seq<Event>, heard: seq<nat>, data: seq<Reply>)
    requires Runs(c, INITIAL, es) && InStream(Run(c, INITIAL, es), heard) && |data| == |heard|
    requires forall i | 0 <= i < |heard| :: data[i] == Data(Run(c, INITIAL, es).spontaneous[heard[i]].asdu)
    ensures AllOnWire(data)
  {
    forall i | 0 <= i < |data| ensures ReplyOnWire(data[i]) {
      StreamIsHandled(c, es, heard[i]);
      SpontaneousTells(c, Run(c, INITIAL, es).handled[heard[i]]);
    }
  }

  /** What a spontaneous ASDU tells: the message as it was on arrival, under its own cause. */
  function ToldOnArrival(c: Config, h: Handled): P.Printed {
    Told(Replay(c.p, c.defaultCa, c.policy, h.now), PointOf(h)).(cot := MapCot(h.message.cot))
  }

  /** Entry i tells the handled message at place heard[i]. */
  ghost predicate TellsHeard(c: Config, s: State, heard: seq<nat>, told: seq<P.Printed>) {
    |told| == |heard|
    && forall i | 0 <= i < |heard| :: heard[i] < |s.handled| && told[i] == ToldOnArrival(c, s.handled[heard[i]])
  }

  ghost predicate Says(p: Platform, q: Request, reply: Reply, told: P.Printed) {
    ReplyOnWire(reply) && P.DecodeAsdu(ReplyOctets(p, q, reply)).points == [told]
  }

  lemma {:induction false} EachSaid(p: Platform, q: Request, data: seq<Reply>, told: seq<P.Printed>)
    requires AllOnWire(data) && |told| == |data|
    requires forall i | 0 <= i < |data| :: Says(p, q, data[i], told[i])
    ensures SaidBy(p, q, data) == told
    decreases |data|
  {
    if data != [] {
      EachSaid(p, q, data[1..], told[1..]);
      assert Says(p, q, data[0], told[0]);
      assert [data[0]] + data[1..] == data && [told[0]] + told[1..] == told;
      SaidByUnfolds(p, q, data[0], data[1..]);
    }
  }

  lemma HeardIsTold(c: Config, es: seq<Event>, heard: seq<nat>, q: Request) returns (told: seq<P.Printed>)
    requires Runs(c, INITIAL, es) && InStream(Run(c, INITIAL, es), heard)
    ensures TellsHeard(c, Run(c, INITIAL, es), heard, told) && Spoken(c.p, q, Heard(c, es, heard), told)
  {
    var s := Run(c, INITIAL, es);
    forall i | 0 <= i < |heard| ensures heard[i] < |s.handled| {
      StreamIsHandled(c, es, heard[i]);
    }
    told := seq(|heard|, i requires 0 <= i < |heard| => ToldOnArrival(c, s.handled[heard[i]]));
    forall i | 0 <= i < |heard|
      ensures Says(c.p, q, Heard(c, es, heard)[i], told[i])
    {
      StreamIsHandled(c, es, heard[i]);
      SpontaneousTells(c, s.handled[heard[i]]);
    }
    EachSaid(c.p, q, Heard(c, es, heard), told);
  }

  /**
   * Any run of the bridge, any interrogation in it, any refusals, any map order, any spontaneous ASDUs of the run on
   * the same connection, any TCP chunks: what the reader prints is a merge of two streams. One has a message per
   * cached key that was not refused, telling the last message handled for that key before the replay; the other
   * tells the spontaneous ASDUs. Every I-frame is acknowledged under its number.
   */
  method ReadStationReply(
    ghost c: Config, ghost es: seq<Event>, ghost g: GiRecord, ghost con: bool, ghost term: bool,
    ghost heard: seq<nat>, ghost q: Request, ghost frames: seq<S.ServerFrame>,
    reader: S.Config, clock: nat -> real, chunks: seq<seq<byte>>)
    returns (end: S.State, ghost replied: seq<P.Printed>, ghost overheard: seq<P.Printed>)
    requires Runs(c, INITIAL, es) && g in Run(c, INITIAL, es).gis && InStream(Run(c, INITIAL, es), heard)
    requires Carries(c.p, q, frames, Sent(c, es, g, con, term), Heard(c, es, heard)) && S.AllSendable(frames)
    requires forall i | 0 <= i < |chunks| :: chunks[i] != []
    requires F.Flatten(chunks) == F.Framed(S.STARTDT_CON) + F.FramedAll(S.ServerBodies(frames, 0))
    ensures TellsSnapshot(c, Run(c, INITIAL, es), g, replied)
    ensures TellsHeard(c, Run(c, INITIAL, es), heard, overheard)
    ensures Interleaves(end.printed, replied, overheard) && (heard == [] ==> end.printed == replied)
    ensures S.Numbered(end, S.Infos(frames))
    ensures S.Infos(frames) == |end.printed| + (if con then 1 else 0) + if term then 1 else 0
  {
    replied := SentTellsSnapshot(c, es, g, con, term, q);
    overheard := HeardIsTold(c, es, heard, q);
    ghost var sent, others := Sent(c, es, g, con, term), Heard(c, es, heard);
    end := ReadStreams(c.p, q, sent, others, replied, overheard, frames, reader, clock, chunks);
  }

  lemma SentTellsSnapshot(c: Config, es: seq<Event>, g: GiRecord, con: bool, term: bool, q: Request)
    returns (told: seq<P.Printed>)
    requires Runs(c, INITIAL, es) && g in Run(c, INITIAL, es).gis
    ensures TellsSnapshot(c, Run(c, INITIAL, es), g, told) && Spoken(c.p, q, Sent(c, es, g, con, term), told)
    ensures |Sent(c, es, g, con, term)| == |told| + (if con then 1 else 0) + if term then 1 else 0
  {
    ReplyIsTold(c, es, g, con, term, q);
    ToldTellsSnapshot(c, es, g);
    told := ToldAll(ReplayOf(c, g), g.snapshot, Select(g.order, g.outcomes));
  }

  lemma ReplyIsTold(c: Config, es: seq<Event>, g: GiRecord, con: bool, term: bool, q: Request)
    requires Runs(c, INITIAL, es) && g in Run(c, INITIAL, es).gis
    ensures |g.order| == |g.outcomes| && AllValid(g.snapshot, Select(g.order, g.outcomes))
    ensures SaidBy(c.p, q, Sent(c, es, g, con, term))
         == ToldAll(ReplayOf(c, g), g.snapshot, Select(g.order, g.outcomes))
    ensures |Sent(c, es, g, con, term)|
         == |Select(g.order, g.outcomes)| + (if con then 1 else 0) + if term then 1 else 0
  {
    SnapshotIsValid(c, es, g);
    var keys := Select(g.order, g.outcomes);
    DataOnWire(ReplayOf(c, g), g.snapshot, keys);
    DataIsTold(q, ReplayOf(c, g), g.snapshot, keys);
    FramingSaysNothing(c.p, q, con, DataFor(ReplayOf(c, g), g.snapshot, keys), term);
  }

  // ---- what the printed fields mean ----

  /** An explicitly scaled, untimed number: clamped, cut toward zero, under its own address and quality. */
  lemma ScaledPointTold(r: Replay, point: CachedPoint)
    requires point.message.dataType == Some(Scaled) && point.message.value.Number? && !SentTimed(r, point.message)
    ensures var told := Told(r, point);
            var n := point.message.value.number;
            && (told.ca, told.ioa) == KeyOf(point.message, r.defaultCa)
            && told.typeId == 11 && told.cot == 20 && told.timestamp == None
            && told.qds == ToldQuality(r, point)
            && told.value.PyInt? && -32768 <= told.value.n <= 32767
            && (n >= 32767.0 ==> told.value.n == 32767) && (n <= -32768.0 ==> told.value.n == -32768)
            && (0.0 <= n <= 32767.0 ==> told.value.n as real <= n < told.value.n as real + 1.0)
            && (-32768.0 <= n <= 0.0 ==> told.value.n as real - 1.0 < n <= told.value.n as real)
  {
    ScaledIsClampedTruncation(point.message.value.number);
  }

  /** A single point's printed quality octet is the quality sent exactly when the overflow bit agrees with the point. */
  lemma SingleQualityKeptIff(r: Replay, point: CachedPoint)
    requires ToldValue(r.p, point.message, false).PyBool?
    ensures Told(r, point).qds == ToldQuality(r, point)
       <==> (point.message.quality == Overflow) == AsSinglePointValue(point.message.value)
  {
  }

  /** What the scraper calls the quality of a measured value: staleness hides all but invalid. */
  lemma QualityShown(r: Replay, point: CachedPoint)
    requires !ToldValue(r.p, point.message, false).PyBool?
    ensures C.QualityString(Told(r, point).qds)
         == if point.message.quality == Invalid then C.IsInvalid
            else if IsStale(r, point) || point.message.quality == NotTopical then C.IsNotTopical
            else match point.message.quality
              case Substituted => C.IsSubstituted
              case Blocked => C.IsBlocked
              case Overflow => C.IsOverflow
              case _ => C.IsGood
  {
  }

  /** What validation buys: address and point state come out as they went in. */
  lemma ValidFieldsSurvive(r: Replay, point: CachedPoint)
    requires Valid(point.message)
    ensures var msg := point.message;
            var told := Told(r, point);
            && (told.ca, told.ioa) == KeyOf(msg, r.defaultCa)
            && (msg.dataType in {Some(SinglePoint), Some(DoublePoint)} ==> told.value == P.PyBool(msg.value == Bool(true)))
            && (told.timestamp.Some? <==> SentTimed(r, msg))
  {
    ValidIff(point.message);
  }

  /**
   * The documentation wants the printed time to match the message's. To the millisecond it does, exactly for
   * source times of the years 2000 to 2099.
   */
  lemma PrintedTimeIff(r: Replay, point: CachedPoint)
    requires Valid(point.message) && SentTimed(r, point.message)
    ensures var millis := point.message.timestamp.value / 1_000_000;
            && Told(r, point).timestamp.Some?
            && 2000 <= Told(r, point).timestamp.value.year <= 2099
            && (Told(r, point).timestamp.value == DateOf(millis) <==> MILLENNIUM <= millis < CENTURY_END)
  {
    var nanos := point.message.timestamp.value;
    ValidIff(point.message);
    StampExactIff(nanos);
    CenturyOf(nanos / 1_000_000);
    T.TwoDigitsKeep(DateOf(nanos / 1_000_000));
  }

  lemma NineteenNinety(millis: nat)
    requires millis == 631_152_000_000
    ensures DateOf(millis) == DateTime(1990, 1, 1, 0, 0, 0, 0)
  {
    assert DaysBeforeYear(1990) == 7305;
    NewYear(1990);
  }

  /** A validated message of 1990 is printed as one of 2090. */
  lemma NineteenNinetyIsNotKept(r: Replay, point: CachedPoint)
    requires SentTimed(r, point.message) && point.message.timestamp == Some(631_152_000_000_000_000)
    ensures ValidateTimestamp(point.message.timestamp).Pass?
    ensures DateOf(point.message.timestamp.value / 1_000_000) == DateTime(1990, 1, 1, 0, 0, 0, 0)
    ensures Told(r, point).timestamp == Some(DateTime(2090, 1, 1, 0, 0, 0, 0))
  {
    var millis := point.message.timestamp.value / 1_000_000;
    NineteenNinety(millis);
    StampExactIff(point.message.timestamp.value);
    assert T.TwoDigitYear(DateOf(millis)) == DateTime(2090, 1, 1, 0, 0, 0, 0);
  }

  /** The scraper is told the same, for the two types it knows. */
  lemma ScraperTells(r: Replay, point: CachedPoint)
    requires Valid(point.message) && Told(r, point).typeId in {11, 13}
    ensures OnWire(ReplayAsdu(r, point).io)
    ensures C.DecodeAsdu(AsduOctets(r.p, ReplayAsdu(r, point))) == [C.Reword(Told(r, point))]
  {
    ReplayTells(r, point);
    ReplayHeader(r, point);
    var octets := AsduOctets(r.p, ReplayAsdu(r, point));
    assert octets[0] == Told(r, point).typeId;
    C.ReadersAgree(octets);
    C.RewordSnoc([], Told(r, point));
    assert [] + [Told(r, point)] == [Told(r, point)];
  }

  // ---- the same in numbers ----

  /** A message without a type: what its value alone makes of it. */
  lemma UntypedTold(r: Replay, point: CachedPoint, m: int)
    requires point.message.dataType == None
    ensures var value, told := point.message.value, Told(r, point);
            var timed := r.policy.sendTimestamps && point.message.timestamp.Some?;
            && (value.Bool? ==> told.typeId == (if timed then 30 else 1) && told.value == P.PyBool(value.on))
            && (value.Number? && value.number == m as real && -32768 <= m <= 32767 ==>
                  told.typeId == (if timed then 35 else 11) && told.value == P.PyInt(m))
            && (value.Number? && (value.number.Floor as real != value.number || !(-32768.0 <= value.number <= 32767.0)) ==>
                  told.typeId == (if timed then 36 else 13) && told.value == P.PyFloat(r.p.toF32(value.number)))
  {
    if point.message.value == Number(m as real) {
      assert (m as real).Floor == m && (-(m as real)).Floor == -m;
    }
  }

  /** A number as a float type carries it, and a boolean as 1 or 0. */
  function FloatBits(p: Platform, value: DataValue): Bits32 {
    match value
    case Number(n) => p.toF32(n)
    case Bool(on) => if on then p.toF32(1.0) else p.toF32(0.0)
  }

  /** A message with a type. */
  lemma TypedTold(r: Replay, point: CachedPoint)
    requires point.message.dataType.Some?
    ensures var value, told := point.message.value, Told(r, point);
            var timed := r.policy.sendTimestamps && point.message.timestamp.Some?;
            match point.message.dataType.value
            case Float => told.typeId == (if timed then 36 else 13) && told.value == P.PyFloat(FloatBits(r.p, value))
            case Normalized =>
              if timed
              then told.typeId == 34 && told.value == P.PyFraction(r.p.normalize(FloatBits(r.p, value)) as real / 32767.0)
              else told.typeId == 13 && told.value == P.PyFloat(FloatBits(r.p, value))
            case Scaled =>
              && told.typeId == (if timed then 35 else 11) && told.value.PyInt?
              && (value.Bool? ==> told.value.n == if value.on then 1 else 0)
              && (value.Number? && value.number >= 32767.0 ==> told.value.n == 32767)
              && (value.Number? && value.number <= -32768.0 ==> told.value.n == -32768)
              && (value.Number? && 0.0 <= value.number <= 32767.0 ==> told.value.n == value.number.Floor)
              && (value.Number? && -32768.0 <= value.number <= 0.0 ==> told.value.n == -(-value.number).Floor)
            case SinglePoint =>
              && told.typeId == (if timed then 30 else 1)
              && told.value == P.PyBool(value == Bool(true) || (value.Number? && value.number != 0.0))
            case DoublePoint =>
              && told.typeId == (if timed then 30 else 1)
              && told.value == P.PyBool(value == Bool(true) || (value.Number? && value.number != 0.0))
  {
  }

  /** The printed quality octet, number by number. */
  lemma QualityTold(r: Replay, point: CachedPoint)
    ensures var told := Told(r, point);
            var stale := point.message.quality != Invalid && r.policy.maxAge.Some?
                       && (r.now - point.receivedAt > r.policy.maxAge.value
                           || (point.message.timestamp.Some? && r.now - point.message.timestamp.value > r.policy.maxAge.value));
            var flag := if told.value == P.PyBool(true) then 1 else 0;
            told.qds == match point.message.quality
                        case Good => if stale then 0x40 + flag else flag
                        case Invalid => 0x80 + flag
                        case NotTopical => 0x40 + flag
                        case Substituted => if stale then 0x60 + flag else 0x20 + flag
                        case Blocked => if stale then 0x50 + flag else 0x10 + flag
                        case Overflow =>
                          var bit := if told.value.PyBool? then flag else 1;
                          if stale then 0x40 + bit else bit
  {
  }

  /** The address, the cause and the time. */
  lemma HeaderTold(r: Replay, point: CachedPoint)
    ensures var msg, told := point.message, Told(r, point);
            && told.ca == (match msg.ca case Some(ca) => ca case None => r.defaultCa)
            && told.ioa == msg.ioa && told.cot == 20
            && (told.timestamp.Some? <==> r.policy.sendTimestamps && msg.timestamp.Some?)
            && (told.timestamp.Some? ==>
                  var date := DateOf(msg.timestamp.value % 0x1_0000_0000_0000_0000 / 1_000_000);
                  told.timestamp.value == date.(year := 2000 + date.year % 100))
  {
  }

  /** On arrival the message is told under its own cause. */
  lemma CauseTold(c: Config, h: Handled)
    ensures ToldOnArrival(c, h).cot == match h.message.cot
              case Periodic => 1
              case BackgroundScan => 2
              case Spontaneous => 3
              case ReturnInfoRemote => 11
              case ReturnInfoLocal => 12
              case Interrogated => 20
    ensures ToldOnArrival(c, h) == Told(Replay(c.p, c.defaultCa, c.policy, h.now), PointOf(h)).(cot := ToldOnArrival(c, h).cot)
  {
  }

  lemma ThreeParts(a: seq<Reply>, b: seq<Reply>, c: seq<Reply>, d: seq<Reply>)
    ensures a + b + c + d == a + (b + c + d)
  {
  }

  /** The request a reader makes is one the handler answers with the replay. */
  method AnswerReader(bridge: B.Bridge, conn: MasterConnection, id: nat, ss: nat, rr: nat, ca: int, now: Nanos)
    returns (ghost order: seq<Key>, ghost outcomes: seq<bool>, ghost con: bool, ghost term: bool)
    requires bridge.Mirrors() && id !in bridge.trace.connections
    modifies bridge, conn
    ensures Enumerates(order, bridge.store) && |outcomes| == |order| && bridge.store == old(bridge.store)
    ensures forall k | k in Select(order, outcomes) :: k in bridge.store
    ensures conn.queued == old(conn.queued)
              + ReplySent(con, DataFor(Replay(bridge.c.p, bridge.c.defaultCa, bridge.c.policy, now), bridge.store, Select(order, outcomes)), term)
    ensures bridge.giResponses == old(bridge.giResponses) + 1
    ensures conn.healthy && old(conn.free) >= |bridge.store| + 2 ==> con && term && Refusals(outcomes) == 0
  {
    var request := S.GiFrame(ss, rr, ca);
    S.GiFrameAsksFor(ss, rr, ca);
    ghost var before := conn.queued;
    order, outcomes, con, term := bridge.OnInterrogation(conn, id, request[|request| - 1], now);
    ghost var head: seq<Reply>, tail: seq<Reply> := if con then [ActCon(false)] else [], if term then [ActTerm] else [];
    ThreeParts(before, head, DataFor(Replay(bridge.c.p, bridge.c.defaultCa, bridge.c.policy, now), bridge.store, Select(order, outcomes)), tail);
  }
}
