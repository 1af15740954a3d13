/**
 The bridge as a step machine (src/main.rs, src/source.rs): the message loop, the supervisor and the
 interrogation callbacks of any number of connections, interleaved at will. A step is what happens
 between two points where another thread can run: the store lock is released between the insert and
 the dispatch, so an interrogation may land anywhere.
 */
module BridgeRun {
  import opened Messages
  import opened Validation
  import opened Shaping
  import opened Interrogation

  datatype Config = Config(p: Platform, defaultCa: u16, giOnly: bool, policy: OutputPolicy)

  /** A raw delivery of the source: bad JSON, or a message still to be validated. */
  datatype Delivery = Unparseable | Parsed(msg: Message)

  predicate Accepts(d: Delivery) { d.Parsed? && Valid(d.msg) }

  datatype Event =
    // the source stream, polled by the message loop
    | PollRejected(delivery: Delivery, ackOk: bool)
    | PollError
    | SourceEnds
    | SourceRebuilt
    // handle_incoming_message, phase by phase
    | Insert(msg: Message, now: Nanos)
    | Dispatch
    | Ack(ok: bool)
    | Count
    // the interrogation callback of one connection
    | GiConfirm(conn: nat)
    | GiReplay(conn: nat, now: Nanos, order: seq<Key>, outcomes: seq<bool>)
    | GiTerminate(conn: nat)

  datatype Handled = Handled(delivery: nat, message: Message, now: Nanos)

  /** A spontaneous ASDU and the handled message it was made from. */
  datatype Enqueued = Enqueued(index: nat, asdu: Asdu)

  /** One acknowledgement attempt, with what had been done by then. */
  datatype AckRecord = AckRecord(
    delivery: nat, accepted: bool, handledBefore: nat, enqueuedBefore: nat, dispatched: bool, ok: bool)

  /** One replay, with what had been handled and enqueued when it took the store lock. */
  datatype GiRecord = GiRecord(
    conn: nat, now: Nanos, order: seq<Key>, outcomes: seq<bool>, snapshot: Store, handledBefore: nat, enqueuedBefore: nat)

  datatype Phase = Idle | Inserted | Dispatched(sent: bool) | Acked(sent: bool)

  datatype GiPhase = Confirmed | Replayed

  datatype State = State(
    store: Store,
    phase: Phase,
    sourceUp: bool,
    deliveries: nat,
    handled: seq<Handled>,
    spontaneous: seq<Enqueued>,
    acks: seq<AckRecord>,
    messagesDispatched: nat,
    giResponses: nat,
    connections: map<nat, GiPhase>,
    gis: seq<GiRecord>)

  const INITIAL := State(map[], Idle, true, 0, [], [], [], 0, 0, map[], [])

  function PointOf(h: Handled): CachedPoint { CachedPoint(h.message, h.now) }

  function SpontaneousAsdu(c: Config, h: Handled): Asdu {
    OutgoingAsdu(c.p, PrepareForOutput(h.message, h.now, h.now, c.policy), h.message.ca.UnwrapOr(c.defaultCa))
  }

  /** When a step may happen. The message loop handles one message at a time. */
  ghost predicate Enabled(s: State, e: Event) {
    match e
    case PollRejected(d, _) => s.phase.Idle? && s.sourceUp && !Accepts(d)
    case PollError => s.phase.Idle? && s.sourceUp
    case SourceEnds => s.phase.Idle? && s.sourceUp
    case SourceRebuilt => !s.sourceUp
    case Insert(msg, _) => s.phase.Idle? && s.sourceUp && Valid(msg)
    case Dispatch => s.phase.Inserted?
    case Ack(_) => s.phase.Dispatched?
    case Count => s.phase.Acked?
    case GiConfirm(conn) => conn !in s.connections
    case GiReplay(conn, _, order, outcomes) =>
      && conn in s.connections && s.connections[conn].Confirmed?
      && Enumerates(order, s.store) && |outcomes| == |order|
    case GiTerminate(conn) => conn in s.connections && s.connections[conn].Replayed?
  }

  function Step(c: Config, s: State, e: Event): State {
    match e
    case PollRejected(_, ok) =>
      s.(deliveries := s.deliveries + 1,
         acks := s.acks + [AckRecord(s.deliveries, false, |s.handled|, |s.spontaneous|, false, ok)])
    case PollError => s
    case SourceEnds => s.(sourceUp := false)
    case SourceRebuilt => s.(sourceUp := true)
    case Insert(msg, now) =>
      s.(store := s.store[KeyOf(msg, c.defaultCa) := CachedPoint(msg, now)],
         deliveries := s.deliveries + 1,
         handled := s.handled + [Handled(s.deliveries, msg, now)],
         phase := Inserted)
    case Dispatch =>
      if c.giOnly || s.handled == [] then s.(phase := Dispatched(false))
      else
        var i := |s.handled| - 1;
        s.(spontaneous := s.spontaneous + [Enqueued(i, SpontaneousAsdu(c, s.handled[i]))], phase := Dispatched(true))
    case Ack(ok) =>
      var sent := s.phase.Dispatched? && s.phase.sent;
      var delivery := if s.deliveries > 0 then s.deliveries - 1 else 0;
      s.(acks := s.acks + [AckRecord(delivery, true, |s.handled|, |s.spontaneous|, sent, ok)],
         phase := if ok then Acked(sent) else Idle)
    case Count =>
      var sent := s.phase.Acked? && s.phase.sent;
      s.(messagesDispatched := s.messagesDispatched + (if sent then 1 else 0), phase := Idle)
    case GiConfirm(conn) => s.(connections := s.connections[conn := Confirmed])
    case GiReplay(conn, now, order, outcomes) =>
      s.(gis := s.gis + [GiRecord(conn, now, order, outcomes, s.store, |s.handled|, |s.spontaneous|)],
         giResponses := s.giResponses + 1,
         connections := s.connections[conn := Replayed])
    case GiTerminate(conn) => s.(connections := s.connections - {conn})
  }

  function Run(c: Config, s: State, es: seq<Event>): State {
    if es == [] then s else Step(c, Run(c, s, es[..|es| - 1]), es[|es| - 1])
  }

  ghost predicate Runs(c: Config, s: State, es: seq<Event>) {
    es == [] || (Runs(c, s, es[..|es| - 1]) && Enabled(Run(c, s, es[..|es| - 1]), es[|es| - 1]))
  }

  // ---- the cache is the last write per key ----

  function Fold(c: Config, handled: seq<Handled>): Store {
    if handled == [] then map[]
    else
      var n := |handled| - 1;
      Fold(c, handled[..n])[KeyOf(handled[n].message, c.defaultCa) := PointOf(handled[n])]
  }

  lemma FoldSnoc(c: Config, handled: seq<Handled>, h: Handled)
    ensures Fold(c, handled + [h]) == Fold(c, handled)[KeyOf(h.message, c.defaultCa) := PointOf(h)]
  {
    assert (handled + [h])[..|handled|] == handled;
  }

  /** The last message handled for a key among the first `n`, or -1. */
  function LastIndex(c: Config, handled: seq<Handled>, n: nat, k: Key): (i: int)
    requires n <= |handled|
    ensures -1 <= i < n
    ensures i >= 0 ==> KeyOf(handled[i].message, c.defaultCa) == k
    ensures forall j | i < j < n :: KeyOf(handled[j].message, c.defaultCa) != k
  {
    if n == 0 then -1
    else if KeyOf(handled[n - 1].message, c.defaultCa) == k then n - 1
    else LastIndex(c, handled, n - 1, k)
  }

  /** A key is cached exactly when it was handled, with its last message and arrival. */
  lemma {:induction false} FoldIsLastWrite(c: Config, handled: seq<Handled>, n: nat, k: Key)
    requires n <= |handled|
    ensures k in Fold(c, handled[..n]) <==> LastIndex(c, handled, n, k) >= 0
    ensures k in Fold(c, handled[..n]) ==> Fold(c, handled[..n])[k] == PointOf(handled[LastIndex(c, handled, n, k)])
  {
    if n > 0 {
      assert handled[..n][..n - 1] == handled[..n - 1];
      FoldIsLastWrite(c, handled, n - 1, k);
    }
  }

  // ---- invariants of every run ----

  /** The store is the fold of the handled history, and only validated messages were handled. */
  ghost predicate StoreInv(c: Config, s: State) {
    && s.store == Fold(c, s.handled)
    && forall i | 0 <= i < |s.handled| :: Valid(s.handled[i].message)
  }

  lemma StoreStep(c: Config, s: State, e: Event)
    requires StoreInv(c, s) && Enabled(s, e)
    ensures StoreInv(c, Step(c, s, e))
  {
    if e.Insert? {
      FoldSnoc(c, s.handled, Handled(s.deliveries, e.msg, e.now));
    }
  }

  /** Handled messages whose spontaneous ASDU is already due: all of them, but for one still in flight. */
  function Due(s: State): int {
    |s.handled| - if s.phase.Inserted? then 1 else 0
  }

  ghost predicate InOrder(c: Config, handled: seq<Handled>, spontaneous: seq<Enqueued>) {
    forall i | 0 <= i < |spontaneous| ::
      i < |handled| && spontaneous[i] == Enqueued(i, SpontaneousAsdu(c, handled[i]))
  }

  /** Outside GI-only, one spontaneous ASDU per handled message, in order; in GI-only, none. */
  ghost predicate SendInv(c: Config, s: State) {
    && (s.phase.Inserted? ==> s.handled != [])
    && |s.spontaneous| == (if c.giOnly then 0 else Due(s))
    && InOrder(c, s.handled, s.spontaneous)
    && (s.phase.Dispatched? || s.phase.Acked? ==> s.phase.sent == !c.giOnly && s.handled != [])
  }

  lemma InOrderGrows(c: Config, handled: seq<Handled>, spontaneous: seq<Enqueued>, h: Handled)
    requires InOrder(c, handled, spontaneous)
    ensures InOrder(c, handled + [h], spontaneous)
  {
  }

  lemma SendStep(c: Config, s: State, e: Event)
    requires SendInv(c, s) && Enabled(s, e)
    ensures SendInv(c, Step(c, s, e))
  {
    if e.Insert? {
      InOrderGrows(c, s.handled, s.spontaneous, Handled(s.deliveries, e.msg, e.now));
    }
  }

  /** A replay saw the cache of some moment of the run, at most one message ahead of the spontaneous stream. */
  ghost predicate GiRecordOk(c: Config, s: State, g: GiRecord) {
    && g.handledBefore <= |s.handled| && g.enqueuedBefore <= |s.spontaneous|
    && g.snapshot == Fold(c, s.handled[..g.handledBefore])
    && g.enqueuedBefore <= g.handledBefore
    && (!c.giOnly ==> g.handledBefore <= g.enqueuedBefore + 1)
    && Enumerates(g.order, g.snapshot) && |g.outcomes| == |g.order|
  }

  /** Later replays saw no less than earlier ones. */
  ghost predicate Successive(gis: seq<GiRecord>) {
    forall i, j | 0 <= i < j < |gis| :: gis[i].handledBefore <= gis[j].handledBefore
  }

  ghost predicate GiInv(c: Config, s: State) {
    && |s.gis| == s.giResponses
    && (forall i | 0 <= i < |s.gis| :: GiRecordOk(c, s, s.gis[i]))
    && Successive(s.gis)
  }

  lemma GiRecordKept(c: Config, s: State, e: Event, g: GiRecord)
    requires GiRecordOk(c, s, g) && Enabled(s, e)
    ensures GiRecordOk(c, Step(c, s, e), g)
  {
    assert Step(c, s, e).handled[..g.handledBefore] == s.handled[..g.handledBefore];
  }

  lemma NewGiRecordOk(c: Config, s: State, e: Event)
    requires StoreInv(c, s) && SendInv(c, s) && Enabled(s, e) && e.GiReplay?
    ensures var t := Step(c, s, e);
            |t.gis| == |s.gis| + 1 && GiRecordOk(c, t, t.gis[|s.gis|]) && t.gis[|s.gis|].handledBefore == |s.handled|
  {
    assert s.handled[..|s.handled|] == s.handled;
  }

  lemma GiStep(c: Config, s: State, e: Event)
    requires GiInv(c, s) && StoreInv(c, s) && SendInv(c, s) && Enabled(s, e)
    ensures GiInv(c, Step(c, s, e))
  {
    var t := Step(c, s, e);
    if e.GiReplay? { NewGiRecordOk(c, s, e); }
    forall i | 0 <= i < |s.gis| ensures GiRecordOk(c, t, s.gis[i]) {
      GiRecordKept(c, s, e, s.gis[i]);
    }
  }

  /** What an acknowledgement attempt may claim. */
  ghost predicate AckOk(c: Config, s: State, a: AckRecord) {
    && a.delivery < s.deliveries && a.handledBefore <= |s.handled| && a.enqueuedBefore <= |s.spontaneous|
    && (a.accepted ==>
          && a.handledBefore > 0 && s.handled[a.handledBefore - 1].delivery == a.delivery
          && a.dispatched == !c.giOnly
          && (!c.giOnly ==> a.enqueuedBefore == a.handledBefore))
    && (!a.accepted ==> !a.dispatched && forall i | 0 <= i < |s.handled| :: s.handled[i].delivery != a.delivery)
  }

  function Settled(s: State): int {
    s.deliveries - if s.phase.Inserted? || s.phase.Dispatched? then 1 else 0
  }

  /** Deliveries are numbered as polled, and the one in flight is the last. */
  ghost predicate DeliveryInv(s: State) {
    && (forall i | 0 <= i < |s.handled| :: s.handled[i].delivery < s.deliveries)
    && (s.phase.Inserted? || s.phase.Dispatched? ==>
          s.handled != [] && s.handled[|s.handled| - 1].delivery == s.deliveries - 1)
  }

  lemma DeliveryStep(c: Config, s: State, e: Event)
    requires DeliveryInv(s) && Enabled(s, e)
    ensures DeliveryInv(Step(c, s, e))
  {
  }

  /** Each settled delivery has had exactly one acknowledgement attempt, in the order of delivery. */
  ghost predicate AckInv(c: Config, s: State) {
    && |s.acks| == Settled(s)
    && forall i | 0 <= i < |s.acks| :: s.acks[i].delivery == i && AckOk(c, s, s.acks[i])
  }

  lemma AckKept(c: Config, s: State, e: Event, a: AckRecord)
    requires AckOk(c, s, a) && Enabled(s, e)
    ensures AckOk(c, Step(c, s, e), a)
  {
  }

  lemma NewAckOk(c: Config, s: State, e: Event)
    requires |s.acks| == Settled(s) && DeliveryInv(s) && SendInv(c, s) && Enabled(s, e) && (e.Ack? || e.PollRejected?)
    ensures var t := Step(c, s, e);
            exists a :: t.acks == s.acks + [a] && a.delivery == |s.acks| && AckOk(c, t, a)
  {
    var t := Step(c, s, e);
    var a := t.acks[|s.acks|];
    assert t.acks == s.acks + [a];
  }

  lemma AckStep(c: Config, s: State, e: Event)
    requires AckInv(c, s) && DeliveryInv(s) && SendInv(c, s) && Enabled(s, e)
    ensures AckInv(c, Step(c, s, e))
  {
    var t := Step(c, s, e);
    var a :| t.acks == s.acks || (t.acks == s.acks + [a] && a.delivery == |s.acks| && AckOk(c, t, a)) by {
      if e.Ack? || e.PollRejected? { NewAckOk(c, s, e); }
    }
    forall i | 0 <= i < |t.acks| ensures t.acks[i].delivery == i && AckOk(c, t, t.acks[i]) {
      if i < |s.acks| {
        AckKept(c, s, e, s.acks[i]);
      }
    }
  }

  function CountOk(acks: seq<AckRecord>): nat {
    if acks == [] then 0
    else CountOk(acks[..|acks| - 1]) + if acks[|acks| - 1].dispatched && acks[|acks| - 1].ok then 1 else 0
  }

  lemma CountOkSnoc(acks: seq<AckRecord>, a: AckRecord)
    ensures CountOk(acks + [a]) == CountOk(acks) + if a.dispatched && a.ok then 1 else 0
  {
    assert (acks + [a])[..|acks|] == acks;
  }

  /** The metric lags the acknowledgements only by the one being counted. */
  ghost predicate CountInv(s: State) {
    CountOk(s.acks) == s.messagesDispatched + if s.phase.Acked? && s.phase.sent then 1 else 0
  }

  lemma CountStep(c: Config, s: State, e: Event)
    requires CountInv(s) && Enabled(s, e)
    ensures CountInv(Step(c, s, e))
  {
    match e
    case Ack(ok) => CountOkSnoc(s.acks, Step(c, s, e).acks[|s.acks|]);
    case PollRejected(_, ok) => CountOkSnoc(s.acks, Step(c, s, e).acks[|s.acks|]);
    case _ => assert Step(c, s, e).acks == s.acks;
  }

  ghost predicate Inv(c: Config, s: State) {
    StoreInv(c, s) && SendInv(c, s) && GiInv(c, s) && DeliveryInv(s) && AckInv(c, s) && CountInv(s)
  }

  lemma {:induction false} InvAlways(c: Config, s: State, es: seq<Event>)
    requires Inv(c, s) && Runs(c, s, es)
    ensures Inv(c, Run(c, s, es))
  {
    if es != [] {
      var before, e := es[..|es| - 1], es[|es| - 1];
      InvAlways(c, s, before);
      var t := Run(c, s, before);
      StoreStep(c, t, e);
      SendStep(c, t, e);
      GiStep(c, t, e);
      DeliveryStep(c, t, e);
      AckStep(c, t, e);
      CountStep(c, t, e);
    }
  }

  lemma InvInitially(c: Config)
    ensures Inv(c, INITIAL)
  {
  }
}
