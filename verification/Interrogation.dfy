/** The station interrogation reply: `ConnectionSink` (src/bridge.rs) and `replay_cached_values` (src/main.rs). */
module Interrogation {
  import opened Messages
  import opened Shaping

  type Key = (u16, u32)

  datatype CachedPoint = CachedPoint(message: Message, receivedAt: Nanos)

  type Store = map<Key, CachedPoint>

  function KeyOf(msg: Message, defaultCa: u16): Key {
    (msg.ca.UnwrapOr(defaultCa), msg.ioa)
  }

  /** Every point is cached under its own address. */
  ghost predicate Keyed(store: Store, defaultCa: u16) {
    forall k | k in store :: KeyOf(store[k].message, defaultCa) == k
  }

  /** What never changes while a reply is made: conversions, default address, policy and the clock reading. */
  datatype Replay = Replay(p: Platform, defaultCa: u16, policy: OutputPolicy, now: Nanos)

  function ReplayOutgoing(r: Replay, point: CachedPoint): Outgoing {
    var out := PrepareForOutput(point.message, point.receivedAt, r.now, r.policy);
    out.(message := out.message.(cot := Interrogated))
  }

  function ReplayAsdu(r: Replay, point: CachedPoint): Asdu {
    OutgoingAsdu(r.p, ReplayOutgoing(r, point), point.message.ca.UnwrapOr(r.defaultCa))
  }

  /** What a master connection may be sent during an interrogation. */
  datatype Reply = ActCon(negative: bool) | Data(asdu: Asdu) | ActTerm

  /** How much `a` exceeds `b`. */
  function Over(a: int, b: int): nat {
    if a > b then a - b else 0
  }

  /** A master connection with a bounded high-priority queue that the link empties at its own pace, or not at all. */
  class MasterConnection {
    var queued: seq<Reply>
    var free: nat
    /** The link stays up and memory does not run out. */
    const healthy: bool
    /** The link may take replies off the queue meanwhile. */
    const draining: bool

    constructor (free: nat, healthy: bool, draining: bool)
      ensures queued == [] && this.free == free && this.healthy == healthy && this.draining == draining
    {
      queued, this.free, this.healthy, this.draining := [], free, healthy, draining;
    }

    /** `sendACT_CON`, `sendASDU`, `sendACT_TERM`: accept or refuse. */
    method Send(reply: Reply) returns (sent: bool)
      modifies this
      ensures queued == old(queued) + if sent then [reply] else []
      ensures healthy && old(free) > 0 ==> sent
      ensures free >= old(free) - if sent then 1 else 0
      ensures !draining ==> free == old(free) - (if sent then 1 else 0) && (sent ==> old(free) > 0)
    {
      var drained: int := *;
      free := if draining && drained > 0 then free + drained else free;
      var up := *;
      sent := free > 0 && (healthy || up);
      if sent {
        queued := queued + [reply];
        free := free - 1;
      }
    }
  }

  /** Sends to one connection and counts the refusals. */
  class ConnectionSink {
    const conn: MasterConnection
    var failed: nat

    constructor (conn: MasterConnection)
      ensures this.conn == conn && failed == 0
    {
      this.conn := conn;
      failed := 0;
    }

    /** `dispatch_outgoing` on this sink. */
    method Dispatch(p: Platform, out: Outgoing, ca: u16) returns (ghost sent: bool)
      modifies this, conn
      ensures conn.queued == old(conn.queued) + if sent then [Data(OutgoingAsdu(p, out, ca))] else []
      ensures failed == old(failed) + if sent then 0 else 1
      ensures conn.healthy && old(conn.free) > 0 ==> sent
      ensures conn.free >= old(conn.free) - if sent then 1 else 0
      ensures !conn.draining ==> conn.free == old(conn.free) - (if sent then 1 else 0) && (sent ==> old(conn.free) > 0)
    {
      var call := DispatchOutgoing(p, out, ca);
      var ok := conn.Send(Data(SingleObjectAsdu(p, call)));
      if !ok {
        failed := failed + 1;
      }
      sent := ok;
    }
  }

  // ---- the replay as a function of the order and of the refusals ----

  predicate NoDuplicates(order: seq<Key>) {
    forall i, j | 0 <= i < j < |order| :: order[i] != order[j]
  }

  /** `order` is some iteration order over the map. */
  ghost predicate Enumerates(order: seq<Key>, store: Store) {
    NoDuplicates(order) && (forall k :: k in order <==> k in store)
  }

  function Select<T>(items: seq<T>, outcomes: seq<bool>): seq<T>
    requires |items| == |outcomes|
  {
    if items == [] then []
    else
      var n := |items| - 1;
      Select(items[..n], outcomes[..n]) + if outcomes[n] then [items[n]] else []
  }

  function Refusals(outcomes: seq<bool>): nat {
    if outcomes == [] then 0
    else Refusals(outcomes[..|outcomes| - 1]) + if outcomes[|outcomes| - 1] then 0 else 1
  }

  function DataFor(r: Replay, store: Store, keys: seq<Key>): seq<Reply>
    requires forall i | 0 <= i < |keys| :: keys[i] in store
  {
    seq(|keys|, i requires 0 <= i < |keys| => Data(ReplayAsdu(r, store[keys[i]])))
  }

  lemma {:induction false} SelectKeepsOrder(order: seq<Key>, outcomes: seq<bool>)
    requires |order| == |outcomes|
    ensures forall k | k in Select(order, outcomes) :: k in order
    ensures NoDuplicates(order) ==> NoDuplicates(Select(order, outcomes))
    ensures |Select(order, outcomes)| + Refusals(outcomes) == |order|
  {
    if order != [] {
      var n := |order| - 1;
      SelectKeepsOrder(order[..n], outcomes[..n]);
      var before, all := Select(order[..n], outcomes[..n]), Select(order, outcomes);
      forall k | k in all ensures k in order {
        assert k in before ==> k in order[..n];
      }
      if NoDuplicates(order) {
        assert order[n] !in order[..n];
        assert forall i | 0 <= i < |before| :: before[i] != order[n];
      }
    }
  }

  lemma SelectSnoc(order: seq<Key>, outcomes: seq<bool>, k: Key, sent: bool)
    requires |order| == |outcomes|
    ensures Select(order + [k], outcomes + [sent]) == Select(order, outcomes) + if sent then [k] else []
    ensures Refusals(outcomes + [sent]) == Refusals(outcomes) + if sent then 0 else 1
  {
    assert (order + [k])[..|order|] == order && (outcomes + [sent])[..|outcomes|] == outcomes;
  }

  lemma EnumerationSize(order: seq<Key>, store: Store)
    requires Enumerates(order, store)
    ensures |order| == |store|
  {
    assert store.Keys == set k | k in order;
    DistinctCount(order);
  }

  lemma DistinctCount(order: seq<Key>)
    requires NoDuplicates(order)
    ensures |set k | k in order| == |order|
  {
    if order != [] {
      var n := |order| - 1;
      DistinctCount(order[..n]);
      assert (set k | k in order) == (set k | k in order[..n]) + {order[n]};
    }
  }

  /** The keys already walked and those to come. */
  ghost predicate Walked(order: seq<Key>, todo: set<Key>, store: Store) {
    && NoDuplicates(order)
    && (forall k :: k in store <==> k in order || k in todo)
    && (forall k | k in todo :: k !in order)
    && |order| + |todo| == |store|
  }

  lemma WalkStep(order: seq<Key>, todo: set<Key>, store: Store, k: Key)
    requires Walked(order, todo, store) && k in todo
    ensures Walked(order + [k], todo - {k}, store)
    ensures |order| < |store|
  {
  }

  /** The replies accepted and the refusals counted so far. */
  ghost predicate Answered(
    r: Replay, store: Store, order: seq<Key>, outcomes: seq<bool>, replies: seq<Reply>, refused: int)
  {
    && |order| == |outcomes| && refused == Refusals(outcomes)
    && (forall k | k in Select(order, outcomes) :: k in store)
    && replies == DataFor(r, store, Select(order, outcomes))
  }

  lemma AnswerStep(
    r: Replay, store: Store, order: seq<Key>, outcomes: seq<bool>, replies: seq<Reply>, refused: int, k: Key, sent: bool)
    requires Answered(r, store, order, outcomes, replies, refused) && k in store
    ensures Answered(r, store, order + [k], outcomes + [sent],
                     replies + if sent then [Data(ReplayAsdu(r, store[k]))] else [],
                     refused + if sent then 0 else 1)
  {
    SelectSnoc(order, outcomes, k, sent);
  }

  /** Of `asked` ASDUs none is refused if there were as many free slots before; if nothing drains, exactly the excess is. */
  predicate Room(conn: MasterConnection, before: int, free: int, asked: int, refused: int) {
    && (conn.healthy && before >= asked ==> refused == 0 && free >= before - asked)
    && (conn.healthy && !conn.draining ==> refused == Over(asked, before) && free == Over(before, asked))
  }

  lemma RoomStep(conn: MasterConnection, before: nat, free: nat, free': nat, asked: nat, refused: int, sent: bool)
    requires Room(conn, before, free, asked, refused)
    requires (conn.healthy && free > 0 ==> sent) && free' >= free - if sent then 1 else 0
    requires !conn.draining ==> free' == free - (if sent then 1 else 0) && (sent ==> free > 0)
    ensures Room(conn, before, free', asked + 1, refused + if sent then 0 else 1)
  {
  }

  /** Where the replay stands after the keys of `order`. */
  ghost predicate Progress(
    conn: MasterConnection, r: Replay, store: Store, order: seq<Key>, outcomes: seq<bool>, replies: seq<Reply>,
    todo: set<Key>, before: nat, free: nat, refused: int)
  {
    && Walked(order, todo, store)
    && Answered(r, store, order, outcomes, replies, refused)
    && Room(conn, before, free, |order|, refused)
  }

  lemma ProgressStep(
    conn: MasterConnection, r: Replay, store: Store, order: seq<Key>, outcomes: seq<bool>, replies: seq<Reply>,
    todo: set<Key>, before: nat, free: nat, free': nat, refused: int, k: Key, sent: bool)
    requires Progress(conn, r, store, order, outcomes, replies, todo, before, free, refused) && k in todo
    requires (conn.healthy && free > 0 ==> sent) && free' >= free - if sent then 1 else 0
    requires !conn.draining ==> free' == free - (if sent then 1 else 0) && (sent ==> free > 0)
    ensures k in store
    ensures Progress(conn, r, store, order + [k], outcomes + [sent],
                     replies + if sent then [Data(ReplayAsdu(r, store[k]))] else [],
                     todo - {k}, before, free', refused + if sent then 0 else 1)
  {
    WalkStep(order, todo, store, k);
    AnswerStep(r, store, order, outcomes, replies, refused, k, sent);
    RoomStep(conn, before, free, free', |order|, refused, sent);
  }

  lemma ProgressStart(conn: MasterConnection, r: Replay, store: Store, free: nat)
    ensures Progress(conn, r, store, [], [], [], store.Keys, free, free, 0)
  {
  }

  lemma ProgressDone(
    conn: MasterConnection, r: Replay, store: Store, order: seq<Key>, outcomes: seq<bool>, replies: seq<Reply>,
    before: nat, free: nat, refused: int)
    requires Progress(conn, r, store, order, outcomes, replies, {}, before, free, refused)
    ensures Enumerates(order, store) && |outcomes| == |order| == |store| && refused == Refusals(outcomes)
    ensures forall k | k in Select(order, outcomes) :: k in store
    ensures replies == DataFor(r, store, Select(order, outcomes))
    ensures Room(conn, before, free, |store|, refused)
  {
  }

  /** The body of the loop. */
  method ReplayPoint(sink: ConnectionSink, point: CachedPoint, r: Replay) returns (ghost sent: bool)
    modifies sink, sink.conn
    ensures sink.conn.queued == old(sink.conn.queued) + if sent then [Data(ReplayAsdu(r, point))] else []
    ensures sink.failed == old(sink.failed) + if sent then 0 else 1
    ensures sink.conn.healthy && old(sink.conn.free) > 0 ==> sent
    ensures sink.conn.free >= old(sink.conn.free) - if sent then 1 else 0
    ensures !sink.conn.draining ==>
              sink.conn.free == old(sink.conn.free) - (if sent then 1 else 0) && (sent ==> old(sink.conn.free) > 0)
  {
    var ca := point.message.ca.UnwrapOr(r.defaultCa);
    var out := PrepareForOutput(point.message, point.receivedAt, r.now, r.policy);
    out := out.(message := out.message.(cot := Interrogated));
    sent := sink.Dispatch(r.p, out, ca);
  }

  /** The same, told of the whole replay so far. */
  method ReplayNext(
    sink: ConnectionSink, store: Store, r: Replay, k: Key,
    ghost order: seq<Key>, ghost outcomes: seq<bool>, ghost replies: seq<Reply>, ghost todo: set<Key>,
    ghost start: seq<Reply>, ghost before: nat, ghost base: int)
    returns (ghost sent: bool, ghost more: seq<Reply>)
    requires Progress(sink.conn, r, store, order, outcomes, replies, todo, before, sink.conn.free, sink.failed - base)
    requires k in todo && sink.conn.queued == start + replies
    modifies sink, sink.conn
    ensures Progress(sink.conn, r, store, order + [k], outcomes + [sent], replies + more, todo - {k},
                     before, sink.conn.free, sink.failed - base)
    ensures sink.conn.queued == start + (replies + more)
  {
    ghost var refused, free := sink.failed - base, sink.conn.free;
    WalkStep(order, todo, store, k);
    sent := ReplayPoint(sink, store[k], r);
    more := if sent then [Data(ReplayAsdu(r, store[k]))] else [];
    assert start + replies + more == start + (replies + more);
    ProgressStep(sink.conn, r, store, order, outcomes, replies, todo, before, free, sink.conn.free, refused, k, sent);
  }

  /** The loop over the map, under the store lock: any order, any refusals. */
  method ReplayCachedValues(sink: ConnectionSink, store: Store, r: Replay)
    returns (ghost order: seq<Key>, ghost outcomes: seq<bool>)
    modifies sink, sink.conn
    ensures Enumerates(order, store) && |outcomes| == |order|
    ensures forall k | k in Select(order, outcomes) :: k in store
    ensures sink.conn.queued == old(sink.conn.queued) + DataFor(r, store, Select(order, outcomes))
    ensures sink.failed == old(sink.failed) + Refusals(outcomes)
    ensures sink.conn.healthy && old(sink.conn.free) >= |store| ==>
              Refusals(outcomes) == 0 && sink.conn.free >= old(sink.conn.free) - |store|
    ensures sink.conn.healthy && !sink.conn.draining ==>
              Refusals(outcomes) == Over(|store|, old(sink.conn.free)) && sink.conn.free == Over(old(sink.conn.free), |store|)
  {
    order, outcomes := [], [];
    ghost var replies := [];
    var todo := store.Keys;
    ProgressStart(sink.conn, r, store, sink.conn.free);
    while todo != {}
      invariant Progress(sink.conn, r, store, order, outcomes, replies, todo,
                         old(sink.conn.free), sink.conn.free, sink.failed - old(sink.failed))
      invariant sink.conn.queued == old(sink.conn.queued) + replies
      decreases |todo|
    {
      var k :| k in todo;
      ghost var sent, more := ReplayNext(sink, store, r, k, order, outcomes, replies, todo,
                                         old(sink.conn.queued), old(sink.conn.free), old(sink.failed));
      replies := replies + more;
      order, outcomes := order + [k], outcomes + [sent];
      todo := todo - {k};
    }
    ProgressDone(sink.conn, r, store, order, outcomes, replies,
                 old(sink.conn.free), sink.conn.free, sink.failed - old(sink.failed));
  }

  // ---- the shape of the reply ----

  /** The address, cause and quality a replayed point carries, in terms of the cached message alone. */
  lemma ReplayFields(r: Replay, point: CachedPoint)
    ensures var asdu := ReplayAsdu(r, point);
            var stale := PrepareForOutput(point.message, point.receivedAt, r.now, r.policy).notTopical;
            && (asdu.ca, asdu.io.ioa) == KeyOf(point.message, r.defaultCa)
            && asdu.cot == 20
            && asdu.io.quality == (if stale then AddNt(MapQuality(point.message.quality)) else MapQuality(point.message.quality))
            && (asdu.io.stampMs.Some? <==> r.policy.sendTimestamps && point.message.timestamp.Some?)
  {
  }

  /** Any order, any refusals: distinct addresses, cause "interrogated", and nothing lost without being counted. */
  lemma ReplyShape(r: Replay, store: Store, order: seq<Key>, outcomes: seq<bool>)
    requires Keyed(store, r.defaultCa) && Enumerates(order, store) && |outcomes| == |order|
    ensures var keys := Select(order, outcomes);
            && (forall i | 0 <= i < |keys| :: keys[i] in store)
            && NoDuplicates(keys)
            && |keys| + Refusals(outcomes) == |store|
            && (forall i | 0 <= i < |keys| ::
                  var asdu := DataFor(r, store, keys)[i].asdu;
                  (asdu.ca, asdu.io.ioa) == keys[i] && asdu.cot == 20 && asdu == ReplayAsdu(r, store[keys[i]]))
  {
    SelectKeepsOrder(order, outcomes);
    EnumerationSize(order, store);
    var keys := Select(order, outcomes);
    forall i | 0 <= i < |keys|
      ensures keys[i] in store && KeyOf(store[keys[i]].message, r.defaultCa) == keys[i]
    {
      assert keys[i] in order;
    }
    forall i | 0 <= i < |keys|
      ensures var asdu := DataFor(r, store, keys)[i].asdu;
              (asdu.ca, asdu.io.ioa) == keys[i] && asdu.cot == 20 && asdu == ReplayAsdu(r, store[keys[i]])
    {
      ReplayFields(r, store[keys[i]]);
    }
  }

  /** Without refusals the reply names every cached point, in the order the map was walked. */
  lemma {:induction false} NoRefusalSelectsAll(order: seq<Key>, outcomes: seq<bool>)
    requires |order| == |outcomes| && Refusals(outcomes) == 0
    ensures Select(order, outcomes) == order
  {
    if order != [] {
      var n := |order| - 1;
      NoRefusalSelectsAll(order[..n], outcomes[..n]);
    }
  }
}
