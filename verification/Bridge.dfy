/**
 The bridge object: `handle_incoming_message`, `run_message_loop` and the interrogation handler of
 src/main.rs as methods over the shared store and counters. `trace` is the abstract state they move,
 one step of the machine in BridgeRun at a time.
 */
module Bridge {
  import opened Messages
  import opened Validation
  import opened Shaping
  import opened Interrogation
  import opened BridgeRun

  const QOI_STATION: byte := 20

  datatype LoopOutcome = Shutdown | SourceEnded

  /** What the source stream yields, with the clock reading and the fate of the acknowledgement. */
  datatype Item =
    | Rejected(delivery: Delivery, ackOk: bool)
    | StreamError
    | Incoming(msg: Message, now: Nanos, ackOk: bool)

  predicate ItemOk(item: Item) {
    match item
    case Rejected(d, _) => !Accepts(d)
    case StreamError => true
    case Incoming(msg, _, _) => Valid(msg)
  }

  /** The steps one item causes; a failed acknowledgement leaves the metric alone. */
  function EventsOf(item: Item): seq<Event> {
    match item
    case Rejected(d, ok) => [PollRejected(d, ok)]
    case StreamError => [PollError]
    case Incoming(msg, now, ok) => [Insert(msg, now), Dispatch, Ack(ok)] + if ok then [Count] else []
  }

  function AllEvents(items: seq<Item>): seq<Event> {
    if items == [] then [] else AllEvents(items[..|items| - 1]) + EventsOf(items[|items| - 1])
  }

  function AsdusOf(spontaneous: seq<Enqueued>): seq<Asdu> {
    if spontaneous == [] then []
    else AsdusOf(spontaneous[..|spontaneous| - 1]) + [spontaneous[|spontaneous| - 1].asdu]
  }

  lemma AsdusSnoc(spontaneous: seq<Enqueued>, e: Enqueued)
    ensures AsdusOf(spontaneous + [e]) == AsdusOf(spontaneous) + [e.asdu]
  {
    assert (spontaneous + [e])[..|spontaneous|] == spontaneous;
  }

  lemma RunSnoc(c: Config, s: State, es: seq<Event>, e: Event)
    ensures Run(c, s, es + [e]) == Step(c, Run(c, s, es), e)
    ensures Runs(c, s, es + [e]) <==> Runs(c, s, es) && Enabled(Run(c, s, es), e)
  {
    assert (es + [e])[..|es|] == es;
  }

  lemma {:induction false} RunAppend(c: Config, s: State, es: seq<Event>, more: seq<Event>)
    ensures Run(c, s, es + more) == Run(c, Run(c, s, es), more)
    ensures Runs(c, s, es + more) <==> Runs(c, s, es) && Runs(c, Run(c, s, es), more)
    decreases |more|
  {
    if more == [] {
      assert es + more == es;
    } else {
      var n := |more| - 1;
      RunAppend(c, s, es, more[..n]);
      assert es + more == es + more[..n] + [more[n]] && more == more[..n] + [more[n]];
      RunSnoc(c, s, es + more[..n], more[n]);
      RunSnoc(c, Run(c, s, es), more[..n], more[n]);
    }
  }

  /** The steps `es` may happen from `s`, and lead to `t`. */
  ghost predicate Follows(c: Config, s: State, es: seq<Event>, t: State) {
    Runs(c, s, es) && t == Run(c, s, es)
  }

  /** The loop is about to poll item `i`. */
  ghost predicate AtItem(c: Config, start: State, items: seq<Item>, i: nat, t: State)
    requires i <= |items|
  {
    Follows(c, start, AllEvents(items[..i]), t) && t.phase.Idle? && t.sourceUp
  }

  lemma FollowsOn(c: Config, s: State, items: seq<Item>, i: nat, t: State, u: State)
    requires i < |items|
    requires Follows(c, s, AllEvents(items[..i]), t) && Follows(c, t, EventsOf(items[i]), u)
    ensures Follows(c, s, AllEvents(items[..i + 1]), u)
  {
    assert items[..i + 1][..i] == items[..i];
    RunAppend(c, s, AllEvents(items[..i]), EventsOf(items[i]));
  }

  lemma FollowsEnd(c: Config, s: State, items: seq<Item>, t: State)
    requires Follows(c, s, AllEvents(items[..|items|]), t) && t.phase.Idle? && t.sourceUp
    ensures Follows(c, s, AllEvents(items) + [SourceEnds], Step(c, t, SourceEnds))
  {
    assert items[..|items|] == items;
    RunSnoc(c, s, AllEvents(items), SourceEnds);
  }

  class Bridge {
    const c: Config
    var store: Store
    var spontaneous: seq<Asdu>
    var messagesDispatched: nat
    var giResponses: nat
    ghost var trace: State

    /** The real fields are those of the abstract state. */
    ghost predicate Mirrors()
      reads this
    {
      && store == trace.store && spontaneous == AsdusOf(trace.spontaneous)
      && messagesDispatched == trace.messagesDispatched && giResponses == trace.giResponses
    }

    constructor (c: Config)
      ensures this.c == c && Mirrors() && trace == INITIAL
    {
      this.c := c;
      store, spontaneous, messagesDispatched, giResponses := map[], [], 0, 0;
      trace := INITIAL;
    }

    /** The first critical section: cache the message under its address. */
    method InsertPhase(msg: Message, now: Nanos)
      requires Mirrors() && Enabled(trace, Insert(msg, now))
      modifies this
      ensures Mirrors() && trace == Step(c, old(trace), Insert(msg, now))
    {
      var ca := msg.ca.UnwrapOr(c.defaultCa);
      store := store[(ca, msg.ioa) := CachedPoint(msg, now)];
      trace := Step(c, trace, Insert(msg, now));
    }

    /** The second: shape the message and hand it to the server, unless only interrogations are served. */
    method DispatchPhase(msg: Message, now: Nanos) returns (dispatched: bool)
      requires Mirrors() && Enabled(trace, Dispatch) && trace.handled != []
      requires var h := trace.handled[|trace.handled| - 1]; h.message == msg && h.now == now
      modifies this
      ensures Mirrors() && trace == Step(c, old(trace), Dispatch) && dispatched == trace.phase.sent
    {
      if c.giOnly {
        dispatched := false;
      } else {
        var ca := msg.ca.UnwrapOr(c.defaultCa);
        var out := PrepareForOutput(msg, now, now, c.policy);
        spontaneous := spontaneous + [SingleObjectAsdu(c.p, DispatchOutgoing(c.p, out, ca))];
        dispatched := true;
        AsdusSnoc(trace.spontaneous, Enqueued(|trace.handled| - 1, OutgoingAsdu(c.p, out, ca)));
      }
      trace := Step(c, trace, Dispatch);
    }

    /** The acknowledgement, then the metric if it went through. */
    method AckAndCountPhase(dispatched: bool, ackOk: bool)
      requires Mirrors() && Enabled(trace, Ack(ackOk)) && dispatched == trace.phase.sent
      modifies this
      ensures Mirrors()
      ensures var t := Step(c, old(trace), Ack(ackOk)); trace == if ackOk then Step(c, t, Count) else t
    {
      trace := Step(c, trace, Ack(ackOk));
      if !ackOk { return; }
      if dispatched {
        messagesDispatched := messagesDispatched + 1;
      }
      trace := Step(c, trace, Count);
    }

    /** One message from the cache insert to the metric. */
    method HandleIncomingMessage(msg: Message, now: Nanos, ackOk: bool)
      requires Mirrors() && Enabled(trace, Insert(msg, now))
      modifies this
      ensures Mirrors() && Follows(c, old(trace), EventsOf(Incoming(msg, now, ackOk)), trace)
      ensures trace.phase.Idle? && trace.sourceUp
    {
      HandleRuns(c, trace, msg, now, ackOk);
      InsertPhase(msg, now);
      var dispatched := DispatchPhase(msg, now);
      AckAndCountPhase(dispatched, ackOk);
    }

    /** One turn of the message loop; invalid deliveries are acknowledged by the stream and skipped. */
    method HandleItem(item: Item)
      requires Mirrors() && trace.phase.Idle? && trace.sourceUp && ItemOk(item)
      modifies this
      ensures Mirrors() && trace.phase.Idle? && trace.sourceUp
      ensures Follows(c, old(trace), EventsOf(item), trace)
    {
      match item
      case Incoming(msg, now, ackOk) =>
        HandleIncomingMessage(msg, now, ackOk);
      case Rejected(d, ackOk) =>
        SingleStep(c, trace, PollRejected(d, ackOk));
        trace := Step(c, trace, PollRejected(d, ackOk));
      case StreamError =>
        SingleStep(c, trace, PollError);
    }

    /** The stream yields nothing more; server and cache are left alone. */
    method EndOfStream()
      requires Mirrors()
      modifies this
      ensures Mirrors() && trace == Step(c, old(trace), SourceEnds)
    {
      trace := Step(c, trace, SourceEnds);
    }

    method HandleNext(items: seq<Item>, i: nat, ghost start: State)
      requires Mirrors() && i < |items| && ItemOk(items[i]) && AtItem(c, start, items, i, trace)
      modifies this
      ensures Mirrors() && AtItem(c, start, items, i + 1, trace)
    {
      ghost var before := trace;
      HandleItem(items[i]);
      FollowsOn(c, start, items, i, before, trace);
    }

    /** The turns of the loop; Ctrl-C is looked at before each. */
    method ConsumeItems(items: seq<Item>, interruptedAt: Option<nat>) returns (i: nat)
      requires Mirrors() && trace.phase.Idle? && trace.sourceUp
      requires forall i | 0 <= i < |items| :: ItemOk(items[i])
      modifies this
      ensures Mirrors() && trace.phase.Idle? && trace.sourceUp
      ensures i == if interruptedAt.Some? && interruptedAt.value <= |items| then interruptedAt.value else |items|
      ensures Follows(c, old(trace), AllEvents(items[..i]), trace)
    {
      ghost var start := trace;
      i := 0;
      while i < |items| && interruptedAt != Some(i)
        invariant 0 <= i <= |items| && Mirrors()
        invariant interruptedAt.Some? ==> i <= interruptedAt.value
        invariant AtItem(c, start, items, i, trace)
      {
        HandleNext(items, i, start);
        i := i + 1;
      }
    }

    /** Drive the loop until the stream ends or Ctrl-C is seen. */
    method RunMessageLoop(items: seq<Item>, interruptedAt: Option<nat>) returns (outcome: LoopOutcome)
      requires Mirrors() && trace.phase.Idle? && trace.sourceUp
      requires forall i | 0 <= i < |items| :: ItemOk(items[i])
      modifies this
      ensures Mirrors()
      ensures outcome == if interruptedAt.Some? && interruptedAt.value <= |items| then Shutdown else SourceEnded
      ensures outcome.Shutdown? ==> Follows(c, old(trace), AllEvents(items[..interruptedAt.value]), trace)
      ensures outcome.SourceEnded? ==> Follows(c, old(trace), AllEvents(items) + [SourceEnds], trace)
    {
      ghost var start := trace;
      var i := ConsumeItems(items, interruptedAt);
      if interruptedAt == Some(i) { return Shutdown; }
      FollowsEnd(c, start, items, trace);
      EndOfStream();
      return SourceEnded;
    }

    /** The interrogation callback; a group interrogation only gets a negative confirmation. */
    method OnInterrogation(conn: MasterConnection, id: nat, qoi: byte, now: Nanos)
      returns (ghost order: seq<Key>, ghost outcomes: seq<bool>, ghost con: bool, ghost term: bool)
      requires Mirrors() && id !in trace.connections
      modifies this, conn
      ensures Mirrors() && store == old(store) && spontaneous == old(spontaneous)
      ensures qoi != 20 ==>
                trace == old(trace) && giResponses == old(giResponses)
                && conn.queued == old(conn.queued) + if con then [ActCon(true)] else []
      ensures qoi == 20 ==>
                && Enumerates(order, store) && |outcomes| == |order|
                && (forall k | k in Select(order, outcomes) :: k in store)
                && conn.queued == old(conn.queued) + (if con then [ActCon(false)] else [])
                                  + DataFor(Replay(c.p, c.defaultCa, c.policy, now), store, Select(order, outcomes))
                                  + (if term then [ActTerm] else [])
                && giResponses == old(giResponses) + 1
                && Follows(c, old(trace), [GiConfirm(id), GiReplay(id, now, order, outcomes), GiTerminate(id)], trace)
      ensures qoi == 20 && conn.healthy && old(conn.free) >= |store| + 2 ==>
                con && term && Refusals(outcomes) == 0
      ensures qoi == 20 && conn.healthy && !conn.draining ==>
                && con == (old(conn.free) > 0)
                && Refusals(outcomes) == Over(|store|, Over(old(conn.free), 1))
                && (Refusals(outcomes) == 0 <==> store == map[] || old(conn.free) >= |store| + 1)
                && term == (old(conn.free) >= |store| + 2)
    {
      order, outcomes, term := [], [], false;
      if qoi != QOI_STATION {
        var sent := conn.Send(ActCon(true));
        con := sent;
        return;
      }
      var confirmed := conn.Send(ActCon(false));
      con := confirmed;
      var sink := new ConnectionSink(conn);
      order, outcomes := ReplayCachedValues(sink, store, Replay(c.p, c.defaultCa, c.policy, now));
      giResponses := giResponses + 1;
      var terminated := conn.Send(ActTerm);
      term := terminated;
      GiRuns(c, trace, id, now, order, outcomes);
      trace := Run(c, trace, [GiConfirm(id), GiReplay(id, now, order, outcomes), GiTerminate(id)]);
    }
  }

  lemma SingleStep(c: Config, s: State, e: Event)
    ensures Run(c, s, [e]) == Step(c, s, e)
    ensures Runs(c, s, [e]) <==> Enabled(s, e)
  {
    RunSnoc(c, s, [], e);
    assert [] + [e] == [e];
  }

  lemma ThreeSteps(c: Config, s: State, a: Event, b: Event, d: Event)
    ensures Run(c, s, [a, b, d]) == Step(c, Step(c, Step(c, s, a), b), d)
    ensures Runs(c, s, [a, b, d])
       <==> Enabled(s, a) && Enabled(Step(c, s, a), b) && Enabled(Step(c, Step(c, s, a), b), d)
  {
    SingleStep(c, s, a);
    assert [a] + [b] == [a, b] && [a, b] + [d] == [a, b, d];
    RunSnoc(c, s, [a], b);
    RunSnoc(c, s, [a, b], d);
  }

  lemma HandleRuns(c: Config, s: State, msg: Message, now: Nanos, ok: bool)
    requires Enabled(s, Insert(msg, now))
    ensures var t := Step(c, Step(c, Step(c, s, Insert(msg, now)), Dispatch), Ack(ok));
            Run(c, s, EventsOf(Incoming(msg, now, ok))) == if ok then Step(c, t, Count) else t
    ensures Runs(c, s, EventsOf(Incoming(msg, now, ok)))
  {
    ThreeSteps(c, s, Insert(msg, now), Dispatch, Ack(ok));
    var three := [Insert(msg, now), Dispatch, Ack(ok)];
    if ok {
      RunSnoc(c, s, three, Count);
    } else {
      assert three + [] == three;
    }
  }

  lemma GiRuns(c: Config, s: State, id: nat, now: Nanos, order: seq<Key>, outcomes: seq<bool>)
    requires id !in s.connections && Enumerates(order, s.store) && |outcomes| == |order|
    ensures var es := [GiConfirm(id), GiReplay(id, now, order, outcomes), GiTerminate(id)];
            var t := Run(c, s, es);
            && Runs(c, s, es) && t.store == s.store && t.spontaneous == s.spontaneous
            && t.messagesDispatched == s.messagesDispatched && t.giResponses == s.giResponses + 1
  {
    ThreeSteps(c, s, GiConfirm(id), GiReplay(id, now, order, outcomes), GiTerminate(id));
  }
}
