/** What every run of the bridge guarantees, whatever the interleaving. */
module BridgeTheorems {
  import opened Messages
  import opened Validation
  import opened Shaping
  import opened Interrogation
  import opened BridgeRun

  // ---- the input history of a run ----

  /** What came in, read off the schedule alone. */
  function Arrivals(es: seq<Event>): seq<CachedPoint> {
    if es == [] then []
    else
      var e := es[|es| - 1];
      Arrivals(es[..|es| - 1]) + if e.Insert? then [CachedPoint(e.msg, e.now)] else []
  }

  function Points(handled: seq<Handled>): seq<CachedPoint> {
    seq(|handled|, i requires 0 <= i < |handled| => PointOf(handled[i]))
  }

  lemma {:induction false} HandledAreArrivals(c: Config, es: seq<Event>)
    requires Runs(c, INITIAL, es)
    ensures Points(Run(c, INITIAL, es).handled) == Arrivals(es)
  {
    if es != [] {
      var before, e := es[..|es| - 1], es[|es| - 1];
      HandledAreArrivals(c, before);
      ArrivalStep(c, Run(c, INITIAL, before), e);
    }
  }

  lemma ArrivalStep(c: Config, s: State, e: Event)
    ensures Points(Step(c, s, e).handled)
         == Points(s.handled) + if e.Insert? then [CachedPoint(e.msg, e.now)] else []
  {
  }

  // ---- the cache ----

  /** Sources may come and go: the cache is always the last arrival per key, under the point's own address. */
  lemma CacheIsLastWrite(c: Config, es: seq<Event>, k: Key)
    requires Runs(c, INITIAL, es)
    ensures var s := Run(c, INITIAL, es);
            var i := LastIndex(c, s.handled, |s.handled|, k);
            && Points(s.handled) == Arrivals(es)
            && (k in s.store <==> i >= 0)
            && (k in s.store ==> s.store[k] == Arrivals(es)[i] && KeyOf(s.store[k].message, c.defaultCa) == k
                                 && Valid(s.store[k].message))
  {
    var s := Run(c, INITIAL, es);
    InvInitially(c);
    InvAlways(c, INITIAL, es);
    HandledAreArrivals(c, es);
    assert s.handled[..|s.handled|] == s.handled;
    FoldIsLastWrite(c, s.handled, |s.handled|, k);
    assert k in s.store ==> Points(s.handled)[LastIndex(c, s.handled, |s.handled|, k)] == s.store[k];
  }

  function KeysOf(c: Config, points: seq<CachedPoint>): set<Key> {
    set i | 0 <= i < |points| :: KeyOf(points[i].message, c.defaultCa)
  }

  /** The cache-size gauge is the number of distinct keys that ever arrived. */
  lemma GaugeCountsKeys(c: Config, es: seq<Event>)
    requires Runs(c, INITIAL, es)
    ensures Run(c, INITIAL, es).store.Keys == KeysOf(c, Arrivals(es))
    ensures |Run(c, INITIAL, es).store| == |KeysOf(c, Arrivals(es))|
  {
    var s := Run(c, INITIAL, es);
    HandledAreArrivals(c, es);
    forall k ensures k in s.store <==> k in KeysOf(c, Arrivals(es)) {
      CacheIsLastWrite(c, es, k);
      if k in s.store {
        var i := LastIndex(c, s.handled, |s.handled|, k);
        assert Arrivals(es)[i] == PointOf(s.handled[i]);
      }
      if k in KeysOf(c, Arrivals(es)) {
        var i :| 0 <= i < |Arrivals(es)| && KeyOf(Arrivals(es)[i].message, c.defaultCa) == k;
        assert Points(s.handled)[i] == PointOf(s.handled[i]);
      }
    }
  }

  /** No step takes a key out of the cache. */
  lemma KeysStay(c: Config, s: State, e: Event)
    ensures s.store.Keys <= Step(c, s, e).store.Keys
  {
  }

  /** However the run goes on, what was cached stays cached. */
  lemma {:induction false} KeysNeverLeave(c: Config, es: seq<Event>, n: nat)
    requires n <= |es|
    ensures Run(c, INITIAL, es[..n]).store.Keys <= Run(c, INITIAL, es).store.Keys
    decreases |es|
  {
    if n < |es| {
      var last := |es| - 1;
      assert es[..last][..n] == es[..n];
      KeysNeverLeave(c, es[..last], n);
      KeysStay(c, Run(c, INITIAL, es[..last]), es[last]);
    } else {
      assert es[..n] == es;
    }
  }

  // ---- interrogation against the spontaneous stream ----

  /** A replay never shows an older message for a key than one already enqueued spontaneously. */
  lemma SnapshotIsFresh(c: Config, es: seq<Event>, g: GiRecord, j: nat)
    requires Runs(c, INITIAL, es)
    requires var s := Run(c, INITIAL, es); g in s.gis && j < g.enqueuedBefore
    ensures var s := Run(c, INITIAL, es);
            && j < |s.spontaneous| && j < |s.handled| && s.spontaneous[j].index == j
            && g.handledBefore <= |s.handled|
            && var k := KeyOf(s.handled[j].message, c.defaultCa);
               var i := LastIndex(c, s.handled, g.handledBefore, k);
               k in g.snapshot && j <= i && g.snapshot[k] == PointOf(s.handled[i])
  {
    InvInitially(c);
    InvAlways(c, INITIAL, es);
    var s := Run(c, INITIAL, es);
    FoldIsLastWrite(c, s.handled, g.handledBefore, KeyOf(s.handled[j].message, c.defaultCa));
  }

  /** ... and it is never more than one message ahead of the stream. */
  lemma SnapshotIsAtMostOneAhead(c: Config, es: seq<Event>, g: GiRecord)
    requires Runs(c, INITIAL, es) && !c.giOnly && g in Run(c, INITIAL, es).gis
    ensures g.enqueuedBefore <= g.handledBefore <= g.enqueuedBefore + 1
  {
    InvInitially(c);
    InvAlways(c, INITIAL, es);
  }

  lemma RunOneMore(c: Config, es: seq<Event>, e: Event)
    requires Runs(c, INITIAL, es) && Enabled(Run(c, INITIAL, es), e)
    ensures Runs(c, INITIAL, es + [e]) && Run(c, INITIAL, es + [e]) == Step(c, Run(c, INITIAL, es), e)
  {
    assert (es + [e])[..|es|] == es;
  }

  /** And it can be one ahead: the source is rebuilt, a message is inserted, and a replay comes before its dispatch. */
  lemma SnapshotCanBeAhead(c: Config, msg: Message, now: Nanos) returns (es: seq<Event>)
    requires Valid(msg)
    ensures SourceEnds in es && SourceRebuilt in es && Runs(c, INITIAL, es)
    ensures var s := Run(c, INITIAL, es);
            && |s.gis| == 1 && s.gis[0].handledBefore == 1 && s.gis[0].enqueuedBefore == 0
            && s.gis[0].snapshot == map[KeyOf(msg, c.defaultCa) := CachedPoint(msg, now)]
  {
    var k := KeyOf(msg, c.defaultCa);
    RunOneMore(c, [], SourceEnds);
    RunOneMore(c, [] + [SourceEnds], SourceRebuilt);
    es := [] + [SourceEnds] + [SourceRebuilt];
    RunOneMore(c, es, Insert(msg, now));
    var cached := es + [Insert(msg, now)];
    RunOneMore(c, cached, GiConfirm(0));
    assert Run(c, INITIAL, cached).store == map[k := CachedPoint(msg, now)];
    assert Enumerates([k], map[k := CachedPoint(msg, now)]);
    RunOneMore(c, cached + [GiConfirm(0)], GiReplay(0, now, [k], [true]));
    es := cached + [GiConfirm(0)] + [GiReplay(0, now, [k], [true])];
    assert cached[0] == SourceEnds && cached[1] == SourceRebuilt;
    assert es[0] == SourceEnds && es[1] == SourceRebuilt;
  }

  /** In every state something can go on: the loop with its next phase or message, or the supervisor; and any connection. */
  lemma NothingBlocks(s: State, msg: Message, now: Nanos, conn: nat, order: seq<Key>, outcomes: seq<bool>)
    requires Valid(msg) && Enumerates(order, s.store) && |outcomes| == |order|
    ensures match s.phase
            case Idle => if s.sourceUp then Enabled(s, Insert(msg, now)) && Enabled(s, SourceEnds) else Enabled(s, SourceRebuilt)
            case Inserted => Enabled(s, Dispatch)
            case Dispatched(_) => Enabled(s, Ack(true)) && Enabled(s, Ack(false))
            case Acked(_) => Enabled(s, Count)
    ensures if conn !in s.connections then Enabled(s, GiConfirm(conn))
            else if s.connections[conn].Confirmed? then Enabled(s, GiReplay(conn, now, order, outcomes))
            else Enabled(s, GiTerminate(conn))
  {
  }

  /** When no message is in flight, the last spontaneous ASDU of every key carries the cached message. */
  lemma QuiescentStreamMatchesCache(c: Config, es: seq<Event>, k: Key)
    requires Runs(c, INITIAL, es) && !c.giOnly
    requires var s := Run(c, INITIAL, es); !s.phase.Inserted? && k in s.store
    ensures var s := Run(c, INITIAL, es);
            var i := LastIndex(c, s.handled, |s.handled|, k);
            && |s.spontaneous| == |s.handled| && i >= 0
            && s.spontaneous[i] == Enqueued(i, SpontaneousAsdu(c, s.handled[i]))
            && s.store[k] == PointOf(s.handled[i])
            && (forall j | i < j < |s.spontaneous| ::
                  s.spontaneous[j].index == j && KeyOf(s.handled[j].message, c.defaultCa) != k)
  {
    InvInitially(c);
    InvAlways(c, INITIAL, es);
    var s := Run(c, INITIAL, es);
    CacheIsLastWrite(c, es, k);
    HandledAreArrivals(c, es);
  }

  // ---- two runs ----

  lemma {:induction false} FoldIsArrivals(c1: Config, c2: Config, h1: seq<Handled>, h2: seq<Handled>)
    requires c1.defaultCa == c2.defaultCa && Points(h1) == Points(h2)
    ensures Fold(c1, h1) == Fold(c2, h2)
  {
    assert |h1| == |Points(h1)| == |h2|;
    if h1 != [] {
      var n := |h1| - 1;
      assert Points(h1[..n]) == Points(h1)[..n] == Points(h2[..n]);
      assert Points(h1)[n] == PointOf(h1[n]) && Points(h2)[n] == PointOf(h2[n]);
      FoldIsArrivals(c1, c2, h1[..n], h2[..n]);
    }
  }

  /** Same arrivals, any two schedules, any two policies, GI-only or not: the same cache. */
  lemma CacheIgnoresOutput(c1: Config, c2: Config, es1: seq<Event>, es2: seq<Event>)
    requires c1.defaultCa == c2.defaultCa && Arrivals(es1) == Arrivals(es2)
    requires Runs(c1, INITIAL, es1) && Runs(c2, INITIAL, es2)
    ensures Run(c1, INITIAL, es1).store == Run(c2, INITIAL, es2).store
  {
    InvInitially(c1); InvAlways(c1, INITIAL, es1); HandledAreArrivals(c1, es1);
    InvInitially(c2); InvAlways(c2, INITIAL, es2); HandledAreArrivals(c2, es2);
    FoldIsArrivals(c1, c2, Run(c1, INITIAL, es1).handled, Run(c2, INITIAL, es2).handled);
  }

  function ReplyOf(c: Config, g: GiRecord): seq<Reply>
    requires |g.order| == |g.outcomes| && forall i | 0 <= i < |Select(g.order, g.outcomes)| :: Select(g.order, g.outcomes)[i] in g.snapshot
  {
    DataFor(Replay(c.p, c.defaultCa, c.policy, g.now), g.snapshot, Select(g.order, g.outcomes))
  }

  lemma ReplyIsDefined(c: Config, es: seq<Event>, g: GiRecord)
    requires Runs(c, INITIAL, es) && g in Run(c, INITIAL, es).gis
    ensures Enumerates(g.order, g.snapshot) && |g.order| == |g.outcomes|
    ensures forall i | 0 <= i < |Select(g.order, g.outcomes)| :: Select(g.order, g.outcomes)[i] in g.snapshot
  {
    InvInitially(c);
    InvAlways(c, INITIAL, es);
    SelectKeepsOrder(g.order, g.outcomes);
    forall i | 0 <= i < |Select(g.order, g.outcomes)| ensures Select(g.order, g.outcomes)[i] in g.snapshot {
      assert Select(g.order, g.outcomes)[i] in g.order;
    }
  }

  /**
   * Across two schedules: interrogations that find the same number of arrivals at the same clock reading have the
   * same ASDU for every key, GI-only or not, in whatever order each walks its map.
   */
  lemma RepliesIgnoreGiOnly(c1: Config, c2: Config, es1: seq<Event>, es2: seq<Event>, g1: GiRecord, g2: GiRecord)
    requires c2 == c1.(giOnly := c2.giOnly) && Arrivals(es1) == Arrivals(es2)
    requires Runs(c1, INITIAL, es1) && Runs(c2, INITIAL, es2)
    requires g1 in Run(c1, INITIAL, es1).gis && g2 in Run(c2, INITIAL, es2).gis
    requires g1.handledBefore == g2.handledBefore && g1.now == g2.now
    ensures g1.snapshot == g2.snapshot
    ensures forall k | k in g1.snapshot :: ReplyFor(c1, g1, k) == ReplyFor(c2, g2, k)
  {
    InvInitially(c1); InvAlways(c1, INITIAL, es1); HandledAreArrivals(c1, es1);
    InvInitially(c2); InvAlways(c2, INITIAL, es2); HandledAreArrivals(c2, es2);
    SameSnapshot(c1, c2, Run(c1, INITIAL, es1), Run(c2, INITIAL, es2), g1, g2);
  }

  function ReplyFor(c: Config, g: GiRecord, k: Key): Asdu
    requires k in g.snapshot
  {
    ReplayAsdu(Replay(c.p, c.defaultCa, c.policy, g.now), g.snapshot[k])
  }

  lemma SameSnapshot(c1: Config, c2: Config, s1: State, s2: State, g1: GiRecord, g2: GiRecord)
    requires c1.defaultCa == c2.defaultCa && Points(s1.handled) == Points(s2.handled)
    requires GiRecordOk(c1, s1, g1) && GiRecordOk(c2, s2, g2) && g1.handledBefore == g2.handledBefore
    ensures g1.snapshot == g2.snapshot
  {
    var h1, h2, n := s1.handled, s2.handled, g1.handledBefore;
    assert Points(h1[..n]) == Points(h1)[..n] && Points(h2[..n]) == Points(h2)[..n];
    FoldIsArrivals(c1, c2, h1[..n], h2[..n]);
  }

  lemma GiOnlySendsNothingSpontaneously(c: Config, es: seq<Event>)
    requires Runs(c, INITIAL, es) && c.giOnly
    ensures Run(c, INITIAL, es).spontaneous == [] && Run(c, INITIAL, es).messagesDispatched == 0
  {
    InvInitially(c);
    InvAlways(c, INITIAL, es);
    NothingCounted(c, Run(c, INITIAL, es));
  }

  lemma NothingCounted(c: Config, s: State)
    requires Inv(c, s) && c.giOnly
    ensures s.messagesDispatched == 0
  {
    forall i | 0 <= i < |s.acks| ensures !s.acks[i].dispatched {
      assert AckOk(c, s, s.acks[i]);
    }
    NoneDispatched(s.acks);
  }

  lemma {:induction false} NoneDispatched(acks: seq<AckRecord>)
    requires forall i | 0 <= i < |acks| :: !acks[i].dispatched
    ensures CountOk(acks) == 0
  {
    if acks != [] {
      NoneDispatched(acks[..|acks| - 1]);
    }
  }

  /** The same replay, but for how much had been sent spontaneously before. */
  predicate SameReplay(g: GiRecord, h: GiRecord) {
    g == h.(enqueuedBefore := g.enqueuedBefore)
  }

  ghost predicate SameReplays(gs: seq<GiRecord>, hs: seq<GiRecord>) {
    |gs| == |hs| && forall i | 0 <= i < |gs| :: SameReplay(gs[i], hs[i])
  }

  /** States that differ only in what was sent. */
  ghost predicate Alike(s: State, t: State) {
    && s.store == t.store && s.handled == t.handled && s.deliveries == t.deliveries
    && s.sourceUp == t.sourceUp && s.connections == t.connections
    && s.phase.Idle? == t.phase.Idle? && s.phase.Inserted? == t.phase.Inserted?
    && s.phase.Dispatched? == t.phase.Dispatched?
    && SameReplays(s.gis, t.gis)
  }

  lemma SameReplaysSnoc(gs: seq<GiRecord>, hs: seq<GiRecord>, g: GiRecord, h: GiRecord)
    requires SameReplays(gs, hs) && SameReplay(g, h)
    ensures SameReplays(gs + [g], hs + [h])
  {
  }

  lemma AlikeReplay(c1: Config, c2: Config, s: State, t: State, e: Event)
    requires Alike(s, t) && Enabled(s, e) && e.GiReplay?
    ensures SameReplays(Step(c1, s, e).gis, Step(c2, t, e).gis)
  {
    SameReplaysSnoc(s.gis, t.gis, Step(c1, s, e).gis[|s.gis|], Step(c2, t, e).gis[|t.gis|]);
  }

  lemma AlikeStep(c1: Config, c2: Config, s: State, t: State, e: Event)
    requires c1.defaultCa == c2.defaultCa && Alike(s, t) && Enabled(s, e)
    ensures Enabled(t, e) && Alike(Step(c1, s, e), Step(c2, t, e))
  {
    if e.GiReplay? { AlikeReplay(c1, c2, s, t, e); }
  }

  /**
   * Every schedule of one configuration is a schedule of the other, since output never holds up the input; both
   * handle the same messages and replay the same snapshots in the same order at the same clock readings.
   */
  lemma {:induction false} SameSchedules(c1: Config, c2: Config, es: seq<Event>)
    requires c1.defaultCa == c2.defaultCa && Runs(c1, INITIAL, es)
    ensures Runs(c2, INITIAL, es) && Alike(Run(c1, INITIAL, es), Run(c2, INITIAL, es))
  {
    if es != [] {
      var before, e := es[..|es| - 1], es[|es| - 1];
      SameSchedules(c1, c2, before);
      AlikeStep(c1, c2, Run(c1, INITIAL, before), Run(c2, INITIAL, before), e);
    }
  }

  /** The replies of a run, one per interrogation answered. */
  ghost function RepliesOf(c: Config, es: seq<Event>): (all: seq<seq<Reply>>)
    requires Runs(c, INITIAL, es)
    ensures |all| == Run(c, INITIAL, es).giResponses
  {
    InvInitially(c);
    InvAlways(c, INITIAL, es);
    var gis := Run(c, INITIAL, es).gis;
    seq(|gis|, i requires 0 <= i < |gis| => ReplyIn(c, es, gis[i]))
  }

  ghost function ReplyIn(c: Config, es: seq<Event>, g: GiRecord): seq<Reply>
    requires Runs(c, INITIAL, es) && g in Run(c, INITIAL, es).gis
  {
    ReplyIsDefined(c, es, g);
    ReplyOf(c, g)
  }

  /** GI-only on or off, the same schedule answers every interrogation the same. */
  lemma EveryReplyIgnoresGiOnly(c1: Config, c2: Config, es: seq<Event>)
    requires c2 == c1.(giOnly := c2.giOnly) && Runs(c1, INITIAL, es)
    ensures Runs(c2, INITIAL, es)
    ensures RepliesOf(c1, es) == RepliesOf(c2, es)
  {
    SameSchedules(c1, c2, es);
    var gs, hs := Run(c1, INITIAL, es).gis, Run(c2, INITIAL, es).gis;
    forall i | 0 <= i < |gs| ensures ReplyIn(c1, es, gs[i]) == ReplyIn(c2, es, hs[i]) {
      assert SameReplay(gs[i], hs[i]);
      ReplyIsDefined(c1, es, gs[i]);
      SameReplySent(c1, c2, gs[i], hs[i]);
    }
  }

  lemma SameReplySent(c1: Config, c2: Config, g: GiRecord, h: GiRecord)
    requires c2 == c1.(giOnly := c2.giOnly) && SameReplay(g, h) && |g.order| == |g.outcomes|
    requires forall i | 0 <= i < |Select(g.order, g.outcomes)| :: Select(g.order, g.outcomes)[i] in g.snapshot
    ensures ReplyOf(c1, g) == ReplyOf(c2, h)
  {
  }

  // ---- acknowledgements ----

  /** Delivery `d` was settled once, after all that is owed to it; a rejected one is not in the cache's history. */
  ghost predicate SettledProperly(c: Config, s: State, d: nat)
    requires d < |s.acks|
  {
    var a := s.acks[d];
    && a.delivery == d && (forall i | 0 <= i < |s.acks| && i != d :: s.acks[i].delivery != d)
    && a.handledBefore <= |s.handled| && a.enqueuedBefore <= |s.spontaneous|
    && (a.accepted ==>
          && a.handledBefore > 0 && s.handled[a.handledBefore - 1].delivery == d
          && (!c.giOnly ==>
                && a.enqueuedBefore == a.handledBefore
                && s.spontaneous[a.handledBefore - 1].asdu == SpontaneousAsdu(c, s.handled[a.handledBefore - 1])))
    && (!a.accepted ==> forall i | 0 <= i < |s.handled| :: s.handled[i].delivery != d)
  }

  lemma AckFacts(c: Config, s: State, d: nat)
    requires AckInv(c, s) && SendInv(c, s) && d < |s.acks|
    ensures SettledProperly(c, s, d)
  {
    assert AckOk(c, s, s.acks[d]);
  }

  lemma AckDiscipline(c: Config, es: seq<Event>, d: nat)
    requires Runs(c, INITIAL, es)
    requires d < |Run(c, INITIAL, es).acks|
    ensures SettledProperly(c, Run(c, INITIAL, es), d)
  {
    InvInitially(c);
    InvAlways(c, INITIAL, es);
    AckFacts(c, Run(c, INITIAL, es), d);
  }

  /** Every delivery polled so far has been acknowledged once, but for the one in flight. */
  lemma EveryDeliveryIsSettled(c: Config, es: seq<Event>)
    requires Runs(c, INITIAL, es)
    ensures var s := Run(c, INITIAL, es);
            |s.acks| == s.deliveries - if s.phase.Inserted? || s.phase.Dispatched? then 1 else 0
  {
    InvInitially(c);
    InvAlways(c, INITIAL, es);
  }

  /** The dispatch metric is the number of dispatched messages whose acknowledgement went through. */
  lemma MetricCountsAcknowledged(c: Config, es: seq<Event>)
    requires Runs(c, INITIAL, es) && !Run(c, INITIAL, es).phase.Acked?
    ensures Run(c, INITIAL, es).messagesDispatched == CountOk(Run(c, INITIAL, es).acks)
  {
    InvInitially(c);
    InvAlways(c, INITIAL, es);
  }

  // ---- staleness across replies ----

  function WireQuality(c: Config, g: GiRecord, k: Key): byte
    requires k in g.snapshot
  {
    ReplyFor(c, g, k).io.quality
  }

  /** Between two arrivals for a key, a clock that does not go back never clears NT from one reply to the next. */
  lemma NtStaysSet(c: Config, es: seq<Event>, i: nat, j: nat, k: Key)
    requires Runs(c, INITIAL, es)
    requires var s := Run(c, INITIAL, es);
             && i < j < |s.gis| && s.gis[i].now <= s.gis[j].now
             && s.gis[i].handledBefore <= |s.handled| && s.gis[j].handledBefore <= |s.handled|
             && LastIndex(c, s.handled, s.gis[i].handledBefore, k) == LastIndex(c, s.handled, s.gis[j].handledBefore, k)
             && k in s.gis[i].snapshot
    ensures var s := Run(c, INITIAL, es);
            && k in s.gis[j].snapshot
            && (HasNt(WireQuality(c, s.gis[i], k)) ==> HasNt(WireQuality(c, s.gis[j], k)))
            && (s.gis[j].snapshot[k].message.quality == Invalid ==> WireQuality(c, s.gis[j], k) == 0x80)
  {
    InvInitially(c);
    InvAlways(c, INITIAL, es);
    NtBetween(c, Run(c, INITIAL, es), Run(c, INITIAL, es).gis[i], Run(c, INITIAL, es).gis[j], k);
  }

  lemma NtBetween(c: Config, s: State, g: GiRecord, h: GiRecord, k: Key)
    requires GiRecordOk(c, s, g) && GiRecordOk(c, s, h) && g.now <= h.now && k in g.snapshot
    requires LastIndex(c, s.handled, g.handledBefore, k) == LastIndex(c, s.handled, h.handledBefore, k)
    ensures k in h.snapshot
    ensures HasNt(WireQuality(c, g, k)) ==> HasNt(WireQuality(c, h, k))
    ensures h.snapshot[k].message.quality == Invalid ==> WireQuality(c, h, k) == 0x80
  {
    FoldIsLastWrite(c, s.handled, g.handledBefore, k);
    FoldIsLastWrite(c, s.handled, h.handledBefore, k);
    var point := g.snapshot[k];
    ReplayFields(Replay(c.p, c.defaultCa, c.policy, g.now), point);
    ReplayFields(Replay(c.p, c.defaultCa, c.policy, h.now), point);
    if PrepareForOutput(point.message, point.receivedAt, g.now, c.policy).notTopical {
      NtNeverClears(point.message, point.receivedAt, g.now, h.now, c.policy);
    }
  }
}
