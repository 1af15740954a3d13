/**
 The Unix-socket side of src/source.rs: client tasks that share one bounded channel and one consumer.
 Error replies are written by the reading task at once, `ok` by the consumer when the message is handled.
 */
module UnixClients {
  import opened Messages
  import opened Validation

  const UNIX_SOCKET_BACKLOG: nat := 64

  // ---- one line ----

  /** A line as read: its length, and what is left of it after the line end is trimmed. */
  datatype Content = Blank | NotJson | Json(msg: Message)

  datatype Line = Line(bytes: nat, content: Content)

  datatype Reply = Ok | ErrorParse | ErrorValidation | ErrorUnauthorized

  /** `process_unix_socket_line`: an error to reply at once, or a message to forward. */
  datatype LineOutcome = Reject(reply: Reply) | Forward(msg: Message)

  function ProcessLine(line: Line, maxBytes: nat): LineOutcome {
    if line.bytes > maxBytes then Reject(ErrorValidation)
    else match line.content
      case Blank => Reject(ErrorParse)
      case NotJson => Reject(ErrorParse)
      case Json(msg) => if Valid(msg) then Forward(msg) else Reject(ErrorValidation)
  }

  /** A line within the limit that holds a message the bridge takes. */
  predicate Acceptable(line: Line, maxBytes: nat) {
    line.bytes <= maxBytes && line.content.Json? && Valid(line.content.msg)
  }

  /** The reply a line deserves. */
  function Classify(line: Line, maxBytes: nat): Reply {
    if Acceptable(line, maxBytes) then Ok
    else if line.bytes <= maxBytes && !line.content.Json? then ErrorParse
    else ErrorValidation
  }

  /** Each outcome of a line, told by the line alone. */
  lemma OutcomeIff(line: Line, maxBytes: nat)
    ensures ProcessLine(line, maxBytes).Forward?
       <==> line.bytes <= maxBytes && line.content.Json? && Valid(line.content.msg)
    ensures ProcessLine(line, maxBytes).Forward? ==> ProcessLine(line, maxBytes).msg == line.content.msg
    ensures ProcessLine(line, maxBytes) == Reject(ErrorParse)
       <==> line.bytes <= maxBytes && (line.content.Blank? || line.content.NotJson?)
    ensures ProcessLine(line, maxBytes) == Reject(ErrorValidation)
       <==> line.bytes > maxBytes || (line.content.Json? && !Valid(line.content.msg))
    ensures ProcessLine(line, maxBytes) == if Acceptable(line, maxBytes) then Forward(line.content.msg)
                                           else Reject(Classify(line, maxBytes))
  {
  }

  // ---- the system ----

  /** A reply and the number of the line it answers. */
  datatype Answer = Answer(reply: Reply, line: nat)

  /** What the client's reading task is doing. */
  datatype Task = Reading | Sending(line: nat) | Ended

  /**
   `acknowledged` are the lines whose `ok` was attempted, `rejected` those whose error was; `dropped` those
   lost when the receiver went away. `overtook` remembers that an error was answered while an earlier
   valid line was still waiting for its `ok`.
   */
  datatype Client = Client(
    authorized: bool, task: Task, lines: seq<Line>, replies: seq<Answer>,
    acknowledged: seq<nat>, rejected: seq<nat>, dropped: seq<nat>,
    okFailed: nat, errorFailed: nat, overtook: bool)

  datatype Item = Request(client: nat, line: nat) | AcceptFailed

  datatype System = System(clients: map<nat, Client>, channel: seq<Item>, hand: Option<Item>, open: bool)

  datatype Event =
    | Connect(client: nat, authorized: bool, writeOk: bool)
    | ReadLine(client: nat, line: Line, writeOk: bool)
    | Enqueue(client: nat)
    | SendFails(client: nat)
    | HangUp(client: nat)
    | AcceptError
    | Receive
    | Acknowledge(writeOk: bool)
    | Shutdown

  const INITIAL := System(map[], [], None, true)

  function Lines(items: seq<Item>, client: nat): seq<nat> {
    if items == [] then []
    else Own(items[0], client) + Lines(items[1..], client)
  }

  function Own(item: Item, client: nat): seq<nat> {
    if item.Request? && item.client == client then [item.line] else []
  }

  function InHand(s: System, client: nat): seq<nat> {
    if s.hand.Some? then Own(s.hand.value, client) else []
  }

  function InTask(c: Client): seq<nat> {
    if c.task.Sending? then [c.task.line] else []
  }

  /** Lines read and valid but not yet answered, oldest first. */
  function Pending(s: System, client: nat): seq<nat>
    requires client in s.clients
  {
    InHand(s, client) + Lines(s.channel, client) + InTask(s.clients[client])
  }

  ghost predicate Enabled(s: System, e: Event) {
    match e
    case Connect(i, _, _) => i !in s.clients
    case ReadLine(i, _, _) => i in s.clients && s.clients[i].task.Reading?
    case Enqueue(i) => i in s.clients && s.clients[i].task.Sending? && s.open && |s.channel| < UNIX_SOCKET_BACKLOG
    case SendFails(i) => i in s.clients && s.clients[i].task.Sending? && !s.open
    case HangUp(i) => i in s.clients && s.clients[i].task.Reading?
    case AcceptError => s.open && |s.channel| < UNIX_SOCKET_BACKLOG
    case Receive => s.open && s.hand.None? && s.channel != []
    case Acknowledge(_) => s.hand.Some? && s.hand.value.Request? && s.hand.value.client in s.clients
    case Shutdown => s.open && s.hand.None?
  }

  const NEWCOMER := Client(true, Reading, [], [], [], [], [], 0, 0, false)

  /** A refused peer gets one reply and is never read from. */
  function Admit(authorized: bool, writeOk: bool): Client {
    if authorized then NEWCOMER
    else NEWCOMER.(authorized := false, task := Ended, replies := if writeOk then [Answer(ErrorUnauthorized, 0)] else [])
  }

  function AfterLine(c: Client, line: Line, maxBytes: nat, waiting: bool, writeOk: bool): Client {
    var n := |c.lines|;
    var read := c.(lines := c.lines + [line]);
    match ProcessLine(line, maxBytes)
    case Forward(_) => read.(task := Sending(n))
    case Reject(reply) =>
      var answered := read.(rejected := c.rejected + [n], overtook := c.overtook || waiting);
      if writeOk then answered.(replies := c.replies + [Answer(reply, n)])
      else answered.(errorFailed := c.errorFailed + 1, task := Ended)
  }

  function AfterAck(c: Client, line: nat, writeOk: bool): Client {
    var acked := c.(acknowledged := c.acknowledged + [line]);
    if writeOk then acked.(replies := c.replies + [Answer(Ok, line)])
    else acked.(okFailed := c.okFailed + 1)
  }

  function Update(s: System, i: nat, c: Client): System {
    s.(clients := s.clients[i := c])
  }

  function Step(maxBytes: nat, s: System, e: Event): System
    requires Enabled(s, e)
  {
    match e
    case Connect(i, authorized, writeOk) => Update(s, i, Admit(authorized, writeOk))
    case ReadLine(i, line, writeOk) =>
      Update(s, i, AfterLine(s.clients[i], line, maxBytes, Pending(s, i) != [], writeOk))
    case Enqueue(i) =>
      var c := s.clients[i];
      Update(s, i, c.(task := Reading)).(channel := s.channel + [Request(i, c.task.line)])
    case SendFails(i) =>
      var c := s.clients[i];
      Update(s, i, c.(task := Ended, dropped := c.dropped + [c.task.line]))
    case HangUp(i) => Update(s, i, s.clients[i].(task := Ended))
    case AcceptError => s.(channel := s.channel + [AcceptFailed])
    case Receive =>
      s.(channel := s.channel[1..], hand := if s.channel[0].AcceptFailed? then None else Some(s.channel[0]))
    case Acknowledge(writeOk) =>
      var i := s.hand.value.client;
      Update(s, i, AfterAck(s.clients[i], s.hand.value.line, writeOk)).(hand := None)
    case Shutdown =>
      s.(open := false, channel := [],
         clients := map i | i in s.clients ::
           s.clients[i].(dropped := s.clients[i].dropped + Lines(s.channel, i)))
  }

  // ---- conservation and order of the acknowledgements ----

  /** The numbers of the lines that were (or were not) forwarded. */
  function Sorted(lines: seq<Line>, maxBytes: nat, forwarded: bool): seq<nat> {
    if lines == [] then []
    else
      var n := |lines| - 1;
      Sorted(lines[..n], maxBytes, forwarded)
      + if Acceptable(lines[n], maxBytes) == forwarded then [n] else []
  }

  /** Every valid line of a client is in exactly one place, and the places keep the order of the lines. */
  ghost predicate Conserved(maxBytes: nat, s: System, i: nat)
    requires i in s.clients
  {
    var c := s.clients[i];
    && c.acknowledged + InHand(s, i) + Lines(s.channel, i) + c.dropped + InTask(c) == Sorted(c.lines, maxBytes, true)
    && c.rejected == Sorted(c.lines, maxBytes, false)
    && (s.open ==> c.dropped == [])
  }

  ghost predicate ChannelInv(s: System) {
    && |s.channel| <= UNIX_SOCKET_BACKLOG
    && (forall k | 0 <= k < |s.channel| && s.channel[k].Request? :: s.channel[k].client in s.clients)
    && (s.hand.Some? ==> s.hand.value.Request? && s.hand.value.client in s.clients)
    && (!s.open ==> s.channel == [])
  }

  lemma LinesSnoc(items: seq<Item>, item: Item, i: nat)
    ensures Lines(items + [item], i) == Lines(items, i) + Own(item, i)
  {
    if items == [] {
      assert [item][1..] == [];
    } else {
      LinesSnoc(items[1..], item, i);
      assert (items + [item])[1..] == items[1..] + [item];
    }
  }

  lemma SortedSnoc(lines: seq<Line>, line: Line, maxBytes: nat, forwarded: bool)
    ensures Sorted(lines + [line], maxBytes, forwarded)
         == Sorted(lines, maxBytes, forwarded) + if Acceptable(line, maxBytes) == forwarded then [|lines|] else []
  {
    assert (lines + [line])[..|lines|] == lines;
  }

  lemma {:induction false} NotInChannel(items: seq<Item>, i: nat)
    requires forall k | 0 <= k < |items| && items[k].Request? :: items[k].client != i
    ensures Lines(items, i) == []
  {
    if items != [] {
      NotInChannel(items[1..], i);
    }
  }

  lemma ChannelStep(maxBytes: nat, s: System, e: Event)
    requires ChannelInv(s) && Enabled(s, e)
    ensures ChannelInv(Step(maxBytes, s, e))
  {
  }

  lemma NewClientConserved(maxBytes: nat, s: System, i: nat, authorized: bool, writeOk: bool)
    requires ChannelInv(s) && i !in s.clients
    ensures Conserved(maxBytes, Step(maxBytes, s, Connect(i, authorized, writeOk)), i)
  {
    NotInChannel(s.channel, i);
    var c := Admit(authorized, writeOk);
    assert InHand(s, i) == [] && InTask(c) == [] && c.lines == [];
  }

  lemma ReadConserves(maxBytes: nat, s: System, i: nat, line: Line, writeOk: bool)
    requires i in s.clients && Conserved(maxBytes, s, i) && s.clients[i].task.Reading?
    ensures Conserved(maxBytes, Step(maxBytes, s, ReadLine(i, line, writeOk)), i)
  {
    var c := s.clients[i];
    SortedSnoc(c.lines, line, maxBytes, true);
    SortedSnoc(c.lines, line, maxBytes, false);
    var t := Step(maxBytes, s, ReadLine(i, line, writeOk));
    assert InHand(t, i) == InHand(s, i) && InTask(c) == [];
  }

  lemma EnqueueConserves(maxBytes: nat, s: System, i: nat)
    requires i in s.clients && Conserved(maxBytes, s, i) && Enabled(s, Enqueue(i))
    ensures Conserved(maxBytes, Step(maxBytes, s, Enqueue(i)), i)
  {
    var n := s.clients[i].task.line;
    LinesSnoc(s.channel, Request(i, n), i);
    var t := Step(maxBytes, s, Enqueue(i));
    assert InHand(t, i) == InHand(s, i) && InTask(t.clients[i]) == [];
    Shifts(s.clients[i].acknowledged, InHand(s, i), Lines(s.channel, i), n);
  }

  lemma ReceiveMovesLines(s: System, i: nat)
    requires Enabled(s, Receive)
    ensures var t := Step(0, s, Receive);
            InHand(s, i) + Lines(s.channel, i) == InHand(t, i) + Lines(t.channel, i)
  {
    assert Own(AcceptFailed, i) == [];
  }

  lemma Moves(a: seq<nat>, h: seq<nat>, ch: seq<nat>, h': seq<nat>, ch': seq<nat>, d: seq<nat>, t: seq<nat>)
    requires h + ch == h' + ch'
    ensures a + h + ch + d + t == a + h' + ch' + d + t
  {
    assert a + h + ch == a + (h + ch) && a + h' + ch' == a + (h' + ch');
  }

  lemma Shifts(a: seq<nat>, h: seq<nat>, ch: seq<nat>, n: nat)
    ensures a + h + ch + [] + [n] == a + h + (ch + [n]) + [] + []
  {
  }

  lemma ReceiveConserves(maxBytes: nat, s: System, i: nat)
    requires i in s.clients && Conserved(maxBytes, s, i) && Enabled(s, Receive)
    ensures Conserved(maxBytes, Step(maxBytes, s, Receive), i)
  {
    ReceiveMovesLines(s, i);
    var t := Step(maxBytes, s, Receive);
    var c := s.clients[i];
    Moves(c.acknowledged, InHand(s, i), Lines(s.channel, i), InHand(t, i), Lines(t.channel, i), c.dropped, InTask(c));
  }

  lemma AcknowledgeConserves(maxBytes: nat, s: System, i: nat, writeOk: bool)
    requires i in s.clients && Conserved(maxBytes, s, i) && Enabled(s, Acknowledge(writeOk))
    ensures Conserved(maxBytes, Step(maxBytes, s, Acknowledge(writeOk)), i)
  {
    var t := Step(maxBytes, s, Acknowledge(writeOk));
    var c, d := s.clients[i], t.clients[i];
    assert c.acknowledged + InHand(s, i) == d.acknowledged + InHand(t, i);
  }

  lemma ShutdownConserves(maxBytes: nat, s: System, i: nat)
    requires i in s.clients && Conserved(maxBytes, s, i) && Enabled(s, Shutdown)
    ensures Conserved(maxBytes, Step(maxBytes, s, Shutdown), i)
  {
    var t := Step(maxBytes, s, Shutdown);
    assert InHand(s, i) == InHand(t, i) == [] && Lines(t.channel, i) == [];
    assert t.clients[i].dropped == Lines(s.channel, i);
  }

  /** A step of somebody else. */
  lemma OthersConserve(maxBytes: nat, s: System, e: Event, i: nat)
    requires i in s.clients && Conserved(maxBytes, s, i) && Enabled(s, e)
    requires e.Connect? || e.AcceptError? || e.HangUp? || ((e.ReadLine? || e.Enqueue? || e.SendFails?) && e.client != i)
    ensures i in Step(maxBytes, s, e).clients && Conserved(maxBytes, Step(maxBytes, s, e), i)
  {
    var t := Step(maxBytes, s, e);
    if e.Enqueue? || e.AcceptError? {
      var item := t.channel[|s.channel|];
      LinesSnoc(s.channel, item, i);
    }
    assert InHand(t, i) == InHand(s, i) && Lines(t.channel, i) == Lines(s.channel, i);
    assert InTask(t.clients[i]) == InTask(s.clients[i]);
  }

  lemma SendFailsConserves(maxBytes: nat, s: System, i: nat)
    requires i in s.clients && Conserved(maxBytes, s, i) && Enabled(s, SendFails(i))
    ensures Conserved(maxBytes, Step(maxBytes, s, SendFails(i)), i)
  {
    var t := Step(maxBytes, s, SendFails(i));
    assert InHand(t, i) == InHand(s, i) && InTask(t.clients[i]) == [];
  }

  lemma ConservedStep(maxBytes: nat, s: System, e: Event, i: nat)
    requires ChannelInv(s) && Enabled(s, e) && i in s.clients && Conserved(maxBytes, s, i)
    ensures i in Step(maxBytes, s, e).clients && Conserved(maxBytes, Step(maxBytes, s, e), i)
  {
    match e
    case ReadLine(j, line, ok) => if i == j { ReadConserves(maxBytes, s, i, line, ok); } else { OthersConserve(maxBytes, s, e, i); }
    case Enqueue(j) => if i == j { EnqueueConserves(maxBytes, s, i); } else { OthersConserve(maxBytes, s, e, i); }
    case SendFails(j) => if i == j { SendFailsConserves(maxBytes, s, i); } else { OthersConserve(maxBytes, s, e, i); }
    case Receive => ReceiveConserves(maxBytes, s, i);
    case Acknowledge(ok) => AcknowledgeConserves(maxBytes, s, i, ok);
    case Shutdown => ShutdownConserves(maxBytes, s, i);
    case Connect(_, _, _) => OthersConserve(maxBytes, s, e, i);
    case HangUp(_) => OthersConserve(maxBytes, s, e, i);
    case AcceptError => OthersConserve(maxBytes, s, e, i);
  }

  // ---- the replies ----

  /** The lines answered with `ok`, or with an error, in the order the replies were written. */
  function Answered(replies: seq<Answer>, ok: bool): seq<nat> {
    if replies == [] then []
    else
      var last := replies[|replies| - 1];
      Answered(replies[..|replies| - 1], ok) + if (last.reply == Ok) == ok then [last.line] else []
  }

  lemma AnsweredSnoc(replies: seq<Answer>, a: Answer, ok: bool)
    ensures Answered(replies + [a], ok) == Answered(replies, ok) + if (a.reply == Ok) == ok then [a.line] else []
  {
    assert (replies + [a])[..|replies|] == replies;
  }

  /** An answer says what its line deserves. */
  predicate Deserved(maxBytes: nat, lines: seq<Line>, a: Answer) {
    a.line < |lines| && a.reply == Classify(lines[a.line], maxBytes)
  }

  ghost predicate Honest(maxBytes: nat, c: Client) {
    && (c.authorized ==> forall k | 0 <= k < |c.replies| :: Deserved(maxBytes, c.lines, c.replies[k]))
    && (!c.authorized ==> c.lines == [] && c.task.Ended? && c.replies <= [Answer(ErrorUnauthorized, 0)])
  }

  /** Written and failed replies account for every settled line; without failures, line by line. */
  ghost predicate Counted(c: Client) {
    c.authorized ==>
      && |Answered(c.replies, true)| + c.okFailed == |c.acknowledged|
      && |Answered(c.replies, false)| + c.errorFailed == |c.rejected|
      && (c.okFailed == 0 ==> Answered(c.replies, true) == c.acknowledged)
      && (c.errorFailed == 0 ==> Answered(c.replies, false) == c.rejected)
  }

  lemma {:induction false} SortedMember(lines: seq<Line>, maxBytes: nat, forwarded: bool, k: nat)
    requires k < |Sorted(lines, maxBytes, forwarded)|
    ensures var n := Sorted(lines, maxBytes, forwarded)[k];
            n < |lines| && Acceptable(lines[n], maxBytes) == forwarded
  {
    var n := |lines| - 1;
    if k < |Sorted(lines[..n], maxBytes, forwarded)| {
      SortedMember(lines[..n], maxBytes, forwarded, k);
    }
  }

  /** The line the consumer holds is one the client sent, and a valid one. */
  lemma HeldLineIsValid(maxBytes: nat, s: System, i: nat)
    requires i in s.clients && Conserved(maxBytes, s, i) && InHand(s, i) != []
    ensures Deserved(maxBytes, s.clients[i].lines, Answer(Ok, s.hand.value.line))
  {
    var c := s.clients[i];
    SortedMember(c.lines, maxBytes, true, |c.acknowledged|);
    var rest := Lines(s.channel, i) + c.dropped + InTask(c);
    assert c.acknowledged + InHand(s, i) + Lines(s.channel, i) + c.dropped + InTask(c) == c.acknowledged + InHand(s, i) + rest;
  }

  lemma DeservedGrows(maxBytes: nat, lines: seq<Line>, line: Line, a: Answer)
    requires Deserved(maxBytes, lines, a)
    ensures Deserved(maxBytes, lines + [line], a)
  {
  }

  lemma LineHonest(maxBytes: nat, c: Client, line: Line, waiting: bool, writeOk: bool)
    requires Honest(maxBytes, c) && c.task.Reading?
    ensures Honest(maxBytes, AfterLine(c, line, maxBytes, waiting, writeOk))
  {
    var d := AfterLine(c, line, maxBytes, waiting, writeOk);
    forall k | 0 <= k < |d.replies| ensures Deserved(maxBytes, d.lines, d.replies[k]) {
      if k < |c.replies| { DeservedGrows(maxBytes, c.lines, line, c.replies[k]); }
    }
  }

  lemma LineCounted(maxBytes: nat, c: Client, line: Line, waiting: bool, writeOk: bool)
    requires Counted(c)
    ensures Counted(AfterLine(c, line, maxBytes, waiting, writeOk))
  {
    var d := AfterLine(c, line, maxBytes, waiting, writeOk);
    if |d.replies| > |c.replies| {
      AnsweredSnoc(c.replies, d.replies[|c.replies|], true);
      AnsweredSnoc(c.replies, d.replies[|c.replies|], false);
    }
  }

  lemma AckHonest(maxBytes: nat, c: Client, line: nat, writeOk: bool)
    requires Honest(maxBytes, c) && Deserved(maxBytes, c.lines, Answer(Ok, line))
    ensures Honest(maxBytes, AfterAck(c, line, writeOk))
  {
    var d := AfterAck(c, line, writeOk);
    forall k | 0 <= k < |d.replies| ensures Deserved(maxBytes, d.lines, d.replies[k]) {
      assert k < |c.replies| ==> d.replies[k] == c.replies[k];
    }
  }

  lemma AckCounted(c: Client, line: nat, writeOk: bool)
    requires Counted(c)
    ensures Counted(AfterAck(c, line, writeOk))
  {
    AnsweredSnoc(c.replies, Answer(Ok, line), true);
    AnsweredSnoc(c.replies, Answer(Ok, line), false);
  }

  /** What a step of another kind may change of a client. */
  lemma BystanderStep(maxBytes: nat, s: System, e: Event, i: nat)
    requires Enabled(s, e) && i in s.clients && Honest(maxBytes, s.clients[i])
    requires !(e.ReadLine? && e.client == i) && !(e.Acknowledge? && s.hand.value.client == i)
    ensures i in Step(maxBytes, s, e).clients
    ensures var c, d := s.clients[i], Step(maxBytes, s, e).clients[i];
            d == c.(task := d.task, dropped := d.dropped) && (c.task.Ended? ==> d.task.Ended?)
  {
  }

  lemma SameReplies(maxBytes: nat, c: Client, task: Task, dropped: seq<nat>)
    requires Honest(maxBytes, c) && Counted(c) && (c.task.Ended? ==> task.Ended?)
    ensures Honest(maxBytes, c.(task := task, dropped := dropped)) && Counted(c.(task := task, dropped := dropped))
  {
  }

  lemma HonestStep(maxBytes: nat, s: System, e: Event, i: nat)
    requires Enabled(s, e) && i in s.clients && Conserved(maxBytes, s, i)
    requires Honest(maxBytes, s.clients[i]) && Counted(s.clients[i])
    ensures i in Step(maxBytes, s, e).clients
    ensures Honest(maxBytes, Step(maxBytes, s, e).clients[i]) && Counted(Step(maxBytes, s, e).clients[i])
  {
    var c := s.clients[i];
    if e.ReadLine? && e.client == i {
      LineHonest(maxBytes, c, e.line, Pending(s, i) != [], e.writeOk);
      LineCounted(maxBytes, c, e.line, Pending(s, i) != [], e.writeOk);
    } else if e.Acknowledge? && s.hand.value.client == i {
      HeldLineIsValid(maxBytes, s, i);
      AckHonest(maxBytes, c, s.hand.value.line, e.writeOk);
      AckCounted(c, s.hand.value.line, e.writeOk);
    } else {
      BystanderStep(maxBytes, s, e, i);
      var d := Step(maxBytes, s, e).clients[i];
      SameReplies(maxBytes, c, d.task, d.dropped);
    }
  }

  // ---- reply order ----

  /** Reply k answers line k. */
  predicate InOrder(replies: seq<Answer>) {
    forall k | 0 <= k < |replies| :: replies[k].line == k
  }

  predicate Ranged(lines: seq<nat>, from: nat, to: nat) {
    from + |lines| == to && forall k | 0 <= k < |lines| :: lines[k] == from + k
  }

  /** Nothing of the client was lost: no write failed and the receiver did not go away with its messages. */
  predicate Intact(c: Client) {
    c.authorized && c.okFailed == 0 && c.errorFailed == 0 && c.dropped == []
  }

  /** Replies are in request order exactly as long as no error overtook a waiting `ok`. */
  ghost predicate Ordered(c: Client, pending: seq<nat>) {
    Intact(c) ==>
      && (!c.overtook ==> InOrder(c.replies) && Ranged(pending, |c.replies|, |c.lines|))
      && (c.overtook ==> !InOrder(c.replies))
  }

  lemma OrderedLine(maxBytes: nat, c: Client, pending: seq<nat>, line: Line, writeOk: bool)
    requires Ordered(c, pending)
    ensures var d := AfterLine(c, line, maxBytes, pending != [], writeOk);
            Ordered(d, pending + if d.task.Sending? && Acceptable(line, maxBytes) then [|c.lines|] else [])
  {
    var d := AfterLine(c, line, maxBytes, pending != [], writeOk);
    if Intact(d) && d.overtook {
      if c.overtook {
        var k :| 0 <= k < |c.replies| && c.replies[k].line != k;
        assert d.replies[k].line != k;
      } else {
        assert d.replies[|c.replies|].line == |c.lines| != |c.replies|;
      }
    }
  }

  lemma OrderedAck(c: Client, line: nat, rest: seq<nat>, writeOk: bool)
    requires Ordered(c, [line] + rest)
    ensures Ordered(AfterAck(c, line, writeOk), rest)
  {
    var d := AfterAck(c, line, writeOk);
    if Intact(d) {
      if c.overtook {
        var k :| 0 <= k < |c.replies| && c.replies[k].line != k;
        assert d.replies[k].line != k;
      } else {
        var pending := [line] + rest;
        assert pending[0] == line;
        assert forall k | 0 <= k < |rest| :: rest[k] == pending[k + 1];
      }
    }
  }

  lemma PendingRead(maxBytes: nat, s: System, i: nat, line: Line, writeOk: bool)
    requires i in s.clients && s.clients[i].task.Reading?
    ensures var t := Step(maxBytes, s, ReadLine(i, line, writeOk));
            Pending(t, i) == Pending(s, i)
              + if t.clients[i].task.Sending? && Acceptable(line, maxBytes) then [|s.clients[i].lines|] else []
  {
    var t := Step(maxBytes, s, ReadLine(i, line, writeOk));
    assert InHand(t, i) == InHand(s, i) && InTask(s.clients[i]) == [];
  }

  lemma PendingEnqueue(maxBytes: nat, s: System, j: nat, i: nat)
    requires i in s.clients && Enabled(s, Enqueue(j))
    ensures Pending(Step(maxBytes, s, Enqueue(j)), i) == Pending(s, i)
  {
    var t := Step(maxBytes, s, Enqueue(j));
    LinesSnoc(s.channel, Request(j, s.clients[j].task.line), i);
    assert InHand(t, i) == InHand(s, i);
  }

  lemma PendingAcknowledge(maxBytes: nat, s: System, i: nat, writeOk: bool)
    requires i in s.clients && Enabled(s, Acknowledge(writeOk))
    ensures var t := Step(maxBytes, s, Acknowledge(writeOk));
            Pending(s, i) == Own(s.hand.value, i) + Pending(t, i)
  {
    var t := Step(maxBytes, s, Acknowledge(writeOk));
    assert InHand(t, i) == [] && InTask(t.clients[i]) == InTask(s.clients[i]);
  }

  /** Steps that move nothing of client `i` but along the way to its `ok`. */
  lemma PendingStays(maxBytes: nat, s: System, e: Event, i: nat)
    requires i in s.clients && Enabled(s, e)
    requires match e
             case ReadLine(j, _, _) => j != i
             case SendFails(j) => j != i
             case Shutdown => false
             case Acknowledge(_) => false
             case _ => true
    ensures i in Step(maxBytes, s, e).clients && Pending(Step(maxBytes, s, e), i) == Pending(s, i)
  {
    var t := Step(maxBytes, s, e);
    match e
    case Enqueue(j) => PendingEnqueue(maxBytes, s, j, i);
    case AcceptError => LinesSnoc(s.channel, AcceptFailed, i);
    case Receive => ReceiveMovesLines(s, i); assert InHand(t, i) == InHand(Step(0, s, Receive), i);
    case ReadLine(_, _, _) => assert InHand(t, i) == InHand(s, i);
    case SendFails(_) => assert InHand(t, i) == InHand(s, i);
    case Connect(_, _, _) => assert InHand(t, i) == InHand(s, i);
    case HangUp(_) => assert InHand(t, i) == InHand(s, i);
  }

  ghost predicate OrderedIn(s: System, i: nat)
    requires i in s.clients
  {
    Ordered(s.clients[i], Pending(s, i))
  }

  lemma OrderedShutdown(maxBytes: nat, s: System, i: nat)
    requires i in s.clients && OrderedIn(s, i) && Enabled(s, Shutdown)
    ensures OrderedIn(Step(maxBytes, s, Shutdown), i)
  {
    var t := Step(maxBytes, s, Shutdown);
    var c, d := s.clients[i], t.clients[i];
    assert d.dropped == c.dropped + Lines(s.channel, i);
    if Intact(d) {
      assert Lines(s.channel, i) == [] && InHand(t, i) == InHand(s, i) == [];
      assert Pending(t, i) == Pending(s, i);
    }
  }

  lemma OrderedRead(maxBytes: nat, s: System, i: nat, line: Line, ok: bool)
    requires i in s.clients && OrderedIn(s, i) && Enabled(s, ReadLine(i, line, ok))
    ensures OrderedIn(Step(maxBytes, s, ReadLine(i, line, ok)), i)
  {
    PendingRead(maxBytes, s, i, line, ok);
    OrderedLine(maxBytes, s.clients[i], Pending(s, i), line, ok);
  }

  lemma OrderedAcknowledge(maxBytes: nat, s: System, i: nat, ok: bool)
    requires i in s.clients && OrderedIn(s, i) && Enabled(s, Acknowledge(ok))
    ensures OrderedIn(Step(maxBytes, s, Acknowledge(ok)), i)
  {
    PendingAcknowledge(maxBytes, s, i, ok);
    if s.hand.value.client == i {
      OrderedAck(s.clients[i], s.hand.value.line, Pending(Step(maxBytes, s, Acknowledge(ok)), i), ok);
    }
  }

  /** A lost line ends what is promised. */
  lemma OrderedSendFails(maxBytes: nat, s: System, i: nat)
    requires i in s.clients && Enabled(s, SendFails(i))
    ensures OrderedIn(Step(maxBytes, s, SendFails(i)), i)
  {
    assert Step(maxBytes, s, SendFails(i)).clients[i].dropped != [];
  }

  lemma OrderedStep(maxBytes: nat, s: System, e: Event, i: nat)
    requires Enabled(s, e) && i in s.clients && OrderedIn(s, i)
    ensures i in Step(maxBytes, s, e).clients && OrderedIn(Step(maxBytes, s, e), i)
  {
    match e
    case ReadLine(j, line, ok) => if i == j { OrderedRead(maxBytes, s, i, line, ok); } else { OrderedBystander(maxBytes, s, e, i); }
    case Acknowledge(ok) => OrderedAcknowledge(maxBytes, s, i, ok);
    case SendFails(j) => if i == j { OrderedSendFails(maxBytes, s, i); } else { OrderedBystander(maxBytes, s, e, i); }
    case Shutdown => OrderedShutdown(maxBytes, s, i);
    case Enqueue(_) => OrderedBystander(maxBytes, s, e, i);
    case Connect(_, _, _) => OrderedBystander(maxBytes, s, e, i);
    case HangUp(_) => OrderedBystander(maxBytes, s, e, i);
    case AcceptError => OrderedBystander(maxBytes, s, e, i);
    case Receive => OrderedBystander(maxBytes, s, e, i);
  }

  lemma OrderedBystander(maxBytes: nat, s: System, e: Event, i: nat)
    requires i in s.clients && Enabled(s, e) && OrderedIn(s, i)
    requires match e
             case ReadLine(j, _, _) => j != i
             case SendFails(j) => j != i
             case Shutdown => false
             case Acknowledge(_) => false
             case _ => true
    ensures i in Step(maxBytes, s, e).clients && OrderedIn(Step(maxBytes, s, e), i)
  {
    PendingStays(maxBytes, s, e, i);
    var c, d := s.clients[i], Step(maxBytes, s, e).clients[i];
    assert d == c.(task := d.task);
    SameOrder(c, d.task, Pending(s, i));
  }

  lemma SameOrder(c: Client, task: Task, pending: seq<nat>)
    requires Ordered(c, pending)
    ensures Ordered(c.(task := task), pending)
  {
  }

  // ---- every run ----

  ghost predicate ClientInv(maxBytes: nat, s: System, i: nat) {
    i in s.clients ==>
      Conserved(maxBytes, s, i) && Honest(maxBytes, s.clients[i]) && Counted(s.clients[i]) && OrderedIn(s, i)
  }

  ghost predicate Inv(maxBytes: nat, s: System) {
    ChannelInv(s) && forall i :: ClientInv(maxBytes, s, i)
  }

  lemma NewClientInv(maxBytes: nat, s: System, i: nat, authorized: bool, writeOk: bool)
    requires ChannelInv(s) && i !in s.clients
    ensures ClientInv(maxBytes, Step(maxBytes, s, Connect(i, authorized, writeOk)), i)
  {
    var t := Step(maxBytes, s, Connect(i, authorized, writeOk));
    NewClientConserved(maxBytes, s, i, authorized, writeOk);
    NotInChannel(s.channel, i);
    assert Pending(t, i) == [];
  }

  lemma ClientInvStep(maxBytes: nat, s: System, e: Event, i: nat)
    requires ChannelInv(s) && Enabled(s, e) && ClientInv(maxBytes, s, i)
    ensures ClientInv(maxBytes, Step(maxBytes, s, e), i)
  {
    if i in s.clients {
      ConservedStep(maxBytes, s, e, i);
      HonestStep(maxBytes, s, e, i);
      OrderedStep(maxBytes, s, e, i);
    } else if e.Connect? && e.client == i {
      NewClientInv(maxBytes, s, i, e.authorized, e.writeOk);
    }
  }

  lemma InvStep(maxBytes: nat, s: System, e: Event)
    requires Inv(maxBytes, s) && Enabled(s, e)
    ensures Inv(maxBytes, Step(maxBytes, s, e))
  {
    ChannelStep(maxBytes, s, e);
    forall i ensures ClientInv(maxBytes, Step(maxBytes, s, e), i) {
      ClientInvStep(maxBytes, s, e, i);
    }
  }

  /** The schedule `es` takes the system from `s` to `t`. */
  ghost predicate Reaches(maxBytes: nat, s: System, es: seq<Event>, t: System)
    decreases |es|
  {
    if es == [] then s == t
    else Enabled(s, es[0]) && Reaches(maxBytes, Step(maxBytes, s, es[0]), es[1..], t)
  }

  lemma {:induction false} InvAlways(maxBytes: nat, s: System, es: seq<Event>, t: System)
    requires Inv(maxBytes, s) && Reaches(maxBytes, s, es, t)
    ensures Inv(maxBytes, t)
    decreases |es|
  {
    if es != [] {
      InvStep(maxBytes, s, es[0]);
      InvAlways(maxBytes, Step(maxBytes, s, es[0]), es[1..], t);
    }
  }

  /**
   Conservation, over every schedule of every number of clients: the valid lines, in their order, are those
   acknowledged, then the one in the consumer's hand, those in the channel, those lost with the receiver and the
   one with the reading task; the rejected lines are those answered by an error; the channel is bounded; and
   every reply is the one its line deserves.
   */
  lemma NothingIsLost(maxBytes: nat, es: seq<Event>, t: System, i: nat)
    requires Reaches(maxBytes, INITIAL, es, t) && i in t.clients && t.clients[i].authorized
    ensures var c := t.clients[i];
            && c.acknowledged + InHand(t, i) + Lines(t.channel, i) + c.dropped + InTask(c) == Sorted(c.lines, maxBytes, true)
            && c.rejected == Sorted(c.lines, maxBytes, false)
            && |Answered(c.replies, true)| + c.okFailed == |c.acknowledged|
            && |Answered(c.replies, false)| + c.errorFailed == |c.rejected|
            && (c.okFailed == 0 ==> Answered(c.replies, true) == c.acknowledged)
            && (c.errorFailed == 0 ==> Answered(c.replies, false) == c.rejected)
            && (t.open ==> c.dropped == [])
            && |t.channel| <= 64
            && (forall k | 0 <= k < |c.replies| :: Deserved(maxBytes, c.lines, c.replies[k]))
  {
    InvAlways(maxBytes, INITIAL, es, t);
    assert ClientInv(maxBytes, t, i);
  }

  predicate AllAcceptable(lines: seq<Line>, maxBytes: nat, which: seq<nat>) {
    forall k | 0 <= k < |which| :: which[k] < |lines| && Acceptable(lines[which[k]], maxBytes)
  }

  lemma PartsAcceptable(lines: seq<Line>, maxBytes: nat, a: seq<nat>, h: seq<nat>, ch: seq<nat>, d: seq<nat>, t: seq<nat>)
    requires AllAcceptable(lines, maxBytes, a + h + ch + d + t)
    ensures AllAcceptable(lines, maxBytes, a) && AllAcceptable(lines, maxBytes, h)
    ensures AllAcceptable(lines, maxBytes, ch) && AllAcceptable(lines, maxBytes, t)
  {
    var all := a + h + ch + d + t;
    assert forall k | 0 <= k < |a| :: a[k] == all[k];
    assert forall k | 0 <= k < |h| :: h[k] == all[|a| + k];
    assert forall k | 0 <= k < |ch| :: ch[k] == all[|a| + |h| + k];
    assert forall k | 0 <= k < |t| :: t[k] == all[|a| + |h| + |ch| + |d| + k];
  }

  /**
   Whatever the schedule, whatever is acknowledged, in the consumer's hand, in the channel or about to be sent is a
   line of its client within the limit that holds a valid message; and so is every line answered `ok`.
   */
  lemma OnlyValidLinesPass(maxBytes: nat, es: seq<Event>, t: System, i: nat)
    requires Reaches(maxBytes, INITIAL, es, t) && i in t.clients && t.clients[i].authorized
    ensures var c := t.clients[i];
            && AllAcceptable(c.lines, maxBytes, c.acknowledged) && AllAcceptable(c.lines, maxBytes, InHand(t, i))
            && AllAcceptable(c.lines, maxBytes, Lines(t.channel, i)) && AllAcceptable(c.lines, maxBytes, InTask(c))
            && forall k | 0 <= k < |c.replies| ::
                 c.replies[k].line < |c.lines|
                 && (c.replies[k].reply == Ok <==> Acceptable(c.lines[c.replies[k].line], maxBytes))
  {
    InvAlways(maxBytes, INITIAL, es, t);
    assert ClientInv(maxBytes, t, i);
    var c := t.clients[i];
    var all := Sorted(c.lines, maxBytes, true);
    forall k | 0 <= k < |all| ensures all[k] < |c.lines| && Acceptable(c.lines[all[k]], maxBytes) {
      SortedMember(c.lines, maxBytes, true, k);
    }
    PartsAcceptable(c.lines, maxBytes, c.acknowledged, InHand(t, i), Lines(t.channel, i), c.dropped, InTask(c));
    forall k | 0 <= k < |c.replies|
      ensures c.replies[k].line < |c.lines|
      ensures c.replies[k].reply == Ok <==> Acceptable(c.lines[c.replies[k].line], maxBytes)
    {
      assert Deserved(maxBytes, c.lines, c.replies[k]);
    }
  }

  /** A waiting message is taken exactly while the receiver is there and the channel holds fewer than 64. */
  lemma SendTakenIff(s: System, i: nat)
    requires i in s.clients && s.clients[i].task.Sending?
    ensures Enabled(s, Enqueue(i)) <==> s.open && |s.channel| < 64
    ensures Enabled(s, SendFails(i)) <==> !s.open
  {
  }

  /** The `ok`s come in line order: they answer the first valid lines, one by one. */
  lemma OksInLineOrder(maxBytes: nat, es: seq<Event>, t: System, i: nat)
    requires Reaches(maxBytes, INITIAL, es, t) && i in t.clients
    requires t.clients[i].authorized && t.clients[i].okFailed == 0
    ensures var c := t.clients[i]; Answered(c.replies, true) <= Sorted(c.lines, maxBytes, true)
  {
    InvAlways(maxBytes, INITIAL, es, t);
    assert ClientInv(maxBytes, t, i);
    var c := t.clients[i];
    Prefixes(c.acknowledged, InHand(t, i), Lines(t.channel, i), c.dropped, InTask(c));
  }

  lemma Prefixes(a: seq<nat>, h: seq<nat>, ch: seq<nat>, d: seq<nat>, t: seq<nat>)
    ensures a <= a + h + ch + d + t
  {
  }

  /** Somewhere in the schedule a rejected line of the client is read while an earlier valid one waits for its `ok`. */
  ghost predicate Overtaken(maxBytes: nat, s: System, es: seq<Event>, i: nat)
    decreases |es|
  {
    es != [] && Enabled(s, es[0]) &&
    (|| (&& es[0].ReadLine? && es[0].client == i && !Acceptable(es[0].line, maxBytes)
         && Pending(s, i) != [])
     || Overtaken(maxBytes, Step(maxBytes, s, es[0]), es[1..], i))
  }

  lemma OvertakingStep(maxBytes: nat, s: System, e: Event, i: nat)
    requires Enabled(s, e) && i in s.clients
    ensures i in Step(maxBytes, s, e).clients
    ensures Step(maxBytes, s, e).clients[i].overtook
       <==> s.clients[i].overtook
            || (e.ReadLine? && e.client == i && !Acceptable(e.line, maxBytes) && Pending(s, i) != [])
  {
  }

  /** The flag of the model is that property of the schedule. */
  lemma {:induction false} FlagIsOvertaken(maxBytes: nat, s: System, es: seq<Event>, t: System, i: nat)
    requires Reaches(maxBytes, s, es, t) && i in t.clients
    ensures t.clients[i].overtook <==> (i in s.clients && s.clients[i].overtook) || Overtaken(maxBytes, s, es, i)
    decreases |es|
  {
    if es != [] {
      FlagIsOvertaken(maxBytes, Step(maxBytes, s, es[0]), es[1..], t, i);
      if i in s.clients {
        OvertakingStep(maxBytes, s, es[0], i);
      }
    }
  }

  /** With nothing lost, replies come in request order exactly when no error overtook a waiting `ok`. */
  lemma InOrderIffNotOvertaken(maxBytes: nat, es: seq<Event>, t: System, i: nat)
    requires Reaches(maxBytes, INITIAL, es, t) && i in t.clients && Intact(t.clients[i])
    ensures InOrder(t.clients[i].replies) <==> !Overtaken(maxBytes, INITIAL, es, i)
  {
    InvAlways(maxBytes, INITIAL, es, t);
    assert ClientInv(maxBytes, t, i);
    FlagIsOvertaken(maxBytes, INITIAL, es, t, i);
  }

  /** A lock-step client: it is never read from while one of its lines waits. */
  ghost predicate LockStep(maxBytes: nat, s: System, es: seq<Event>, i: nat)
    decreases |es|
  {
    es == [] || !Enabled(s, es[0]) ||
    (&& (es[0].ReadLine? && es[0].client == i ==> Pending(s, i) == [])
     && LockStep(maxBytes, Step(maxBytes, s, es[0]), es[1..], i))
  }

  lemma {:induction false} LockStepNeverOvertakes(maxBytes: nat, s: System, es: seq<Event>, i: nat)
    requires LockStep(maxBytes, s, es, i)
    ensures !Overtaken(maxBytes, s, es, i)
    decreases |es|
  {
    if es != [] && Enabled(s, es[0]) {
      LockStepNeverOvertakes(maxBytes, Step(maxBytes, s, es[0]), es[1..], i);
    }
  }

  /** For a client with at most one line outstanding, reply k is the one line k deserves; only waiting lines lack one. */
  lemma LockStepReplies(maxBytes: nat, es: seq<Event>, t: System, i: nat)
    requires Reaches(maxBytes, INITIAL, es, t) && LockStep(maxBytes, INITIAL, es, i)
    requires i in t.clients && Intact(t.clients[i])
    ensures var c := t.clients[i];
            && |c.replies| + |Pending(t, i)| == |c.lines|
            && forall k | 0 <= k < |c.replies| :: c.replies[k] == Answer(Classify(c.lines[k], maxBytes), k)
  {
    InvAlways(maxBytes, INITIAL, es, t);
    assert ClientInv(maxBytes, t, i);
    LockStepNeverOvertakes(maxBytes, INITIAL, es, i);
    FlagIsOvertaken(maxBytes, INITIAL, es, t, i);
    var c := t.clients[i];
    forall k | 0 <= k < |c.replies| ensures c.replies[k] == Answer(Classify(c.lines[k], maxBytes), k) {
      assert Deserved(maxBytes, c.lines, c.replies[k]);
    }
  }

  /** A client that does not wait can see replies out of order: a valid line, then a bad one before its `ok`. */
  lemma PipeliningCanReorder(maxBytes: nat, msg: Message)
    requires Valid(msg) && maxBytes >= 1
    ensures exists es, t ::
              && Reaches(maxBytes, INITIAL, es, t) && 0 in t.clients && Intact(t.clients[0])
              && t.clients[0].replies == [Answer(ErrorParse, 1), Answer(Ok, 0)]
  {
    var good, bad := Line(1, Json(msg)), Line(1, NotJson);
    var es, t := BadLineOvertakes(maxBytes, good, bad);
    var s2 := OneWaiting(maxBytes, good);
    var s3 := Step(maxBytes, s2, Enqueue(0));
    ReachesCons(maxBytes, s3, ReadLine(0, bad, true), es, t);
    ReachesCons(maxBytes, s2, Enqueue(0), [ReadLine(0, bad, true)] + es, t);
    OneWaitingReached(maxBytes, good, [Enqueue(0)] + ([ReadLine(0, bad, true)] + es), t);
  }

  /** With the valid line in the channel, the bad one is answered first. */
  lemma BadLineOvertakes(maxBytes: nat, good: Line, bad: Line) returns (es: seq<Event>, t: System)
    requires Classify(bad, maxBytes) == ErrorParse
    ensures var s3 := Step(maxBytes, OneWaiting(maxBytes, good), Enqueue(0));
            Enabled(s3, ReadLine(0, bad, true)) && Reaches(maxBytes, Step(maxBytes, s3, ReadLine(0, bad, true)), es, t)
    ensures 0 in t.clients && Intact(t.clients[0]) && t.clients[0].replies == [Answer(ErrorParse, 1), Answer(Ok, 0)]
  {
    var s3 := Step(maxBytes, OneWaiting(maxBytes, good), Enqueue(0));
    assert s3.channel == [Request(0, 0)] && s3.hand == None && s3.open;
    var s4 := Step(maxBytes, s3, ReadLine(0, bad, true));
    assert s4.clients[0].replies == [Answer(ErrorParse, 1)];
    var s5 := Step(maxBytes, s4, Receive);
    t := Step(maxBytes, s5, Acknowledge(true));
    es := [Receive] + [Acknowledge(true)];
    ReachesCons(maxBytes, s5, Acknowledge(true), [], t);
    ReachesCons(maxBytes, s4, Receive, [Acknowledge(true)], t);
  }

  lemma ReachesCons(maxBytes: nat, s: System, e: Event, es: seq<Event>, t: System)
    requires Enabled(s, e) && Reaches(maxBytes, Step(maxBytes, s, e), es, t)
    ensures Reaches(maxBytes, s, [e] + es, t)
  {
    assert ([e] + es)[1..] == es;
  }

  /** One client, one valid line read. */
  function OneWaiting(maxBytes: nat, good: Line): System {
    System(map[0 := NEWCOMER.(task := Sending(0), lines := [good])], [], None, true)
  }

  lemma OneWaitingReached(maxBytes: nat, good: Line, es: seq<Event>, t: System)
    requires Acceptable(good, maxBytes) && Reaches(maxBytes, OneWaiting(maxBytes, good), es, t)
    ensures Reaches(maxBytes, INITIAL, [Connect(0, true, true)] + ([ReadLine(0, good, true)] + es), t)
  {
    var s1 := Step(maxBytes, INITIAL, Connect(0, true, true));
    assert s1.clients[0] == NEWCOMER && [] + [good] == [good];
    var s2 := Step(maxBytes, s1, ReadLine(0, good, true));
    assert s2.clients == OneWaiting(maxBytes, good).clients;
    assert s2 == OneWaiting(maxBytes, good);
    ReachesCons(maxBytes, s1, ReadLine(0, good, true), es, t);
    ReachesCons(maxBytes, INITIAL, Connect(0, true, true), [ReadLine(0, good, true)] + es, t);
  }

  // ---- the reading task as code ----

  /** The write half of a client's stream; a write may fail. */
  class ReplyWriter {
    var written: seq<Reply>

    method WriteReply(reply: Reply) returns (ok: bool)
      modifies this
      ensures written == old(written) + if ok then [reply] else []
    {
      ok := *;
      if ok { written := written + [reply]; }
    }
  }

  /** The sending end of the channel; a send fails once the receiver is gone. */
  class Sender {
    var sent: seq<Message>

    method Send(msg: Message) returns (ok: bool)
      modifies this
      ensures sent == old(sent) + if ok then [msg] else []
    {
      ok := *;
      if ok { sent := sent + [msg]; }
    }
  }

  datatype Processed = Incoming(msg: Message) | Replied | WriteFailed

  /** `process_unix_socket_line`: size, blank, JSON, validity, in this order; at most one reply. */
  method ProcessUnixSocketLine(line: Line, maxBytes: nat, writer: ReplyWriter) returns (r: Processed)
    modifies writer
    ensures Acceptable(line, maxBytes) ==> r == Incoming(line.content.msg) && writer.written == old(writer.written)
    ensures !Acceptable(line, maxBytes) ==>
              || (r == Replied && writer.written == old(writer.written) + [Classify(line, maxBytes)])
              || (r == WriteFailed && writer.written == old(writer.written))
  {
    var reply;
    if line.bytes > maxBytes {
      reply := ErrorValidation;
    } else if line.content.Blank? || line.content.NotJson? {
      reply := ErrorParse;
    } else if Valid(line.content.msg) {
      return Incoming(line.content.msg);
    } else {
      reply := ErrorValidation;
    }
    var ok := writer.WriteReply(reply);
    r := if ok then Replied else WriteFailed;
  }

  function ErrorReplies(lines: seq<Line>, maxBytes: nat): seq<Reply> {
    if lines == [] then []
    else
      var n := |lines| - 1;
      ErrorReplies(lines[..n], maxBytes)
      + if Acceptable(lines[n], maxBytes) then [] else [Classify(lines[n], maxBytes)]
  }

  function Forwarded(lines: seq<Line>, maxBytes: nat): seq<Message> {
    if lines == [] then []
    else
      var n := |lines| - 1;
      Forwarded(lines[..n], maxBytes)
      + if Acceptable(lines[n], maxBytes) then [lines[n].content.msg] else []
  }

  lemma {:induction false} ForwardedAreValid(lines: seq<Line>, maxBytes: nat)
    ensures forall i | 0 <= i < |Forwarded(lines, maxBytes)| :: Valid(Forwarded(lines, maxBytes)[i])
  {
    if lines != [] {
      ForwardedAreValid(lines[..|lines| - 1], maxBytes);
    }
  }

  datatype TaskEnd = EndOfInput | ReplyNotWritten | ReceiverGone

  /** `forward_unix_client_lines`: it stops at the end of input, at a failed reply or when the receiver is gone. */
  method ForwardUnixClientLines(lines: seq<Line>, maxBytes: nat, writer: ReplyWriter, tx: Sender)
    returns (end: TaskEnd, done: nat)
    modifies writer, tx
    ensures done <= |lines| && (end.EndOfInput? <==> done == |lines|)
    ensures writer.written == old(writer.written) + ErrorReplies(lines[..done], maxBytes)
    ensures tx.sent == old(tx.sent) + Forwarded(lines[..done], maxBytes)
    ensures forall i | 0 <= i < |Forwarded(lines[..done], maxBytes)| :: Valid(Forwarded(lines[..done], maxBytes)[i])
    ensures end.ReplyNotWritten? ==> done < |lines| && !Acceptable(lines[done], maxBytes)
    ensures end.ReceiverGone? ==> done < |lines| && Acceptable(lines[done], maxBytes)
  {
    done := 0;
    while done < |lines|
      invariant done <= |lines|
      invariant writer.written == old(writer.written) + ErrorReplies(lines[..done], maxBytes)
      invariant tx.sent == old(tx.sent) + Forwarded(lines[..done], maxBytes)
    {
      ForwardedAreValid(lines[..done], maxBytes);
      assert lines[..done + 1][..done] == lines[..done];
      var r := ProcessUnixSocketLine(lines[done], maxBytes, writer);
      match r {
        case WriteFailed => return ReplyNotWritten, done;
        case Replied =>
        case Incoming(msg) =>
          var ok := tx.Send(msg);
          if !ok { return ReceiverGone, done; }
      }
      done := done + 1;
    }
    assert lines[..done] == lines;
    ForwardedAreValid(lines, maxBytes);
    end := EndOfInput;
  }
}
