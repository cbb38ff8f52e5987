/** The control connection: commands are cut out of the incoming bytes, replies leave through a queue,
    and QUIT closes the connection after the next write. */
module Control {
  import opened CommandLines

  // ---------------------------------------------------------------- framing

  predicate CrLfAt(s: string, k: nat) {
    k + 1 < |s| && s[k] == '\r' && s[k + 1] == '\n'
  }

  /** The position of the first CR LF; |s| when there is none. */
  function FindCrLf(s: string): (i: nat)
    ensures i <= |s| && (i < |s| ==> CrLfAt(s, i))
    ensures forall k: nat | k < i :: !CrLfAt(s, k)
  {
    if |s| < 2 then |s|
    else if CrLfAt(s, 0) then 0
    else
      var i := 1 + FindCrLf(s[1..]);
      assert forall k: nat | 0 < k < i :: CrLfAt(s, k) ==> CrLfAt(s[1..], k - 1);
      i
  }

  predicate HasCrLf(s: string) {
    FindCrLf(s) < |s|
  }

  /** The stream cut at every CR LF: the lines, and what is left behind the last one. */
  datatype Cut = Cut(lines: seq<string>, remainder: string)

  function CutAll(s: string): Cut {
    var i := FindCrLf(s);
    if i == |s| then Cut([], s) else
    var rest := CutAll(s[i + 2..]);
    Cut([s[..i]] + rest.lines, rest.remainder)
  }

  /** Lines written back as a client sends them. */
  function Encoded(lines: seq<string>): string {
    if lines == [] then "" else lines[0] + "\r\n" + Encoded(lines[1..])
  }

  lemma FindBehindLine(line: string, rest: string)
    requires !HasCrLf(line)
    ensures FindCrLf(line + "\r\n" + rest) == |line|
  {
    var s := line + "\r\n" + rest;
    assert CrLfAt(s, |line|);
    forall k: nat | k < |line| ensures !CrLfAt(s, k) {
      assert s[k] == line[k] && s[k + 1] == if k + 1 < |line| then line[k + 1] else '\r';
      assert !CrLfAt(line, k);
    }
  }

  lemma {:induction false} EncodedSnoc(lines: seq<string>, line: string)
    ensures Encoded(lines + [line]) == Encoded(lines) + line + "\r\n"
  {
    if lines == [] {
      assert [] + [line] == [line];
      assert [line][1..] == [];
    } else {
      assert (lines + [line])[1..] == lines[1..] + [line];
      EncodedSnoc(lines[1..], line);
    }
  }

  lemma CutLine(line: string, rest: string)
    requires !HasCrLf(line)
    ensures CutAll(line + "\r\n" + rest) == Cut([line] + CutAll(rest).lines, CutAll(rest).remainder)
  {
    var s := line + "\r\n" + rest;
    FindBehindLine(line, rest);
    assert s[..|line|] == line && s[|line| + 2..] == rest;
  }

  lemma EncodedFirst(lines: seq<string>, rest: string)
    requires lines != []
    ensures Encoded(lines) + rest == lines[0] + "\r\n" + (Encoded(lines[1..]) + rest)
  {
  }

  lemma FirstThenOthers(lines: seq<string>, more: seq<string>)
    requires lines != []
    ensures [lines[0]] + (lines[1..] + more) == lines + more
  {
  }

  /** Cutting undoes encoding, in front of any further bytes. */
  lemma {:induction false} CutEncoded(lines: seq<string>, rest: string)
    requires forall i | 0 <= i < |lines| :: !HasCrLf(lines[i])
    ensures CutAll(Encoded(lines) + rest) == Cut(lines + CutAll(rest).lines, CutAll(rest).remainder)
    decreases |lines|
  {
    if lines == [] {
      assert Encoded(lines) + rest == rest;
      assert lines + CutAll(rest).lines == CutAll(rest).lines;
    } else {
      EncodedFirst(lines, rest);
      CutLine(lines[0], Encoded(lines[1..]) + rest);
      CutEncoded(lines[1..], rest);
      FirstThenOthers(lines, CutAll(rest).lines);
    }
  }

  /** The lines up to and including the first that is a stop. */
  function Until(lines: seq<string>, stop: string -> bool): seq<string> {
    if lines == [] then []
    else if stop(lines[0]) then [lines[0]]
    else [lines[0]] + Until(lines[1..], stop)
  }

  function UntilQuit(lines: seq<string>): seq<string> {
    Until(lines, IsQuit)
  }

  // ---------------------------------------------------------------- the connection

  datatype Connection = Connection(
    input: string,          // received, not handled yet
    reading: bool,          // a read up to the next CR LF is under way
    shutdown: bool,         // QUIT was handled
    posts: seq<string>,     // messages whose handler waits for the strand
    queue: seq<string>,
    inFlight: seq<string>,  // writes under way
    open: bool,
    // history
    arrived: string,
    handled: seq<string>,
    posted: seq<string>,
    completed: seq<string>,
    failed: bool,           // a write failed
    atQuit: nat)            // completed messages when QUIT was handled

  function Connected(): Connection {
    Connection("", true, false, [], [], [], true, "", [], [], [], false, 0)
  }

  datatype Event =
    | Arrive(data: string)
    | HandleLine(replies: seq<string>) // the handler of the next line posts these messages
    | ReadFailed
    | PostMessage(message: string)     // a data connection posts a message
    | RunPost                          // the strand runs the handler of the oldest posted message
    | WriteDone(ok: bool)

  function StartSending(c: Connection): Connection
    requires c.queue != []
  {
    c.(inFlight := c.inFlight + [c.queue[0]])
  }

  function Posted(c: Connection, messages: seq<string>): Connection {
    c.(posts := c.posts + messages, posted := c.posted + messages)
  }

  function HandleFirstLine(c: Connection, replies: seq<string>): Connection
    requires HasCrLf(c.input)
  {
    var i := FindCrLf(c.input);
    var line := c.input[..i];
    var quit := IsQuit(line);
    Posted(c, replies).(
      input := c.input[i + 2..], handled := c.handled + [line],
      shutdown := c.shutdown || quit, reading := !(c.shutdown || quit),
      atQuit := if quit then |c.completed| else c.atQuit)
  }

  /** The handler of a posted message: it is queued, and sent at once if nothing else was queued. */
  function Enqueue(c: Connection): Connection
    requires c.posts != []
  {
    var d := c.(posts := c.posts[1..], queue := c.queue + [c.posts[0]]);
    if c.queue == [] then StartSending(d) else d
  }

  function WriteCompleted(c: Connection): Connection
    requires c.inFlight != [] && c.queue != []
  {
    var d := c.(queue := c.queue[1..], inFlight := c.inFlight[1..], completed := c.completed + [c.queue[0]]);
    if c.shutdown then d.(open := false)
    else if d.queue != [] then StartSending(d)
    else d
  }

  /** A write on a closed socket fails. */
  function Step(c: Connection, e: Event): Connection {
    match e
    case Arrive(data) => c.(input := c.input + data, arrived := c.arrived + data)
    case HandleLine(replies) => if c.reading && HasCrLf(c.input) then HandleFirstLine(c, replies) else c
    case ReadFailed => c.(reading := false)
    case PostMessage(message) => Posted(c, [message])
    case RunPost => if c.posts != [] then Enqueue(c) else c
    case WriteDone(ok) =>
      if c.inFlight == [] || c.queue == [] then c
      else if ok && c.open then WriteCompleted(c)
      else c.(inFlight := c.inFlight[1..], failed := true)
  }

  function Run(c: Connection, events: seq<Event>): Connection
    decreases |events|
  {
    if events == [] then c else Run(Step(c, events[0]), events[1..])
  }

  // ---------------------------------------------------------------- replies

  /** Messages completed, queued and waiting for the strand are the messages posted, in order; at most one write
      is under way, of the front of the queue; after QUIT at most one more write completes. */
  predicate Conserved(c: Connection) {
    && c.completed + c.queue + c.posts == c.posted
    && |c.inFlight| <= 1
    && (c.inFlight != [] ==> c.queue != [] && c.inFlight == [c.queue[0]])
    && (c.open && !c.failed ==> (c.inFlight != [] <==> c.queue != []))
    && (!c.open ==> c.shutdown)
    && (c.shutdown ==> !c.reading && |c.completed| == c.atQuit + if c.open then 0 else 1)
  }

  lemma HandleConserved(c: Connection, replies: seq<string>)
    requires Conserved(c) && c.reading && HasCrLf(c.input)
    ensures Conserved(HandleFirstLine(c, replies))
  {
  }

  lemma EnqueueConserved(c: Connection)
    requires Conserved(c) && c.posts != []
    ensures Conserved(Enqueue(c))
  {
  }

  lemma WriteConserved(c: Connection)
    requires Conserved(c) && c.inFlight != [] && c.open
    ensures Conserved(WriteCompleted(c))
  {
  }

  lemma StepConserved(c: Connection, e: Event)
    requires Conserved(c)
    ensures Conserved(Step(c, e))
  {
    match e {
      case HandleLine(replies) => if c.reading && HasCrLf(c.input) { HandleConserved(c, replies); }
      case PostMessage(m) => assert c.completed + c.queue + (c.posts + [m]) == c.completed + c.queue + c.posts + [m];
      case RunPost => if c.posts != [] { EnqueueConserved(c); }
      case WriteDone(ok) => if ok && c.open && c.inFlight != [] { WriteConserved(c); }
      case _ =>
    }
  }

  /** Conservation in every run, write errors and QUIT included. */
  lemma {:induction false} RunConserved(c: Connection, events: seq<Event>)
    requires Conserved(c)
    ensures Conserved(Run(c, events))
    decreases |events|
  {
    if events != [] {
      StepConserved(c, events[0]);
      RunConserved(Step(c, events[0]), events[1..]);
    }
  }

  lemma StepAfterShutdown(c: Connection, e: Event)
    requires Conserved(c) && c.shutdown
    ensures var d := Step(c, e);
            && Conserved(d) && d.shutdown && d.handled == c.handled && d.atQuit == c.atQuit
            && c.posted <= d.posted && c.completed <= d.completed
  {
  }

  /** What QUIT fixes for good. */
  lemma {:induction false} AfterShutdown(c: Connection, events: seq<Event>)
    requires Conserved(c) && c.shutdown
    ensures var d := Run(c, events);
            && Conserved(d) && d.shutdown && d.handled == c.handled && d.atQuit == c.atQuit && |d.completed| <= c.atQuit + 1
            && c.posted <= d.posted && c.completed <= d.completed
    decreases |events|
  {
    if events != [] {
      StepAfterShutdown(c, events[0]);
      AfterShutdown(Step(c, events[0]), events[1..]);
    }
  }

  /** In every continuation at most one write completes after QUIT was handled, that of the oldest message not yet
      sent. So the message that completes is the closing reply exactly when no other was queued or waiting. */
  lemma OneWriteAfterQuit(c: Connection, closing: string, events: seq<Event>)
    requires Conserved(c) && c.reading && HasCrLf(c.input) && IsQuit(c.input[..FindCrLf(c.input)])
    ensures var d := Run(Step(c, HandleLine([closing])), events);
            && (d.completed == c.completed || d.completed == c.completed + [(c.queue + c.posts + [closing])[0]])
            && (d.completed != c.completed ==> (|d.completed| == |c.posted| + 1 <==> c.queue == [] && c.posts == []))
  {
    var quit := Step(c, HandleLine([closing]));
    HandleConserved(c, [closing]);
    AfterShutdown(quit, events);
    NextToComplete(c.completed, c.queue + c.posts, closing, quit.posted, Run(quit, events));
  }

  lemma NextToComplete(done: seq<string>, waiting: seq<string>, closing: string, posted: seq<string>, d: Connection)
    requires posted == done + waiting + [closing] && Conserved(d) && posted <= d.posted
    requires done <= d.completed && |d.completed| <= |done| + 1
    ensures d.completed == done || d.completed == done + [(waiting + [closing])[0]]
  {
    if d.completed != done {
      assert d.completed[|done|] == d.posted[|done|] == posted[|done|] == (waiting + [closing])[0];
    }
  }

  lemma ClosingReplyDelivered(c: Connection, closing: string)
    requires Conserved(c) && c.reading && HasCrLf(c.input) && IsQuit(c.input[..FindCrLf(c.input)])
    requires !c.failed && c.queue == [] && c.posts == []
    ensures Run(Step(c, HandleLine([closing])), [RunPost, WriteDone(true)]).completed == c.posted + [closing]
  {
    var d := Step(c, HandleLine([closing]));
    var events := [RunPost, WriteDone(true)];
    assert events[1..] == [WriteDone(true)] && events[1..][1..] == [];
    assert Run(d, events) == Step(Step(d, RunPost), WriteDone(true));
    assert d.posts == [closing];
  }

  /** The closing reply, posted by the handler of QUIT, reaches the client in some schedule exactly when no other
      message was queued or waiting: a message in the way takes the one write that is still made. */
  lemma ClosingReplyIff(c: Connection, closing: string)
    requires Conserved(c) && !c.failed && c.reading && HasCrLf(c.input) && IsQuit(c.input[..FindCrLf(c.input)])
    ensures (exists events :: |Run(Step(c, HandleLine([closing])), events).completed| > |c.posted|)
            <==> c.queue == [] && c.posts == []
  {
    var d := Step(c, HandleLine([closing]));
    if c.queue == [] && c.posts == [] {
      ClosingReplyDelivered(c, closing);
      assert |Run(d, [RunPost, WriteDone(true)]).completed| > |c.posted|;
    }
    forall events | |Run(d, events).completed| > |c.posted| ensures c.queue == [] && c.posts == [] {
      OneWriteAfterQuit(c, closing, events);
    }
  }

  // ---------------------------------------------------------------- commands

  /** The bytes that arrived are the handled lines with their CR LF, then the unhandled input;
      a QUIT can only be the last handled line, and stops the reading. */
  predicate Framed(c: Connection) {
    && c.arrived == Encoded(c.handled) + c.input
    && (forall i | 0 <= i < |c.handled| :: !HasCrLf(c.handled[i]))
    && (forall i | 0 <= i < |c.handled| && IsQuit(c.handled[i]) :: i == |c.handled| - 1 && c.shutdown)
    && (c.shutdown ==> c.handled != [] && IsQuit(c.handled[|c.handled| - 1]) && !c.reading)
  }

  lemma FirstLineUnbroken(s: string)
    requires HasCrLf(s)
    ensures !HasCrLf(s[..FindCrLf(s)])
  {
    var line := s[..FindCrLf(s)];
    forall k: nat | k < |line| ensures !CrLfAt(line, k) {
      assert !CrLfAt(s, k);
    }
  }

  lemma LineTaken(before: string, input: string)
    requires HasCrLf(input)
    ensures var i := FindCrLf(input); before + input == before + input[..i] + "\r\n" + input[i + 2..]
  {
    var i := FindCrLf(input);
    assert input == input[..i] + "\r\n" + input[i + 2..];
  }

  lemma HandleKeepsText(c: Connection, replies: seq<string>)
    requires c.arrived == Encoded(c.handled) + c.input && HasCrLf(c.input)
    ensures var d := HandleFirstLine(c, replies); d.arrived == Encoded(d.handled) + d.input
  {
    LineTaken(Encoded(c.handled), c.input);
    EncodedSnoc(c.handled, c.input[..FindCrLf(c.input)]);
  }

  lemma HandleFramed(c: Connection, replies: seq<string>)
    requires Framed(c) && c.reading && HasCrLf(c.input)
    ensures Framed(HandleFirstLine(c, replies))
  {
    HandleKeepsText(c, replies);
    FirstLineUnbroken(c.input);
  }

  lemma ArriveFramed(c: Connection, data: string)
    requires Framed(c)
    ensures Framed(c.(input := c.input + data, arrived := c.arrived + data))
  {
  }

  lemma OthersFramed(c: Connection, d: Connection)
    requires Framed(c) && d.arrived == c.arrived && d.handled == c.handled && d.input == c.input
    requires d.shutdown == c.shutdown && (d.reading ==> c.reading)
    ensures Framed(d)
  {
  }

  lemma OthersKeepText(c: Connection, e: Event)
    requires !e.Arrive? && !(e.HandleLine? && c.reading && HasCrLf(c.input))
    ensures var d := Step(c, e);
            && d.arrived == c.arrived && d.handled == c.handled && d.input == c.input
            && d.shutdown == c.shutdown && (d.reading ==> c.reading)
  {
  }

  lemma StepFramed(c: Connection, e: Event)
    requires Framed(c)
    ensures Framed(Step(c, e))
  {
    if e.Arrive? {
      ArriveFramed(c, e.data);
    } else if e.HandleLine? && c.reading && HasCrLf(c.input) {
      HandleFramed(c, e.replies);
    } else {
      OthersKeepText(c, e);
      OthersFramed(c, Step(c, e));
    }
  }

  lemma {:induction false} RunFramed(c: Connection, events: seq<Event>)
    requires Framed(c)
    ensures Framed(Run(c, events))
    decreases |events|
  {
    if events != [] {
      StepFramed(c, events[0]);
      RunFramed(Step(c, events[0]), events[1..]);
    }
  }

  lemma {:induction false} UntilOf(lines: seq<string>, more: seq<string>, stop: string -> bool)
    requires forall i | 0 <= i < |lines| && stop(lines[i]) :: i == |lines| - 1
    ensures Until(lines + more, stop) ==
            if lines != [] && stop(lines[|lines| - 1]) then lines else lines + Until(more, stop)
    decreases |lines|
  {
    if lines == [] {
      assert lines + more == more;
    } else {
      var rest := lines[1..];
      assert (lines + more)[1..] == rest + more;
      if stop(lines[0]) {
        assert lines == [lines[0]];
      } else {
        UntilOf(rest, more, stop);
        assert rest == [] ==> rest + more == more;
        FirstThenOthers(lines, []);
        FirstThenOthers(lines, Until(more, stop));
      }
    }
  }

  /** However the bytes were split on arrival: the handled commands are a prefix of the whole stream cut at every
      CR LF; once no complete command is left unhandled, or QUIT was handled, they are that stream up to the first
      QUIT; and without QUIT the unhandled input is then the remainder of the stream, which holds no CR LF. */
  lemma SegmentationIndependent(events: seq<Event>)
    ensures var c := Run(Connected(), events);
            && c.handled <= UntilQuit(CutAll(c.arrived).lines)
            && (c.shutdown || !HasCrLf(c.input) ==> c.handled == UntilQuit(CutAll(c.arrived).lines))
            && (!c.shutdown && !HasCrLf(c.input) ==> c.input == CutAll(c.arrived).remainder)
  {
    RunFramed(Connected(), events);
    var c := Run(Connected(), events);
    CutEncoded(c.handled, c.input);
    UntilOf(c.handled, CutAll(c.input).lines, IsQuit);
  }

  lemma QuitLine()
    ensures FindCrLf("QUIT\r\n") == 4 && IsQuit("QUIT")
  {
    assert !HasCrLf("QUIT") by {
      assert forall k: nat | k < 4 :: !CrLfAt("QUIT", k);
    }
    FindBehindLine("QUIT", "");
    assert "QUIT" + "\r\n" + "" == "QUIT\r\n";
    SplitUndoesJoin("QUIT", "");
    assert UpperText("QUIT") == "QUIT";
  }

  /** A client that says QUIT before the greeting has been sent never gets the reply to it. */
  lemma QuitFindsGreetingQueued(closing: string, events: seq<Event>)
    ensures var c := Run(Connected(), [PostMessage("220"), RunPost, Arrive("QUIT\r\n")]);
            && c.queue == ["220"] && c.reading && HasCrLf(c.input) && IsQuit(c.input[..FindCrLf(c.input)])
            && Run(Step(c, HandleLine([closing])), events).completed <= ["220"]
  {
    var arrive := [PostMessage("220"), RunPost, Arrive("QUIT\r\n")];
    var c := Step(Step(Step(Connected(), PostMessage("220")), RunPost), Arrive("QUIT\r\n"));
    assert arrive[1..] == [RunPost, Arrive("QUIT\r\n")] && arrive[1..][1..] == [Arrive("QUIT\r\n")];
    assert Run(Connected(), arrive) == c;
    assert c.input == "QUIT\r\n" && c.input[..4] == "QUIT";
    QuitLine();
    RunConserved(Connected(), arrive);
    OneWriteAfterQuit(c, closing, events);
  }

  /** As long as no read fails, the connection goes on reading until a QUIT was handled, and a complete line that has
      arrived can be handled: it is the next one. */
  lemma {:induction false} ReadsUntilQuit(c: Connection, events: seq<Event>)
    requires c.reading == !c.shutdown && ReadFailed !in events
    ensures var d := Run(c, events);
            && d.reading == !d.shutdown
            && forall replies | !d.shutdown && HasCrLf(d.input) ::
                 Step(d, HandleLine(replies)).handled == d.handled + [d.input[..FindCrLf(d.input)]]
    decreases |events|
  {
    if events != [] {
      StepReads(c, events[0]);
      ReadsUntilQuit(Step(c, events[0]), events[1..]);
    }
  }

  lemma StepReads(c: Connection, e: Event)
    requires c.reading == !c.shutdown && e != ReadFailed
    ensures Step(c, e).reading == !Step(c, e).shutdown
  {
  }

  /** No command is handled after a QUIT, and at most one more message is sent. */
  lemma QuitIsLast(events: seq<Event>, more: seq<Event>)
    requires Run(Connected(), events).shutdown
    ensures var c := Run(Connected(), events);
            var d := Run(c, more);
            d.handled == c.handled && |d.completed| <= c.atQuit + 1
  {
    RunConserved(Connected(), events);
    AfterShutdown(Run(Connected(), events), more);
  }

  // ---------------------------------------------------------------- the object that does it

  class ControlConnection {
    var commandInput: string
    var reading: bool
    var shutdownRequested: bool
    var posts: seq<string>
    var commandOutputQueue: seq<string>
    var inFlight: seq<string>
    var open: bool
    ghost var arrived: string
    ghost var handled: seq<string>
    ghost var posted: seq<string>
    ghost var completed: seq<string>
    ghost var failed: bool
    ghost var atQuit: nat

    ghost function State(): Connection
      reads this
    {
      Connection(commandInput, reading, shutdownRequested, posts, commandOutputQueue, inFlight, open,
                 arrived, handled, posted, completed, failed, atQuit)
    }

    constructor ()
      ensures State() == Connected()
    {
      commandInput, reading, shutdownRequested, posts, commandOutputQueue := "", true, false, [], [];
      inFlight, open := [], true;
      arrived, handled, posted, completed, failed, atQuit := "", [], [], [], false, 0;
    }

    method SendRawFtpMessage(message: string)
      modifies this`posts, this`posted
      ensures State() == Step(old(State()), PostMessage(message))
    {
      posts := posts + [message];
      posted := posted + [message];
    }

    method PostAll(messages: seq<string>)
      modifies this`posts, this`posted
      ensures State() == Posted(old(State()), messages)
    {
      for i := 0 to |messages|
        invariant State() == Posted(old(State()), messages[..i])
      {
        SendRawFtpMessage(messages[i]);
        assert messages[..i + 1] == messages[..i] + [messages[i]];
      }
      assert messages[..|messages|] == messages;
    }

    method StartSendingMessages()
      requires commandOutputQueue != []
      modifies this`inFlight
      ensures State() == StartSending(old(State()))
    {
      inFlight := inFlight + [commandOutputQueue[0]];
    }

    method RunPostedMessage()
      requires posts != []
      modifies this
      ensures State() == Step(old(State()), RunPost)
    {
      var writeInProgress := commandOutputQueue != [];
      commandOutputQueue := commandOutputQueue + [posts[0]];
      posts := posts[1..];
      if !writeInProgress {
        StartSendingMessages();
      }
    }

    method WriteHandler(ok: bool)
      requires inFlight != [] && commandOutputQueue != [] && (ok ==> open)
      modifies this
      ensures State() == Step(old(State()), WriteDone(ok))
    {
      inFlight := inFlight[1..];
      if ok {
        completed := completed + [commandOutputQueue[0]];
        commandOutputQueue := commandOutputQueue[1..];
        if shutdownRequested {
          open := false;
          return;
        }
        if commandOutputQueue != [] {
          StartSendingMessages();
        }
      } else {
        failed := true;
      }
    }

    /** Takes the first line out of the input, with its CR LF. */
    method TakeLine() returns (packet: string)
      requires HasCrLf(commandInput)
      modifies this`commandInput, this`handled
      ensures var i := FindCrLf(old(commandInput));
              && packet == old(commandInput)[..i] && commandInput == old(commandInput)[i + 2..]
      ensures handled == old(handled) + [packet]
    {
      var length := FindCrLf(commandInput) + 2;
      packet := commandInput[..length - 2];
      commandInput := commandInput[length..];
      handled := handled + [packet];
    }

    /** The handler of a completed read: the line is taken out of the input and handled, and posts the given replies. */
    method ReadHandler(replies: seq<string>) returns (packet: string)
      requires reading && HasCrLf(commandInput)
      modifies this
      ensures State() == HandleFirstLine(old(State()), replies)
      ensures packet == old(commandInput)[..FindCrLf(old(commandInput))]
    {
      packet := TakeLine();
      if IsQuit(packet) {
        shutdownRequested := true;
        atQuit := |completed|;
      }
      PostAll(replies);
      reading := !shutdownRequested;
    }
  }
}
