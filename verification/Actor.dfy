/**
 The control connection: clients, the actor that owns it, and a server that answers each line it
 receives with one printed reply and may hang up, also inside a reply (src/tor/controller/client.rs:61-75
 and 168-191). Every interleaving of their steps is a run.
 */
module Actor {
  import opened Wrappers
  import opened Text
  import opened Codec
  import opened Framing
  import opened Truncation

  datatype Failure = Io | Protocol(error: ProtocolError) | ChannelClosed | InvalidCommand

  type Outcome = Result<ControlReply, Failure>

  /** A command in the channel, with the position of its waiter. */
  datatype Request = Request(command: string, waiter: nat)

  datatype Phase = Idle | Writing(request: Request) | Reading(request: Request) | Stopped

  /** A line the server read and the reply it gave. */
  datatype Exchange = Exchange(line: string, reply: ControlReply)

  /** A reply of which only the first characters were sent. */
  datatype Cut = Cut(reply: ControlReply, sent: nat)

  datatype Server = Server(served: seq<Exchange>, hungUp: bool, cut: Option<Cut>)

  datatype State = State(
    /** Every command the channel accepted, in order. */
    log: seq<string>,
    queue: seq<Request>,
    phase: Phase,
    /** What of the current command is not written yet. */
    left: string,
    written: string,
    /** What has arrived and is not read yet. */
    input: string,
    server: Server,
    /** What the actor made of each command it took. */
    results: seq<Outcome>,
    /** What reached a waiter that was still there. */
    delivered: map<nat, Outcome>,
    abandoned: set<nat>)

  datatype Event =
    | Send(command: string)
    | Abandon(waiter: nat)
    | Take
    | Write(count: nat)
    | WriteError
    | Read
    | ReadError
    | Finish
    | Answer(reply: ControlReply)
    | HangUp
    | HangUpInside(reply: ControlReply, count: nat)

  predicate CommandOk(command: string) {
    '\r' !in command && '\n' !in command
  }

  /** The lines of a stream that are complete. */
  function CompleteLines(stream: string): seq<string>
    decreases |stream|
  {
    if IndexOf(stream, '\n') == |stream| then []
    else [StripEnd(stream[..LineLength(stream)])] + CompleteLines(AfterLine(stream))
  }

  // ---- Steps --------------------------------------------------------------------------------

  /** What `command` answers at once; `None` once the command is in the channel. */
  function Refusal(s: State, command: string): Option<Failure> {
    if !CommandOk(command) then Some(InvalidCommand)
    else if s.phase.Stopped? then Some(ChannelClosed)
    else None
  }

  /** A stopped actor has dropped the channel: whoever still waits gets an error. */
  function AnswerFor(s: State, waiter: nat): Option<Outcome> {
    if waiter in s.delivered then Some(s.delivered[waiter])
    else if s.phase.Stopped? then Some(Err(ChannelClosed))
    else None
  }

  predicate HasUnansweredLine(s: State) {
    !s.server.hungUp && |s.server.served| < |CompleteLines(s.written)|
  }

  predicate Enabled(s: State, e: Event) {
    match e
    case Send(_) => true
    case Abandon(w) => w < |s.log|
    case Take => s.phase.Idle? && s.queue != []
    case Write(n) => s.phase.Writing? && 0 < n <= |s.left|
    case WriteError => s.phase.Writing?
    case Read => s.phase.Reading? && (|s.results| < |s.server.served| || s.server.hungUp)
    case ReadError => s.phase.Reading?
    case Finish => s.phase.Idle? && s.queue == []
    case Answer(r) => HasUnansweredLine(s) && ReplyOk(r)
    case HangUp => !s.server.hungUp
    case HangUpInside(r, n) => HasUnansweredLine(s) && ReplyOk(r) && n < |PrintReply(r)|
  }

  /** The actor sends its result to the waiter and goes on only after a reply. */
  function Conclude(s: State, waiter: nat, outcome: Outcome): State {
    s.(phase := if outcome.Ok? then Idle else Stopped,
       results := s.results + [outcome],
       delivered := if waiter in s.abandoned then s.delivered else s.delivered[waiter := outcome])
  }

  /** What the actor makes of what `read_reply` returns. */
  function OutcomeOf(got: Result<Option<ControlReply>, ProtocolError>): Outcome {
    match got
    case Err(e) => Err(Protocol(e))
    case Ok(None) => Err(ChannelClosed)
    case Ok(Some(r)) => Ok(r)
  }

  function Step(s: State, e: Event): State
    requires Enabled(s, e)
  {
    match e
    case Send(c) =>
      if Refusal(s, c).Some? then s
      else s.(log := s.log + [c], queue := s.queue + [Request(c, |s.log|)])
    case Abandon(w) => s.(abandoned := s.abandoned + {w})
    case Take =>
      s.(queue := s.queue[1..], phase := Writing(s.queue[0]), left := s.queue[0].command + CRLF)
    case Write(n) =>
      s.(written := s.written + s.left[..n], left := s.left[n..],
         phase := if n == |s.left| then Reading(s.phase.request) else s.phase)
    case WriteError => Conclude(s, s.phase.request.waiter, Err(Io))
    case Read =>
      var (got, rest) := ReadReply(s.input);
      Conclude(s.(input := rest), s.phase.request.waiter, OutcomeOf(got))
    case ReadError => Conclude(s, s.phase.request.waiter, Err(Io))
    case Finish => s.(phase := Stopped)
    case Answer(r) =>
      var line := CompleteLines(s.written)[|s.server.served|];
      s.(server := s.server.(served := s.server.served + [Exchange(line, r)]), input := s.input + PrintReply(r))
    case HangUp => s.(server := s.server.(hungUp := true))
    case HangUpInside(r, n) =>
      s.(server := s.server.(hungUp := true, cut := Some(Cut(r, n))), input := s.input + PrintReply(r)[..n])
  }

  const START := State([], [], Idle, [], [], [], Server([], false, None), [], map[], {})

  datatype Run = Run(states: seq<State>, events: seq<Event>) {
    ghost predicate Valid() {
      && |states| == |events| + 1
      && states[0] == START
      && forall i | 0 <= i < |events| :: Moves(i)
    }

    ghost predicate Moves(i: nat)
      requires i < |events| && |states| == |events| + 1
    {
      && Enabled(states[i], events[i])
      && states[i + 1] == Step(states[i], events[i])
    }
  }

  /** A command is accepted if and only if it is one line and the actor is still there. */
  lemma SendIsAccepted(s: State, command: string)
    ensures Refusal(s, command)
         == if '\r' in command || '\n' in command then Some(InvalidCommand)
            else if s.phase.Stopped? then Some(ChannelClosed) else None
    ensures Step(s, Send(command))
         == if '\r' in command || '\n' in command || s.phase.Stopped? then s
            else s.(log := s.log + [command], queue := s.queue + [Request(command, |s.log|)])
  {
  }

  /** What a read makes of the reply, of an error and of the end of the stream, and who hears of it. */
  lemma ReadConcludes(s: State)
    requires Enabled(s, Read)
    ensures var got, t := ReadReply(s.input).0, Step(s, Read);
      var outcome: Outcome := if got.Err? then Err(Protocol(got.error))
                              else if got.value.None? then Err(ChannelClosed) else Ok(got.value.value);
      var waiter := s.phase.request.waiter;
      && t.results == s.results + [outcome] && t.input == ReadReply(s.input).1
      && (if outcome.Ok? then t.phase == Idle else t.phase == Stopped)
      && (waiter in s.abandoned ==> t.delivered == s.delivered)
      && (waiter !in s.abandoned ==> t.delivered == s.delivered[waiter := outcome])
  {
    hide ReadReply;
  }

  // ---- What goes out ------------------------------------------------------------------------

  /** The bytes of complete commands. */
  function Sent(commands: seq<string>): string {
    if commands == [] then []
    else Sent(commands[..|commands| - 1]) + commands[|commands| - 1] + CRLF
  }

  /** How many commands the actor has taken. */
  function Taken(s: State): int {
    |s.log| - |s.queue|
  }

  /** How many of them are written to the end. */
  function WholeCommands(s: State): int {
    if s.left == [] then Taken(s) else Taken(s) - 1
  }

  predicate IsBusy(s: State) {
    s.phase.Writing? || s.phase.Reading?
  }

  ghost predicate Outbound(s: State) {
    && |s.queue| <= |s.log| && (forall c <- s.log :: CommandOk(c))
    && (forall i | 0 <= i < |s.queue| :: s.queue[i] == Request(s.log[Taken(s) + i], Taken(s) + i))
    && Taken(s) == |s.results| + (if IsBusy(s) then 1 else 0)
    && (IsBusy(s) ==> s.phase.request == Request(s.log[Taken(s) - 1], Taken(s) - 1))
    && (s.phase.Writing? ==> s.left != []) && (s.phase.Idle? || s.phase.Reading? ==> s.left == [])
    && (s.left != [] ==> Taken(s) > 0 && |s.left| <= |s.log[Taken(s) - 1]| + 2)
    && s.written + s.left == Sent(s.log[..Taken(s)])
  }

  lemma {:induction false} LinesBefore(commands: seq<string>, tail: string)
    requires (forall c <- commands :: CommandOk(c)) && '\n' !in tail
    ensures CompleteLines(Sent(commands) + tail) == commands
  {
    LinesThrough(commands, tail);
    assert commands + [] == commands;
    IndexOfIs(tail, '\n', |tail|);
  }

  lemma LineThrough(command: string, tail: string)
    requires CommandOk(command)
    ensures CompleteLines(command + CRLF + tail) == [command] + CompleteLines(tail)
  {
    var stream := command + CRLF + tail;
    LineRead(command, tail);
    assert stream[|command| + 1] == '\n';
  }

  lemma {:induction false} LinesThrough(commands: seq<string>, tail: string)
    requires forall c <- commands :: CommandOk(c)
    ensures CompleteLines(Sent(commands) + tail) == commands + CompleteLines(tail)
  {
    hide CompleteLines, CommandOk;
    if commands == [] {
      assert Sent(commands) + tail == tail;
    } else {
      var front, last := commands[..|commands| - 1], commands[|commands| - 1];
      var rest := last + CRLF + tail;
      assert Sent(commands) + tail == Sent(front) + rest;
      LinesThrough(front, rest);
      assert last in commands;
      LineThrough(last, tail);
      assert front + ([last] + CompleteLines(tail)) == commands + CompleteLines(tail);
    }
  }

  /** What is on the wire: the complete commands and a beginning of the next one. */
  lemma WrittenSplit(s: State)
    requires Outbound(s)
    ensures 0 <= WholeCommands(s) <= |s.log|
    ensures exists tail: string :: '\n' !in tail && s.written == Sent(s.log[..WholeCommands(s)]) + tail
  {
    if s.left == [] {
      assert s.written == Sent(s.log[..Taken(s)]) + [];
    } else {
      var n := Taken(s) - 1;
      var command := s.log[n];
      var text := command + CRLF;
      var tail := text[..|text| - |s.left|];
      assert s.log[..n + 1][..n] == s.log[..n];
      assert s.written + s.left == Sent(s.log[..n]) + text;
      assert s.written == (s.written + s.left)[..|s.written|];
      assert s.written == Sent(s.log[..n]) + tail;
      assert command in s.log;
    }
  }

  /** The server can split what it receives back into exactly the commands sent. */
  lemma WrittenLines(s: State)
    requires Outbound(s)
    ensures 0 <= WholeCommands(s) <= |s.log|
    ensures CompleteLines(s.written) == s.log[..WholeCommands(s)]
  {
    WrittenSplit(s);
    var tail: string :| '\n' !in tail && s.written == Sent(s.log[..WholeCommands(s)]) + tail;
    LinesBefore(s.log[..WholeCommands(s)], tail);
  }

  lemma SendIsOutbound(s: State, command: string)
    requires Outbound(s)
    ensures Outbound(Step(s, Send(command)))
  {
    hide Sent, CompleteLines, ReadReply, PrintReply, ReplyOk;
    if Refusal(s, command).None? {
      assert Step(s, Send(command)).log[..Taken(s)] == s.log[..Taken(s)];
    }
  }

  lemma TakeIsOutbound(s: State)
    requires Outbound(s) && Enabled(s, Take)
    ensures Outbound(Step(s, Take))
  {
    hide Sent, CompleteLines, ReadReply, PrintReply, ReplyOk;
    var t := Step(s, Take);
    SentSnoc(s.log[..Taken(s)], s.queue[0].command);
    assert s.log[..Taken(t)] == s.log[..Taken(s)] + [s.queue[0].command];
  }

  lemma WriteIsOutbound(s: State, n: nat)
    requires Outbound(s) && Enabled(s, Write(n))
    ensures Outbound(Step(s, Write(n)))
  {
    hide Sent, CompleteLines, ReadReply, PrintReply, ReplyOk;
    var t := Step(s, Write(n));
    assert s.left == s.left[..n] + s.left[n..];
    assert t.written + t.left == s.written + s.left;
  }

  lemma OutboundKept(s: State, e: Event)
    requires Outbound(s) && Enabled(s, e)
    ensures Outbound(Step(s, e))
  {
    hide Sent, CompleteLines, ReadReply, PrintReply, ReplyOk;
    match e
    case Send(c) => SendIsOutbound(s, c);
    case Take => TakeIsOutbound(s);
    case Write(n) => WriteIsOutbound(s, n);
    case _ =>
  }

  lemma SentSnoc(commands: seq<string>, command: string)
    ensures Sent(commands + [command]) == Sent(commands) + (command + CRLF)
  {
    assert (commands + [command])[..|commands|] == commands;
  }

  // ---- What comes in ------------------------------------------------------------------------

  function Replies(served: seq<Exchange>): (rs: seq<ControlReply>)
    ensures |rs| == |served|
  {
    seq(|served|, i requires 0 <= i < |served| => served[i].reply)
  }

  ghost predicate ServedOk(served: seq<Exchange>) {
    forall i | 0 <= i < |served| :: ReplyOk(served[i].reply)
  }

  predicate CutOk(cut: Option<Cut>) {
    cut.Some? ==> ReplyOk(cut.value.reply) && cut.value.sent < |PrintReply(cut.value.reply)|
  }

  function CutText(cut: Option<Cut>): string
    requires CutOk(cut)
  {
    if cut.Some? then PrintReply(cut.value.reply)[..cut.value.sent] else []
  }

  /** Outcome `i` when it is a reply: the one the server gave, or what was left of the one it cut. */
  ghost predicate Right(server: Server, i: nat, r: ControlReply)
    requires CutOk(server.cut)
  {
    if i < |server.served| then r == server.served[i].reply
    else
      && i == |server.served| && server.cut.Some?
      && ReadReply(CutText(server.cut)) == (Ok(Some(r)), [])
  }

  ghost predicate Inbound(s: State) {
    && ServedOk(s.server.served) && CutOk(s.server.cut) && (s.server.cut.Some? ==> s.server.hungUp)
    && |s.server.served| <= |CompleteLines(s.written)|
    && (forall i | 0 <= i < |s.server.served| :: s.server.served[i].line == CompleteLines(s.written)[i])
    && (forall i | 0 <= i < |s.results| && s.results[i].Ok? :: Right(s.server, i, s.results[i].value))
    && (forall i | 0 <= i < |s.results| && s.results[i].Err? :: s.phase.Stopped? && i == |s.results| - 1)
    && (forall k | k in s.delivered :: k < |s.results| && s.delivered[k] == s.results[k])
  }

  /** While the actor runs, the input holds exactly the replies not read yet. */
  ghost predicate Pending(s: State)
    requires ServedOk(s.server.served) && CutOk(s.server.cut)
  {
    s.phase.Stopped? ||
    (if |s.results| <= |s.server.served|
     then s.input == PrintAll(Replies(s.server.served[|s.results|..])) + CutText(s.server.cut)
     else s.input == [])
  }

  ghost predicate Invariant(s: State) {
    Outbound(s) && Inbound(s) && Pending(s)
  }

  lemma {:induction false} PrintAllSnoc(rs: seq<ControlReply>, r: ControlReply)
    requires AllOk(rs) && ReplyOk(r)
    ensures AllOk(rs + [r]) && PrintAll(rs + [r]) == PrintAll(rs) + PrintReply(r)
  {
    if rs == [] {
      assert ([] + [r])[1..] == [];
    } else {
      PrintAllSnoc(rs[1..], r);
      assert (rs + [r])[1..] == rs[1..] + [r];
    }
  }

  /** What `read_reply` returns while the actor waits for the reply to its current command. */
  lemma ReadIsRight(s: State)
    requires Inbound(s) && Pending(s) && s.phase.Reading? && (|s.results| < |s.server.served| || s.server.hungUp)
    ensures var (got, rest) := ReadReply(s.input);
      && (got.Ok? && got.value.Some? ==>
            && Right(s.server, |s.results|, got.value.value)
            && rest == (if |s.results| < |s.server.served|
                        then PrintAll(Replies(s.server.served[|s.results| + 1..])) + CutText(s.server.cut)
                        else []))
  {
    hide PrintReply, ReadReply, CompleteLines;
    var n := |s.results|;
    var served := s.server.served;
    if n < |served| {
      var replies := Replies(served[n..]);
      assert replies[1..] == Replies(served[n + 1..]);
      var rest := PrintAll(replies[1..]) + CutText(s.server.cut);
      assert s.input == PrintReply(served[n].reply) + rest;
      ReplyRoundTrip(served[n].reply, rest);
    } else if n == |served| {
      assert Replies(served[n..]) == [];
      assert s.input == CutText(s.server.cut);
      if s.server.cut.Some? {
        TruncatedReply(s.server.cut.value.reply, s.server.cut.value.sent);
      } else {
        NothingToRead();
      }
    } else {
      NothingToRead();
    }
  }

  lemma ReadKept(s: State)
    requires Invariant(s) && Enabled(s, Read)
    ensures Invariant(Step(s, Read))
  {
    hide Outbound, CompleteLines, PrintAll, ReadReply, CutText, CutOk, ServedOk, Replies, Right;
    OutboundKept(s, Read);
    ReadIsRight(s);
    WaiterInTurn(s);
    var t := Step(s, Read);
    assert t.server == s.server && t.written == s.written;
    assert t.results == s.results + [OutcomeOf(ReadReply(s.input).0)];
    assert forall k | k in t.delivered :: k < |t.results| && t.delivered[k] == t.results[k];
    assert forall i | 0 <= i < |t.results| && t.results[i].Err? :: t.phase.Stopped? && i == |t.results| - 1;
    assert forall i | 0 <= i < |t.results| && t.results[i].Ok? :: Right(t.server, i, t.results[i].value);
    assert Inbound(t);
    assert Pending(t);
  }

  lemma WaiterInTurn(s: State)
    requires Outbound(s) && IsBusy(s)
    ensures s.phase.request.waiter == |s.results|
  {
  }

  lemma FailureKept(s: State, e: Event)
    requires Invariant(s) && Enabled(s, e) && (e.WriteError? || e.ReadError?)
    ensures Invariant(Step(s, e))
  {
    hide Outbound, CompleteLines, PrintAll, CutText, CutOk, ServedOk, Replies, Right;
    OutboundKept(s, e);
    WaiterInTurn(s);
  }

  lemma WriteKept(s: State, n: nat)
    requires Invariant(s) && Enabled(s, Write(n))
    ensures Invariant(Step(s, Write(n)))
  {
    hide Outbound, CompleteLines, PrintAll, CutText, CutOk, ServedOk, Replies, Right;
    var t := Step(s, Write(n));
    OutboundKept(s, Write(n));
    WrittenLines(s);
    WrittenLines(t);
    assert WholeCommands(s) <= WholeCommands(t) by {
      MoreWritten(s, n);
    }
  }

  lemma MoreWritten(s: State, n: nat)
    requires Outbound(s) && Enabled(s, Write(n))
    ensures WholeCommands(s) <= WholeCommands(Step(s, Write(n))) && s.log == Step(s, Write(n)).log
  {
  }

  lemma AnswerKept(s: State, r: ControlReply)
    requires Invariant(s) && Enabled(s, Answer(r))
    ensures Invariant(Step(s, Answer(r)))
  {
    hide Outbound, CompleteLines, PrintReply, PrintAll, ReplyOk, ReadReply;
    var t := Step(s, Answer(r));
    OutboundKept(s, Answer(r));
    var n := |s.results|;
    var served, served' := s.server.served, t.server.served;
    forall i | 0 <= i < n && s.results[i].Ok?
      ensures Right(t.server, i, s.results[i].value)
    {
      assert Right(s.server, i, s.results[i].value);
    }
    if !s.phase.Stopped? {
      AllAnswered(s);
      var replies := Replies(served[n..]);
      PrintAllSnoc(replies, r);
      assert Replies(served'[n..]) == replies + [r];
      assert CutText(s.server.cut) == [] && s.input == PrintAll(replies) + [];
    }
  }

  /** An actor that has not stopped has read no more replies than were given, but one cut short. */
  lemma AllAnswered(s: State)
    requires Inbound(s) && !s.phase.Stopped? && s.server.cut.None?
    ensures |s.results| <= |s.server.served|
  {
    var i := |s.server.served|;
    assert i < |s.results| ==> Right(s.server, i, s.results[i].value);
  }

  lemma HangUpKept(s: State, e: Event)
    requires Invariant(s) && Enabled(s, e) && (e.HangUp? || e.HangUpInside?)
    ensures Invariant(Step(s, e))
  {
    hide Outbound, CompleteLines, PrintReply, PrintAll, ReplyOk, ReadReply, Replies;
    var t := Step(s, e);
    OutboundKept(s, e);
    forall i | 0 <= i < |s.results| && s.results[i].Ok?
      ensures Right(t.server, i, s.results[i].value)
    {
      assert Right(s.server, i, s.results[i].value);
    }
    if !s.phase.Stopped? {
      AllAnswered(s);
    }
  }

  lemma OtherKept(s: State, e: Event)
    requires Invariant(s) && Enabled(s, e) && (e.Send? || e.Abandon? || e.Take? || e.Finish?)
    ensures Invariant(Step(s, e))
  {
    hide Outbound, CompleteLines, PrintReply, PrintAll, ReplyOk, ReadReply, Replies, Right, CutText;
    OutboundKept(s, e);
  }

  lemma StartInvariant()
    ensures Invariant(START)
  {
    assert Replies([]) == [];
  }

  lemma {:induction false} RunInvariant(run: Run, i: nat)
    requires run.Valid() && i < |run.states|
    ensures Invariant(run.states[i])
  {
    hide Invariant, Step, Enabled;
    if i == 0 {
      StartInvariant();
    } else {
      RunInvariant(run, i - 1);
      assert run.Moves(i - 1);
      var s, e := run.states[i - 1], run.events[i - 1];
      match e
      case Read => ReadKept(s);
      case Write(n) => WriteKept(s, n);
      case WriteError => FailureKept(s, e);
      case ReadError => FailureKept(s, e);
      case Answer(r) => AnswerKept(s, r);
      case HangUp => HangUpKept(s, e);
      case HangUpInside(_, _) => HangUpKept(s, e);
      case _ => OtherKept(s, e);
    }
  }

  // ---- Main results -------------------------------------------------------------------------

  /**
   In every run the server's lines are exactly the commands, in order, and a waiter's Ok is the
   server's reply to that very command, whichever waiters were abandoned. The one exception is the
   reply the server cut short by hanging up inside it.
   */
  lemma RepliesArePaired(run: Run, i: nat, k: nat)
    requires run.Valid() && i < |run.states|
    requires k in run.states[i].delivered && run.states[i].delivered[k].Ok?
    ensures var s := run.states[i];
      && k < |s.log|
      && (k < |s.server.served| ==> s.server.served[k] == Exchange(s.log[k], s.delivered[k].value))
      && (k >= |s.server.served| ==>
            && k == |s.server.served| && s.server.cut.Some?
            && CutOk(s.server.cut) && ReadReply(CutText(s.server.cut)).0 == Ok(Some(s.delivered[k].value)))
  {
    hide CompleteLines, Sent, PrintAll, ReadReply;
    RunInvariant(run, i);
    var s := run.states[i];
    WrittenLines(s);
    assert Right(s.server, k, s.results[k].value);
  }

  /**
   So when no reply is cut within the last line, an Ok is always the reply to its command: exactly
   the replies cut at least four characters into their last line, and before its end, get through wrong.
   */
  lemma OnlyCutRepliesAreWrong(run: Run, i: nat, k: nat)
    requires run.Valid() && i < |run.states|
    requires k in run.states[i].delivered && run.states[i].delivered[k].Ok?
    ensures var s := run.states[i];
      && CutOk(s.server.cut)
      && (k >= |s.server.served| ==>
            && s.server.cut.Some?
            && var r := s.server.cut.value.reply;
            var m := s.server.cut.value.sent - LastStart(r.code, r.lines);
            && m >= 4
            && (s.delivered[k].value == r <==> m >= |Payload(r.lines[|r.lines| - 1])| + 4))
  {
    hide CompleteLines, Sent, PrintAll, ReadReply, Right, PrintReply, LastStart;
    RunInvariant(run, i);
    RepliesArePaired(run, i, k);
    var s := run.states[i];
    if k >= |s.server.served| {
      TruncatedReply(s.server.cut.value.reply, s.server.cut.value.sent);
    }
  }

  /** In every run what was written splits into exactly the commands, with a beginning of the next one. */
  lemma WrittenIsCommands(run: Run, i: nat)
    requires run.Valid() && i < |run.states|
    ensures var s := run.states[i];
      && 0 <= WholeCommands(s) <= |s.log|
      && CompleteLines(s.written) == s.log[..WholeCommands(s)]
      && s.written <= Sent(s.log[..Taken(s)])
  {
    hide CompleteLines, Sent, Inbound, Pending;
    RunInvariant(run, i);
    WrittenLines(run.states[i]);
  }

  /** A waiter that has its answer never gets another one. */
  lemma {:induction false} AnsweredOnce(run: Run, i: nat, j: nat, waiter: nat)
    requires run.Valid() && i <= j < |run.states| && AnswerFor(run.states[i], waiter).Some?
    ensures AnswerFor(run.states[j], waiter) == AnswerFor(run.states[i], waiter)
  {
    hide CompleteLines, PrintReply, ReadReply, Sent, PrintAll, Right, Pending, ServedOk, CutOk;
    if i < j {
      AnsweredOnce(run, i, j - 1, waiter);
      RunInvariant(run, j - 1);
      assert run.Moves(j - 1);
      if IsBusy(run.states[j - 1]) {
        WaiterInTurn(run.states[j - 1]);
      }
    }
  }

  /** After the first error nothing more is written, taken or answered, in any continuation. */
  lemma {:induction false} NothingAfterError(run: Run, i: nat, j: nat, k: nat)
    requires run.Valid() && i <= j < |run.states|
    requires k < |run.states[i].results| && run.states[i].results[k].Err?
    ensures run.states[j].phase.Stopped? && k == |run.states[j].results| - 1
    ensures run.states[j].written == run.states[i].written
    ensures run.states[j].results == run.states[i].results
    ensures run.states[j].log == run.states[i].log
  {
    hide Outbound, Pending, CompleteLines, Right, PrintReply, ReadReply;
    RunInvariant(run, i);
    if i < j {
      NothingAfterError(run, i, j - 1, k);
      assert run.Moves(j - 1);
    }
  }

  // ---- A wrong Ok ---------------------------------------------------------------------------

  /** One command, sent and written, and the server hanging up inside its reply. */
  function CutEvents(command: string, r: ControlReply, sent: nat): seq<Event> {
    [Send(command), Take, Write(|command| + 2), HangUpInside(r, sent), Read]
  }

  lemma Next(run: Run, e: Event) returns (run': Run)
    requires run.Valid() && Enabled(run.states[|run.events|], e)
    ensures run'.Valid() && run'.events == run.events + [e] && |run'.states| == |run'.events| + 1
    ensures run'.states[|run'.events|] == Step(run.states[|run.events|], e)
  {
    hide Step, Enabled;
    run' := Run(run.states + [Step(run.states[|run.events|], e)], run.events + [e]);
    forall i | 0 <= i < |run'.events|
      ensures run'.Moves(i)
    {
      assert i < |run.events| ==> run.Moves(i);
    }
  }

  /** The actor waits for the reply to its first command. */
  lemma AskOnce(command: string) returns (run: Run)
    requires CommandOk(command)
    ensures run.Valid() && run.events == [Send(command), Take, Write(|command| + 2)] && |run.states| == 4
    ensures run.states[3]
         == START.(log := [command], phase := Reading(Request(command, 0)), written := command + CRLF)
  {
    hide CompleteLines, ReadReply, PrintReply, ReplyOk;
    run := Run([START], []);
    run := Next(run, Send(command));
    run := Next(run, Take);
    run := Next(run, Write(|command| + 2));
    var text := command + CRLF;
    assert [] + text[..|text|] == text && text[|text|..] == [];
  }

  /**
   Every command and every reply have such a run: when the server hangs up four characters or more
   into the last line and before the end of its payload, the waiter gets an Ok that is not the reply.
   */
  lemma WrongReplyIsDelivered(command: string, r: ControlReply, m: nat) returns (run: Run)
    requires CommandOk(command) && ReplyOk(r) && 4 <= m < |Payload(r.lines[|r.lines| - 1])| + 4
    ensures run.Valid() && run.events == CutEvents(command, r, LastStart(r.code, r.lines) + m)
    ensures |run.states| == 6 && run.states[5].server == Server([], true, Some(Cut(r, LastStart(r.code, r.lines) + m)))
    ensures exists wrong :: run.states[5].delivered == map[0 := Ok(wrong)] && wrong != r
  {
    hide *;
    LastLineLength(r);
    WrongRead(r, m);
    OkOutcome(ReadReply(PrintReply(r)[..LastStart(r.code, r.lines) + m]).0);
    run := CutRun(command, r, LastStart(r.code, r.lines) + m);
  }

  lemma CutRun(command: string, r: ControlReply, sent: nat) returns (run: Run)
    requires CommandOk(command) && r.lines != [] && ReplyOk(r) && sent < |PrintReply(r)|
    ensures run.Valid() && run.events == CutEvents(command, r, sent) && |run.states| == 6
    ensures run.states[5].server == Server([], true, Some(Cut(r, sent)))
    ensures run.states[5].delivered == map[0 := OutcomeOf(ReadReply(PrintReply(r)[..sent]).0)]
  {
    hide ReplyOk, ReadReply, PrintReply, CommandOk, Run.Valid, Step, Enabled, CompleteLines;
    run := AskOnce(command);
    CutAnswer(run.states[3], command, r, sent);
    run := Next(run, HangUpInside(r, sent));
    run := Next(run, Read);
  }

  lemma OkOutcome(got: Result<Option<ControlReply>, ProtocolError>)
    requires got.Ok? && got.value.Some?
    ensures OutcomeOf(got) == Ok(got.value.value)
  {
  }

  lemma LastLineLength(r: ControlReply)
    requires ReplyOk(r)
    ensures r.lines != []
    ensures |PrintReply(r)| == LastStart(r.code, r.lines) + |Payload(r.lines[|r.lines| - 1])| + 6
  {
    PrintedLength(r.code, r.lines);
    hide LineOk, PrintLines, LastStart, Payload;
  }

  lemma WrongRead(r: ControlReply, m: nat)
    requires r.lines != [] && ReplyOk(r) && 4 <= m < |Payload(r.lines[|r.lines| - 1])| + 4
    requires LastStart(r.code, r.lines) + m < |PrintReply(r)|
    ensures var got := ReadReply(PrintReply(r)[..LastStart(r.code, r.lines) + m]).0;
      got.Ok? && got.value.Some? && got.value.value != r
  {
    hide *;
    TruncatedReply(r, LastStart(r.code, r.lines) + m);
  }

  /** The server hangs up inside its first reply, and the actor reads what there is of it. */
  lemma CutAnswer(s: State, command: string, r: ControlReply, sent: nat)
    requires CommandOk(command) && ReplyOk(r) && sent < |PrintReply(r)|
    requires s == START.(log := [command], phase := Reading(Request(command, 0)), written := command + CRLF)
    ensures Enabled(s, HangUpInside(r, sent))
    ensures var t := Step(s, HangUpInside(r, sent));
      && Enabled(t, Read)
      && var u := Step(t, Read);
      && u.server == Server([], true, Some(Cut(r, sent)))
      && u.delivered == map[0 := OutcomeOf(ReadReply(PrintReply(r)[..sent]).0)]
  {
    assert r.lines != [];
    hide CompleteLines, ReadReply, PrintReply, ReplyOk;
    CommandIsLine(command);
    assert [] + PrintReply(r)[..sent] == PrintReply(r)[..sent];
  }

  lemma CommandIsLine(command: string)
    requires CommandOk(command)
    ensures CompleteLines(command + CRLF) == [command]
  {
    LineThrough(command, []);
    assert command + CRLF + [] == command + CRLF;
    assert CompleteLines([]) == [];
  }
}
