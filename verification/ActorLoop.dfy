/** The loop of `run_actor` over a reader and a writer that may fail (src/tor/controller/client.rs:168-191). */
module ActorLoop {
  import opened Wrappers
  import opened Codec
  import opened Framing
  import opened Reader
  import opened Actor

  /** The write half: it takes `capacity` more bytes, then fails. */
  class Wire {
    var written: string
    var capacity: nat

    constructor (n: nat)
      ensures written == [] && capacity == n
    {
      written := [];
      capacity := n;
    }

    method WriteAll(text: string) returns (ok: bool)
      modifies this
      ensures ok == (|text| <= old(capacity))
      ensures written == old(written) + (if ok then text else text[..old(capacity)])
      ensures capacity == if ok then old(capacity) - |text| else 0
    {
      if |text| <= capacity {
        written := written + text;
        capacity := capacity - |text|;
        return true;
      }
      written := written + text[..capacity];
      capacity := 0;
      return false;
    }
  }

  /** One command: the outcome and the input left. */
  function Attempt(command: string, input: string, capacity: nat): (Outcome, string) {
    if |command| + 2 > capacity then (Err(Io), input)
    else (OutcomeOf(ReadReply(input).0), ReadReply(input).1)
  }

  /** The outcomes of a list of commands up to the first error. */
  function Outcomes(commands: seq<string>, input: string, capacity: nat): seq<Outcome> {
    if commands == [] then []
    else
      var (outcome, rest) := Attempt(commands[0], input, capacity);
      if outcome.Err? then [outcome]
      else [outcome] + Outcomes(commands[1..], rest, capacity - |commands[0]| - 2)
  }

  function Min(a: nat, b: nat): nat {
    if a < b then a else b
  }

  lemma {:induction false} SentJoins(commands: seq<string>, more: seq<string>)
    ensures Sent(commands + more) == Sent(commands) + Sent(more)
    decreases |more|
  {
    if more == [] {
      assert commands + more == commands;
    } else {
      var front, last := more[..|more| - 1], more[|more| - 1];
      assert (commands + more)[..|commands + more| - 1] == commands + front;
      SentJoins(commands, front);
    }
  }

  /** As much of `text` as fits. */
  function Fitting(text: string, capacity: nat): string {
    text[..Min(|text|, capacity)]
  }

  /** One command: written with its line end, then its reply read. */
  method Serve(command: string, reader: ReplyReader, wire: Wire) returns (outcome: Outcome)
    modifies reader, wire
    ensures (outcome, reader.rest) == Attempt(command, old(reader.rest), old(wire.capacity))
    ensures wire.written == old(wire.written) + Fitting(command + CRLF, old(wire.capacity))
    ensures |wire.written| + wire.capacity == |old(wire.written)| + old(wire.capacity)
  {
    hide ReadReply;
    var body := wire.WriteAll(command);
    if !body {
      assert Fitting(command + CRLF, old(wire.capacity)) == command[..old(wire.capacity)];
      return Err(Io);
    }
    assert Fitting(command + CRLF, old(wire.capacity)) == command + Fitting(CRLF, old(wire.capacity) - |command|);
    var line := wire.WriteAll(CRLF);
    if !line {
      return Err(Io);
    }
    var got := reader.ReadWholeReply();
    outcome := OutcomeOf(got);
  }

  lemma FittingSnoc(text: string, more: string, capacity: nat)
    requires |text| <= capacity
    ensures Fitting(text + more, capacity) == text + Fitting(more, capacity - |text|)
    ensures |text| + |more| <= capacity ==> Fitting(text + more, capacity) == text + more
  {
  }

  /** The actor serves the channel until it is empty or a command fails, and tells how each one went. */
  method RunActor(commands: seq<string>, reader: ReplyReader, wire: Wire) returns (results: seq<Outcome>)
    requires wire.written == []
    modifies reader, wire
    ensures results == Outcomes(commands, old(reader.rest), old(wire.capacity))
    ensures |results| <= |commands|
    ensures wire.written == Fitting(Sent(commands[..|results|]), old(wire.capacity))
  {
    hide Sent, Fitting, Attempt;
    results := [];
    var i := 0;
    assert commands[0..] == commands;
    assert wire.written == Sent(commands[..0]) == Fitting(Sent(commands[..0]), wire.capacity) by {
      NothingSent(commands, wire.capacity);
    }
    while i < |commands|
      invariant i == |results| <= |commands|
      invariant wire.written == Sent(commands[..i]) == Fitting(Sent(commands[..i]), old(wire.capacity))
      invariant |wire.written| + wire.capacity == old(wire.capacity)
      invariant Outcomes(commands, old(reader.rest), old(wire.capacity))
                == results + Outcomes(commands[i..], reader.rest, wire.capacity)
      decreases |commands| - i
    {
      ghost var room := wire.capacity;
      assert commands[i..][1..] == commands[i + 1..];
      assert commands[..i + 1] == commands[..i] + [commands[i]];
      SentSnoc(commands[..i], commands[i]);
      FittingSnoc(Sent(commands[..i]), commands[i] + CRLF, old(wire.capacity));
      var outcome := Serve(commands[i], reader, wire);
      results := results + [outcome];
      i := i + 1;
      if outcome.Err? {
        return;
      }
      RoomEnough(commands[i - 1], room, outcome);
    }
  }

  lemma NothingSent(commands: seq<string>, capacity: nat)
    ensures Sent(commands[..0]) == [] && Fitting([], capacity) == []
  {
  }

  /** A command that went well was written whole. */
  lemma RoomEnough(command: string, capacity: nat, outcome: Outcome)
    ensures |command| + 2 <= capacity ==> Fitting(command + CRLF, capacity) == command + CRLF
    ensures forall input: string :: Attempt(command, input, capacity).0.Ok? ==> |command| + 2 <= capacity
  {
  }

  /** The first `n` of a list of replies, as outcomes. */
  function Successes(replies: seq<ControlReply>): (r: seq<Outcome>)
    ensures |r| == |replies|
  {
    seq(|replies|, i requires 0 <= i < |replies| => Ok(replies[i]))
  }

  /**
   Given a writer that takes everything and the printed replies to come, every command gets the
   reply at its own position; when the replies run out first, the next command is the last and fails.
   */
  lemma {:induction false} LoopPairs(commands: seq<string>, replies: seq<ControlReply>, capacity: nat)
    requires AllOk(replies) && capacity >= |Sent(commands)|
    ensures Outcomes(commands, PrintAll(replies), capacity)
            == if |commands| <= |replies| then Successes(replies[..|commands|])
               else Successes(replies) + [Err(ChannelClosed)]
    decreases |commands|
  {
    hide PrintReply, ReadReply, ReplyOk, Sent;
    if commands != [] {
      RoomForFirst(commands);
      if replies == [] {
        NothingToRead();
      } else {
        ReplyRoundTrip(replies[0], PrintAll(replies[1..]));
        LoopPairs(commands[1..], replies[1..], capacity - |commands[0]| - 2);
      }
    }
  }

  lemma RoomForFirst(commands: seq<string>)
    requires commands != []
    ensures |Sent(commands)| == |commands[0]| + 2 + |Sent(commands[1..])|
  {
    SentJoins([commands[0]], commands[1..]);
    assert [commands[0]] + commands[1..] == commands;
    assert [commands[0]][..0] == [];
  }
}
