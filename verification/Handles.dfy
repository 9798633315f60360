/** The pool handle as an object, its calls run one at a time (src/pool/manager.rs:65-288). */
module Handles {
  import opened Wrappers
  import opened Lanes
  import opened Select
  import opened PoolCore
  import opened Protocol
  import opened Manager
  import Hex

  /** `gone` is set once the manager task has ended and dropped the receiver. */
  class Pool {
    const config: Config
    const shared: Shared
    var queue: seq<Command>
    var cursor: nat
    var closed: bool
    var gone: bool

    constructor (config: Config, shared: Shared)
      ensures this.config == config && this.shared == shared
      ensures queue == [] && cursor == 0 && !closed && !gone
    {
      this.config, this.shared := config, shared;
      queue, cursor, closed, gone := [], 0, false, false;
    }

    method SendCommand(c: Command) returns (sent: bool)
      modifies this`queue
      ensures sent == !gone
      ensures queue == if sent then old(queue) + [c] else old(queue)
    {
      if gone {
        return false;
      }
      queue := queue + [c];
      return true;
    }

    method ProxyFromEndpoint(e: Endpoint) returns (r: Result<Endpoint, Error>)
      modifies this`queue
      ensures r == if gone then Err(Closed) else Ok(e)
      ensures queue == if gone then old(queue) else old(queue) + [Assign(e.lane, e.epoch)]
    {
      var sent := SendCommand(Assign(e.lane, e.epoch));
      return if sent then Ok(e) else Err(Closed);
    }

    /** Round robin over the published snapshot; an assignment is queued exactly for a returned proxy. */
    method Next() returns (r: Result<Endpoint, Error>)
      modifies this`queue, this`cursor
      ensures old(closed) ==> r == Err(Closed)
      ensures !old(closed) && shared.ready == [] ==> r == Err(NoReadyLanes)
      ensures r.Ok? ==> shared.ready != [] && r.value == shared.ready[old(cursor) % |shared.ready|]
      ensures r.Ok? <==> !closed && !gone && shared.ready != []
      ensures cursor == if closed || shared.ready == [] then old(cursor) else (old(cursor) + 1) % U64_MODULUS
      ensures queue == if r.Ok? then old(queue) + [Assign(r.value.lane, r.value.epoch)] else old(queue)
    {
      if closed {
        return Err(Closed);
      }
      var ready := shared.ready;
      if |ready| == 0 {
        return Err(NoReadyLanes);
      }
      var index := cursor % |ready|;
      cursor := (cursor + 1) % U64_MODULUS;
      r := ProxyFromEndpoint(ready[index]);
    }

    /** The hashed lane's endpoint or an error naming that lane: never another lane. */
    method ForKey(key: seq<Hex.byte>) returns (r: Result<Endpoint, Error>)
      requires config.lanes > 0
      modifies this`queue
      ensures r.Ok? ==> r.value in shared.ready && r.value.lane == StableLaneIndex(key, config.lanes)
      ensures r.Err? ==> r.error == Closed || r.error == LaneUnavailable(StableLaneIndex(key, config.lanes))
      ensures r.Ok? <==> (!closed && !gone && FindEndpoint(shared.ready, StableLaneIndex(key, config.lanes)).Some?)
      ensures queue == if r.Ok? then old(queue) + [Assign(r.value.lane, r.value.epoch)] else old(queue)
    {
      if closed {
        return Err(Closed);
      }
      var lane := StableLaneIndex(key, config.lanes);
      var found := FindEndpoint(shared.ready, lane);
      if found.None? {
        return Err(LaneUnavailable(lane));
      }
      r := ProxyFromEndpoint(found.value);
    }

    /**
     The lane is hidden before the command is sent. A refused send takes the lane out of
     `unavailable` again, but the overwritten snapshot stays.
     */
    method QueueRotation(lane: nat, waiter: Option<nat>) returns (r: Result<(), Error>)
      modifies this`queue, shared
      ensures closed ==> r == Err(Closed)
      ensures !closed && lane >= config.lanes ==> r == Err(UnknownLane(lane))
      ensures !closed && lane < config.lanes && (forall e <- old(shared.ready) :: e.lane != lane) ==>
                r == Err(LaneUnavailable(lane))
      ensures var accepted := !closed && lane < config.lanes && exists e <- old(shared.ready) :: e.lane == lane;
        && (!accepted ==>
              && queue == old(queue) && shared.ready == old(shared.ready)
              && shared.unavailable == old(shared.unavailable))
        && (accepted && gone ==>
              && r == Err(Closed) && queue == old(queue)
              && shared.ready == Without(old(shared.ready), lane)
              && shared.unavailable == old(shared.unavailable) - {lane})
        && (accepted && !gone ==>
              && r == Ok(()) && queue == old(queue) + [Rotate(lane, waiter)]
              && shared.ready == Without(old(shared.ready), lane)
              && shared.unavailable == old(shared.unavailable) + {lane})
    {
      if closed {
        return Err(Closed);
      }
      if lane >= config.lanes {
        return Err(UnknownLane(lane));
      }
      var current := shared.ready;
      if FindEndpoint(current, lane).None? {
        return Err(LaneUnavailable(lane));
      }
      shared.unavailable := shared.unavailable + {lane};
      shared.ready := Without(current, lane);
      var sent := SendCommand(Rotate(lane, waiter));
      if !sent {
        shared.unavailable := shared.unavailable - {lane};
        return Err(Closed);
      }
      return Ok(());
    }
  }

  // ---- The same calls in the protocol, when nothing runs in between --------------------------

  /** A call taking up to `n` steps of its own with nobody interfering. */
  function Goes(s: State, call: nat, n: nat): State
    decreases n
  {
    if n == 0 || call !in s.calls || !CanGo(s, s.calls[call]) then s
    else Goes(GoCall(s, call), call, n - 1)
  }

  lemma OneGo(s: State, call: nat, n: nat)
    requires n > 0 && call in s.calls && CanGo(s, s.calls[call])
    ensures Goes(s, call, n) == Goes(GoCall(s, call), call, n - 1)
  {
  }

  lemma DoneRests(s: State, call: nat, n: nat)
    requires call in s.calls && !CanGo(s, s.calls[call])
    ensures Goes(s, call, n) == s
  {
  }

  /** Where a rotating call stands once its command is sent. */
  function AfterSend(awaited: bool): Call {
    if awaited then Waiting else Done(Returned(Ok(())))
  }

  /** What is left of a call that has hidden its lane: the send, or its refusal and the undo. */
  function Concluded(s: State, call: nat, lane: nat, awaited: bool): State {
    if s.mgr.Gone? then
      At(s, call, Done(Returned(Err(Closed)))).(core := s.core.(unavailable := s.core.unavailable - {lane}))
    else
      At(s, call, AfterSend(awaited)).(queue := s.queue + [Rotate(lane, if awaited then Some(call) else None)])
  }

  lemma Overrides(calls: map<nat, Call>, call: nat, c: Call, c': Call)
    ensures calls[call := c][call := c'] == calls[call := c']
  {
  }

  lemma SendingRefines(s: State, call: nat, lane: nat, awaited: bool)
    requires call in s.calls && s.calls[call] == Rotating(Overwritten(lane, awaited))
    ensures Goes(s, call, 2) == Concluded(s, call, lane, awaited)
  {
    hide Goes;
    OneGo(s, call, 2);
    var s' := GoCall(s, call);
    if s.mgr.Gone? {
      OneGo(s', call, 1);
      var t := GoCall(s', call);
      DoneRests(t, call, 0);
      assert t.calls == s.calls[call := t.calls[call]];
    } else {
      DoneRests(s', call, 1);
    }
  }

  lemma OverwritingRefines(s: State, call: nat, lane: nat, snapshot: seq<Endpoint>, awaited: bool)
    requires call in s.calls && s.calls[call] == Rotating(Inserted(lane, snapshot, awaited))
    ensures Goes(s, call, 3) == Concluded(s.(core := s.core.(ready := Without(snapshot, lane))), call, lane, awaited)
  {
    hide Without, Goes;
    OneGo(s, call, 3);
    var s' := GoCall(s, call);
    SendingRefines(s', call, lane, awaited);
    Overrides(s.calls, call, s'.calls[call], Done(Returned(Err(Closed))));
    Overrides(s.calls, call, s'.calls[call], AfterSend(awaited));
  }

  lemma InsertingRefines(s: State, call: nat, lane: nat, snapshot: seq<Endpoint>, awaited: bool)
    requires call in s.calls && s.calls[call] == Rotating(Looked(lane, snapshot, awaited))
    ensures Goes(s, call, 4)
         == Concluded(s.(core := s.core.(ready := Without(snapshot, lane),
                                         unavailable := s.core.unavailable + {lane})), call, lane, awaited)
  {
    hide Without, Goes;
    OneGo(s, call, 4);
    var s' := GoCall(s, call);
    OverwritingRefines(s', call, lane, snapshot, awaited);
    Overrides(s.calls, call, s'.calls[call], Done(Returned(Err(Closed))));
    Overrides(s.calls, call, s'.calls[call], AfterSend(awaited));
  }

  lemma LookingUp(s: State, call: nat, lane: nat, awaited: bool)
    requires call in s.calls && s.calls[call] == Rotating(Checked(lane, awaited)) && lane < s.config.lanes
    ensures GoCall(s, call) ==
      if FindEndpoint(s.core.ready, lane).None? then At(s, call, Done(Returned(Err(LaneUnavailable(lane)))))
      else At(s, call, Rotating(Looked(lane, s.core.ready, awaited)))
  {
    hide FindEndpoint, Without, GoHandOut, GoStop;
  }

  /** From a lane that is there to the end of the call. */
  lemma CheckedRefines(s: State, call: nat, lane: nat, awaited: bool)
    requires call in s.calls && s.calls[call] == Rotating(Checked(lane, awaited)) && lane < s.config.lanes
    ensures var t := Goes(s, call, 5);
      if FindEndpoint(s.core.ready, lane).None? then t == At(s, call, Done(Returned(Err(LaneUnavailable(lane)))))
      else if s.mgr.Gone? then
        t == At(s, call, Done(Returned(Err(Closed)))).(
          core := s.core.(ready := Without(s.core.ready, lane), unavailable := s.core.unavailable - {lane}))
      else
        t == At(s, call, AfterSend(awaited)).(
          queue := s.queue + [Rotate(lane, if awaited then Some(call) else None)],
          core := s.core.(ready := Without(s.core.ready, lane), unavailable := s.core.unavailable + {lane}))
  {
    hide Without, Goes, FindEndpoint, GoCall;
    OneGo(s, call, 5);
    LookingUp(s, call, lane, awaited);
    var s' := GoCall(s, call);
    if FindEndpoint(s.core.ready, lane).None? {
      DoneRests(s', call, 4);
    } else {
      InsertingRefines(s', call, lane, s.core.ready, awaited);
      Overrides(s.calls, call, s'.calls[call], Done(Returned(Err(Closed))));
      Overrides(s.calls, call, s'.calls[call], AfterSend(awaited));
      assert s.core.unavailable + {lane} - {lane} == s.core.unavailable - {lane};
    }
  }

  /**
   `QueueRotation` from its start, with and without a waiter, of an open and a closed pool, with the
   manager there and gone, is that event and up to five steps of the protocol in a row.
   */
  lemma RotationRefines(s: State, call: nat, lane: nat, awaited: bool)
    requires Enabled(s, Start(call, AskRotate(lane, awaited)))
    ensures var t := Goes(Step(s, Start(call, AskRotate(lane, awaited))), call, 5);
      if s.closed then t == At(s, call, Done(Returned(Err(Closed))))
      else if lane >= s.config.lanes then t == At(s, call, Done(Returned(Err(UnknownLane(lane)))))
      else if forall e <- s.core.ready :: e.lane != lane then
        t == At(s, call, Done(Returned(Err(LaneUnavailable(lane)))))
      else if s.mgr.Gone? then
        t == At(s, call, Done(Returned(Err(Closed)))).(
          core := s.core.(ready := Without(s.core.ready, lane), unavailable := s.core.unavailable - {lane}))
      else
        t == At(s, call, if awaited then Waiting else Done(Returned(Ok(())))).(
          queue := s.queue + [Rotate(lane, if awaited then Some(call) else None)],
          core := s.core.(ready := Without(s.core.ready, lane), unavailable := s.core.unavailable + {lane}))
  {
    hide Without, Goes, GoCall;
    var s' := Step(s, Start(call, AskRotate(lane, awaited)));
    if s.closed || lane >= s.config.lanes {
      DoneRests(s', call, 5);
    } else {
      CheckedRefines(s', call, lane, awaited);
      assert s'.calls == s.calls[call := Rotating(Checked(lane, awaited))];
      Overrides(s.calls, call, s'.calls[call], Done(Returned(Err(Closed))));
      Overrides(s.calls, call, s'.calls[call], Done(Returned(Err(LaneUnavailable(lane)))));
      Overrides(s.calls, call, s'.calls[call], AfterSend(awaited));
    }
  }

  // ---- Handing out --------------------------------------------------------------------------

  /** What a call with `endpoint` in hand comes to: a counted proxy, or Closed once the manager is gone. */
  function Proxied(s: State, call: nat, e: Endpoint): State {
    if s.mgr.Gone? then At(s, call, Done(Returned(Err(Closed))))
    else At(s, call, Done(Given(e))).(queue := s.queue + [Assign(e.lane, e.epoch)])
  }

  lemma HandingRefines(s: State, call: nat, e: Endpoint)
    requires call in s.calls && s.calls[call] == Choosing(HandingOut(e))
    ensures Goes(s, call, 1) == Proxied(s, call, e)
  {
    hide Goes;
    OneGo(s, call, 1);
    DoneRests(GoCall(s, call), call, 0);
  }

  lemma Chooses(s: State, call: nat, pick: Pick)
    requires call in s.calls && s.calls[call] == Choosing(Selecting(pick))
    ensures var t := At(s, call, Choosing(Holding(pick, s.core.ready)));
      && Goes(s, call, 3) == Goes(t, call, 2)
      && Goes(t, call, 2) == Goes(GoCall(t, call), call, 1)
      && GoCall(t, call) == At(s, call, Chosen(s.core.ready, pick, s.cursor)).(
           cursor := if pick.Next? && s.core.ready != [] then (s.cursor + 1) % U64_MODULUS else s.cursor)
  {
    hide Goes, Chosen;
    OneGo(s, call, 3);
    var t := GoCall(s, call);
    assert t == At(s, call, Choosing(Holding(pick, s.core.ready)));
    OneGo(t, call, 2);
    Overrides(s.calls, call, t.calls[call], Chosen(s.core.ready, pick, s.cursor));
  }

  lemma SelectingNextRefines(s: State, call: nat)
    requires call in s.calls && s.calls[call] == Choosing(Selecting(Next))
    ensures var ready := s.core.ready;
      Goes(s, call, 3) ==
      if ready == [] then At(s, call, Done(Returned(Err(NoReadyLanes))))
      else Proxied(s, call, ready[s.cursor % |ready|]).(cursor := (s.cursor + 1) % U64_MODULUS)
  {
    hide Goes, GoCall;
    Chooses(s, call, Next);
    var t := GoCall(At(s, call, Choosing(Holding(Next, s.core.ready))), call);
    if s.core.ready == [] {
      DoneRests(t, call, 1);
    } else {
      var e := s.core.ready[s.cursor % |s.core.ready|];
      HandingRefines(t, call, e);
      Overrides(s.calls, call, t.calls[call], Done(Given(e)));
      Overrides(s.calls, call, t.calls[call], Done(Returned(Err(Closed))));
    }
  }

  lemma SelectingKeyRefines(s: State, call: nat, lane: nat)
    requires call in s.calls && s.calls[call] == Choosing(Selecting(Key(lane)))
    ensures Goes(s, call, 3) ==
      match FindEndpoint(s.core.ready, lane)
      case None => At(s, call, Done(Returned(Err(LaneUnavailable(lane)))))
      case Some(e) => Proxied(s, call, e)
  {
    hide Goes, GoCall, FindEndpoint;
    Chooses(s, call, Key(lane));
    var t := GoCall(At(s, call, Choosing(Holding(Key(lane), s.core.ready))), call);
    match FindEndpoint(s.core.ready, lane)
    case None => DoneRests(t, call, 1);
    case Some(e) =>
      HandingRefines(t, call, e);
      Overrides(s.calls, call, t.calls[call], Done(Given(e)));
      Overrides(s.calls, call, t.calls[call], Done(Returned(Err(Closed))));
  }

  lemma Starts(s: State, call: nat, c: Call, c': Call)
    ensures At(At(s, call, c), call, c') == At(s, call, c')
    ensures forall e :: Proxied(At(s, call, c), call, e) == Proxied(s, call, e)
  {
    Overrides(s.calls, call, c, c');
    forall e
      ensures Proxied(At(s, call, c), call, e) == Proxied(s, call, e)
    {
      Overrides(s.calls, call, c, Done(Given(e)));
      Overrides(s.calls, call, c, Done(Returned(Err(Closed))));
    }
  }

  /** `Next` from its start is that event and three steps of the protocol in a row. */
  lemma NextRefines(s: State, call: nat)
    requires Enabled(s, Start(call, AskNext))
    ensures var (t, ready) := (Goes(Step(s, Start(call, AskNext)), call, 3), s.core.ready);
      if s.closed then t == At(s, call, Done(Returned(Err(Closed))))
      else if ready == [] then t == At(s, call, Done(Returned(Err(NoReadyLanes))))
      else t == Proxied(s, call, ready[s.cursor % |ready|]).(cursor := (s.cursor + 1) % U64_MODULUS)
  {
    hide Goes, Proxied;
    var s' := Step(s, Start(call, AskNext));
    if s.closed {
      DoneRests(s', call, 3);
    } else {
      SelectingNextRefines(s', call);
      assert s' == At(s, call, Choosing(Selecting(Next)));
      Starts(s, call, Choosing(Selecting(Next)), Done(Returned(Err(NoReadyLanes))));
    }
  }

  /** `ForKey` from its start is that event and three steps of the protocol in a row. */
  lemma ForKeyRefines(s: State, call: nat, key: seq<Hex.byte>)
    requires Enabled(s, Start(call, AskKey(key)))
    ensures var t := Goes(Step(s, Start(call, AskKey(key))), call, 3);
      var lane := StableLaneIndex(key, s.config.lanes);
      if s.closed then t == At(s, call, Done(Returned(Err(Closed))))
      else
        match FindEndpoint(s.core.ready, lane)
        case None => t == At(s, call, Done(Returned(Err(LaneUnavailable(lane)))))
        case Some(e) => t == Proxied(s, call, e)
  {
    hide Goes, Proxied, StableLaneIndex, FindEndpoint;
    var s' := Step(s, Start(call, AskKey(key)));
    var lane := StableLaneIndex(key, s.config.lanes);
    if s.closed {
      DoneRests(s', call, 3);
    } else {
      SelectingKeyRefines(s', call, lane);
      assert s' == At(s, call, Choosing(Selecting(Key(lane))));
      Starts(s, call, Choosing(Selecting(Key(lane))), Done(Returned(Err(LaneUnavailable(lane)))));
    }
  }
}
