/**
 The pool as a concurrent protocol: any number of calls on any number of handles, and one
 manager, interleaved at every access to a shared value (src/pool/manager.rs:65-338).

 Each lock operation, atomic operation and channel operation is one step. Work on state only
 the manager can see is merged with the shared access that follows it.
 */
module Protocol {
  import opened Wrappers
  import opened Lanes
  import opened Select
  import opened PoolCore
  import Hex

  /** A command in the manager's channel; a waiter is the call holding the response channel. */
  datatype Command =
    | Assign(lane: nat, epoch: nat)
    | Rotate(lane: nat, waiter: Option<nat>)
    | Restart(caller: nat)
    | Shutdown(caller: nat)

  /** What a call has returned; `Cancelled` when its caller stopped waiting. */
  datatype Answer = Given(proxy: Endpoint) | Returned(verdict: Verdict) | Cancelled

  /** What the manager sends back, and what calls without a proxy return. */
  type Verdict = Result<(), Error>

  datatype Pick = Next | Key(lane: nat)

  // Where a call stands, with the values it holds between two shared accesses.

  /** `next` and `for_key`. */
  datatype HandOut =
    | Selecting(pick: Pick)
    | Holding(pick: Pick, snapshot: seq<Endpoint>)
    | HandingOut(endpoint: Endpoint)

  /** `queue_rotation`; `awaited` when a response channel goes with the command. */
  datatype Rotation =
    | Checked(lane: nat, awaited: bool)
    | Looked(lane: nat, snapshot: seq<Endpoint>, awaited: bool)
    | Inserted(lane: nat, snapshot: seq<Endpoint>, awaited: bool)
    | Overwritten(lane: nat, awaited: bool)
    | Undoing(lane: nat)

  /** `shutdown`, for the caller that won the swap and for every other one. */
  datatype Stop = Won | Asked | Joining(verdict: Verdict) | JoiningTask(verdict: Verdict)

  datatype Call =
    | Choosing(handOut: HandOut)
    | Rotating(rotation: Rotation)
    | RestartOpen
    | Waiting
    | Stopping(stop: Stop)
    | Done(answer: Answer)

  // Where the manager task stands.

  datatype Reply = Silent | To(waiter: nat, verdict: Verdict)

  datatype Publication =
    | Removing(lane: nat, reply: Reply)
    | Computing(reply: Reply)
    | Storing(snapshot: seq<Endpoint>, reply: Reply)
    | Replying(waiter: nat, verdict: Verdict)

  datatype RestartPhase = HidingReady | RetiringLanes | HaltingOld | StartingNew | MovingLanes(next: nat)

  datatype ClosePhase = LastHide | LastHalt | LastReply(verdict: Verdict) | Exiting

  datatype Manager =
    | Idle
    | Publishing(publication: Publication)
    | Restarting(waiter: nat, phase: RestartPhase)
    | Closing(closer: Option<nat>, last: ClosePhase)
    | Gone

  datatype State = State(
    config: Config, core: Core, queue: seq<Command>, calls: map<nat, Call>, mgr: Manager,
    cursor: nat, closed: bool, handle: bool, dropped: bool, now: nat)

  datatype Request =
    | AskNext
    | AskKey(key: seq<Hex.byte>)
    | AskRotate(lane: nat, awaited: bool)
    | AskRestart
    | AskShutdown

  /** What the world outside the pool decides when the manager steps. */
  datatype Env = Env(entropy: Entropy, stopOk: bool, started: Option<Runtime>)

  datatype Event =
    | Start(call: nat, request: Request)
    | Go(call: nat)
    | Cancel(call: nat)
    | DropPool
    | Receive(entropy: Entropy)
    | HangUp
    | Tick(entropies: seq<Entropy>)
    | Work(env: Env)
    | Elapse(duration: nat)

  // ---- Calls --------------------------------------------------------------------------------

  function Opened(s: State, request: Request): Call
    requires s.config.lanes > 0
  {
    match request
    case AskNext => if s.closed then Done(Returned(Err(Closed))) else Choosing(Selecting(Next))
    case AskKey(key) =>
      if s.closed then Done(Returned(Err(Closed)))
      else Choosing(Selecting(Key(StableLaneIndex(key, s.config.lanes))))
    case AskRotate(lane, awaited) =>
      if s.closed then Done(Returned(Err(Closed)))
      else if lane >= s.config.lanes then Done(Returned(Err(UnknownLane(lane))))
      else Rotating(Checked(lane, awaited))
    case AskRestart => if s.closed then Done(Returned(Err(Closed))) else RestartOpen
    case AskShutdown => Stopping(if s.closed then Joining(Ok(())) else Won)
  }

  function At(s: State, call: nat, c: Call): State {
    s.(calls := s.calls[call := c])
  }

  /** A send succeeds exactly while the manager task holds the receiver. */
  function Send(s: State, call: nat, command: Command, sent: Call, refused: Call): State {
    if s.mgr.Gone? then At(s, call, refused)
    else At(s, call, sent).(queue := s.queue + [command])
  }

  function Chosen(snapshot: seq<Endpoint>, pick: Pick, cursor: nat): Call {
    match pick
    case Next =>
      if snapshot == [] then Done(Returned(Err(NoReadyLanes)))
      else Choosing(HandingOut(snapshot[cursor % |snapshot|]))
    case Key(lane) =>
      match FindEndpoint(snapshot, lane)
      case None => Done(Returned(Err(LaneUnavailable(lane))))
      case Some(endpoint) => Choosing(HandingOut(endpoint))
  }

  function GoHandOut(s: State, call: nat, h: HandOut): State {
    match h
    case Selecting(pick) => At(s, call, Choosing(Holding(pick, s.core.ready)))
    case Holding(pick, snapshot) =>
      At(s, call, Chosen(snapshot, pick, s.cursor)).(
        cursor := if pick.Next? && snapshot != [] then (s.cursor + 1) % U64_MODULUS else s.cursor)
    case HandingOut(e) =>
      Send(s, call, Assign(e.lane, e.epoch), Done(Given(e)), Done(Returned(Err(Closed))))
  }

  function GoRotation(s: State, call: nat, r: Rotation): State {
    match r
    case Checked(lane, awaited) =>
      if FindEndpoint(s.core.ready, lane).None? then At(s, call, Done(Returned(Err(LaneUnavailable(lane)))))
      else At(s, call, Rotating(Looked(lane, s.core.ready, awaited)))
    case Looked(lane, snapshot, awaited) =>
      At(s, call, Rotating(Inserted(lane, snapshot, awaited))).(
        core := s.core.(unavailable := s.core.unavailable + {lane}))
    case Inserted(lane, snapshot, awaited) =>
      At(s, call, Rotating(Overwritten(lane, awaited))).(
        core := s.core.(ready := Without(snapshot, lane)))
    case Overwritten(lane, awaited) =>
      Send(s, call, Rotate(lane, if awaited then Some(call) else None),
           if awaited then Waiting else Done(Returned(Ok(()))), Rotating(Undoing(lane)))
    case Undoing(lane) =>
      At(s, call, Done(Returned(Err(Closed)))).(core := s.core.(unavailable := s.core.unavailable - {lane}))
  }

  function GoStop(s: State, call: nat, p: Stop): State {
    match p
    case Won => Send(s, call, Shutdown(call), Stopping(Asked), Stopping(Joining(Ok(()))))
    case Asked => At(s, call, Stopping(Joining(Ok(()))))
    case Joining(verdict) =>
      if s.handle then At(s, call, Stopping(JoiningTask(verdict))).(handle := false)
      else At(s, call, Done(Returned(verdict)))
    case JoiningTask(verdict) => At(s, call, Done(Returned(verdict)))
  }

  /** A call that waits for the manager moves by itself only when the manager is gone. */
  predicate Waits(c: Call) {
    c.Waiting? || (c.Stopping? && (c.stop.Asked? || c.stop.JoiningTask?))
  }

  predicate CanGo(s: State, c: Call) {
    !c.Done? && (Waits(c) ==> s.mgr.Gone?)
  }

  function GoCall(s: State, call: nat): State
    requires call in s.calls && CanGo(s, s.calls[call])
  {
    match s.calls[call]
    case Choosing(h) => GoHandOut(s, call, h)
    case Rotating(r) => GoRotation(s, call, r)
    case RestartOpen => Send(s, call, Restart(call), Waiting, Done(Returned(Err(Closed))))
    case Waiting => At(s, call, Done(Returned(Err(Closed))))
    case Stopping(p) => GoStop(s, call, p)
    case Done(_) => assert false; s
  }

  /** A step of a call moves that call only, and leaves the manager and its lanes alone. */
  ghost predicate MovesOnly(s: State, call: nat, s': State) {
    && call in s'.calls && s'.calls == s.calls[call := s'.calls[call]]
    && s.queue <= s'.queue && |s'.queue| <= |s.queue| + 1
    && s'.core.lanes == s.core.lanes && s'.core.runtime == s.core.runtime && s'.core.running == s.core.running
    && s'.mgr == s.mgr && s'.config == s.config && s'.closed == s.closed && s'.dropped == s.dropped
  }

  lemma HandOutMovesOnly(s: State, call: nat, h: HandOut)
    ensures MovesOnly(s, call, GoHandOut(s, call, h))
  {
  }

  lemma RotationMovesOnly(s: State, call: nat, r: Rotation)
    ensures MovesOnly(s, call, GoRotation(s, call, r))
  {
  }

  lemma StopMovesOnly(s: State, call: nat, p: Stop)
    ensures MovesOnly(s, call, GoStop(s, call, p))
  {
  }

  lemma GoMovesOnly(s: State, call: nat)
    requires call in s.calls && CanGo(s, s.calls[call])
    ensures MovesOnly(s, call, GoCall(s, call))
  {
    hide GoHandOut, GoRotation, GoStop;
    match s.calls[call]
    case Choosing(h) => HandOutMovesOnly(s, call, h);
    case Rotating(r) => RotationMovesOnly(s, call, r);
    case Stopping(p) => StopMovesOnly(s, call, p);
    case _ =>
  }

  // ---- The manager --------------------------------------------------------------------------

  function ReplyTo(waiter: Option<nat>, verdict: Verdict): Reply {
    match waiter case None => Silent case Some(w) => To(w, verdict)
  }

  function Finish(reply: Reply): Manager {
    match reply case Silent => Idle case To(w, verdict) => Publishing(Replying(w, verdict))
  }

  /** Sending on a response channel: it reaches the call only if the call still waits. */
  function Deliver(calls: map<nat, Call>, waiter: nat, verdict: Verdict): map<nat, Call> {
    if waiter in calls && calls[waiter] == Waiting then calls[waiter := Done(Returned(verdict))]
    else if waiter in calls && calls[waiter] == Stopping(Asked) then
      calls[waiter := Stopping(Joining(verdict))]
    else calls
  }

  function TakeAssign(s: State, lane: nat, epoch: nat, entropy: Entropy): State {
    s.(core := s.core.(lanes := AssignLanes(s.core, s.config.limit, lane, epoch, entropy, s.now)),
       mgr := if AssignRotates(s.core.lanes, s.config.limit, lane, epoch)
              then Publishing(Computing(Silent)) else Idle)
  }

  function TakeRotate(s: State, lane: nat, waiter: Option<nat>, entropy: Entropy): State {
    var result := RotateResult(s.core.lanes, lane, entropy);
    var reply := ReplyTo(waiter, result);
    s.(core := s.core.(lanes := RotateLanes(s.core, lane, entropy, s.now)),
       mgr := if result.Ok? then Publishing(Removing(lane, reply))
              else if result.error.UnknownLane? then Finish(reply)
              else Publishing(Computing(reply)))
  }

  function TakeCommand(s: State, entropy: Entropy): State
    requires s.queue != []
  {
    var t := s.(queue := s.queue[1..]);
    match s.queue[0]
    case Assign(lane, epoch) => TakeAssign(t, lane, epoch, entropy)
    case Rotate(lane, waiter) => TakeRotate(t, lane, waiter, entropy)
    case Restart(caller) =>
      t.(mgr := if s.config.restartable then Restarting(caller, HidingReady)
                else Publishing(Replying(caller, Err(RestartUnavailable))))
    case Shutdown(caller) => t.(mgr := Closing(Some(caller), LastHide))
  }

  function TakeTick(s: State, entropies: seq<Entropy>): State
    requires |entropies| == |s.core.lanes|
  {
    s.(core := s.core.(lanes := ExpireLanes(s.core, s.config.ttl, entropies, s.now)),
       mgr := if AnyExpired(s.core.lanes, s.config.ttl, s.now)
              then Publishing(Computing(Silent)) else Idle)
  }

  function WorkPublication(s: State, p: Publication): State {
    match p
    case Removing(lane, reply) =>
      s.(core := s.core.(unavailable := s.core.unavailable - {lane}), mgr := Publishing(Computing(reply)))
    case Computing(reply) =>
      s.(mgr := Publishing(Storing(ReadyLanes(s.core.lanes, s.core.unavailable), reply)))
    case Storing(snapshot, reply) => s.(core := s.core.(ready := snapshot), mgr := Finish(reply))
    case Replying(waiter, verdict) => s.(calls := Deliver(s.calls, waiter, verdict), mgr := Idle)
  }

  function WorkRestart(s: State, waiter: nat, phase: RestartPhase, env: Env): State {
    match phase
    case HidingReady => s.(core := s.core.(ready := []), mgr := Restarting(waiter, RetiringLanes))
    case RetiringLanes =>
      s.(core := s.core.(unavailable := s.core.unavailable + Ids(s.core.lanes),
                         lanes := WithState(s.core.lanes, Retiring)),
         mgr := Restarting(waiter, HaltingOld))
    case HaltingOld =>
      s.(core := s.core.(running := false),
         mgr := if s.core.running && !env.stopOk then Publishing(Replying(waiter, Err(Instance)))
                else Restarting(waiter, StartingNew))
    case StartingNew =>
      if env.started.None? then
        s.(core := s.core.(lanes := WithState(s.core.lanes, Failed)),
           mgr := Publishing(Computing(To(waiter, Err(Instance)))))
      else
        s.(core := s.core.(runtime := env.started.value, running := true),
           mgr := Restarting(waiter, MovingLanes(0)))
    case MovingLanes(next) =>
      if next >= |s.core.lanes| then s.(mgr := Publishing(Computing(To(waiter, Ok(())))))
      else s.(core := RestartLane(s.core, next, env.entropy, s.now),
              mgr := Restarting(waiter, MovingLanes(next + 1)))
  }

  function WorkClose(s: State, closer: Option<nat>, last: ClosePhase, env: Env): State {
    match last
    case LastHide => s.(core := s.core.(ready := []), mgr := Closing(closer, LastHalt))
    case LastHalt =>
      s.(core := s.core.(running := false),
         mgr := Closing(closer, LastReply(ShutdownResult(s.core, env.stopOk))))
    case LastReply(verdict) =>
      s.(calls := if closer.Some? then Deliver(s.calls, closer.value, verdict) else s.calls,
         mgr := Closing(closer, Exiting))
    case Exiting => s.(queue := [], mgr := Gone)
  }

  function WorkStep(s: State, env: Env): State
    requires !s.mgr.Idle? && !s.mgr.Gone?
  {
    match s.mgr
    case Publishing(p) => WorkPublication(s, p)
    case Restarting(waiter, phase) => WorkRestart(s, waiter, phase, env)
    case Closing(closer, last) => WorkClose(s, closer, last, env)
    case _ => assert false; s
  }

  /** The manager has computed a snapshot and not stored it yet. */
  predicate IsStoring(m: Manager) {
    m.Publishing? && m.publication.Storing?
  }

  // ---- Steps and runs -----------------------------------------------------------------------

  ghost predicate Enabled(s: State, e: Event) {
    match e
    case Start(call, request) => call !in s.calls && !s.dropped && s.config.lanes > 0
    case Go(call) => call in s.calls && CanGo(s, s.calls[call])
    case Cancel(call) =>
      call in s.calls && Waits(s.calls[call])
    case DropPool => forall t <- s.calls :: s.calls[t].Done?
    case Receive(_) => s.mgr.Idle? && s.queue != []
    case HangUp => s.mgr.Idle? && s.queue == [] && s.dropped
    case Tick(entropies) => s.mgr.Idle? && |entropies| == |s.core.lanes|
    case Work(_) => !s.mgr.Idle? && !s.mgr.Gone?
    case Elapse(_) => true
  }

  ghost function Step(s: State, e: Event): State
    requires Enabled(s, e)
  {
    match e
    case Start(call, request) =>
      At(s, call, Opened(s, request)).(closed := s.closed || request.AskShutdown?)
    case Go(call) => GoCall(s, call)
    case Cancel(call) => At(s, call, Done(Cancelled))
    case DropPool => s.(dropped := true)
    case Receive(entropy) => TakeCommand(s, entropy)
    case HangUp => s.(mgr := Closing(None, LastHide))
    case Tick(entropies) => TakeTick(s, entropies)
    case Work(env) => WorkStep(s, env)
    case Elapse(duration) => s.(now := s.now + duration)
  }

  /** Taking a command or a tick touches the lanes and the queue, and nothing anybody else can see. */
  lemma TakeFrame(s: State, e: Event)
    requires Enabled(s, e) && (e.Receive? || e.Tick?)
    ensures var s' := Step(s, e);
      && s'.config == s.config && s'.calls == s.calls && s'.core == s.core.(lanes := s'.core.lanes)
      && s'.queue == if e.Receive? then s.queue[1..] else s.queue
  {
    hide AssignLanes, RotateLanes, ExpireLanes, AssignRotates, RotateResult, AnyExpired, ReplyTo, Finish;
  }

  lemma TakenLanes(s: State, entropy: Entropy)
    requires s.queue != []
    ensures TakeCommand(s, entropy).core.lanes
         == match s.queue[0]
            case Assign(lane, epoch) => AssignLanes(s.core, s.config.limit, lane, epoch, entropy, s.now)
            case Rotate(lane, _) => RotateLanes(s.core, lane, entropy, s.now)
            case _ => s.core.lanes
  {
    hide ReplyTo, Finish, AssignLanes, RotateLanes, AssignRotates, RotateResult;
    var t := s.(queue := s.queue[1..]);
    assert t.core == s.core && t.config == s.config && t.now == s.now;
  }

  /** A pool just built: every lane fresh and Ready, nothing queued, nobody calling. */
  ghost predicate Init(s: State) {
    && 1 <= s.config.lanes
    && (s.config.limit.Some? ==> 1 <= s.config.limit.value <= U64_MAX)
    && |s.core.lanes| == s.config.lanes
    && (forall i | 0 <= i < |s.core.lanes| ::
          exists bytes :: NewLane(i, s.core.runtime, Some(bytes), s.now) == Ok(s.core.lanes[i]))
    && s.core.unavailable == {}
    && s.core.ready == ReadyLanes(s.core.lanes, {})
    && s.queue == [] && s.calls == map[] && s.mgr == Idle
    && s.cursor == 0 && !s.closed && s.handle && !s.dropped
  }

  /** A run is the states it passes through and the events between them. */
  datatype Run = Run(states: seq<State>, events: seq<Event>) {
    ghost predicate Valid() {
      && |states| == |events| + 1
      && forall k | 0 <= k < |states| :: Reached(k)
    }

    /** State `k` is a starting state, or one step from the state before. */
    ghost predicate Reached(k: nat)
      requires k < |states| == |events| + 1
    {
      if k == 0 then Init(states[0])
      else Enabled(states[k - 1], events[k - 1]) && states[k] == Step(states[k - 1], events[k - 1])
    }

    function Last(): State
      requires states != []
    {
      states[|states| - 1]
    }
  }

  lemma FirstState(run: Run)
    requires run.Valid()
    ensures run.states != [] && Init(run.states[0])
  {
    assert run.Reached(0);
  }

  /** The step that led to state `k`. */
  lemma LastStep(run: Run, k: nat)
    requires run.Valid() && 0 < k < |run.states|
    ensures |run.events| == |run.states| - 1
    ensures Enabled(run.states[k - 1], run.events[k - 1])
    ensures run.states[k] == Step(run.states[k - 1], run.events[k - 1])
  {
    hide Step, Enabled, Init;
    assert run.Reached(k);
  }
}
