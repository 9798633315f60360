/** What every step of the pool protocol keeps: lanes, endpoints and snapshots stay well formed. */
module Shape {
  import opened Wrappers
  import opened Lanes
  import opened Select
  import opened PoolCore
  import opened Protocol

  // ---- How one step may change a lane -------------------------------------------------------

  /** A lane keeps its epoch and endpoint and does not become Ready, or starts its next epoch Ready. */
  ghost predicate LaneAdvances(l: LaneData, l': LaneData, rt: Runtime) {
    && l'.id == l.id
    && (|| (l'.epoch == l.epoch && l'.endpoint == l.endpoint && (l'.state == Ready ==> l.state == Ready))
        || (&& l'.epoch == l.epoch + 1 <= U64_MAX && l'.state == Ready
            && l'.endpoint.lane == l.id && l'.endpoint.epoch == l'.epoch
            && l'.endpoint.instance == rt.instance && l'.endpoint.addr == rt.addr
            && l'.endpoint.auth.username == Username(l.id, l'.epoch)))
  }

  ghost predicate LanesAdvance(c: Core, c': Core) {
    && |c'.lanes| == |c.lanes|
    && forall i | 0 <= i < |c.lanes| :: LaneAdvances(c.lanes[i], c'.lanes[i], c'.runtime)
  }

  lemma AssignAdvances(c: Core, limit: Option<nat>, id: nat, epoch: nat, entropy: Entropy, now: nat)
    ensures LanesAdvance(c, c.(lanes := AssignLanes(c, limit, id, epoch, entropy, now)))
  {
  }

  lemma RotateAdvances(c: Core, id: nat, entropy: Entropy, now: nat)
    ensures LanesAdvance(c, c.(lanes := RotateLanes(c, id, entropy, now)))
  {
  }

  lemma ExpireAdvances(c: Core, ttl: Option<nat>, entropies: seq<Entropy>, now: nat)
    requires |entropies| == |c.lanes|
    ensures LanesAdvance(c, c.(lanes := ExpireLanes(c, ttl, entropies, now)))
  {
  }

  lemma RestartLaneAdvances(c: Core, i: nat, entropy: Entropy, now: nat)
    requires i < |c.lanes|
    ensures LanesAdvance(c, RestartLane(c, i, entropy, now))
  {
  }

  lemma StateChangeAdvances(c: Core, state: LaneState)
    requires state != Ready
    ensures LanesAdvance(c, c.(lanes := WithState(c.lanes, state)))
  {
  }

  lemma RestartAdvancesLanes(s: State, waiter: nat, phase: RestartPhase, env: Env)
    ensures LanesAdvance(s.core, WorkRestart(s, waiter, phase, env).core)
  {
    match phase
    case RetiringLanes => StateChangeAdvances(s.core, Retiring);
    case StartingNew => StateChangeAdvances(s.core, Failed);
    case MovingLanes(next) =>
      if next < |s.core.lanes| {
        RestartLaneAdvances(s.core, next, env.entropy, s.now);
      }
    case _ =>
  }

  /**
   Over every step of every run: an epoch never falls, a lane becomes Ready only by starting
   exactly its next epoch, and an endpoint changes only together with its epoch.
   */
  lemma StepAdvancesLanes(s: State, e: Event)
    requires Enabled(s, e)
    ensures LanesAdvance(s.core, Step(s, e).core)
  {
    match e
    case Receive(entropy) =>
      match s.queue[0] {
        case Assign(lane, epoch) => AssignAdvances(s.core, s.config.limit, lane, epoch, entropy, s.now);
        case Rotate(lane, _) => RotateAdvances(s.core, lane, entropy, s.now);
        case _ =>
      }
    case Tick(entropies) => ExpireAdvances(s.core, s.config.ttl, entropies, s.now);
    case Work(env) =>
      if s.mgr.Restarting? {
        RestartAdvancesLanes(s, s.mgr.waiter, s.mgr.phase, env);
      }
    case Go(call) => GoMovesOnly(s, call);
    case _ =>
  }

  // ---- Shape --------------------------------------------------------------------------------

  ghost predicate KnownEndpoint(e: Endpoint, lanes: seq<LaneData>) {
    e.lane < |lanes| && e.epoch <= lanes[e.lane].epoch
  }

  ghost predicate SnapshotOk(snapshot: seq<Endpoint>, lanes: seq<LaneData>) {
    StrictlyIncreasing(snapshot) && forall e <- snapshot :: KnownEndpoint(e, lanes)
  }

  ghost predicate HandOutOk(h: HandOut, lanes: seq<LaneData>) {
    match h
    case Selecting(_) => true
    case Holding(_, snapshot) => SnapshotOk(snapshot, lanes)
    case HandingOut(e) => KnownEndpoint(e, lanes)
  }

  ghost predicate RotationOk(r: Rotation, lanes: seq<LaneData>) {
    r.lane < |lanes| && (r.Looked? || r.Inserted? ==> SnapshotOk(r.snapshot, lanes))
  }

  ghost predicate CallOk(c: Call, lanes: seq<LaneData>) {
    (c.Choosing? ==> HandOutOk(c.handOut, lanes)) && (c.Rotating? ==> RotationOk(c.rotation, lanes))
  }

  ghost predicate CallsOk(calls: map<nat, Call>, lanes: seq<LaneData>) {
    forall t <- calls :: CallOk(calls[t], lanes)
  }

  ghost predicate QueueOk(queue: seq<Command>, lanes: seq<LaneData>) {
    forall k | 0 <= k < |queue| && queue[k].Rotate? :: queue[k].lane < |lanes|
  }

  ghost predicate NoneReadyFrom(lanes: seq<LaneData>, from: nat) {
    forall i | from <= i < |lanes| :: lanes[i].state != Ready
  }

  ghost predicate PhaseOk(phase: RestartPhase, lanes: seq<LaneData>) {
    match phase
    case HaltingOld => NoneReadyFrom(lanes, 0)
    case StartingNew => NoneReadyFrom(lanes, 0)
    case MovingLanes(next) => next <= |lanes| && NoneReadyFrom(lanes, next)
    case _ => true
  }

  ghost predicate ManagerOk(m: Manager, lanes: seq<LaneData>) {
    match m
    case Publishing(Removing(lane, _)) => lane < |lanes|
    case Publishing(Storing(snapshot, _)) => SnapshotOk(snapshot, lanes)
    case Restarting(_, phase) => PhaseOk(phase, lanes)
    case _ => true
  }

  /** Every Ready lane's endpoint is bound to the recorded runtime: the last Tor instance that was started. */
  ghost predicate BoundToRuntime(c: Core) {
    forall i | 0 <= i < |c.lanes| && c.lanes[i].state == Ready ::
      c.lanes[i].endpoint.instance == c.runtime.instance && c.lanes[i].endpoint.addr == c.runtime.addr
  }

  ghost predicate Shaped(s: State) {
    && 1 <= s.config.lanes == |s.core.lanes|
    && WellFormed(s.core.lanes)
    && BoundToRuntime(s.core)
    && SnapshotOk(s.core.ready, s.core.lanes)
    && CallsOk(s.calls, s.core.lanes)
    && QueueOk(s.queue, s.core.lanes)
    && ManagerOk(s.mgr, s.core.lanes)
  }

  lemma SnapshotStaysOk(snapshot: seq<Endpoint>, c: Core, c': Core)
    requires SnapshotOk(snapshot, c.lanes) && LanesAdvance(c, c')
    ensures SnapshotOk(snapshot, c'.lanes)
  {
    forall e <- snapshot
      ensures KnownEndpoint(e, c'.lanes)
    {
      assert LaneAdvances(c.lanes[e.lane], c'.lanes[e.lane], c'.runtime);
    }
  }

  lemma CallsStayOk(calls: map<nat, Call>, c: Core, c': Core)
    requires CallsOk(calls, c.lanes) && LanesAdvance(c, c')
    ensures CallsOk(calls, c'.lanes)
  {
    forall t <- calls
      ensures CallOk(calls[t], c'.lanes)
    {
      match calls[t]
      case Choosing(Holding(_, snapshot)) => SnapshotStaysOk(snapshot, c, c');
      case Choosing(HandingOut(e)) => assert LaneAdvances(c.lanes[e.lane], c'.lanes[e.lane], c'.runtime);
      case Rotating(r) =>
        if r.Looked? || r.Inserted? {
          SnapshotStaysOk(r.snapshot, c, c');
        }
      case _ =>
    }
  }

  lemma WithoutStaysOk(snapshot: seq<Endpoint>, lane: nat, lanes: seq<LaneData>)
    requires SnapshotOk(snapshot, lanes)
    ensures SnapshotOk(Without(snapshot, lane), lanes)
  {
    WithoutKeepsOrder(snapshot, lane);
  }

  lemma WellFormedAdvances(c: Core, c': Core)
    requires WellFormed(c.lanes) && LanesAdvance(c, c')
    ensures WellFormed(c'.lanes)
  {
    forall i | 0 <= i < |c'.lanes|
      ensures c'.lanes[i].id == i && c'.lanes[i].endpoint.lane == i
      ensures c'.lanes[i].endpoint.epoch == c'.lanes[i].epoch <= U64_MAX
      ensures c'.lanes[i].endpoint.auth.username == Username(i, c'.lanes[i].epoch)
    {
      assert LaneAdvances(c.lanes[i], c'.lanes[i], c'.runtime);
    }
  }

  lemma BoundAdvances(c: Core, c': Core)
    requires BoundToRuntime(c) && LanesAdvance(c, c')
    requires c'.runtime == c.runtime || NoneReadyFrom(c.lanes, 0)
    ensures BoundToRuntime(c')
  {
    forall i | 0 <= i < |c'.lanes| && c'.lanes[i].state == Ready
      ensures c'.lanes[i].endpoint.instance == c'.runtime.instance
      ensures c'.lanes[i].endpoint.addr == c'.runtime.addr
    {
      assert LaneAdvances(c.lanes[i], c'.lanes[i], c'.runtime);
    }
  }

  lemma ChosenOk(snapshot: seq<Endpoint>, pick: Pick, cursor: nat, lanes: seq<LaneData>)
    requires SnapshotOk(snapshot, lanes)
    ensures CallOk(Chosen(snapshot, pick, cursor), lanes)
  {
    if pick.Next? && snapshot != [] {
      assert snapshot[cursor % |snapshot|] in snapshot;
    }
  }

  // A step of a call moves that call only, and keeps what it and the shared values promise.

  lemma HandOutKeepsOk(s: State, call: nat, h: HandOut)
    requires HandOutOk(h, s.core.lanes) && SnapshotOk(s.core.ready, s.core.lanes)
    requires CallsOk(s.calls, s.core.lanes) && QueueOk(s.queue, s.core.lanes)
    ensures CallsOk(GoHandOut(s, call, h).calls, s.core.lanes)
    ensures QueueOk(GoHandOut(s, call, h).queue, s.core.lanes)
  {
    if h.Holding? {
      ChosenOk(h.snapshot, h.pick, s.cursor, s.core.lanes);
    }
  }

  lemma RotationKeepsOk(s: State, call: nat, r: Rotation)
    requires RotationOk(r, s.core.lanes) && SnapshotOk(s.core.ready, s.core.lanes)
    requires CallsOk(s.calls, s.core.lanes) && QueueOk(s.queue, s.core.lanes)
    ensures CallsOk(GoRotation(s, call, r).calls, s.core.lanes)
    ensures QueueOk(GoRotation(s, call, r).queue, s.core.lanes)
    ensures SnapshotOk(GoRotation(s, call, r).core.ready, s.core.lanes)
  {
    if r.Inserted? {
      WithoutStaysOk(r.snapshot, r.lane, s.core.lanes);
    }
  }

  lemma StopKeepsOk(s: State, call: nat, p: Stop)
    requires CallsOk(s.calls, s.core.lanes) && QueueOk(s.queue, s.core.lanes)
    ensures CallsOk(GoStop(s, call, p).calls, s.core.lanes)
    ensures QueueOk(GoStop(s, call, p).queue, s.core.lanes)
  {
  }

  lemma GoKeepsShape(s: State, call: nat)
    requires Shaped(s) && call in s.calls && CanGo(s, s.calls[call])
    ensures Shaped(GoCall(s, call))
  {
    GoMovesOnly(s, call);
    assert CallOk(s.calls[call], s.core.lanes);
    match s.calls[call]
    case Choosing(h) => HandOutKeepsOk(s, call, h);
    case Rotating(r) => RotationKeepsOk(s, call, r);
    case Stopping(p) => StopKeepsOk(s, call, p);
    case _ =>
  }

  lemma DeliverKeepsCallsOk(calls: map<nat, Call>, waiter: nat, verdict: Verdict, lanes: seq<LaneData>)
    requires CallsOk(calls, lanes)
    ensures CallsOk(Deliver(calls, waiter, verdict), lanes)
  {
  }

  lemma ReadyLanesKnown(lanes: seq<LaneData>, unavailable: set<nat>)
    requires WellFormed(lanes)
    ensures SnapshotOk(ReadyLanes(lanes, unavailable), lanes)
  {
    ReadyLanesMembers(lanes, unavailable);
  }

  lemma PublicationKeepsShape(s: State, p: Publication)
    requires Shaped(s) && s.mgr == Publishing(p)
    ensures Shaped(WorkPublication(s, p))
  {
    match p
    case Computing(_) => ReadyLanesKnown(s.core.lanes, s.core.unavailable);
    case Replying(waiter, verdict) => DeliverKeepsCallsOk(s.calls, waiter, verdict, s.core.lanes);
    case _ =>
  }

  lemma CloseKeepsShape(s: State, closer: Option<nat>, last: ClosePhase, env: Env)
    requires Shaped(s) && s.mgr == Closing(closer, last)
    ensures Shaped(WorkClose(s, closer, last, env))
  {
    if last.LastReply? && closer.Some? {
      DeliverKeepsCallsOk(s.calls, closer.value, last.verdict, s.core.lanes);
    }
  }

  /** Whatever only changes lanes along `LanesAdvance` keeps the shape of everything else. */
  lemma AdvancingKeepsShape(s: State, s': State)
    requires Shaped(s) && LanesAdvance(s.core, s'.core)
    requires s'.core.runtime == s.core.runtime || NoneReadyFrom(s.core.lanes, 0)
    requires s'.core.ready == s.core.ready || s'.core.ready == []
    requires s'.config == s.config && s'.calls == s.calls
    requires QueueOk(s'.queue, s.core.lanes) && ManagerOk(s'.mgr, s'.core.lanes)
    ensures Shaped(s')
  {
    WellFormedAdvances(s.core, s'.core);
    BoundAdvances(s.core, s'.core);
    CallsStayOk(s.calls, s.core, s'.core);
    SnapshotStaysOk(s.core.ready, s.core, s'.core);
  }

  lemma MovingStaysOk(c: Core, next: nat, entropy: Entropy, now: nat)
    requires next < |c.lanes| && NoneReadyFrom(c.lanes, next)
    ensures |RestartLane(c, next, entropy, now).lanes| == |c.lanes|
    ensures NoneReadyFrom(RestartLane(c, next, entropy, now).lanes, next + 1)
  {
  }

  lemma PhaseStaysOk(s: State, waiter: nat, phase: RestartPhase, env: Env)
    requires PhaseOk(phase, s.core.lanes)
    ensures ManagerOk(WorkRestart(s, waiter, phase, env).mgr, WorkRestart(s, waiter, phase, env).core.lanes)
  {
    hide RestartLane;
    if phase.MovingLanes? && phase.next < |s.core.lanes| {
      MovingStaysOk(s.core, phase.next, env.entropy, s.now);
    }
  }

  lemma RestartFrame(s: State, waiter: nat, phase: RestartPhase, env: Env)
    requires PhaseOk(phase, s.core.lanes)
    ensures var s' := WorkRestart(s, waiter, phase, env);
      && s'.config == s.config && s'.calls == s.calls && s'.queue == s.queue
      && (s'.core.ready == s.core.ready || s'.core.ready == [])
      && (s'.core.runtime == s.core.runtime || NoneReadyFrom(s.core.lanes, 0))
  {
  }

  lemma RestartKeepsShape(s: State, waiter: nat, phase: RestartPhase, env: Env)
    requires Shaped(s) && s.mgr == Restarting(waiter, phase)
    ensures Shaped(WorkRestart(s, waiter, phase, env))
  {
    hide WorkRestart;
    RestartAdvancesLanes(s, waiter, phase, env);
    PhaseStaysOk(s, waiter, phase, env);
    RestartFrame(s, waiter, phase, env);
    AdvancingKeepsShape(s, WorkRestart(s, waiter, phase, env));
  }

  lemma TakenManagerOk(s: State, entropy: Entropy)
    requires s.queue != [] && QueueOk(s.queue, s.core.lanes)
    ensures ManagerOk(TakeCommand(s, entropy).mgr, TakeCommand(s, entropy).core.lanes)
  {
    hide AssignRotates, RotateResult, RotatedOrFailed, AssignLanes, RotateLanes;
  }

  lemma TakingKeepsShape(s: State, e: Event)
    requires Shaped(s) && Enabled(s, e) && (e.Receive? || e.Tick?)
    ensures Shaped(Step(s, e))
  {
    hide TakeCommand;
    StepAdvancesLanes(s, e);
    TakeFrame(s, e);
    if e.Receive? {
      TakenManagerOk(s, e.entropy);
      assert QueueOk(s.queue[1..], s.core.lanes);
    }
    AdvancingKeepsShape(s, Step(s, e));
  }

  lemma InitIsShaped(s: State)
    requires Init(s)
    ensures Shaped(s)
  {
    forall i | 0 <= i < |s.core.lanes|
      ensures s.core.lanes[i].id == i && s.core.lanes[i].state == Ready && s.core.lanes[i].epoch == 1
      ensures s.core.lanes[i].assignments == 0 && s.core.lanes[i].createdAt == s.now
      ensures s.core.lanes[i].endpoint.lane == i && s.core.lanes[i].endpoint.epoch == 1
      ensures s.core.lanes[i].endpoint.auth.username == Username(i, 1)
      ensures s.core.lanes[i].endpoint.instance == s.core.runtime.instance
      ensures s.core.lanes[i].endpoint.addr == s.core.runtime.addr
    {
      var bytes :| NewLane(i, s.core.runtime, Some(bytes), s.now) == Ok(s.core.lanes[i]);
    }
    ReadyLanesMembers(s.core.lanes, {});
  }

  lemma {:induction false} RunIsShaped(run: Run, k: nat)
    requires run.Valid() && k < |run.states|
    ensures Shaped(run.states[k])
  {
    if k == 0 {
      FirstState(run);
      InitIsShaped(run.states[0]);
    } else {
      RunIsShaped(run, k - 1);
      LastStep(run, k);
      var s, e := run.states[k - 1], run.events[k - 1];
      match e
      case Go(call) => GoKeepsShape(s, call);
      case Receive(_) => TakingKeepsShape(s, e);
      case Tick(_) => TakingKeepsShape(s, e);
      case Work(env) =>
        match s.mgr {
          case Publishing(p) => PublicationKeepsShape(s, p);
          case Restarting(waiter, phase) => RestartKeepsShape(s, waiter, phase, env);
          case Closing(closer, last) => CloseKeepsShape(s, closer, last, env);
        }
      case _ =>
    }
  }
}
