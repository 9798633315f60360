/**
 Exactly when the published snapshot holds what it should not: the old credentials of a rotated lane,
 a Failed lane, an endpoint of an instance that was stopped. And what a caller can be handed.
 */
module Staleness {
  import opened Wrappers
  import opened Lanes
  import opened Select
  import opened PoolCore
  import opened Protocol
  import opened Shape
  import opened Awaited
  import opened Exposure

  /** `e` is the endpoint of a Ready lane now; anything else published is stale. */
  predicate InForce(e: Endpoint, lanes: seq<LaneData>) {
    e.lane < |lanes| && lanes[e.lane].state == Ready && lanes[e.lane].endpoint == e
  }

  ghost predicate AllInForce(snapshot: seq<Endpoint>, lanes: seq<LaneData>) {
    forall e <- snapshot :: InForce(e, lanes)
  }

  /** The manager is between commands, or has nothing left of one but to answer. */
  predicate AtRest(m: Manager) {
    m.Idle? || (m.Publishing? && m.publication.Replying?)
  }

  // ---- The last step that wrote `ready` -----------------------------------------------------

  ghost function LastWrite(run: Run, k: nat): (r: Option<nat>)
    requires run.Valid() && k < |run.states|
    ensures r.Some? ==> r.value < k && Writes(run.states[r.value], run.events[r.value])
    ensures forall n | (if r.Some? then r.value + 1 else 0) <= n < k :: !Writes(run.states[n], run.events[n])
  {
    if k == 0 then None
    else if Writes(run.states[k - 1], run.events[k - 1]) then Some(k - 1)
    else LastWrite(run, k - 1)
  }

  /** The last write was a rotating call's. */
  ghost predicate EndsInOverwrite(run: Run, k: nat)
    requires run.Valid() && k < |run.states|
  {
    var n := LastWrite(run, k);
    n.Some? && IsOverwrite(run.states[n.value], run.events[n.value])
  }

  /** The last write was that of a call rotating another lane, which held this very endpoint. */
  ghost predicate Restored(run: Run, k: nat, x: Endpoint)
    requires run.Valid() && k < |run.states|
  {
    EndsInOverwrite(run, k)
    && var r := HeldAt(run, LastWrite(run, k).value); r.lane != x.lane && x in r.snapshot
  }

  /** After an overwrite and before the next write `ready` is what the call left. */
  lemma {:induction false} OverwriteStands(run: Run, k: nat)
    requires run.Valid() && k < |run.states| && EndsInOverwrite(run, k)
    ensures var r := HeldAt(run, LastWrite(run, k).value); run.states[k].core.ready == Without(r.snapshot, r.lane)
  {
    hide Without, Init, Step, Enabled;
    LastStep(run, k);
    StepReady(run.states[k - 1], run.events[k - 1]);
    if !Writes(run.states[k - 1], run.events[k - 1]) {
      OverwriteStands(run, k - 1);
    }
  }

  // ---- Without an overwrite everything published is in force --------------------------------

  /** A snapshot about to be stored is that of the lanes, whatever has become of `unavailable`. */
  ghost predicate StoresInForce(s: State) {
    IsStoring(s.mgr) ==> AllInForce(s.mgr.publication.snapshot, s.core.lanes)
  }

  /** What `ready` is when the manager wrote it last. */
  ghost predicate ReadyInForce(s: State) {
    && (AtRest(s.mgr) ==> AllInForce(s.core.ready, s.core.lanes))
    && (s.mgr.Restarting? && !s.mgr.phase.HidingReady? ==> s.core.ready == [])
  }

  lemma ComputedInForce(lanes: seq<LaneData>, unavailable: set<nat>)
    requires WellFormed(lanes)
    ensures AllInForce(ReadyLanes(lanes, unavailable), lanes)
  {
    ReadyLanesMembers(lanes, unavailable);
  }

  lemma StoresStayInForce(s: State, e: Event)
    requires Shaped(s) && Enabled(s, e) && StoresInForce(s)
    ensures StoresInForce(Step(s, e))
  {
    hide GoCall, TakeCommand, TakeTick, WorkStep, ReadyLanes, AllInForce;
    if IsStoring(Step(s, e).mgr) {
      if e.Work? || e.Receive? || e.HangUp? || e.Tick? {
        StoringFollowsComputing(s, e);
        ComputedInForce(s.core.lanes, s.core.unavailable);
        ComputingComputes(s, e.env);
      } else if e.Go? {
        GoMovesOnly(s, e.call);
      }
    }
  }

  lemma ComputingComputes(s: State, env: Env)
    requires s.mgr.Publishing? && s.mgr.publication.Computing?
    ensures WorkStep(s, env).core == s.core && IsStoring(WorkStep(s, env).mgr)
    ensures WorkStep(s, env).mgr.publication.snapshot == ReadyLanes(s.core.lanes, s.core.unavailable)
  {
    hide ReadyLanes;
  }

  /** A command or a tick that leaves the manager at rest has changed no state and no endpoint. */
  lemma QuietTaking(s: State, e: Event)
    requires Enabled(s, e) && (e.Receive? || e.Tick?) && AtRest(Step(s, e).mgr)
    ensures |Step(s, e).core.lanes| == |s.core.lanes|
    ensures forall i | 0 <= i < |s.core.lanes| ::
              && Step(s, e).core.lanes[i].state == s.core.lanes[i].state
              && Step(s, e).core.lanes[i].endpoint == s.core.lanes[i].endpoint
  {
    hide TakeAssign, TakeRotate, TakeTick;
    match e
    case Receive(entropy) =>
      var t := s.(queue := s.queue[1..]);
      match s.queue[0] {
        case Assign(lane, epoch) => QuietAssign(t, lane, epoch, entropy);
        case Rotate(lane, waiter) => QuietRotate(t, lane, waiter, entropy);
        case _ =>
      }
    case Tick(entropies) => QuietTick(s, entropies);
  }

  lemma QuietAssign(s: State, lane: nat, epoch: nat, entropy: Entropy)
    requires AtRest(TakeAssign(s, lane, epoch, entropy).mgr)
    ensures var lanes := TakeAssign(s, lane, epoch, entropy).core.lanes;
      && |lanes| == |s.core.lanes|
      && forall i | 0 <= i < |lanes| ::
           lanes[i].state == s.core.lanes[i].state && lanes[i].endpoint == s.core.lanes[i].endpoint
  {
    hide RotatedOrFailed;
  }

  lemma QuietRotate(s: State, lane: nat, waiter: Option<nat>, entropy: Entropy)
    requires AtRest(TakeRotate(s, lane, waiter, entropy).mgr)
    ensures TakeRotate(s, lane, waiter, entropy).core.lanes == s.core.lanes
  {
    hide RotatedOrFailed;
  }

  lemma QuietTick(s: State, entropies: seq<Entropy>)
    requires |entropies| == |s.core.lanes| && AtRest(TakeTick(s, entropies).mgr)
    ensures TakeTick(s, entropies).core.lanes == s.core.lanes
  {
    hide RotatedOrFailed;
  }

  lemma RestartStaysInForce(s: State, waiter: nat, phase: RestartPhase, env: Env)
    requires s.mgr == Restarting(waiter, phase) && (phase.HidingReady? || s.core.ready == [])
    ensures ReadyInForce(WorkRestart(s, waiter, phase, env))
  {
    hide WithState, Ids, RestartLane;
    if phase.MovingLanes? && phase.next < |s.core.lanes| {
      MovingLeavesReady(s.core, phase.next, env.entropy, s.now);
    }
  }

  lemma MovingLeavesReady(c: Core, next: nat, entropy: Entropy, now: nat)
    requires next < |c.lanes|
    ensures RestartLane(c, next, entropy, now).ready == c.ready
  {
    hide RotatedOrFailed;
  }

  lemma PublicationStaysInForce(s: State, p: Publication)
    requires s.mgr == Publishing(p) && StoresInForce(s) && (p.Replying? ==> ReadyInForce(s))
    ensures ReadyInForce(WorkPublication(s, p))
  {
    hide ReadyLanes, AllInForce;
  }

  /** Whatever the manager does, and every step that writes nothing, keeps what is published in force. */
  lemma StepStaysInForce(s: State, e: Event)
    requires Shaped(s) && Enabled(s, e) && !IsOverwrite(s, e) && StoresInForce(s)
    requires Writes(s, e) || ReadyInForce(s)
    ensures ReadyInForce(Step(s, e))
  {
    hide GoCall, TakeCommand, TakeTick, WorkPublication, WorkRestart, Shaped, StoresInForce;
    match e
    case Go(call) =>
      GoMovesOnly(s, call);
      CallLeavesReady(s, call);
    case Receive(_) => TakingStaysInForce(s, e);
    case Tick(_) => TakingStaysInForce(s, e);
    case Work(env) =>
      match s.mgr {
        case Publishing(p) => PublicationStaysInForce(s, p);
        case Restarting(waiter, phase) => RestartStaysInForce(s, waiter, phase, env);
        case _ =>
      }
    case _ =>
  }

  lemma TakingStaysInForce(s: State, e: Event)
    requires Enabled(s, e) && (e.Receive? || e.Tick?) && ReadyInForce(s)
    ensures ReadyInForce(Step(s, e))
  {
    TakeFrame(s, e);
    TakingHasNotHidden(s, e);
    hide Step;
    if AtRest(Step(s, e).mgr) {
      QuietTaking(s, e);
    }
  }

  /** A restart begins before it has hidden anything. */
  lemma TakingHasNotHidden(s: State, e: Event)
    requires Enabled(s, e) && (e.Receive? || e.Tick?)
    ensures Step(s, e).mgr.Restarting? ==> Step(s, e).mgr.phase.HidingReady?
  {
    hide AssignLanes, RotateLanes, ExpireLanes, AssignRotates, RotateResult, AnyExpired;
  }

  lemma {:induction false} RunIsInForce(run: Run, k: nat)
    requires run.Valid() && k < |run.states|
    ensures StoresInForce(run.states[k])
    ensures !EndsInOverwrite(run, k) ==> ReadyInForce(run.states[k])
  {
    hide Step, Enabled, Init, Shaped, StoresInForce, ReadyInForce;
    if k == 0 {
      FirstState(run);
      FreshIsInForce(run.states[0]);
    } else {
      LastStep(run, k);
      var s, e := run.states[k - 1], run.events[k - 1];
      RunIsShaped(run, k - 1);
      RunIsInForce(run, k - 1);
      StoresStayInForce(s, e);
      if !IsOverwrite(s, e) && (Writes(s, e) || !EndsInOverwrite(run, k - 1)) {
        StepStaysInForce(s, e);
      }
    }
  }

  lemma FreshIsInForce(s: State)
    requires Init(s)
    ensures StoresInForce(s) && ReadyInForce(s)
  {
    InitIsShaped(s);
    ComputedInForce(s.core.lanes, {});
  }

  // ---- What is published that should not be -------------------------------------------------

  /**
   In every run, whenever the manager is at rest: an endpoint that is not, or no longer, that of a
   Ready lane is published if and only if the last step that wrote `ready` was the overwrite of a
   call rotating another lane, and that call had read the endpoint before.
   */
  lemma StaleIffRestored(run: Run, k: nat, x: Endpoint)
    requires run.Valid() && k < |run.states| && AtRest(run.states[k].mgr)
    requires !InForce(x, run.states[k].core.lanes)
    ensures x in run.states[k].core.ready <==> Restored(run, k, x)
  {
    hide InForce, Without, Step, Enabled, Init;
    if EndsInOverwrite(run, k) {
      OverwriteStands(run, k);
    } else {
      RunIsInForce(run, k);
    }
  }

  /** So with an endpoint of an instance other than the one recorded. */
  lemma OtherInstanceIffRestored(run: Run, k: nat, x: Endpoint)
    requires run.Valid() && k < |run.states| && AtRest(run.states[k].mgr)
    requires x.instance != run.states[k].core.runtime.instance || x.addr != run.states[k].core.runtime.addr
    ensures x in run.states[k].core.ready <==> Restored(run, k, x)
  {
    RunIsShaped(run, k);
    hide Restored;
    StaleIffRestored(run, k, x);
  }

  // ---- What a caller is handed --------------------------------------------------------------

  /** The step in which a `next` or `for_key` call reads the snapshot. */
  ghost predicate LooksAt(run: Run, j: nat, call: nat)
    requires run.Valid()
  {
    && j < |run.events| && run.events[j] == Go(call) && call in run.states[j].calls
    && run.states[j].calls[call].Choosing? && run.states[j].calls[call].handOut.Selecting?
  }

  ghost predicate HasRead(run: Run, k: nat, call: nat, snapshot: seq<Endpoint>)
    requires run.Valid() && k < |run.states|
  {
    exists j | 0 <= j < k :: LooksAt(run, j, call) && run.states[j].core.ready == snapshot
  }

  /** The call read a snapshot with `x` in it. */
  ghost predicate HasSeen(run: Run, k: nat, call: nat, x: Endpoint)
    requires run.Valid() && k < |run.states|
  {
    exists j | 0 <= j < k :: LooksAt(run, j, call) && x in run.states[j].core.ready
  }

  ghost predicate HoldsWhatItRead(run: Run, k: nat, call: nat)
    requires run.Valid() && k < |run.states|
  {
    call in run.states[k].calls ==>
      match run.states[k].calls[call]
      case Choosing(Holding(_, snapshot)) => HasRead(run, k, call, snapshot)
      case Choosing(HandingOut(x)) => HasSeen(run, k, call, x)
      case Done(Given(x)) => HasSeen(run, k, call, x)
      case _ => true
  }

  predicate HandsNothing(c: Call) {
    !c.Choosing? && (c.Done? ==> !c.answer.Given?)
  }

  /** Where a call's own step takes it, as far as it concerns what it has read. */
  lemma GoReads(s: State, call: nat)
    requires call in s.calls && CanGo(s, s.calls[call])
    ensures call in GoCall(s, call).calls
    ensures match GoCall(s, call).calls[call]
            case Choosing(Holding(_, snapshot)) =>
              s.calls[call].Choosing? && s.calls[call].handOut.Selecting? && snapshot == s.core.ready
            case Choosing(HandingOut(x)) =>
              s.calls[call].Choosing? && s.calls[call].handOut.Holding? && x in s.calls[call].handOut.snapshot
            case Done(Given(x)) => s.calls[call] == Choosing(HandingOut(x))
            case _ => true
  {
    hide GoHandOut, GoRotation, GoStop;
    if s.calls[call].Choosing? {
      HandOutReads(s, call, s.calls[call].handOut);
    } else {
      OthersReadNothing(s, call);
    }
  }

  lemma HandOutReads(s: State, call: nat, h: HandOut)
    ensures call in GoHandOut(s, call, h).calls
    ensures match GoHandOut(s, call, h).calls[call]
            case Choosing(Holding(_, snapshot)) => h.Selecting? && snapshot == s.core.ready
            case Choosing(HandingOut(x)) => h.Holding? && x in h.snapshot
            case Done(Given(x)) => h == HandingOut(x)
            case _ => true
  {
    hide FindEndpoint;
  }

  lemma OthersReadNothing(s: State, call: nat)
    requires call in s.calls && CanGo(s, s.calls[call]) && !s.calls[call].Choosing?
    ensures call in GoCall(s, call).calls
    ensures HandsNothing(GoCall(s, call).calls[call])
  {
    hide GoHandOut, GoRotation, GoStop;
    match s.calls[call]
    case Rotating(r) => RotationReadsNothing(s, call, r);
    case Stopping(p) => StopReadsNothing(s, call, p);
    case _ =>
  }

  lemma RotationReadsNothing(s: State, call: nat, r: Rotation)
    ensures call in GoRotation(s, call, r).calls && HandsNothing(GoRotation(s, call, r).calls[call])
  {
    hide FindEndpoint, Without;
  }

  lemma StopReadsNothing(s: State, call: nat, p: Stop)
    ensures call in GoStop(s, call, p).calls && HandsNothing(GoStop(s, call, p).calls[call])
  {
  }

  /** Other steps only ever answer or cancel a call that waits. */
  lemma OthersLeaveReading(s: State, e: Event, call: nat)
    requires Enabled(s, e) && e != Go(call) && call in s.calls
    ensures call in Step(s, e).calls
    ensures Step(s, e).calls[call] == s.calls[call] || HandsNothing(Step(s, e).calls[call])
  {
    hide GoCall, TakeCommand, TakeTick, WorkStep;
    match e
    case Go(t) => GoMovesOnly(s, t);
    case Receive(_) => TakeFrame(s, e);
    case Tick(_) => TakeFrame(s, e);
    case Work(env) => WorkLeavesReading(s, env, call);
    case _ =>
  }

  lemma WorkLeavesReading(s: State, env: Env, call: nat)
    requires !s.mgr.Idle? && !s.mgr.Gone? && call in s.calls
    ensures call in WorkStep(s, env).calls
    ensures WorkStep(s, env).calls[call] == s.calls[call] || HandsNothing(WorkStep(s, env).calls[call])
  {
    hide ReadyLanes, RestartLane, WithState, ShutdownResult;
  }

  lemma StartReads(s: State, call: nat, request: Request)
    requires s.config.lanes > 0
    ensures var c := Opened(s, request);
      HandsNothing(c) || (c.Choosing? && c.handOut.Selecting?)
  {
  }

  lemma {:induction false} CallHoldsWhatItRead(run: Run, k: nat, call: nat)
    requires run.Valid() && k < |run.states|
    ensures HoldsWhatItRead(run, k, call)
  {
    hide Init, Step, Enabled, GoCall;
    if k == 0 {
      FirstState(run);
      NobodyCalls(run.states[0]);
    } else {
      CallHoldsWhatItRead(run, k - 1, call);
      LastStep(run, k);
      var s, e := run.states[k - 1], run.events[k - 1];
      if call !in s.calls {
        if call in run.states[k].calls {
          NewCallReads(s, e, call);
        }
      } else if e == Go(call) {
        GoStep(s, call);
        GoReads(s, call);
        if s.calls[call].Choosing? && s.calls[call].handOut.Selecting? {
          LookIsRead(run, k, call);
        }
      } else {
        OthersLeaveReading(s, e, call);
      }
    }
  }

  lemma NobodyCalls(s: State)
    requires Init(s)
    ensures s.calls == map[]
  {
  }

  lemma GoStep(s: State, call: nat)
    requires Enabled(s, Go(call))
    ensures call in s.calls && CanGo(s, s.calls[call]) && Step(s, Go(call)) == GoCall(s, call)
  {
  }

  lemma NewCallReads(s: State, e: Event, call: nat)
    requires Enabled(s, e) && call !in s.calls && call in Step(s, e).calls
    ensures var c := Step(s, e).calls[call];
      HandsNothing(c) || (c.Choosing? && c.handOut.Selecting?)
  {
    hide GoCall, TakeCommand, TakeTick, WorkStep, Opened;
    match e
    case Start(t, request) => StartReads(s, t, request);
    case Go(t) => GoMovesOnly(s, t);
    case Receive(_) => TakeFrame(s, e);
    case Tick(_) => TakeFrame(s, e);
    case Work(env) => WorkStartsNothing(s, env);
    case _ =>
  }

  lemma WorkStartsNothing(s: State, env: Env)
    requires !s.mgr.Idle? && !s.mgr.Gone?
    ensures WorkStep(s, env).calls.Keys == s.calls.Keys
  {
    hide ReadyLanes, RestartLane, WithState, ShutdownResult;
  }

  lemma LookIsRead(run: Run, k: nat, call: nat)
    requires run.Valid() && 0 < k < |run.states| && LooksAt(run, k - 1, call)
    ensures HasRead(run, k, call, run.states[k - 1].core.ready)
  {
  }

  /**
   Whatever a call is handed it saw published in the one moment it looked. If the manager was at rest
   then and the endpoint stale, it had been restored as above.
   */
  lemma HandedOutWasPublished(run: Run, k: nat, call: nat, x: Endpoint)
    requires run.Valid() && k < |run.states|
    requires call in run.states[k].calls && run.states[k].calls[call] == Done(Given(x))
    ensures exists j | 0 <= j < k :: LooksAt(run, j, call) && x in run.states[j].core.ready
              && (AtRest(run.states[j].mgr) && !InForce(x, run.states[j].core.lanes) ==> Restored(run, j, x))
  {
    hide Restored, InForce, LooksAt;
    CallHoldsWhatItRead(run, k, call);
    var j :| 0 <= j < k && LooksAt(run, j, call) && x in run.states[j].core.ready;
    if AtRest(run.states[j].mgr) && !InForce(x, run.states[j].core.lanes) {
      StaleIffRestored(run, j, x);
    }
  }
}
