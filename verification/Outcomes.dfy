/** What rotate and restart have achieved by the time their caller hears of it, over whole runs. */
module Outcomes {
  import opened Wrappers
  import opened Lanes
  import opened PoolCore
  import opened Protocol
  import opened Shape
  import opened Runs
  import opened Agreement
  import opened Tokens

  function VerdictOf(p: Publication): Verdict
    requires ManagerToken(Publishing(p)).Some?
  {
    if p.Replying? then p.verdict else p.reply.verdict
  }

  // ---- Awaited rotation ---------------------------------------------------------------------

  ghost predicate EpochAbove(s: State, lane: nat, epoch: nat) {
    lane < |s.core.lanes| && s.core.lanes[lane].epoch > epoch
  }

  /** Only `Rotate(lane)` commands answer `call`, and an Ok is on its way only after the epoch rose. */
  ghost predicate RotationPromise(s: State, call: nat, lane: nat, epoch: nat) {
    && lane < |s.core.lanes|
    && call in s.calls && (s.calls[call].Waiting? || s.calls[call].Done?)
    && (forall k | 0 <= k < |s.queue| && TokenOf(s.queue[k]) == Some(call) :: s.queue[k] == Rotate(lane, Some(call)))
    && (ManagerToken(s.mgr) == Some(call) ==>
          && s.mgr.Publishing?
          && (VerdictOf(s.mgr.publication).Ok? ==> EpochAbove(s, lane, epoch) && s.core.lanes[lane].state == Ready))
    && (s.calls[call] == Done(Returned(Ok(()))) ==> EpochAbove(s, lane, epoch))
  }

  lemma GoKeepsPromise(s: State, t: nat, call: nat, lane: nat, epoch: nat)
    requires RotationPromise(s, call, lane, epoch) && t in s.calls && CanGo(s, s.calls[t])
    ensures RotationPromise(GoCall(s, t), call, lane, epoch)
  {
    GoMovesOnly(s, t);
    GoGains(s, t);
    hide GoHandOut, GoRotation, GoStop;
    if t != call {
      hide GoCall;
      assert GoCall(s, t).calls[call] == s.calls[call];
    }
  }

  /** A Rotate of `lane` in the manager's hands: an Ok is on its way only if the epoch rose. */
  lemma TakenRotation(s: State, entropy: Entropy, lane: nat)
    requires WellFormed(s.core.lanes) && s.queue != [] && s.queue[0].Rotate? && s.queue[0].lane == lane
    requires lane < |s.core.lanes| && s.queue[0].waiter.Some?
    ensures var s' := TakeCommand(s, entropy);
      && s'.mgr.Publishing? && ManagerToken(s'.mgr).Some? && |s'.core.lanes| == |s.core.lanes|
      && (VerdictOf(s'.mgr.publication).Ok? ==>
            s'.core.lanes[lane].epoch == s.core.lanes[lane].epoch + 1 && s'.core.lanes[lane].state == Ready)
  {
    KnownLaneIndex(s.core.lanes, lane);
    RotationEffect(s.core.lanes[lane], s.core.runtime, entropy, s.now);
    hide RotatedOrFailed, WellFormed;
  }

  lemma ReceiveKeepsPromise(s: State, entropy: Entropy, call: nat, lane: nat, epoch: nat)
    requires Shaped(s) && RotationPromise(s, call, lane, epoch) && s.mgr.Idle? && s.queue != []
    requires s.core.lanes[lane].epoch >= epoch
    ensures RotationPromise(TakeCommand(s, entropy), call, lane, epoch)
  {
    hide TakeCommand;
    TakenToken(s, entropy);
    TakenAdvances(s, entropy);
    var c := TakeCommand(s, entropy).core;
    assert LaneAdvances(s.core.lanes[lane], c.lanes[lane], c.runtime);
    if TokenOf(s.queue[0]) == Some(call) {
      TakenRotation(s, entropy, lane);
    }
  }

  lemma TakenAdvances(s: State, entropy: Entropy)
    requires s.mgr.Idle? && s.queue != []
    ensures LanesAdvance(s.core, TakeCommand(s, entropy).core)
  {
    assert Enabled(s, Receive(entropy)) && Step(s, Receive(entropy)) == TakeCommand(s, entropy);
    hide TakeCommand;
    StepAdvancesLanes(s, Receive(entropy));
  }

  lemma PublicationKeepsPromise(s: State, p: Publication, call: nat, lane: nat, epoch: nat)
    requires RotationPromise(s, call, lane, epoch) && s.mgr == Publishing(p)
    ensures RotationPromise(WorkPublication(s, p), call, lane, epoch)
  {
    hide ReadyLanes;
  }

  lemma CloseKeepsPromise(s: State, closer: Option<nat>, last: ClosePhase, env: Env, call: nat, lane: nat, epoch: nat)
    requires RotationPromise(s, call, lane, epoch) && s.mgr == Closing(closer, last)
    ensures RotationPromise(WorkClose(s, closer, last, env), call, lane, epoch)
  {
    hide ShutdownResult;
  }

  /** A restart answers its own caller only, and never takes an epoch back. */
  lemma RestartKeepsPromise(s: State, waiter: nat, phase: RestartPhase, env: Env, call: nat, lane: nat, epoch: nat)
    requires RotationPromise(s, call, lane, epoch) && s.mgr == Restarting(waiter, phase) && PhaseOk(phase, s.core.lanes)
    ensures RotationPromise(WorkRestart(s, waiter, phase, env), call, lane, epoch)
  {
    RestartFrame(s, waiter, phase, env);
    RestartAdvancesLanes(s, waiter, phase, env);
    RestartToken(s, waiter, phase, env);
    var s' := WorkRestart(s, waiter, phase, env);
    hide WorkRestart;
    assert LaneAdvances(s.core.lanes[lane], s'.core.lanes[lane], s'.core.runtime);
  }

  lemma TickKeepsPromise(s: State, entropies: seq<Entropy>, call: nat, lane: nat, epoch: nat)
    requires RotationPromise(s, call, lane, epoch) && Enabled(s, Tick(entropies))
    ensures RotationPromise(TakeTick(s, entropies), call, lane, epoch)
  {
    TickToken(s, entropies);
    var s' := TakeTick(s, entropies);
    StepAdvancesLanes(s, Tick(entropies));
    assert LaneAdvances(s.core.lanes[lane], s'.core.lanes[lane], s'.core.runtime);
    hide TakeTick;
  }

  /** The event by which `call` queues an awaited rotation of `lane`. */
  ghost predicate Queues(run: Run, j: nat, call: nat, lane: nat)
    requires run.Valid() && j < |run.events|
  {
    && run.events[j] == Go(call) && !run.states[j].mgr.Gone?
    && call in run.states[j].calls && run.states[j].calls[call] == Rotating(Overwritten(lane, true))
  }

  lemma QueueingPromises(run: Run, j: nat, call: nat, lane: nat)
    requires run.Valid() && j < |run.events| && Queues(run, j, call, lane)
    ensures lane < |run.states[j].core.lanes|
    ensures RotationPromise(run.states[j + 1], call, lane, run.states[j].core.lanes[lane].epoch)
  {
    LastStep(run, j + 1);
    var (s, s') := (run.states[j], run.states[j + 1]);
    RunIsShaped(run, j);
    RunKeepsTokens(run, j);
    assert CallOk(s.calls[call], s.core.lanes);
    assert s'.queue == s.queue + [Rotate(lane, Some(call))];
    forall k | 0 <= k < |s.queue|
      ensures TokenOf(s'.queue[k]) != Some(call)
    {
      assert s'.queue[k] == s.queue[k] && SentBy(s.calls, TokenOf(s.queue[k]));
    }
    assert SentBy(s.calls, ManagerToken(s.mgr));
  }

  lemma {:induction false} PromiseIsKept(run: Run, j: nat, k: nat, call: nat, lane: nat)
    requires run.Valid() && j < k < |run.states| && Queues(run, j, call, lane)
    ensures lane < |run.states[j].core.lanes|
    ensures RotationPromise(run.states[k], call, lane, run.states[j].core.lanes[lane].epoch)
    decreases k - j
  {
    hide Init, GoCall, TakeCommand, TakeTick, WorkPublication, WorkRestart, WorkClose;
    QueueingPromises(run, j, call, lane);
    if j + 1 < k {
      PromiseIsKept(run, j, k - 1, call, lane);
      EpochsNeverFall(run, j, k - 1, lane);
      RunIsShaped(run, k - 1);
      LastStep(run, k);
      var s, e := run.states[k - 1], run.events[k - 1];
      var epoch := run.states[j].core.lanes[lane].epoch;
      match e
      case Go(t) => GoKeepsPromise(s, t, call, lane, epoch);
      case Receive(entropy) => ReceiveKeepsPromise(s, entropy, call, lane, epoch);
      case Tick(entropies) => TickKeepsPromise(s, entropies, call, lane, epoch);
      case Work(env) =>
        match s.mgr {
          case Publishing(p) => PublicationKeepsPromise(s, p, call, lane, epoch);
          case Restarting(waiter, phase) => RestartKeepsPromise(s, waiter, phase, env, call, lane, epoch);
          case Closing(closer, last) => CloseKeepsPromise(s, closer, last, env, call, lane, epoch);
        }
      case _ =>
    }
  }

  /** An awaited rotation returns Ok only after its lane's epoch exceeds the one it was queued at. */
  lemma AwaitedRotationRaisesEpoch(run: Run, j: nat, k: nat, call: nat, lane: nat)
    requires run.Valid() && j < k < |run.states| && Queues(run, j, call, lane)
    requires call in run.states[k].calls && run.states[k].calls[call] == Done(Returned(Ok(())))
    ensures lane < |run.states[j].core.lanes|
    ensures EpochAbove(run.states[k], lane, run.states[j].core.lanes[lane].epoch)
  {
    PromiseIsKept(run, j, k, call, lane);
  }

  /**
   When the Ok is sent and no other rotation is in flight, the lane's endpoint of its new epoch
   is in the published snapshot.
   */
  lemma AwaitedRotationIsPublished(run: Run, j: nat, k: nat, call: nat, lane: nat)
    requires run.Valid() && j < k < |run.states| && Queues(run, j, call, lane)
    requires run.states[k].mgr == Publishing(Replying(call, Ok(()))) && !Pending(run.states[k])
    ensures lane < |run.states[k].core.lanes| && lane < |run.states[j].core.lanes|
    ensures run.states[k].core.lanes[lane].endpoint in run.states[k].core.ready
    ensures run.states[k].core.lanes[lane].endpoint.epoch > run.states[j].core.lanes[lane].epoch
  {
    PromiseIsKept(run, j, k, call, lane);
    RunIsCached(run, k);
    var s := run.states[k];
    ReadyLanesMembers(s.core.lanes, s.core.unavailable);
    assert s.core.lanes[lane].id == lane && !PendingLane(s, lane);
    assert !Stranded(s, lane);
  }

  // ---- Restart ------------------------------------------------------------------------------

  /** What a restart makes of one lane: the next epoch on the new instance, or Failed as it was. */
  ghost predicate Moved(l: LaneData, l': LaneData, rt: Runtime) {
    || (&& l'.state == Ready && l'.epoch == l.epoch + 1
        && l'.endpoint.instance == rt.instance && l'.endpoint.addr == rt.addr)
    || l' == l.(state := Failed)
  }

  ghost predicate AllMoved(before: seq<LaneData>, c: Core, upto: nat)
    requires upto <= |before| == |c.lanes|
  {
    forall i | 0 <= i < upto :: Moved(before[i], c.lanes[i], c.runtime)
  }

  ghost predicate AllRetiring(before: seq<LaneData>, c: Core, from: nat)
    requires |before| == |c.lanes|
  {
    forall i | from <= i < |before| :: c.lanes[i] == before[i].(state := Retiring)
  }

  /** What the verdict of a restart says about the lanes. */
  ghost predicate RestartVerdict(v: Verdict, before: seq<LaneData>, c: Core)
    requires |before| == |c.lanes|
  {
    match v
    case Ok(_) => AllMoved(before, c, |before|)
    case Err(RestartUnavailable) => c.lanes == before
    case Err(_) => NoneReadyFrom(c.lanes, 0)
  }

  ghost predicate PhaseProgress(phase: RestartPhase, before: seq<LaneData>, c: Core)
    requires |before| == |c.lanes|
  {
    match phase
    case HidingReady => c.lanes == before
    case RetiringLanes => c.lanes == before
    case HaltingOld => AllRetiring(before, c, 0)
    case StartingNew => AllRetiring(before, c, 0)
    case MovingLanes(next) => next <= |before| && AllMoved(before, c, next) && AllRetiring(before, c, next)
  }

  /** The restart of `caller`, from taking its command to sending its answer. */
  ghost predicate RestartProgress(s: State, caller: nat, before: seq<LaneData>) {
    && |before| == |s.core.lanes|
    && ManagerToken(s.mgr) == Some(caller)
    && match s.mgr
       case Restarting(_, phase) => PhaseProgress(phase, before, s.core)
       case Publishing(p) => !p.Removing? && RestartVerdict(VerdictOf(p), before, s.core)
       case _ => false
  }

  lemma RestartPhaseProgress(s: State, caller: nat, phase: RestartPhase, env: Env, before: seq<LaneData>)
    requires s.mgr == Restarting(caller, phase) && RestartProgress(s, caller, before)
    ensures RestartProgress(WorkRestart(s, caller, phase, env), caller, before)
  {
    if phase.MovingLanes? && phase.next < |s.core.lanes| {
      RotationEffect(s.core.lanes[phase.next], s.core.runtime, env.entropy, s.now);
    }
    hide RotatedOrFailed;
  }

  /**
   From the moment a restart is taken until its answer is sent: an Ok verdict means every lane
   has moved up exactly one epoch onto the new instance or is Failed; an Instance error means no
   lane is Ready; RestartUnavailable means no lane has changed.
   */
  lemma {:induction false} RestartOutcome(run: Run, j: nat, k: nat, caller: nat)
    requires run.Valid() && j < k < |run.states|
    requires run.events[j].Receive? && run.states[j].queue != [] && run.states[j].queue[0] == Restart(caller)
    requires forall m | j < m <= k :: !run.states[m].mgr.Idle?
    ensures RestartProgress(run.states[k], caller, run.states[j].core.lanes)
    decreases k - j
  {
    hide Init, GoCall, WorkRestart, ReadyLanes, Deliver;
    if j + 1 < k {
      RestartOutcome(run, j, k - 1, caller);
      LastStep(run, k);
      var s, e := run.states[k - 1], run.events[k - 1];
      var before := run.states[j].core.lanes;
      match e
      case Go(t) => GoMovesOnly(s, t);
      case Work(env) =>
        if s.mgr.Restarting? {
          RestartPhaseProgress(s, caller, s.mgr.phase, env, before);
        }
      case _ =>
    } else {
      hide Init;
      LastStep(run, k);
    }
  }

  /** The same for the answer itself: what the caller may conclude from the verdict it gets. */
  lemma RestartAnswer(run: Run, j: nat, k: nat, caller: nat, v: Verdict)
    requires run.Valid() && j < k < |run.states|
    requires run.events[j].Receive? && run.states[j].queue != [] && run.states[j].queue[0] == Restart(caller)
    requires forall m | j < m <= k :: !run.states[m].mgr.Idle?
    requires run.states[k].mgr == Publishing(Replying(caller, v))
    ensures |run.states[j].core.lanes| == |run.states[k].core.lanes|
    ensures RestartVerdict(v, run.states[j].core.lanes, run.states[k].core)
  {
    RestartOutcome(run, j, k, caller);
  }

  /** The instance of a restart fails here: the old one does not stop, or no new one starts. */
  predicate RestartFailsHere(s: State, e: Event) {
    e.Work? && s.mgr.Restarting?
    && ((s.mgr.phase.HaltingOld? && s.core.running && !e.env.stopOk)
        || (s.mgr.phase.StartingNew? && e.env.started.None?))
  }

  ghost predicate InstanceFailed(run: Run, j: nat, k: nat)
    requires run.Valid() && k < |run.states|
  {
    exists m | j < m < k :: RestartFailsHere(run.states[m], run.events[m])
  }

  /** The verdict of the restart under way, given whether its instance has failed. */
  ghost predicate RestartTells(s: State, failed: bool) {
    match s.mgr
    case Restarting(_, _) => s.config.restartable && !failed
    case Publishing(p) =>
      && !p.Removing? && ManagerToken(s.mgr).Some?
      && VerdictOf(p) == (if !s.config.restartable then Err(RestartUnavailable)
                          else if failed then Err(Instance) else Ok(()))
    case _ => false
  }

  lemma RestartStepTells(s: State, waiter: nat, phase: RestartPhase, env: Env)
    requires s.mgr == Restarting(waiter, phase) && RestartTells(s, false)
    ensures RestartTells(WorkRestart(s, waiter, phase, env), RestartFailsHere(s, Work(env)))
  {
    hide RestartLane, WithState;
  }

  lemma PublishingTells(s: State, p: Publication, failed: bool)
    requires s.mgr == Publishing(p) && RestartTells(s, failed)
    ensures WorkPublication(s, p).mgr.Idle? || RestartTells(WorkPublication(s, p), failed)
  {
    hide ReadyLanes;
  }

  lemma {:induction false} RestartIsTold(run: Run, j: nat, k: nat, caller: nat)
    requires run.Valid() && j < k < |run.states|
    requires run.events[j].Receive? && run.states[j].queue != [] && run.states[j].queue[0] == Restart(caller)
    requires forall m | j < m <= k :: !run.states[m].mgr.Idle?
    ensures run.states[k].config == run.states[j].config
    ensures RestartTells(run.states[k], InstanceFailed(run, j, k))
    decreases k - j
  {
    hide Init, GoCall, WorkRestart, WorkPublication, RestartFailsHere;
    LastStep(run, k);
    if j + 1 < k {
      RestartIsTold(run, j, k - 1, caller);
      var s, e := run.states[k - 1], run.events[k - 1];
      var failed := InstanceFailed(run, j, k - 1);
      assert InstanceFailed(run, j, k) <==> failed || RestartFailsHere(s, e);
      OnlyRestartFails(s, e);
      match e
      case Go(t) => GoMovesOnly(s, t);
      case Work(env) =>
        if s.mgr.Restarting? {
          RestartStepTells(s, s.mgr.waiter, s.mgr.phase, env);
          RestartKeepsConfig(s, s.mgr.waiter, s.mgr.phase, env);
        } else {
          PublishingTells(s, s.mgr.publication, failed);
          PublicationKeepsConfig(s, s.mgr.publication);
        }
      case _ =>
    }
  }

  lemma OnlyRestartFails(s: State, e: Event)
    ensures RestartFailsHere(s, e) ==> e.Work? && s.mgr.Restarting?
  {
  }

  lemma RestartKeepsConfig(s: State, waiter: nat, phase: RestartPhase, env: Env)
    ensures WorkRestart(s, waiter, phase, env).config == s.config
  {
    hide RestartLane, WithState;
  }

  lemma PublicationKeepsConfig(s: State, p: Publication)
    ensures WorkPublication(s, p).config == s.config
  {
    hide ReadyLanes;
  }

  /**
   Which answer a restart gives, in every run: RestartUnavailable if and only if the pool has no
   configuration to restart from, otherwise Instance if and only if the old instance did not stop or
   the new one did not start, and Ok if and only if neither happened.
   */
  lemma RestartVerdictExactly(run: Run, j: nat, k: nat, caller: nat, v: Verdict)
    requires run.Valid() && j < k < |run.states|
    requires run.events[j].Receive? && run.states[j].queue != [] && run.states[j].queue[0] == Restart(caller)
    requires forall m | j < m <= k :: !run.states[m].mgr.Idle?
    requires run.states[k].mgr == Publishing(Replying(caller, v))
    ensures v == Err(RestartUnavailable) <==> !run.states[j].config.restartable
    ensures v == Err(Instance) <==> run.states[j].config.restartable && InstanceFailed(run, j, k)
    ensures v == Ok(()) <==> run.states[j].config.restartable && !InstanceFailed(run, j, k)
  {
    RestartIsTold(run, j, k, caller);
  }

  // ---- The recorded runtime -----------------------------------------------------------------

  /** A step records a new runtime exactly when it starts a new instance, and then that one. */
  lemma RuntimeRecorded(s: State, e: Event)
    requires Enabled(s, e)
    ensures Step(s, e).core.runtime
         == if e.Work? && s.mgr.Restarting? && s.mgr.phase.StartingNew? && e.env.started.Some?
            then e.env.started.value else s.core.runtime
  {
    hide GoCall, TakeCommand, TakeTick, WorkPublication, WorkRestart, WorkClose;
    match e
    case Go(call) => GoMovesOnly(s, call);
    case Receive(_) => TakeFrame(s, e);
    case Tick(_) => TakeFrame(s, e);
    case Work(env) =>
      match s.mgr {
        case Publishing(p) => PublicationKeepsRuntime(s, p);
        case Restarting(waiter, phase) => RestartRecords(s, waiter, phase, env);
        case Closing(closer, last) => CloseKeepsRuntime(s, closer, last, env);
      }
    case _ =>
  }

  lemma PublicationKeepsRuntime(s: State, p: Publication)
    ensures WorkPublication(s, p).core.runtime == s.core.runtime
  {
    hide ReadyLanes;
  }

  lemma RestartRecords(s: State, waiter: nat, phase: RestartPhase, env: Env)
    ensures WorkRestart(s, waiter, phase, env).core.runtime
         == if phase.StartingNew? && env.started.Some? then env.started.value else s.core.runtime
  {
    hide WithState, Ids, RotatedOrFailed;
  }

  lemma CloseKeepsRuntime(s: State, closer: Option<nat>, last: ClosePhase, env: Env)
    ensures WorkClose(s, closer, last, env).core.runtime == s.core.runtime
  {
    hide ShutdownResult;
  }

  /** The instance started last, in a run up to `k`; what the pool was built on when there is none. */
  ghost function LastStarted(run: Run, k: nat): Runtime
    requires run.Valid() && k < |run.states|
  {
    if k == 0 then run.states[0].core.runtime
    else
      var s, e := run.states[k - 1], run.events[k - 1];
      if e.Work? && s.mgr.Restarting? && s.mgr.phase.StartingNew? && e.env.started.Some?
      then e.env.started.value else LastStarted(run, k - 1)
  }

  lemma {:induction false} RuntimeIsLastStarted(run: Run, k: nat)
    requires run.Valid() && k < |run.states|
    ensures run.states[k].core.runtime == LastStarted(run, k)
  {
    hide Step, Enabled, Init;
    if k > 0 {
      RuntimeIsLastStarted(run, k - 1);
      LastStep(run, k);
      RuntimeRecorded(run.states[k - 1], run.events[k - 1]);
    }
  }

  /**
   Over all runs, every Ready lane's endpoint is bound to the recorded runtime, which is the last
   instance that was started; whether one runs behind it is settled in Instances.
   */
  lemma ReadyLanesAreCurrent(run: Run, k: nat, i: nat)
    requires run.Valid() && k < |run.states| && i < |run.states[k].core.lanes|
    requires run.states[k].core.lanes[i].state == Ready
    ensures run.states[k].core.lanes[i].endpoint.addr == run.states[k].core.runtime.addr
    ensures run.states[k].core.lanes[i].endpoint.instance == run.states[k].core.runtime.instance
    ensures run.states[k].core.runtime == LastStarted(run, k)
  {
    RuntimeIsLastStarted(run, k);
    RunIsShaped(run, k);
  }
}
