/**
 When a Ready lane, and so a published endpoint, has a Tor instance behind it. The recorded runtime
 outlives a restart whose stop or start fails; the instance does not.
 */
module Instances {
  import opened Wrappers
  import opened Lanes
  import opened PoolCore
  import opened Protocol
  import opened Shape
  import opened Agreement
  import opened FailedLanes
  import opened Staleness

  // ---- Whether the manager holds an instance ------------------------------------------------

  /** The step of a restart that lets the old instance go, whether its shutdown succeeds or not. */
  predicate Halts(s: State, e: Event) {
    e.Work? && s.mgr.Restarting? && s.mgr.phase.HaltingOld?
  }

  predicate StartsNew(s: State, e: Event) {
    e.Work? && s.mgr.Restarting? && s.mgr.phase.StartingNew? && e.env.started.Some?
  }

  lemma InstanceStep(s: State, e: Event)
    requires Enabled(s, e) && Running(Step(s, e))
    ensures Step(s, e).core.running == (StartsNew(s, e) || (s.core.running && !Halts(s, e)))
  {
    hide GoCall, TakeCommand, TakeTick, WorkPublication, WorkRestart;
    match e
    case Go(call) => GoMovesOnly(s, call);
    case Receive(_) => TakeFrame(s, e);
    case Tick(_) => TakeFrame(s, e);
    case Work(env) =>
      match s.mgr {
        case Publishing(p) => PublicationLeavesInstance(s, p);
        case Restarting(waiter, phase) => RestartInstance(s, waiter, phase, env);
        case _ =>
      }
    case _ =>
  }

  lemma PublicationLeavesInstance(s: State, p: Publication)
    ensures var c := WorkPublication(s, p).core; c.lanes == s.core.lanes && c.running == s.core.running
  {
    hide ReadyLanes;
  }

  lemma RestartInstance(s: State, waiter: nat, phase: RestartPhase, env: Env)
    ensures WorkRestart(s, waiter, phase, env).core.running
         == if phase.HaltingOld? then false else s.core.running || (phase.StartingNew? && env.started.Some?)
  {
    hide WithState, Ids, RotatedOrFailed;
  }

  /** Every instance let go so far has been replaced. */
  ghost predicate AllReplaced(run: Run, k: nat)
    requires run.Valid() && k < |run.states|
  {
    forall m | 0 <= m < k && Halts(run.states[m], run.events[m]) ::
      exists n | m < n < k :: StartsNew(run.states[n], run.events[n])
  }

  /**
   In a pool built on an instance, while the manager lives, there is an instance if and only if
   every restart that let one go has started another. A restart that fails to stop the old one or
   to start the new one leaves none.
   */
  lemma {:induction false} InstanceHeld(run: Run, k: nat)
    requires run.Valid() && k < |run.states| && Running(run.states[k]) && run.states[0].core.running
    ensures run.states[k].core.running <==> AllReplaced(run, k)
  {
    hide Step, Enabled, Init, Halts, StartsNew;
    if k > 0 {
      LastStep(run, k);
      var s, e := run.states[k - 1], run.events[k - 1];
      StillRunning(s, e);
      InstanceHeld(run, k - 1);
      InstanceStep(s, e);
      HaltsOrStarts(s, e);
      if AllReplaced(run, k - 1) && !Halts(s, e) {
        assert AllReplaced(run, k);
      }
      if AllReplaced(run, k) && !StartsNew(s, e) {
        forall m | 0 <= m < k - 1 && Halts(run.states[m], run.events[m])
          ensures exists n | m < n < k - 1 :: StartsNew(run.states[n], run.events[n])
        {
          var n :| m < n < k && StartsNew(run.states[n], run.events[n]);
          assert n != k - 1;
        }
        assert AllReplaced(run, k - 1);
      }
      if StartsNew(s, e) {
        assert AllReplaced(run, k);
      }
    }
  }

  lemma HaltsOrStarts(s: State, e: Event)
    ensures !(Halts(s, e) && StartsNew(s, e))
  {
  }

  // ---- Ready lanes --------------------------------------------------------------------------

  /** The steps that take a lane out of Ready: a rotation of it that fails, and a restart. */
  predicate Leaves(s: State, e: Event, lane: nat)
    requires lane < |s.core.lanes| && (e.Receive? ==> s.queue != [])
    requires e.Tick? ==> |e.entropies| == |s.core.lanes|
  {
    RotationFails(s, e, lane) || (e.Work? && s.mgr.Restarting? && s.mgr.phase.RetiringLanes?)
  }

  /** A queued Rotate of the lane succeeds although there is no instance. */
  predicate Rescues(s: State, e: Event, lane: nat)
    requires lane < |s.core.lanes| && (e.Receive? ==> s.queue != [])
  {
    !s.core.running && e.Receive? && s.queue[0].Rotate? && s.queue[0].lane == lane
    && CanRotate(s.core.lanes[lane], e.entropy)
  }

  lemma AssignLeaves(c: Core, limit: Option<nat>, id: nat, epoch: nat, entropy: Entropy, now: nat, lane: nat)
    requires lane < |c.lanes|
    ensures AssignLanes(c, limit, id, epoch, entropy, now)[lane].state == Ready
       <==> c.lanes[lane].state == Ready
            && !(AssignRotates(c.lanes, limit, id, epoch) && AssignIndex(c.lanes, id, epoch) == lane
                 && !CanRotate(c.lanes[lane], entropy))
  {
  }

  lemma RotateLeaves(c: Core, id: nat, entropy: Entropy, now: nat, lane: nat)
    requires WellFormed(c.lanes) && lane < |c.lanes|
    ensures RotateLanes(c, id, entropy, now)[lane].state == Ready
       <==> if id == lane then CanRotate(c.lanes[lane], entropy) else c.lanes[lane].state == Ready
  {
    KnownLaneIndex(c.lanes, lane);
  }

  lemma ReceiveLeaves(s: State, entropy: Entropy, lane: nat)
    requires Shaped(s) && s.queue != [] && lane < |s.core.lanes|
    ensures |TakeCommand(s, entropy).core.lanes| == |s.core.lanes|
    ensures var ready := s.core.lanes[lane].state == Ready;
      TakeCommand(s, entropy).core.lanes[lane].state == Ready <==>
        || (ready && !Leaves(s, Receive(entropy), lane))
        || (s.queue[0].Rotate? && s.queue[0].lane == lane && CanRotate(s.core.lanes[lane], entropy))
  {
    TakenLanes(s, entropy);
    assert WellFormed(s.core.lanes);
    hide TakeCommand, AssignLanes, RotateLanes, AssignRotates, AssignIndex, Shaped, CanRotate, WellFormed;
    match s.queue[0]
    case Assign(id, epoch) => AssignLeaves(s.core, s.config.limit, id, epoch, entropy, s.now, lane);
    case Rotate(id, _) => RotateLeaves(s.core, id, entropy, s.now, lane);
    case _ =>
  }

  lemma TickLeaves(s: State, entropies: seq<Entropy>, lane: nat)
    requires |entropies| == |s.core.lanes| && lane < |s.core.lanes|
    ensures |TakeTick(s, entropies).core.lanes| == |s.core.lanes|
    ensures TakeTick(s, entropies).core.lanes[lane].state == Ready
       <==> s.core.lanes[lane].state == Ready && !Leaves(s, Tick(entropies), lane)
  {
    hide AnyExpired;
  }

  /** While a restart moves lanes it has an instance to move them to. */
  ghost predicate MovesToInstance(s: State) {
    s.mgr.Restarting? && s.mgr.phase.MovingLanes? ==> s.core.running
  }

  /** A Ready lane although the manager has no instance. */
  ghost predicate Orphan(s: State, lane: nat) {
    lane < |s.core.lanes| && s.core.lanes[lane].state == Ready && !s.core.running
  }

  lemma RestartOrphans(s: State, waiter: nat, phase: RestartPhase, env: Env, lane: nat)
    requires Shaped(s) && s.mgr == Restarting(waiter, phase) && MovesToInstance(s) && lane < |s.core.lanes|
    ensures Orphan(WorkRestart(s, waiter, phase, env), lane) <==> Orphan(s, lane) && !phase.RetiringLanes?
    ensures MovesToInstance(WorkRestart(s, waiter, phase, env))
  {
    assert PhaseOk(phase, s.core.lanes);
    hide Shaped, RotatedOrFailed, Ids;
  }

  /**
   While the manager lives, a lane is Ready without an instance after a step if and only if a Rotate
   of it succeeds in this step with no instance there, or it was so before and does not leave Ready.
   */
  lemma OrphanStep(s: State, e: Event, lane: nat)
    requires Shaped(s) && Enabled(s, e) && Running(Step(s, e)) && MovesToInstance(s) && lane < |s.core.lanes|
    ensures Orphan(Step(s, e), lane) <==> Rescues(s, e, lane) || (Orphan(s, lane) && !Leaves(s, e, lane))
    ensures MovesToInstance(Step(s, e))
  {
    hide GoCall, TakeCommand, TakeTick, WorkPublication, WorkRestart, Shaped, CanRotate, AssignRotates, Expired;
    match e
    case Go(call) => GoMovesOnly(s, call);
    case Receive(entropy) =>
      TakeFrame(s, e);
      ReceiveLeaves(s, entropy, lane);
      TakingMovesNothing(s, entropy);
    case Tick(entropies) =>
      TakeFrame(s, e);
      TickLeaves(s, entropies, lane);
      TickMovesNothing(s, entropies);
    case Work(env) =>
      match s.mgr {
        case Publishing(p) => PublicationOrphans(s, p, lane);
        case Restarting(waiter, phase) => RestartOrphans(s, waiter, phase, env, lane);
        case _ =>
      }
    case _ =>
  }

  lemma TakingMovesNothing(s: State, entropy: Entropy)
    requires s.queue != []
    ensures MovesToInstance(TakeCommand(s, entropy))
  {
    hide AssignLanes, RotateLanes, AssignRotates, RotateResult;
  }

  lemma TickMovesNothing(s: State, entropies: seq<Entropy>)
    requires |entropies| == |s.core.lanes|
    ensures MovesToInstance(TakeTick(s, entropies))
  {
    hide ExpireLanes, AnyExpired;
  }

  lemma PublicationOrphans(s: State, p: Publication, lane: nat)
    ensures Orphan(WorkPublication(s, p), lane) <==> Orphan(s, lane)
    ensures MovesToInstance(WorkPublication(s, p))
  {
    hide ReadyLanes;
  }

  // ---- Over runs ----------------------------------------------------------------------------

  /** A Rotate of the lane succeeded with no instance there, and the lane has not left Ready since. */
  ghost predicate Rescued(run: Run, k: nat, lane: nat)
    requires run.Valid() && k < |run.states|
  {
    exists m | 0 <= m < k :: RescuedAt(run, m, k, lane)
  }

  ghost predicate RescuedAt(run: Run, m: nat, k: nat, lane: nat)
    requires run.Valid() && m < k < |run.states|
  {
    && StepRescues(run, m, lane)
    && forall n | m < n < k :: !StepLeaves(run, n, lane)
  }

  ghost predicate StepRescues(run: Run, m: nat, lane: nat)
    requires run.Valid() && m < |run.events|
  {
    LastStep(run, m + 1);
    lane < |run.states[m].core.lanes| && Rescues(run.states[m], run.events[m], lane)
  }

  ghost predicate StepLeaves(run: Run, m: nat, lane: nat)
    requires run.Valid() && m < |run.events|
  {
    LastStep(run, m + 1);
    lane < |run.states[m].core.lanes| && Leaves(run.states[m], run.events[m], lane)
  }

  /**
   In a pool built on an instance, while the manager lives: a lane is Ready without an instance if
   and only if it was rescued since it last left Ready.
   */
  lemma {:induction false} OrphanIffRescued(run: Run, k: nat, lane: nat)
    requires run.Valid() && k < |run.states| && Running(run.states[k]) && run.states[0].core.running
    requires lane < |run.states[k].core.lanes|
    ensures MovesToInstance(run.states[k])
    ensures Orphan(run.states[k], lane) <==> Rescued(run, k, lane)
  {
    hide Step, Enabled, Init, Orphan, Rescues, Leaves, Shaped, Running;
    if k == 0 {
      FirstState(run);
      FreshHasInstance(run.states[0], lane);
    } else {
      LastStep(run, k);
      var s, e := run.states[k - 1], run.events[k - 1];
      StillRunning(s, e);
      StepAdvancesLanes(s, e);
      RunIsShaped(run, k - 1);
      OrphanIffRescued(run, k - 1, lane);
      OrphanStep(s, e, lane);
      RescuedGrows(run, k, lane);
    }
  }

  lemma FreshHasInstance(s: State, lane: nat)
    requires Init(s) && s.core.running
    ensures MovesToInstance(s) && !Orphan(s, lane)
  {
  }

  lemma RescuedGrows(run: Run, k: nat, lane: nat)
    requires run.Valid() && 0 < k < |run.states|
    ensures Rescued(run, k, lane)
       <==> StepRescues(run, k - 1, lane) || (Rescued(run, k - 1, lane) && !StepLeaves(run, k - 1, lane))
  {
    hide StepRescues, StepLeaves;
    if Rescued(run, k, lane) {
      var m :| 0 <= m < k && RescuedAt(run, m, k, lane);
      if m < k - 1 {
        assert RescuedAt(run, m, k - 1, lane);
      }
    }
    if StepRescues(run, k - 1, lane) {
      assert RescuedAt(run, k - 1, k, lane);
    }
    if Rescued(run, k - 1, lane) && !StepLeaves(run, k - 1, lane) {
      var m :| 0 <= m < k - 1 && RescuedAt(run, m, k - 1, lane);
      assert RescuedAt(run, m, k, lane);
    }
  }

  /**
   At quiescence every published endpoint is bound to the recorded runtime, and has a running
   instance behind it if and only if its lane was not rescued; there is one at all if and only if
   every restart that let one go has started another.
   */
  lemma PublishedInstance(run: Run, k: nat, e: Endpoint)
    requires run.Valid() && k < |run.states| && run.states[0].core.running
    requires run.states[k].mgr.Idle? && !Pending(run.states[k]) && e in run.states[k].core.ready
    ensures e.instance == run.states[k].core.runtime.instance && e.addr == run.states[k].core.runtime.addr
    ensures run.states[k].core.running <==> !Rescued(run, k, e.lane)
    ensures run.states[k].core.running <==> AllReplaced(run, k)
  {
    hide Init, Pending, Rescued, AllReplaced;
    QuiescentSnapshot(run, k);
    RunIsShaped(run, k);
    InstanceHeld(run, k);
    OrphanIffRescued(run, k, e.lane);
  }

  /**
   Whenever the manager is at rest, quiescent or not: a published endpoint of a Ready lane is bound to
   the recorded runtime and has an instance behind it if and only if the lane was not rescued; any
   other was restored by an overwrite.
   */
  lemma PublishedAtRest(run: Run, k: nat, e: Endpoint)
    requires run.Valid() && k < |run.states| && run.states[0].core.running
    requires AtRest(run.states[k].mgr) && e in run.states[k].core.ready
    ensures var c := run.states[k].core;
      && (c.running <==> AllReplaced(run, k))
      && (InForce(e, c.lanes) ==>
            e.instance == c.runtime.instance && e.addr == c.runtime.addr && (c.running <==> !Rescued(run, k, e.lane)))
      && (!InForce(e, c.lanes) ==> Restored(run, k, e))
  {
    hide Init, Rescued, AllReplaced, Restored;
    RunIsShaped(run, k);
    InstanceHeld(run, k);
    if InForce(e, run.states[k].core.lanes) {
      OrphanIffRescued(run, k, e.lane);
    } else {
      StaleIffRestored(run, k, e);
    }
  }
}
