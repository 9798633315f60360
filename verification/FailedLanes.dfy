/** Which steps take a lane into Failed and out of it, whatever else is going on. */
module FailedLanes {
  import opened Wrappers
  import opened Lanes
  import opened PoolCore
  import opened Protocol
  import opened Shape
  import opened Agreement

  predicate CanRotate(l: LaneData, entropy: Entropy) {
    l.epoch < U64_MAX && entropy.Some?
  }

  /** A command or a tick that rotates the lane, in vain. */
  predicate RotationFails(s: State, e: Event, lane: nat)
    requires lane < |s.core.lanes| && (e.Receive? ==> s.queue != [])
    requires e.Tick? ==> |e.entropies| == |s.core.lanes|
  {
    var l := s.core.lanes[lane];
    match e
    case Receive(entropy) =>
      !CanRotate(l, entropy)
      && (match s.queue[0]
          case Rotate(id, _) => id == lane
          case Assign(id, epoch) =>
            AssignRotates(s.core.lanes, s.config.limit, id, epoch) && AssignIndex(s.core.lanes, id, epoch) == lane
          case _ => false)
    case Tick(entropies) => Expired(l, s.config.ttl, s.now) && !CanRotate(l, entropies[lane])
    case _ => false
  }

  /** The steps that leave a lane Failed: a rotation of it that fails, and a restart that starts no instance. */
  predicate Fails(s: State, e: Event, lane: nat)
    requires lane < |s.core.lanes| && (e.Receive? ==> s.queue != [])
    requires e.Tick? ==> |e.entropies| == |s.core.lanes|
  {
    || RotationFails(s, e, lane)
    || (e.Work? && s.mgr.Restarting?
        && ((s.mgr.phase.StartingNew? && e.env.started.None?)
            || (s.mgr.phase == MovingLanes(lane) && !CanRotate(s.core.lanes[lane], e.env.entropy))))
  }

  /** The steps that take a lane out of Failed: a Rotate of it that succeeds, and a restart. */
  predicate Revives(s: State, e: Event, lane: nat)
    requires lane < |s.core.lanes| && (e.Receive? ==> s.queue != [])
  {
    || (e.Receive? && s.queue[0].Rotate? && s.queue[0].lane == lane && CanRotate(s.core.lanes[lane], e.entropy))
    || (e.Work? && s.mgr.Restarting?
        && (s.mgr.phase.RetiringLanes?
            || (s.mgr.phase == MovingLanes(lane) && CanRotate(s.core.lanes[lane], e.env.entropy))))
  }

  lemma AssignFails(c: Core, limit: Option<nat>, id: nat, epoch: nat, entropy: Entropy, now: nat, lane: nat)
    requires lane < |c.lanes|
    ensures AssignLanes(c, limit, id, epoch, entropy, now)[lane].state == Failed <==>
      || c.lanes[lane].state == Failed
      || (AssignRotates(c.lanes, limit, id, epoch) && AssignIndex(c.lanes, id, epoch) == lane
          && !CanRotate(c.lanes[lane], entropy))
  {
  }

  lemma RotateFails(c: Core, id: nat, entropy: Entropy, now: nat, lane: nat)
    requires WellFormed(c.lanes) && lane < |c.lanes|
    ensures RotateLanes(c, id, entropy, now)[lane].state == Failed
       <==> if id == lane then !CanRotate(c.lanes[lane], entropy) else c.lanes[lane].state == Failed
  {
    KnownLaneIndex(c.lanes, lane);
    RotationEffect(c.lanes[lane], c.runtime, entropy, now);
    hide RotatedOrFailed;
  }

  lemma TakingFails(s: State, entropy: Entropy, lane: nat)
    requires Shaped(s) && s.queue != [] && lane < |s.core.lanes|
    ensures |TakeCommand(s, entropy).core.lanes| == |s.core.lanes|
    ensures var failed := s.core.lanes[lane].state == Failed;
      TakeCommand(s, entropy).core.lanes[lane].state == Failed <==>
        Fails(s, Receive(entropy), lane) || (failed && !Revives(s, Receive(entropy), lane))
  {
    TakenLanes(s, entropy);
    assert WellFormed(s.core.lanes);
    hide TakeCommand, AssignLanes, RotateLanes, AssignRotates, AssignIndex, Shaped, CanRotate, WellFormed;
    match s.queue[0]
    case Assign(id, epoch) => AssignFails(s.core, s.config.limit, id, epoch, entropy, s.now, lane);
    case Rotate(id, _) => RotateFails(s.core, id, entropy, s.now, lane);
    case _ =>
  }

  lemma TickFails(s: State, entropies: seq<Entropy>, lane: nat)
    requires |entropies| == |s.core.lanes| && lane < |s.core.lanes|
    ensures |TakeTick(s, entropies).core.lanes| == |s.core.lanes|
    ensures TakeTick(s, entropies).core.lanes[lane].state == Failed
       <==> Fails(s, Tick(entropies), lane) || s.core.lanes[lane].state == Failed
  {
    hide AnyExpired;
  }

  lemma MoveFails(c: Core, next: nat, entropy: Entropy, now: nat, lane: nat)
    requires lane < |c.lanes| && next < |c.lanes|
    ensures |RestartLane(c, next, entropy, now).lanes| == |c.lanes|
    ensures RestartLane(c, next, entropy, now).lanes[lane].state == Failed
       <==> if next == lane then !CanRotate(c.lanes[lane], entropy) else c.lanes[lane].state == Failed
  {
    RotationEffect(c.lanes[lane], c.runtime, entropy, now);
    hide RotatedOrFailed;
  }

  lemma RestartFails(s: State, env: Env, lane: nat)
    requires s.mgr.Restarting? && lane < |s.core.lanes|
    ensures var t := WorkRestart(s, s.mgr.waiter, s.mgr.phase, env);
      && |t.core.lanes| == |s.core.lanes|
      && (t.core.lanes[lane].state == Failed <==>
            Fails(s, Work(env), lane) || (s.core.lanes[lane].state == Failed && !Revives(s, Work(env), lane)))
  {
    hide CanRotate, RestartLane;
    if s.mgr.phase.MovingLanes? && s.mgr.phase.next < |s.core.lanes| {
      MoveFails(s.core, s.mgr.phase.next, env.entropy, s.now, lane);
    }
  }

  /** After a step a lane is Failed if and only if the step fails it, or it was and the step does not revive it. */
  lemma FailedStep(s: State, e: Event, lane: nat)
    requires Shaped(s) && Enabled(s, e) && lane < |s.core.lanes|
    ensures lane < |Step(s, e).core.lanes|
    ensures Step(s, e).core.lanes[lane].state == Failed
       <==> Fails(s, e, lane) || (s.core.lanes[lane].state == Failed && !Revives(s, e, lane))
  {
    hide TakeCommand, TakeTick, WorkRestart, WorkPublication, GoCall, Shaped, CanRotate, AssignRotates, Expired;
    match e
    case Go(call) => GoMovesOnly(s, call);
    case Receive(entropy) => TakingFails(s, entropy, lane);
    case Tick(entropies) => TickFails(s, entropies, lane);
    case Work(env) =>
      match s.mgr {
        case Publishing(p) => PublicationLeavesLanes(s, p);
        case Restarting(_, _) => RestartFails(s, env, lane);
        case _ =>
      }
    case _ =>
  }

  lemma PublicationLeavesLanes(s: State, p: Publication)
    ensures WorkPublication(s, p).core.lanes == s.core.lanes
  {
    hide ReadyLanes;
  }

  /** A Failed lane stays Failed exactly through the steps that do not revive it. */
  lemma FailedUnlessRevived(s: State, e: Event, lane: nat)
    requires Shaped(s) && Enabled(s, e) && lane < |s.core.lanes| && s.core.lanes[lane].state == Failed
    ensures lane < |Step(s, e).core.lanes|
    ensures Step(s, e).core.lanes[lane].state == Failed <==> !Revives(s, e, lane)
  {
    hide Step, Shaped, AssignRotates, Expired, CanRotate;
    FailedStep(s, e, lane);
  }

  // ---- Over runs ----------------------------------------------------------------------------

  ghost predicate FailsAt(run: Run, m: nat, lane: nat)
    requires run.Valid() && m < |run.events|
  {
    LastStep(run, m + 1);
    lane < |run.states[m].core.lanes| && Fails(run.states[m], run.events[m], lane)
  }

  ghost predicate RevivesAt(run: Run, m: nat, lane: nat)
    requires run.Valid() && m < |run.events|
  {
    LastStep(run, m + 1);
    lane < |run.states[m].core.lanes| && Revives(run.states[m], run.events[m], lane)
  }

  /** Step `m` fails the lane and none after it, up to `k`, revives it. */
  ghost predicate FailedSince(run: Run, m: nat, k: nat, lane: nat)
    requires run.Valid() && m < k < |run.states|
  {
    FailsAt(run, m, lane) && forall n | m < n < k :: !RevivesAt(run, n, lane)
  }

  /** Some step failed the lane and none has revived it since. */
  ghost predicate FailedBefore(run: Run, k: nat, lane: nat)
    requires run.Valid() && k < |run.states|
  {
    exists m | 0 <= m < k :: FailedSince(run, m, k, lane)
  }

  /** In every run a lane is Failed if and only if some step failed it and none has revived it since. */
  lemma {:induction false} FailedIffNotRevived(run: Run, k: nat, lane: nat)
    requires run.Valid() && k < |run.states| && lane < |run.states[k].core.lanes|
    ensures run.states[k].core.lanes[lane].state == Failed <==> FailedBefore(run, k, lane)
  {
    hide Step, Enabled, Init, Fails, Revives, Shaped, FailedSince;
    if k == 0 {
      FirstState(run);
      FreshIsReady(run.states[0], lane);
    } else {
      LastStep(run, k);
      var s, e := run.states[k - 1], run.events[k - 1];
      StepAdvancesLanes(s, e);
      RunIsShaped(run, k - 1);
      FailedIffNotRevived(run, k - 1, lane);
      FailedStep(s, e, lane);
      FailedSinceGrows(run, k, lane);
    }
  }

  lemma FreshIsReady(s: State, lane: nat)
    requires Init(s) && lane < |s.core.lanes|
    ensures s.core.lanes[lane].state == Ready
  {
    var bytes :| NewLane(lane, s.core.runtime, Some(bytes), s.now) == Ok(s.core.lanes[lane]);
  }

  lemma FailedSinceGrows(run: Run, k: nat, lane: nat)
    requires run.Valid() && 0 < k < |run.states|
    ensures FailedBefore(run, k, lane)
       <==> FailsAt(run, k - 1, lane) || (FailedBefore(run, k - 1, lane) && !RevivesAt(run, k - 1, lane))
  {
    hide FailsAt, RevivesAt;
    if FailedBefore(run, k, lane) {
      var m :| 0 <= m < k && FailedSince(run, m, k, lane);
      if m < k - 1 {
        assert FailedSince(run, m, k - 1, lane);
      }
    }
    if FailsAt(run, k - 1, lane) {
      assert FailedSince(run, k - 1, k, lane);
    }
    if FailedBefore(run, k - 1, lane) && !RevivesAt(run, k - 1, lane) {
      var m :| 0 <= m < k - 1 && FailedSince(run, m, k - 1, lane);
      assert FailedSince(run, m, k, lane);
    }
  }
}
