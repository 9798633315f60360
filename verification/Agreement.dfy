/**
 The published snapshot as a cache of `ReadyLanes`: it may be stale while somebody still owes
 the manager a publication, and agrees again as soon as nobody does.
 */
module Agreement {
  import opened Wrappers
  import opened Lanes
  import opened Select
  import opened PoolCore
  import opened Protocol
  import opened Shape

  /** Between its insert into `unavailable` and its send, a rotating call owes a command. */
  predicate Owes(c: Call) {
    c.Rotating? && (c.rotation.Inserted? || c.rotation.Overwritten?)
  }

  predicate OwesLane(c: Call, lane: nat) {
    Owes(c) && c.rotation.lane == lane
  }

  ghost predicate CallOwes(s: State, lane: nat) {
    exists t <- s.calls :: OwesLane(s.calls[t], lane)
  }

  ghost predicate RotateQueued(s: State, lane: nat) {
    exists k | 0 <= k < |s.queue| :: s.queue[k].Rotate? && s.queue[k].lane == lane
  }

  /** Some call or queued command still stands for a publication of `lane`. */
  ghost predicate PendingLane(s: State, lane: nat) {
    CallOwes(s, lane) || RotateQueued(s, lane)
  }

  ghost predicate Pending(s: State) {
    exists lane :: PendingLane(s, lane)
  }

  ghost predicate Running(s: State) {
    !s.mgr.Closing? && !s.mgr.Gone?
  }

  function Snapshot(s: State): seq<Endpoint> {
    ReadyLanes(s.core.lanes, s.core.unavailable)
  }

  /** What the snapshot must be at each point of the manager's work, when nothing is pending. */
  ghost predicate Agrees(s: State) {
    match s.mgr
    case Idle => s.core.ready == Snapshot(s)
    case Publishing(Replying(_, _)) => s.core.ready == Snapshot(s)
    case Publishing(Storing(snapshot, _)) => snapshot == Snapshot(s)
    case Restarting(_, RetiringLanes) => s.core.ready == []
    case Restarting(_, HaltingOld) => s.core.ready == []
    case _ => true
  }

  ghost predicate Stranded(s: State, i: nat)
    requires i < |s.core.lanes|
  {
    s.core.lanes[i].state == Ready && s.core.lanes[i].id in s.core.unavailable
  }

  /** A Ready lane that is hidden is about to be dealt with. */
  ghost predicate NothingLost(s: State) {
    forall i | 0 <= i < |s.core.lanes| && Stranded(s, i) ::
      PendingLane(s, i) || (s.mgr.Publishing? && s.mgr.publication.Removing? && s.mgr.publication.lane == i)
  }

  /** A refused send is undone only once the manager is gone. */
  ghost predicate NoneUndoing(calls: map<nat, Call>) {
    forall t <- calls :: !(calls[t].Rotating? && calls[t].rotation.Undoing?)
  }

  ghost predicate Cached(s: State) {
    Running(s) ==> NoneUndoing(s.calls) && NothingLost(s) && (!Pending(s) ==> Agrees(s))
  }

  // ---- Steps of calls and of the clock ------------------------------------------------------

  /** A step outside the manager either leaves the shared values alone or makes something pending. */
  ghost predicate HandleStep(s: State, s': State) {
    && s'.mgr == s.mgr
    && s'.core.lanes == s.core.lanes
    && NoneUndoing(s'.calls)
    && (forall lane | PendingLane(s, lane) :: PendingLane(s', lane))
    && (s'.core == s.core || Pending(s'))
    && (forall lane | lane in s'.core.unavailable && lane !in s.core.unavailable :: PendingLane(s', lane))
  }

  lemma HandleStepKeepsCached(s: State, s': State)
    requires Shaped(s) && Cached(s) && HandleStep(s, s')
    ensures Cached(s')
  {
    if Running(s') {
      forall i | 0 <= i < |s'.core.lanes| && Stranded(s', i)
        ensures PendingLane(s', i)
             || (s'.mgr.Publishing? && s'.mgr.publication.Removing? && s'.mgr.publication.lane == i)
      {
        if i in s.core.unavailable {
          assert Stranded(s, i);
        }
      }
    }
  }

  /** Moving one call and appending to the queue keeps everything pending, if that call's debt is kept. */
  lemma MovedCallPends(s: State, call: nat, s': State)
    requires call in s'.calls && s'.calls == s.calls[call := s'.calls[call]] && s.queue <= s'.queue
    requires call in s.calls && Owes(s.calls[call]) ==>
               OwesLane(s'.calls[call], s.calls[call].rotation.lane) || RotateQueued(s', s.calls[call].rotation.lane)
    ensures forall lane | PendingLane(s, lane) :: PendingLane(s', lane)
    ensures Owes(s'.calls[call]) ==> PendingLane(s', s'.calls[call].rotation.lane)
  {
    if Owes(s'.calls[call]) {
      assert OwesLane(s'.calls[call], s'.calls[call].rotation.lane);
    }
    forall lane | PendingLane(s, lane)
      ensures PendingLane(s', lane)
    {
      if CallOwes(s, lane) {
        var t :| t in s.calls && OwesLane(s.calls[t], lane);
        if t != call {
          assert t in s'.calls && OwesLane(s'.calls[t], lane);
        }
      } else {
        var k :| 0 <= k < |s.queue| && s.queue[k].Rotate? && s.queue[k].lane == lane;
        assert s'.queue[k] == s.queue[k];
      }
    }
  }

  lemma HandOutIsHandleStep(s: State, call: nat, h: HandOut)
    requires call in s.calls && s.calls[call] == Choosing(h) && Running(s) && NoneUndoing(s.calls)
    ensures HandleStep(s, GoHandOut(s, call, h))
  {
    MovedCallPends(s, call, GoHandOut(s, call, h));
  }

  lemma RotationIsHandleStep(s: State, call: nat, r: Rotation)
    requires call in s.calls && s.calls[call] == Rotating(r) && Running(s) && NoneUndoing(s.calls)
    ensures HandleStep(s, GoRotation(s, call, r))
  {
    var s' := GoRotation(s, call, r);
    if r.Overwritten? {
      assert s'.queue[|s.queue|].Rotate? && s'.queue[|s.queue|].lane == r.lane;
    }
    MovedCallPends(s, call, s');
  }

  lemma StopIsHandleStep(s: State, call: nat, p: Stop)
    requires call in s.calls && s.calls[call] == Stopping(p) && Running(s) && NoneUndoing(s.calls)
    ensures HandleStep(s, GoStop(s, call, p))
  {
    MovedCallPends(s, call, GoStop(s, call, p));
  }

  lemma GoKeepsCached(s: State, call: nat)
    requires Shaped(s) && Cached(s) && Running(s) && call in s.calls && CanGo(s, s.calls[call])
    ensures Cached(GoCall(s, call))
  {
    hide GoHandOut, GoRotation, GoStop;
    match s.calls[call]
    case Choosing(h) =>
      HandOutIsHandleStep(s, call, h);
      HandleStepKeepsCached(s, GoHandOut(s, call, h));
    case Rotating(r) =>
      RotationIsHandleStep(s, call, r);
      HandleStepKeepsCached(s, GoRotation(s, call, r));
    case Stopping(p) =>
      StopIsHandleStep(s, call, p);
      HandleStepKeepsCached(s, GoStop(s, call, p));
    case RestartOpen =>
      MovedCallPends(s, call, GoCall(s, call));
      HandleStepKeepsCached(s, GoCall(s, call));
  }

  lemma StartKeepsCached(s: State, call: nat, request: Request)
    requires Shaped(s) && Cached(s) && Running(s) && Enabled(s, Start(call, request))
    ensures Cached(Step(s, Start(call, request)))
  {
    var s' := Step(s, Start(call, request));
    MovedCallPends(s, call, s');
    HandleStepKeepsCached(s, s');
  }

  lemma CancelKeepsCached(s: State, call: nat)
    requires Shaped(s) && Cached(s) && Running(s) && Enabled(s, Cancel(call))
    ensures Cached(Step(s, Cancel(call)))
  {
    var s' := Step(s, Cancel(call));
    MovedCallPends(s, call, s');
    HandleStepKeepsCached(s, s');
  }

  // ---- Steps of the manager -----------------------------------------------------------------

  /** Nothing pending is dropped when the queue and the owing calls stay. */
  lemma SamePending(s: State, s': State)
    requires s'.calls == s.calls && s'.queue == s.queue
    ensures forall lane :: PendingLane(s, lane) <==> PendingLane(s', lane)
  {
  }

  /** Taking the head of the queue drops at most the debt that command stood for. */
  lemma PoppedPending(s: State, s': State, lane: nat)
    requires s.queue != [] && s'.calls == s.calls && s'.queue == s.queue[1..]
    ensures PendingLane(s', lane) ==> PendingLane(s, lane)
    ensures PendingLane(s, lane) ==>
              PendingLane(s', lane) || (s.queue[0].Rotate? && s.queue[0].lane == lane)
  {
    if RotateQueued(s', lane) {
      var k :| 0 <= k < |s'.queue| && s'.queue[k].Rotate? && s'.queue[k].lane == lane;
      assert s.queue[k + 1] == s'.queue[k];
    }
    if RotateQueued(s, lane) {
      var k :| 0 <= k < |s.queue| && s.queue[k].Rotate? && s.queue[k].lane == lane;
      if k > 0 {
        assert s'.queue[k - 1] == s.queue[k];
      }
    }
  }

  lemma DeliverKeepsOwing(calls: map<nat, Call>, waiter: nat, verdict: Verdict)
    ensures NoneUndoing(calls) ==> NoneUndoing(Deliver(calls, waiter, verdict))
    ensures forall t, lane :: (t in calls && OwesLane(calls[t], lane)) <==>
              (t in Deliver(calls, waiter, verdict) && OwesLane(Deliver(calls, waiter, verdict)[t], lane))
  {
  }

  lemma PublicationKeepsCached(s: State, p: Publication)
    requires Shaped(s) && Cached(s) && s.mgr == Publishing(p)
    ensures Cached(WorkPublication(s, p))
  {
    var s' := WorkPublication(s, p);
    if p.Replying? {
      DeliverKeepsOwing(s.calls, p.waiter, p.verdict);
      assert forall lane :: CallOwes(s, lane) <==> CallOwes(s', lane);
      assert forall lane :: RotateQueued(s, lane) <==> RotateQueued(s', lane);
      assert forall lane :: PendingLane(s, lane) <==> PendingLane(s', lane);
    } else {
      SamePending(s, s');
    }
    forall i | 0 <= i < |s'.core.lanes| && Stranded(s', i)
      ensures PendingLane(s', i)
    {
      assert Stranded(s, i);
    }
  }

  /** Assign and tick rotate Ready lanes in place: whatever is hidden was hidden before. */
  lemma CountingKeepsCached(s: State, s': State)
    requires Shaped(s) && Cached(s) && s.mgr.Idle? && LanesAdvance(s.core, s'.core)
    requires s'.calls == s.calls && s'.core == s.core.(lanes := s'.core.lanes)
    requires forall lane :: PendingLane(s, lane) <==> PendingLane(s', lane)
    requires forall i | 0 <= i < |s.core.lanes| && s'.core.lanes[i].state == Ready :: s.core.lanes[i].state == Ready
    requires s'.mgr == Publishing(Computing(Silent))
          || (s'.mgr == Idle && forall i | 0 <= i < |s.core.lanes| ::
                && s'.core.lanes[i].state == s.core.lanes[i].state
                && s'.core.lanes[i].endpoint == s.core.lanes[i].endpoint)
    ensures Cached(s')
  {
    forall i | 0 <= i < |s'.core.lanes| && Stranded(s', i)
      ensures PendingLane(s', i)
    {
      assert LaneAdvances(s.core.lanes[i], s'.core.lanes[i], s'.core.runtime);
      assert Stranded(s, i);
    }
    if s'.mgr.Idle? {
      forall i | 0 <= i < |s.core.lanes|
        ensures s'.core.lanes[i].id == s.core.lanes[i].id
      {
        assert LaneAdvances(s.core.lanes[i], s'.core.lanes[i], s'.core.runtime);
      }
      ReadyLanesCongruence(s.core.lanes, s'.core.lanes, s.core.unavailable, s.core.unavailable);
    }
  }

  lemma AssignKeepsCached(s: State, lane: nat, epoch: nat, entropy: Entropy, s': State)
    requires Shaped(s) && Cached(s) && s.mgr.Idle? && s.queue != [] && s.queue[0] == Assign(lane, epoch)
    requires s' == TakeAssign(s.(queue := s.queue[1..]), lane, epoch, entropy)
    ensures Cached(s')
  {
    forall l
      ensures PendingLane(s, l) <==> PendingLane(s', l)
    {
      PoppedPending(s, s', l);
    }
    AssignAdvances(s.core, s.config.limit, lane, epoch, entropy, s.now);
    CountingKeepsCached(s, s');
  }

  lemma TickKeepsCached(s: State, entropies: seq<Entropy>)
    requires Shaped(s) && Cached(s) && Enabled(s, Tick(entropies))
    ensures Cached(TakeTick(s, entropies))
  {
    var s' := TakeTick(s, entropies);
    SamePending(s, s');
    ExpireAdvances(s.core, s.config.ttl, entropies, s.now);
    CountingKeepsCached(s, s');
  }

  lemma KnownLaneIndex(lanes: seq<LaneData>, lane: nat)
    requires WellFormed(lanes) && lane < |lanes|
    ensures LaneIndex(lanes, lane) == lane
  {
    var i := LaneIndex(lanes, lane);
    assert lanes[lane].id == lane;
    if i < |lanes| {
      assert lanes[i].id == i;
    }
  }

  lemma RotateKeepsCached(s: State, lane: nat, waiter: Option<nat>, entropy: Entropy, s': State)
    requires Shaped(s) && Cached(s) && s.mgr.Idle? && s.queue != [] && s.queue[0] == Rotate(lane, waiter)
    requires s' == TakeRotate(s.(queue := s.queue[1..]), lane, waiter, entropy)
    ensures Cached(s')
  {
    KnownLaneIndex(s.core.lanes, lane);
    assert s'.mgr.Publishing? && !s'.mgr.publication.Storing? && !s'.mgr.publication.Replying?;
    forall i | 0 <= i < |s'.core.lanes| && Stranded(s', i)
      ensures PendingLane(s', i) || (s'.mgr.publication.Removing? && s'.mgr.publication.lane == i)
    {
      PoppedPending(s, s', i);
      if i != lane {
        assert Stranded(s, i);
      }
    }
  }

  /** Moving a lane makes at most that lane Ready, and then shows it. */
  lemma MoveShowsOne(c: Core, next: nat, entropy: Entropy, now: nat, i: nat)
    requires WellFormed(c.lanes) && next < |c.lanes| && i < |c.lanes|
    ensures var c' := RestartLane(c, next, entropy, now);
      && |c'.lanes| == |c.lanes|
      && (c'.lanes[i].state == Ready && i in c'.unavailable ==> i != next && c.lanes[i].state == Ready)
      && (i in c'.unavailable ==> i in c.unavailable)
  {
    RotationEffect(c.lanes[next], c.runtime, entropy, now);
    hide RotatedOrFailed;
  }

  /** A restart never makes a lane Ready without taking it out of `unavailable`. */
  lemma RestartStrandsNothing(s: State, waiter: nat, phase: RestartPhase, env: Env, i: nat)
    requires WellFormed(s.core.lanes) && PhaseOk(phase, s.core.lanes) && i < |s.core.lanes|
    requires WorkRestart(s, waiter, phase, env).core.lanes[i].state == Ready
    requires i in WorkRestart(s, waiter, phase, env).core.unavailable
    ensures s.core.lanes[i].state == Ready && i in s.core.unavailable
  {
    hide RestartLane;
    if phase.MovingLanes? && phase.next < |s.core.lanes| {
      MoveShowsOne(s.core, phase.next, env.entropy, s.now, i);
    }
  }

  lemma RestartAgrees(s: State, waiter: nat, phase: RestartPhase, env: Env)
    requires PhaseOk(phase, s.core.lanes) && s.mgr == Restarting(waiter, phase) && Agrees(s)
    ensures Agrees(WorkRestart(s, waiter, phase, env))
  {
    if phase.HaltingOld? {
      NothingReady(s.core.lanes, s.core.unavailable);
    }
  }

  lemma RestartKeepsCached(s: State, waiter: nat, phase: RestartPhase, env: Env)
    requires Shaped(s) && Cached(s) && s.mgr == Restarting(waiter, phase)
    ensures Cached(WorkRestart(s, waiter, phase, env))
  {
    hide WorkRestart;
    var s' := WorkRestart(s, waiter, phase, env);
    RestartFrame(s, waiter, phase, env);
    SamePending(s, s');
    RestartAdvancesLanes(s, waiter, phase, env);
    RestartKeepsShape(s, waiter, phase, env);
    forall i | 0 <= i < |s'.core.lanes| && Stranded(s', i)
      ensures PendingLane(s', i)
    {
      RestartStrandsNothing(s, waiter, phase, env, i);
      assert Stranded(s, i);
    }
    if !Pending(s') {
      RestartAgrees(s, waiter, phase, env);
    }
  }

  lemma StoppedStaysStopped(s: State, e: Event)
    requires Enabled(s, e) && !Running(s)
    ensures !Running(Step(s, e))
  {
    if e.Go? {
      GoMovesOnly(s, e.call);
    }
  }

  lemma StillRunning(s: State, e: Event)
    requires Enabled(s, e) && Running(Step(s, e))
    ensures Running(s)
  {
    hide Step, Enabled;
    if !Running(s) {
      StoppedStaysStopped(s, e);
    }
  }

  lemma OtherKeepsCached(s: State, e: Event)
    requires Shaped(s) && Cached(s) && Enabled(s, e) && Running(s)
    requires e.DropPool? || e.HangUp? || e.Elapse?
          || (e.Receive? && (s.queue[0].Restart? || s.queue[0].Shutdown?))
    ensures Cached(Step(s, e))
  {
    hide TakeAssign, TakeRotate;
    var s' := Step(s, e);
    forall lane
      ensures PendingLane(s, lane) <==> PendingLane(s', lane)
    {
      if e.Receive? {
        PoppedPending(s, s', lane);
      }
    }
    forall i | 0 <= i < |s.core.lanes| && Stranded(s', i)
      ensures Stranded(s, i)
    {
    }
  }

  // ---- Over every run -----------------------------------------------------------------------

  lemma {:induction false} RunIsCached(run: Run, k: nat)
    requires run.Valid() && k < |run.states|
    ensures Shaped(run.states[k]) && Cached(run.states[k])
  {
    hide WorkPublication, WorkRestart, WorkClose, GoCall, TakeAssign, TakeRotate, TakeTick;
    RunIsShaped(run, k);
    if k > 0 {
      RunIsCached(run, k - 1);
      LastStep(run, k);
      var s, e := run.states[k - 1], run.events[k - 1];
      if Running(s) {
        match e
        case Start(call, request) => StartKeepsCached(s, call, request);
        case Go(call) => GoKeepsCached(s, call);
        case Cancel(call) => CancelKeepsCached(s, call);
        case Receive(entropy) =>
          match s.queue[0] {
            case Assign(lane, epoch) => AssignKeepsCached(s, lane, epoch, entropy, Step(s, e));
            case Rotate(lane, waiter) => RotateKeepsCached(s, lane, waiter, entropy, Step(s, e));
            case _ => OtherKeepsCached(s, e);
          }
        case Tick(entropies) => TickKeepsCached(s, entropies);
        case Work(env) =>
          match s.mgr {
            case Publishing(p) => PublicationKeepsCached(s, p);
            case Restarting(waiter, phase) => RestartKeepsCached(s, waiter, phase, env);
          }
        case _ => OtherKeepsCached(s, e);
      } else {
        StoppedStaysStopped(s, e);
      }
    } else {
      FirstState(run);
    }
  }

  /**
   The cache agreement, under every interleaving: while the manager lives and is between
   commands, if no call is between its insert and its send and no Rotate is queued, the
   published snapshot is what `ready_lanes` would compute now.
   */
  lemma CacheAgreement(run: Run, k: nat)
    requires run.Valid() && k < |run.states|
    requires run.states[k].mgr.Idle? && !Pending(run.states[k])
    ensures run.states[k].core.ready == ReadyLanes(run.states[k].core.lanes, run.states[k].core.unavailable)
  {
    RunIsCached(run, k);
  }

  /** A lane that is Ready but hidden always has a rotating call or a queued Rotate of its own. */
  lemma NoLaneLost(run: Run, k: nat, lane: nat)
    requires run.Valid() && k < |run.states| && run.states[k].mgr.Idle?
    requires lane < |run.states[k].core.lanes| && run.states[k].core.lanes[lane].state == Ready
    requires lane in run.states[k].core.unavailable
    ensures CallOwes(run.states[k], lane) || RotateQueued(run.states[k], lane)
  {
    RunIsCached(run, k);
    assert Stranded(run.states[k], lane);
  }

  /** At quiescence the published snapshot holds exactly the endpoints of all Ready lanes. */
  lemma QuiescentSnapshot(run: Run, k: nat)
    requires run.Valid() && k < |run.states|
    requires run.states[k].mgr.Idle? && !Pending(run.states[k])
    ensures var c := run.states[k].core;
      && StrictlyIncreasing(c.ready)
      && (forall e <- c.ready :: e.lane < |c.lanes| && e == c.lanes[e.lane].endpoint && c.lanes[e.lane].state == Ready)
      && (forall i | 0 <= i < |c.lanes| && c.lanes[i].state == Ready :: c.lanes[i].endpoint in c.ready)
  {
    RunIsCached(run, k);
    var s := run.states[k];
    ReadyLanesMembers(s.core.lanes, s.core.unavailable);
    forall i | 0 <= i < |s.core.lanes| && s.core.lanes[i].state == Ready
      ensures Published(s.core.lanes[i], s.core.unavailable)
    {
      assert s.core.lanes[i].id == i && !PendingLane(s, i);
      if i in s.core.unavailable {
        NoLaneLost(run, k, i);
      }
    }
  }
}
