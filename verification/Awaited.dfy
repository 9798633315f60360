/** What an awaited rotation publishes, whatever other lanes' rotations are doing meanwhile. */
module Awaited {
  import opened Wrappers
  import opened Lanes
  import opened PoolCore
  import opened Protocol
  import opened Shape
  import opened Agreement
  import opened Outcomes

  /** A snapshot about to be stored holds every Ready lane that nobody is rotating. */
  ghost predicate StoresTheRest(s: State) {
    IsStoring(s.mgr) ==>
      forall i | 0 <= i < |s.core.lanes| && s.core.lanes[i].state == Ready && !PendingLane(s, i) ::
        s.core.lanes[i].endpoint in s.mgr.publication.snapshot
  }

  /** Whatever is pending stays so through a step outside the manager. */
  ghost predicate PendsOn(s: State, s': State) {
    s'.mgr == s.mgr && s'.core.lanes == s.core.lanes && forall lane | PendingLane(s, lane) :: PendingLane(s', lane)
  }

  lemma GoPendsOn(s: State, call: nat)
    requires Running(s) && NoneUndoing(s.calls) && call in s.calls && CanGo(s, s.calls[call])
    ensures PendsOn(s, GoCall(s, call))
  {
    hide GoHandOut, GoRotation, GoStop, PendingLane;
    match s.calls[call]
    case Choosing(h) => HandOutIsHandleStep(s, call, h);
    case Rotating(r) => RotationIsHandleStep(s, call, r);
    case Stopping(p) => StopIsHandleStep(s, call, p);
    case RestartOpen => MovedCallPends(s, call, GoCall(s, call));
  }

  lemma HandleEventPendsOn(s: State, e: Event)
    requires Running(s) && NoneUndoing(s.calls) && Enabled(s, e)
    requires !e.Work? && !e.Receive? && !e.HangUp? && !e.Tick?
    ensures PendsOn(s, Step(s, e))
  {
    hide GoCall;
    match e
    case Go(call) => GoPendsOn(s, call);
    case Start(call, _) => MovedCallPends(s, call, Step(s, e));
    case Cancel(call) => MovedCallPends(s, call, Step(s, e));
    case DropPool => SamePending(s, Step(s, e));
    case Elapse(_) => SamePending(s, Step(s, e));
    case _ =>
  }

  lemma ComputingStores(s: State, env: Env)
    requires Shaped(s) && Cached(s) && s.mgr.Publishing? && s.mgr.publication.Computing?
    ensures StoresTheRest(WorkStep(s, env))
  {
    ReadyLanesMembers(s.core.lanes, s.core.unavailable);
    var s' := WorkStep(s, env);
    forall i | 0 <= i < |s.core.lanes| && s.core.lanes[i].state == Ready && !PendingLane(s', i)
      ensures s.core.lanes[i].endpoint in s'.mgr.publication.snapshot
    {
      SamePending(s, s');
      assert !PendingLane(s, i) && !Stranded(s, i);
      assert Published(s.core.lanes[i], s.core.unavailable);
    }
  }

  lemma TakingStoresNothing(s: State, entropy: Entropy)
    requires s.queue != []
    ensures !IsStoring(TakeCommand(s, entropy).mgr)
  {
    hide AssignLanes, RotateLanes, AssignRotates, RotateResult;
  }

  lemma RestartStoresNothing(s: State, waiter: nat, phase: RestartPhase, env: Env)
    ensures !IsStoring(WorkRestart(s, waiter, phase, env).mgr)
  {
    hide RestartLane;
  }

  /** The manager stores only what it has just computed. */
  lemma StoringFollowsComputing(s: State, e: Event)
    requires Enabled(s, e) && (e.Work? || e.Receive? || e.HangUp? || e.Tick?)
    ensures IsStoring(Step(s, e).mgr) ==> e.Work? && s.mgr.Publishing? && s.mgr.publication.Computing?
  {
    hide TakeCommand, WorkRestart, AnyExpired, ReadyLanes;
    match e
    case Receive(entropy) => TakingStoresNothing(s, entropy);
    case Work(env) => if s.mgr.Restarting? { RestartStoresNothing(s, s.mgr.waiter, s.mgr.phase, env); }
    case _ =>
  }

  lemma {:induction false} RunStores(run: Run, k: nat)
    requires run.Valid() && k < |run.states|
    ensures StoresTheRest(run.states[k])
  {
    hide Shaped, PendingLane;
    if k > 0 {
      RunStores(run, k - 1);
      RunIsCached(run, k - 1);
      LastStep(run, k);
      var s, e := run.states[k - 1], run.events[k - 1];
      var s' := Step(s, e);
      if IsStoring(s'.mgr) {
        if e.Work? || e.Receive? || e.HangUp? || e.Tick? {
          StoringFollowsComputing(s, e);
          ComputingStores(s, e.env);
        } else {
          HandleEventPendsOn(s, e);
        }
      }
    } else {
      FirstState(run);
      FreshStores(run.states[0]);
    }
  }

  lemma FreshStores(s: State)
    requires Init(s)
    ensures StoresTheRest(s)
  {
  }

  /**
   The last thing the manager does before it sends the Ok of an awaited rotation is to publish a
   snapshot that holds the lane's endpoint of an epoch newer than when the rotation was queued,
   provided no other rotation of that very lane is in flight. Rotations of other lanes may be.
   */
  lemma AwaitedRotationIsStored(run: Run, j: nat, k: nat, call: nat, lane: nat)
    requires run.Valid() && j < k < |run.events| && Queues(run, j, call, lane) && run.events[k].Work?
    requires IsStoring(run.states[k].mgr)
    requires run.states[k].mgr.publication.reply == To(call, Ok(())) && !PendingLane(run.states[k], lane)
    ensures var s := run.states[k + 1];
      && s.mgr == Publishing(Replying(call, Ok(())))
      && lane < |s.core.lanes| == |run.states[j].core.lanes|
      && s.core.lanes[lane].endpoint in s.core.ready
      && s.core.lanes[lane].endpoint.epoch > run.states[j].core.lanes[lane].epoch
  {
    LastStep(run, k + 1);
    hide PendingLane, Shaped;
    PromiseIsKept(run, j, k, call, lane);
    RunStores(run, k);
    RunIsShaped(run, k);
    SameLaneCount(run, j, k);
  }

  lemma SameLaneCount(run: Run, j: nat, k: nat)
    requires run.Valid() && j <= k < |run.states|
    ensures |run.states[j].core.lanes| == |run.states[k].core.lanes|
  {
    hide Step, Init;
    if j < k {
      SameLaneCount(run, j, k - 1);
      RunIsShaped(run, k - 1);
      LastStep(run, k);
      StepAdvancesLanes(run.states[k - 1], run.events[k - 1]);
    }
  }
}
