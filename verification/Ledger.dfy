/**
 Assignment accounting over whole runs: every proxy handed out is queued, counted or ignored
 exactly once, and a lane is rotated before more than its limit is counted.
 */
module Ledger {
  import opened Wrappers
  import opened Lanes
  import opened Select
  import opened PoolCore
  import opened Protocol
  import opened Shape

  // ---- What one step does to the account of one lane and epoch ------------------------------

  ghost predicate HandsOut(s: State, e: Event, lane: nat, epoch: nat) {
    && e.Go? && e.call in s.calls && !s.mgr.Gone?
    && s.calls[e.call].Choosing? && s.calls[e.call].handOut.HandingOut?
    && s.calls[e.call].handOut.endpoint.lane == lane && s.calls[e.call].handOut.endpoint.epoch == epoch
  }

  ghost predicate TakesAssign(s: State, e: Event, lane: nat, epoch: nat) {
    e.Receive? && s.queue != [] && s.queue[0] == Assign(lane, epoch)
  }

  /** Received while its lane is Ready at that epoch and a limit is set: it counts. */
  ghost predicate Counts(s: State, e: Event, lane: nat, epoch: nat) {
    TakesAssign(s, e, lane, epoch) && s.config.limit.Some? && AssignIndex(s.core.lanes, lane, epoch) < |s.core.lanes|
  }

  function QueuedAssigns(queue: seq<Command>, lane: nat, epoch: nat): nat {
    if queue == [] then 0
    else QueuedAssigns(queue[..|queue| - 1], lane, epoch) + One(queue[|queue| - 1] == Assign(lane, epoch))
  }

  ghost function HandedOut(run: Run, k: nat, lane: nat, epoch: nat): nat
    requires run.Valid() && k < |run.states|
  {
    if k == 0 then 0
    else HandedOut(run, k - 1, lane, epoch) + One(HandsOut(run.states[k - 1], run.events[k - 1], lane, epoch))
  }

  ghost function CountedAssigns(run: Run, k: nat, lane: nat, epoch: nat): nat
    requires run.Valid() && k < |run.states|
  {
    if k == 0 then 0
    else CountedAssigns(run, k - 1, lane, epoch) + One(Counts(run.states[k - 1], run.events[k - 1], lane, epoch))
  }

  ghost function IgnoredAssigns(run: Run, k: nat, lane: nat, epoch: nat): nat
    requires run.Valid() && k < |run.states|
  {
    if k == 0 then 0
    else
      var (s, e) := (run.states[k - 1], run.events[k - 1]);
      IgnoredAssigns(run, k - 1, lane, epoch)
        + One(TakesAssign(s, e, lane, epoch) && !Counts(s, e, lane, epoch))
  }

  // ---- Conservation -------------------------------------------------------------------------

  lemma {:induction false} QueuedHead(queue: seq<Command>, lane: nat, epoch: nat)
    requires queue != []
    ensures QueuedAssigns(queue, lane, epoch)
         == One(queue[0] == Assign(lane, epoch)) + QueuedAssigns(queue[1..], lane, epoch)
  {
    if |queue| > 1 {
      var front := queue[..|queue| - 1];
      QueuedHead(front, lane, epoch);
      assert front[1..] == queue[1..][..|queue| - 2];
    }
  }

  lemma QueuedAppend(queue: seq<Command>, c: Command, lane: nat, epoch: nat)
    ensures QueuedAssigns(queue + [c], lane, epoch) == QueuedAssigns(queue, lane, epoch) + One(c == Assign(lane, epoch))
  {
    assert (queue + [c])[..|queue|] == queue;
  }

  /** What a call's step appends to the queue: an assignment exactly when it hands an endpoint out. */
  lemma GoQueues(s: State, call: nat, lane: nat, epoch: nat)
    requires call in s.calls && CanGo(s, s.calls[call]) && !s.mgr.Gone?
    ensures var q := GoCall(s, call).queue;
      || (q == s.queue && !HandsOut(s, Go(call), lane, epoch))
      || (|q| == |s.queue| + 1 && q == s.queue + [q[|s.queue|]]
          && (q[|s.queue|] == Assign(lane, epoch) <==> HandsOut(s, Go(call), lane, epoch)))
  {
    hide Without, FindEndpoint, Chosen;
  }

  lemma WorkQueues(s: State, env: Env)
    requires !s.mgr.Idle? && !s.mgr.Gone? && !WorkStep(s, env).mgr.Gone?
    ensures WorkStep(s, env).queue == s.queue
  {
    hide ReadyLanes, RestartLane, WithState, Deliver;
  }

  lemma StepConserves(s: State, e: Event, lane: nat, epoch: nat)
    requires Enabled(s, e) && !Step(s, e).mgr.Gone?
    ensures QueuedAssigns(Step(s, e).queue, lane, epoch) + One(TakesAssign(s, e, lane, epoch))
         == QueuedAssigns(s.queue, lane, epoch) + One(HandsOut(s, e, lane, epoch))
    ensures !s.mgr.Gone?
  {
    hide TakeAssign, TakeRotate, GoCall, WorkStep, TakeTick;
    match e
    case Go(call) =>
      GoMovesOnly(s, call);
      GoQueues(s, call, lane, epoch);
      if GoCall(s, call).queue != s.queue {
        QueuedAppend(s.queue, GoCall(s, call).queue[|s.queue|], lane, epoch);
      }
    case Receive(entropy) =>
      TakenQueue(s, entropy);
      QueuedHead(s.queue, lane, epoch);
    case Work(env) => WorkQueues(s, env);
    case Tick(entropies) => TickQueue(s, entropies);
    case _ =>
  }

  lemma TakenQueue(s: State, entropy: Entropy)
    requires s.queue != []
    ensures TakeCommand(s, entropy).queue == s.queue[1..] && (s.mgr.Idle? ==> !s.mgr.Gone?)
  {
    hide AssignRotates, RotateResult, AssignLanes, RotateLanes, ReplyTo, Finish;
  }

  lemma TickQueue(s: State, entropies: seq<Entropy>)
    requires |entropies| == |s.core.lanes|
    ensures TakeTick(s, entropies).queue == s.queue
  {
  }

  /**
   Conservation: at every state before the manager is gone, for each lane and epoch, the
   proxies handed out are the assignments still queued plus those counted plus those ignored.
   */
  lemma {:induction false} AssignmentsConserved(run: Run, k: nat, lane: nat, epoch: nat)
    requires run.Valid() && k < |run.states| && !run.states[k].mgr.Gone?
    ensures HandedOut(run, k, lane, epoch)
         == QueuedAssigns(run.states[k].queue, lane, epoch)
          + CountedAssigns(run, k, lane, epoch) + IgnoredAssigns(run, k, lane, epoch)
  {
    if k > 0 {
      hide Run.Valid, Step, Enabled, Init;
      LastStep(run, k);
      StepConserves(run.states[k - 1], run.events[k - 1], lane, epoch);
      AssignmentsConserved(run, k - 1, lane, epoch);
    } else {
      FirstState(run);
    }
  }

  // ---- Hand-outs are the calls that returned a proxy ----------------------------------------

  predicate GaveOut(c: Call, lane: nat, epoch: nat) {
    c.Done? && c.answer.Given? && c.answer.proxy.lane == lane && c.answer.proxy.epoch == epoch
  }

  ghost function Givers(s: State, lane: nat, epoch: nat): set<nat> {
    set t | t in s.calls && GaveOut(s.calls[t], lane, epoch)
  }

  lemma HandOutGives(s: State, call: nat, h: HandOut, lane: nat, epoch: nat)
    ensures GaveOut(GoHandOut(s, call, h).calls[call], lane, epoch) <==>
              h.HandingOut? && h.endpoint.lane == lane && h.endpoint.epoch == epoch && !s.mgr.Gone?
  {
    hide FindEndpoint;
  }

  lemma GoGives(s: State, call: nat, lane: nat, epoch: nat)
    requires call in s.calls && CanGo(s, s.calls[call])
    ensures Givers(GoCall(s, call), lane, epoch)
         == Givers(s, lane, epoch) + (if HandsOut(s, Go(call), lane, epoch) then {call} else {})
    ensures call !in Givers(s, lane, epoch)
  {
    GoMovesOnly(s, call);
    if s.calls[call].Choosing? {
      HandOutGives(s, call, s.calls[call].handOut, lane, epoch);
    }
    hide GoHandOut, GoRotation, GoStop;
  }

  lemma WorkGives(s: State, env: Env, lane: nat, epoch: nat)
    requires !s.mgr.Idle? && !s.mgr.Gone?
    ensures Givers(WorkStep(s, env), lane, epoch) == Givers(s, lane, epoch)
  {
    hide ReadyLanes, RestartLane, WithState;
  }

  lemma StepGives(s: State, e: Event, lane: nat, epoch: nat)
    requires Enabled(s, e)
    ensures |Givers(Step(s, e), lane, epoch)| == |Givers(s, lane, epoch)| + One(HandsOut(s, e, lane, epoch))
  {
    hide GoCall, WorkStep, TakeCommand, TakeTick;
    match e
    case Go(call) => GoGives(s, call, lane, epoch);
    case Work(env) => WorkGives(s, env, lane, epoch);
    case Receive(_) => TakeFrame(s, e); assert Givers(Step(s, e), lane, epoch) == Givers(s, lane, epoch);
    case Tick(_) => TakeFrame(s, e); assert Givers(Step(s, e), lane, epoch) == Givers(s, lane, epoch);
    case _ => assert Givers(Step(s, e), lane, epoch) == Givers(s, lane, epoch);
  }

  /** The hand-outs of the ledger are exactly the calls that returned a proxy. */
  lemma {:induction false} HandedOutIsGiven(run: Run, k: nat, lane: nat, epoch: nat)
    requires run.Valid() && k < |run.states|
    ensures HandedOut(run, k, lane, epoch) == |Givers(run.states[k], lane, epoch)|
  {
    if k == 0 {
      FirstState(run);
      assert Givers(run.states[0], lane, epoch) == {};
    } else {
      HandedOutIsGiven(run, k - 1, lane, epoch);
      LastStep(run, k);
      StepGives(run.states[k - 1], run.events[k - 1], lane, epoch);
    }
  }

  // ---- The counter of a lane ----------------------------------------------------------------

  /** How a step changes one lane's counter, when no assignment counts for it. */
  ghost predicate CounterKept(l: LaneData, l': LaneData) {
    || (l'.epoch == l.epoch && l'.assignments == l.assignments && (l'.state == Ready ==> l.state == Ready))
    || (l'.epoch == l.epoch + 1 && l'.assignments == 0)
  }

  /** How a counted assignment changes it: one more, or the limit is reached and the lane moves on. */
  ghost predicate CounterRaised(l: LaneData, l': LaneData, limit: nat) {
    && l.state == Ready
    && (|| (l'.epoch == l.epoch && l'.assignments == l.assignments + 1
            && (l'.state == Ready ==> l.assignments + 1 < limit))
        || (l'.epoch == l.epoch + 1 && l'.assignments == 0 && l.assignments + 1 >= limit))
  }

  /** Between commands a Ready lane is below its limit, so the saturating counter never saturates. */
  ghost predicate BelowLimit(s: State) {
    s.config.limit.Some? ==>
      && 1 <= s.config.limit.value <= U64_MAX
      && forall i | 0 <= i < |s.core.lanes| ::
           && s.core.lanes[i].assignments <= s.config.limit.value
           && (s.core.lanes[i].state == Ready ==> s.core.lanes[i].assignments < s.config.limit.value)
  }

  /** The lane an assignment counts for is the lane it names, at the epoch it names. */
  lemma AssignIndexNames(lanes: seq<LaneData>, lane: nat, epoch: nat, i: nat)
    requires WellFormed(lanes) && i < |lanes|
    ensures i == AssignIndex(lanes, lane, epoch) ==> i == lane && lanes[i].epoch == epoch
    ensures AssignIndex(lanes, lane, epoch) < |lanes| ==> AssignIndex(lanes, lane, epoch) == lane
  {
  }

  lemma RotateCounter(s: State, lane: nat, entropy: Entropy, i: nat)
    requires i < |s.core.lanes|
    ensures CounterKept(s.core.lanes[i], RotateLanes(s.core, lane, entropy, s.now)[i])
  {
    RotationEffect(s.core.lanes[i], s.core.runtime, entropy, s.now);
  }

  lemma TickCounter(s: State, entropies: seq<Entropy>, i: nat)
    requires i < |s.core.lanes| == |entropies|
    ensures CounterKept(s.core.lanes[i], ExpireLanes(s.core, s.config.ttl, entropies, s.now)[i])
  {
    RotationEffect(s.core.lanes[i], s.core.runtime, entropies[i], s.now);
  }

  lemma RestartCounter(s: State, waiter: nat, phase: RestartPhase, env: Env, i: nat)
    requires i < |s.core.lanes|
    ensures i < |WorkRestart(s, waiter, phase, env).core.lanes|
    ensures CounterKept(s.core.lanes[i], WorkRestart(s, waiter, phase, env).core.lanes[i])
  {
    hide RestartLane;
    if phase.MovingLanes? && phase.next < |s.core.lanes| {
      MoveCounter(s.core, phase.next, env.entropy, s.now, i);
    }
  }

  lemma MoveCounter(c: Core, next: nat, entropy: Entropy, now: nat, i: nat)
    requires next < |c.lanes| && i < |c.lanes|
    ensures |RestartLane(c, next, entropy, now).lanes| == |c.lanes|
    ensures CounterKept(c.lanes[i], RestartLane(c, next, entropy, now).lanes[i])
  {
    RotationEffect(c.lanes[i], c.runtime, entropy, now);
  }

  lemma WorkCounter(s: State, env: Env, i: nat)
    requires i < |s.core.lanes| && !s.mgr.Idle? && !s.mgr.Gone?
    ensures i < |WorkStep(s, env).core.lanes|
    ensures CounterKept(s.core.lanes[i], WorkStep(s, env).core.lanes[i])
  {
    hide ReadyLanes, Deliver, WorkRestart;
    if s.mgr.Restarting? {
      RestartCounter(s, s.mgr.waiter, s.mgr.phase, env, i);
    }
  }

  lemma ReceiveCounter(s: State, entropy: Entropy, i: nat)
    requires Shaped(s) && BelowLimit(s) && s.queue != [] && i < |s.core.lanes| && s.config.limit.Some?
    ensures i < |TakeCommand(s, entropy).core.lanes|
    ensures var (l, l') := (s.core.lanes[i], TakeCommand(s, entropy).core.lanes[i]);
      if Counts(s, Receive(entropy), i, l.epoch) then CounterRaised(l, l', s.config.limit.value) else CounterKept(l, l')
  {
    TakenLanes(s, entropy);
    assert WellFormed(s.core.lanes);
    hide TakeCommand, RotateLanes, AssignLanes, AssignIndex, Shaped, CounterKept, CounterRaised, BelowLimit, WellFormed;
    match s.queue[0]
    case Assign(lane, epoch) => AssignCounter(s, lane, epoch, entropy, i);
    case Rotate(lane, _) => RotateCounter(s, lane, entropy, i);
    case _ => Uncounted(s.core.lanes[i]);
  }

  lemma Uncounted(l: LaneData)
    ensures CounterKept(l, l)
  {
  }

  lemma AssignCounter(s: State, lane: nat, epoch: nat, entropy: Entropy, i: nat)
    requires WellFormed(s.core.lanes) && BelowLimit(s) && i < |s.core.lanes| && s.config.limit.Some?
    ensures var (l, l') := (s.core.lanes[i], AssignLanes(s.core, s.config.limit, lane, epoch, entropy, s.now)[i]);
      if lane == i && epoch == l.epoch && AssignIndex(s.core.lanes, i, l.epoch) < |s.core.lanes|
      then CounterRaised(l, l', s.config.limit.value) else CounterKept(l, l')
  {
    AssignIndexNames(s.core.lanes, lane, epoch, i);
    hide WellFormed;
  }

  lemma StepCounter(s: State, e: Event, i: nat)
    requires Shaped(s) && BelowLimit(s) && Enabled(s, e) && i < |s.core.lanes| && s.config.limit.Some?
    ensures i < |Step(s, e).core.lanes|
    ensures if Counts(s, e, i, s.core.lanes[i].epoch)
            then CounterRaised(s.core.lanes[i], Step(s, e).core.lanes[i], s.config.limit.value)
            else CounterKept(s.core.lanes[i], Step(s, e).core.lanes[i])
  {
    hide GoCall, WorkStep, TakeCommand, ExpireLanes, Shaped, BelowLimit;
    match e
    case Go(call) => GoMovesOnly(s, call);
    case Work(env) => WorkCounter(s, env, i);
    case Tick(entropies) => TickCounter(s, entropies, i);
    case Receive(entropy) => ReceiveCounter(s, entropy, i);
    case _ =>
  }

  lemma StepKeepsConfig(s: State, e: Event)
    requires Enabled(s, e)
    ensures Step(s, e).config == s.config
    ensures |Step(s, e).core.lanes| == |s.core.lanes|
  {
    StepAdvancesLanes(s, e);
    hide ReadyLanes, RestartLane, AssignLanes, RotateLanes, RotateResult, AssignRotates, GoCall;
    if e.Go? {
      GoMovesOnly(s, e.call);
    }
  }

  /** The account of one epoch of one lane, against the lane itself. */
  ghost predicate Accounted(l: LaneData, epoch: nat, counted: nat, limit: nat) {
    && counted <= limit
    && (epoch > l.epoch ==> counted == 0)
    && (epoch == l.epoch ==> counted == l.assignments)
  }

  /**
   With a limit set: an epoch never counts more than the limit, a Ready lane's counter is the
   count of its current epoch and below the limit, and no epoch counts anything in advance.
   */
  lemma {:induction false} CountsStayWithinLimit(run: Run, k: nat, lane: nat, epoch: nat)
    requires run.Valid() && k < |run.states| && run.states[0].config.limit.Some?
    requires lane < |run.states[0].core.lanes|
    ensures run.states[k].config == run.states[0].config && |run.states[k].core.lanes| == |run.states[0].core.lanes|
    ensures BelowLimit(run.states[k])
    ensures Accounted(run.states[k].core.lanes[lane], epoch, CountedAssigns(run, k, lane, epoch),
                      run.states[0].config.limit.value)
  {
    RunIsBelow(run, k);
    if k == 0 {
      FirstState(run);
      InitIsShaped(run.states[0]);
      InitCounters(run.states[0]);
    } else {
      hide Run.Valid, Step, Enabled, Init, Shaped, BelowLimit, Accounted;
      LastStep(run, k);
      CountsStayWithinLimit(run, k - 1, lane, epoch);
      RunIsShaped(run, k - 1);
      StepAccounts(run.states[k - 1], run.events[k - 1], lane, epoch, CountedAssigns(run, k - 1, lane, epoch));
    }
  }

  lemma FreshIsBelow(s: State)
    requires Init(s)
    ensures BelowLimit(s)
  {
    InitCounters(s);
  }

  lemma {:induction false} RunIsBelow(run: Run, k: nat)
    requires run.Valid() && k < |run.states|
    ensures BelowLimit(run.states[k])
    ensures run.states[k].config == run.states[0].config && |run.states[k].core.lanes| == |run.states[0].core.lanes|
  {
    hide Init;
    if k == 0 {
      FirstState(run);
      FreshIsBelow(run.states[0]);
    } else {
      hide Run.Valid;
      LastStep(run, k);
      RunIsBelow(run, k - 1);
      RunIsShaped(run, k - 1);
      var s, e := run.states[k - 1], run.events[k - 1];
      StepKeepsConfig(s, e);
      forall i | 0 <= i < |s.core.lanes| && s.config.limit.Some?
        ensures Step(s, e).core.lanes[i].assignments <= s.config.limit.value
        ensures Step(s, e).core.lanes[i].state == Ready ==>
                  Step(s, e).core.lanes[i].assignments < s.config.limit.value
      {
        StepCounter(s, e, i);
      }
    }
  }

  lemma StepAccounts(s: State, e: Event, lane: nat, epoch: nat, counted: nat)
    requires Shaped(s) && Enabled(s, e) && BelowLimit(s) && s.config.limit.Some? && lane < |s.core.lanes|
    requires Accounted(s.core.lanes[lane], epoch, counted, s.config.limit.value)
    ensures lane < |Step(s, e).core.lanes|
    ensures Accounted(Step(s, e).core.lanes[lane], epoch, counted + One(Counts(s, e, lane, epoch)),
                      s.config.limit.value)
  {
    StepCounter(s, e, lane);
    AssignIndexNames(s.core.lanes, lane, epoch, lane);
    hide Step, Shaped, AssignIndex;
  }

  lemma InitCounters(s: State)
    requires Init(s)
    ensures forall i | 0 <= i < |s.core.lanes| :: s.core.lanes[i].assignments == 0
  {
    forall i | 0 <= i < |s.core.lanes|
      ensures s.core.lanes[i].assignments == 0
    {
      var bytes :| NewLane(i, s.core.runtime, Some(bytes), s.now) == Ok(s.core.lanes[i]);
    }
  }

  /** The saturating increment of a counted assignment is an ordinary increment in every run. */
  lemma CounterNeverSaturates(run: Run, k: nat, lane: nat)
    requires run.Valid() && k < |run.states| && run.states[0].config.limit.Some?
    requires lane < |run.states[0].core.lanes| && lane < |run.states[k].core.lanes|
    requires run.states[k].core.lanes[lane].state == Ready
    ensures Counted(run.states[k].core.lanes[lane]).assignments == run.states[k].core.lanes[lane].assignments + 1
  {
    CountsStayWithinLimit(run, k, lane, 0);
  }
}
