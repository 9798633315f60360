/** Which shutdown callers wait for the manager to end: the one that takes the join handle, and no other. */
module Joins {
  import opened Select
  import opened PoolCore
  import opened Protocol

  /** A shutdown call reaches for the handle of the manager task. */
  predicate JoinStep(s: State, e: Event) {
    e.Go? && e.call in s.calls && s.calls[e.call].Stopping? && s.calls[e.call].stop.Joining?
  }

  ghost predicate JoinsAt(run: Run, i: nat, call: nat)
    requires run.Valid()
  {
    i < |run.events| && JoinStep(run.states[i], run.events[i]) && run.events[i].call == call
  }

  /** Some shutdown call, whichever, reached for the handle before state `k`. */
  ghost predicate JoinedBefore(run: Run, k: nat)
    requires run.Valid() && k < |run.states|
  {
    exists n | 0 <= n < k :: JoinStep(run.states[n], run.events[n])
  }

  lemma GoAndHandle(s: State, call: nat)
    requires call in s.calls && CanGo(s, s.calls[call])
    ensures GoCall(s, call).handle == (s.handle && !JoinStep(s, Go(call)))
  {
    hide FindEndpoint, Without, Chosen;
  }

  lemma ManagerLeavesHandle(s: State, e: Event)
    requires Enabled(s, e) && (e.Work? || e.Receive? || e.Tick?)
    ensures Step(s, e).handle == s.handle
  {
    hide AssignLanes, RotateLanes, ExpireLanes, AssignRotates;
    hide RotateResult, AnyExpired, ReadyLanes, RestartLane, WithState;
    hide ShutdownResult, Deliver, WorkStep;
    if e.Work? {
      WorkLeavesHandle(s, e.env);
    }
  }

  lemma WorkLeavesHandle(s: State, env: Env)
    requires !s.mgr.Idle? && !s.mgr.Gone?
    ensures WorkStep(s, env).handle == s.handle
  {
    hide ReadyLanes, RestartLane, WithState, ShutdownResult, Deliver, Ids;
  }

  /** The handle is there until the first shutdown call reaches for it. */
  lemma {:induction false} HandleIsTakenOnce(run: Run, k: nat)
    requires run.Valid() && k < |run.states|
    ensures run.states[k].handle <==> !JoinedBefore(run, k)
  {
    hide GoCall, WorkStep, TakeCommand, TakeTick, JoinStep;
    if k > 0 {
      HandleIsTakenOnce(run, k - 1);
      LastStep(run, k);
      var s, e := run.states[k - 1], run.events[k - 1];
      assert JoinedBefore(run, k) <==> JoinedBefore(run, k - 1) || JoinStep(s, e);
      OnlyCallsJoin(s, e);
      match e
      case Go(call) => GoAndHandle(s, call);
      case Work(_) => ManagerLeavesHandle(s, e);
      case Receive(_) => ManagerLeavesHandle(s, e);
      case Tick(_) => ManagerLeavesHandle(s, e);
      case _ =>
    } else {
      FirstState(run);
    }
  }

  lemma OnlyCallsJoin(s: State, e: Event)
    ensures JoinStep(s, e) ==> e.Go?
  {
  }

  /** Reaching for the handle returns at once if and only if another call has done so before. */
  lemma JoinReturnsAtOnce(run: Run, i: nat, call: nat)
    requires run.Valid() && JoinsAt(run, i, call)
    ensures call in run.states[i + 1].calls
    ensures var verdict := run.states[i].calls[call].stop.verdict;
      run.states[i + 1].calls[call]
        == if JoinedBefore(run, i) then Done(Returned(verdict)) else Stopping(JoiningTask(verdict))
  {
    hide JoinedBefore;
    HandleIsTakenOnce(run, i);
    LastStep(run, i + 1);
  }

  /** A call reaches for the handle once at most. */
  lemma {:induction false} PastJoining(run: Run, i: nat, k: nat, call: nat)
    requires run.Valid() && i < k < |run.states| && JoinsAt(run, i, call)
    ensures call in run.states[k].calls
    ensures run.states[k].calls[call].Done?
         || (run.states[k].calls[call].Stopping? && run.states[k].calls[call].stop.JoiningTask?)
    ensures !JoinsAt(run, k, call)
    decreases k - i
  {
    hide Init, WorkStep, TakeCommand, TakeTick, GoHandOut, GoRotation;
    if i + 1 < k {
      PastJoining(run, i, k - 1, call);
      LastStep(run, k);
      var s, e := run.states[k - 1], run.events[k - 1];
      match e
      case Go(t) => GoMovesOnly(s, t);
      case Work(env) => JoiningIsOwn(s, env, call);
      case Receive(_) => TakeFrame(s, e);
      case Tick(_) => TakeFrame(s, e);
      case _ =>
    } else {
      JoinReturnsAtOnce(run, i, call);
    }
  }

  /** The manager moves a shutdown call only from waiting for the answer to joining. */
  lemma JoiningIsOwn(s: State, env: Env, call: nat)
    requires !s.mgr.Idle? && !s.mgr.Gone? && call in s.calls
    ensures call in WorkStep(s, env).calls
    ensures s.calls[call] != Waiting && s.calls[call] != Stopping(Asked) ==>
              WorkStep(s, env).calls[call] == s.calls[call]
    ensures var c := WorkStep(s, env).calls[call];
      s.calls[call] == Stopping(Asked) ==> c == s.calls[call] || (c.Stopping? && c.stop.Joining?)
  {
    hide ReadyLanes, RestartLane, WithState, ShutdownResult;
  }

  /** How far a shutdown call that nobody cancelled has come. */
  ghost predicate JoinProgress(run: Run, k: nat, call: nat)
    requires run.Valid() && k < |run.states|
  {
    && call in run.states[k].calls
    && match run.states[k].calls[call]
       case Stopping(JoiningTask(v)) => exists i | 0 <= i < k :: JoinsAt(run, i, call) && !JoinedBefore(run, i)
       case Stopping(_) => true
       case Done(Returned(v)) => ReturnedAfterJoin(run, k, call, v)
       case Done(Cancelled) => true
       case _ => false
  }

  /**
   The call has reached for the handle, and either was the first to do so and the manager is gone,
   or was not and returned in that very step.
   */
  ghost predicate ReturnedAfterJoin(run: Run, k: nat, call: nat, v: Verdict)
    requires run.Valid() && k < |run.states|
  {
    exists i | 0 <= i < k :: JoinsAt(run, i, call)
      && if JoinedBefore(run, i) then call in run.states[i + 1].calls
                                      && run.states[i + 1].calls[call] == Done(Returned(v))
         else run.states[k].mgr.Gone?
  }

  lemma GoneStaysGone(s: State, e: Event)
    requires Enabled(s, e) && s.mgr.Gone?
    ensures Step(s, e).mgr.Gone?
  {
    hide GoCall;
    if e.Go? {
      GoMovesOnly(s, e.call);
    }
  }

  /** Where its own step takes a shutdown call. */
  lemma StopGoes(s: State, call: nat)
    requires call in s.calls && s.calls[call].Stopping? && CanGo(s, s.calls[call])
    ensures call in GoCall(s, call).calls
    ensures var c := GoCall(s, call).calls[call];
      match s.calls[call].stop
      case JoiningTask(v) => c == Done(Returned(v)) && s.mgr.Gone?
      case Joining(v) => true
      case _ => c.Stopping? && !c.stop.JoiningTask?
  {
  }

  lemma {:induction false} JoinIsProgressing(run: Run, j: nat, k: nat, call: nat)
    requires run.Valid() && j < k < |run.states| && run.events[j] == Start(call, AskShutdown)
    ensures JoinProgress(run, k, call)
    decreases k - j
  {
    hide Init, WorkStep, TakeCommand, TakeTick, GoCall, JoinedBefore, Run.Valid;
    LastStep(run, k);
    if j + 1 < k {
      JoinIsProgressing(run, j, k - 1, call);
      var s, e := run.states[k - 1], run.events[k - 1];
      if e == Go(call) {
        JoinGoes(run, k, call);
      } else {
        OthersLeaveJoin(s, e, call);
        if run.states[k].calls[call] == s.calls[call] {
          ProgressLasts(run, k, call);
        }
      }
    }
  }

  lemma OthersLeaveJoin(s: State, e: Event, call: nat)
    requires Enabled(s, e) && e != Go(call) && call in s.calls && (s.calls[call].Stopping? || s.calls[call].Done?)
    ensures call in Step(s, e).calls
    ensures var c := Step(s, e).calls[call];
      || c == s.calls[call] || c == Done(Cancelled)
      || (s.calls[call] == Stopping(Asked) && c.Stopping? && c.stop.Joining?)
  {
    hide WorkStep, TakeCommand, TakeTick, GoCall;
    match e
    case Go(t) => GoMovesOnly(s, t);
    case Work(env) => JoiningIsOwn(s, env, call);
    case Receive(_) => TakeFrame(s, e);
    case Tick(_) => TakeFrame(s, e);
    case _ =>
  }

  lemma ProgressLasts(run: Run, k: nat, call: nat)
    requires run.Valid() && 0 < k < |run.states| && JoinProgress(run, k - 1, call) && call in run.states[k].calls
    requires run.states[k].calls[call] == run.states[k - 1].calls[call]
    ensures JoinProgress(run, k, call)
  {
    hide Init, Step, Enabled, JoinedBefore, JoinsAt;
    LastStep(run, k);
    if run.states[k - 1].mgr.Gone? {
      GoneStaysGone(run.states[k - 1], run.events[k - 1]);
    }
  }

  lemma JoinGoes(run: Run, k: nat, call: nat)
    requires run.Valid() && 0 < k < |run.states| && run.events[k - 1] == Go(call) && JoinProgress(run, k - 1, call)
    ensures JoinProgress(run, k, call)
  {
    hide Init, GoCall, JoinedBefore, Run.Valid;
    LastStep(run, k);
    var s := run.states[k - 1];
    StopGoes(s, call);
    if s.calls[call].stop.Joining? {
      assert JoinsAt(run, k - 1, call);
      JoinReturnsAtOnce(run, k - 1, call);
    } else if s.calls[call].stop.JoiningTask? {
      GoneStaysGone(s, Go(call));
    }
  }

  /**
   Every shutdown call that has returned, and was not cancelled, reached for the handle before. If
   it was the first in the run to do so, the manager is gone; if not, it returned at once.
   */
  lemma ShutdownReturned(run: Run, j: nat, k: nat, call: nat, v: Verdict)
    requires run.Valid() && j < k < |run.states| && run.events[j] == Start(call, AskShutdown)
    requires call in run.states[k].calls && run.states[k].calls[call] == Done(Returned(v))
    ensures ReturnedAfterJoin(run, k, call, v)
  {
    JoinIsProgressing(run, j, k, call);
  }
}
