/** Shutdown over whole runs: once, in bounded time for its place in the queue, and final. */
module ShutdownRuns {
  import opened Wrappers
  import opened Lanes
  import opened Select
  import opened PoolCore
  import opened Protocol
  import opened Runs
  import opened Tokens

  // ---- At most one Shutdown -----------------------------------------------------------------

  ghost predicate NoneWon(calls: map<nat, Call>) {
    forall t <- calls :: calls[t] != Stopping(Won)
  }

  ghost predicate NoneQueued(queue: seq<Command>) {
    forall k | 0 <= k < |queue| :: !queue[k].Shutdown?
  }

  ghost predicate AllDone(calls: map<nat, Call>) {
    forall t <- calls :: calls[t].Done?
  }

  ghost predicate OneShutdown(s: State) {
    && (!s.closed ==> NoneWon(s.calls) && NoneQueued(s.queue) && !(s.mgr.Closing? && s.mgr.closer.Some?))
    && (forall t <- s.calls, u <- s.calls :: s.calls[t] == Stopping(Won) && s.calls[u] == Stopping(Won) ==> t == u)
    && (NoneWon(s.calls) || NoneQueued(s.queue))
    && (forall j, k | 0 <= j < k < |s.queue| :: !(s.queue[j].Shutdown? && s.queue[k].Shutdown?))
    && (s.mgr.Closing? && s.mgr.closer.Some? ==> NoneWon(s.calls) && NoneQueued(s.queue))
    && (s.mgr.Closing? && s.mgr.closer.None? ==> s.queue == [] && s.dropped)
    && (s.mgr.Gone? ==> s.queue == [])
    && (s.dropped ==> AllDone(s.calls))
  }

  /** What one call's step does to the Shutdown commands: only a winner queues one, and is then no winner. */
  ghost predicate QueuesShutdown(s: State, call: nat, won: bool, s': State) {
    && call in s'.calls && s'.calls[call] != Stopping(Won)
    && (s.mgr.Gone? ==> s'.queue == s.queue)
    && (|| s'.queue == s.queue
        || (&& |s'.queue| == |s.queue| + 1 && s'.queue == s.queue + [s'.queue[|s.queue|]]
            && (s'.queue[|s.queue|].Shutdown? ==> won)))
  }

  lemma HandOutQueues(s: State, call: nat, h: HandOut)
    ensures QueuesShutdown(s, call, false, GoHandOut(s, call, h))
  {
    hide FindEndpoint;
  }

  lemma RotationQueues(s: State, call: nat, r: Rotation)
    ensures QueuesShutdown(s, call, false, GoRotation(s, call, r))
  {
    hide FindEndpoint, Without;
  }

  lemma StopQueues(s: State, call: nat, p: Stop)
    ensures QueuesShutdown(s, call, p.Won?, GoStop(s, call, p))
  {
  }

  lemma GoQueuesShutdown(s: State, call: nat)
    requires call in s.calls && CanGo(s, s.calls[call])
    ensures QueuesShutdown(s, call, s.calls[call] == Stopping(Won), GoCall(s, call))
  {
    hide GoHandOut, GoRotation, GoStop;
    match s.calls[call]
    case Choosing(h) => HandOutQueues(s, call, h);
    case Rotating(r) => RotationQueues(s, call, r);
    case Stopping(p) => StopQueues(s, call, p);
    case _ =>
  }

  lemma GoKeepsOneShutdown(s: State, call: nat)
    requires OneShutdown(s) && call in s.calls && CanGo(s, s.calls[call])
    ensures OneShutdown(GoCall(s, call))
  {
    GoMovesOnly(s, call);
    GoQueuesShutdown(s, call);
    hide GoCall;
    var s' := GoCall(s, call);
    forall t <- s'.calls
      ensures s'.calls[t] == Stopping(Won) ==> t in s.calls && s.calls[t] == Stopping(Won)
    {
    }
    assert !s.dropped;
    if s.calls[call] == Stopping(Won) {
      assert NoneWon(s'.calls);
    }
  }

  lemma DeliverMakesNoWinner(calls: map<nat, Call>, waiter: nat, verdict: Verdict)
    ensures NoneWon(calls) ==> NoneWon(Deliver(calls, waiter, verdict))
    ensures AllDone(calls) ==> AllDone(Deliver(calls, waiter, verdict))
    ensures forall t <- Deliver(calls, waiter, verdict) ::
              Deliver(calls, waiter, verdict)[t] == Stopping(Won) ==> t in calls && calls[t] == Stopping(Won)
  {
  }

  ghost predicate WorkClosing(s: State, s': State) {
    && s'.closed == s.closed && s'.dropped == s.dropped
    && (s'.queue == s.queue || (s'.queue == [] && s'.mgr.Gone? && s.mgr.Closing?))
    && (s'.mgr.Gone? ==> s'.queue == [] && s.mgr.Closing?)
    && (s'.mgr.Closing? ==> s.mgr.Closing? && s'.mgr.closer == s.mgr.closer)
    && (NoneWon(s.calls) ==> NoneWon(s'.calls))
    && (AllDone(s.calls) ==> AllDone(s'.calls))
    && (forall t <- s'.calls :: s'.calls[t] == Stopping(Won) ==> t in s.calls && s.calls[t] == Stopping(Won))
  }

  lemma PublicationClosing(s: State, p: Publication)
    requires s.mgr == Publishing(p)
    ensures WorkClosing(s, WorkPublication(s, p))
  {
    hide ReadyLanes;
    if p.Replying? {
      DeliverMakesNoWinner(s.calls, p.waiter, p.verdict);
    }
  }

  lemma CloseClosing(s: State, closer: Option<nat>, last: ClosePhase, env: Env)
    requires s.mgr == Closing(closer, last)
    ensures WorkClosing(s, WorkClose(s, closer, last, env))
  {
    hide ShutdownResult;
    if last.LastReply? && closer.Some? {
      DeliverMakesNoWinner(s.calls, closer.value, last.verdict);
    }
  }

  lemma RestartClosing(s: State, waiter: nat, phase: RestartPhase, env: Env)
    requires s.mgr == Restarting(waiter, phase)
    ensures WorkClosing(s, WorkRestart(s, waiter, phase, env))
  {
    hide RestartLane, WithState;
  }

  lemma WorkIsClosing(s: State, env: Env)
    requires !s.mgr.Idle? && !s.mgr.Gone?
    ensures WorkClosing(s, WorkStep(s, env))
  {
    hide WorkPublication, WorkRestart, WorkClose, WorkClosing;
    match s.mgr
    case Publishing(p) => PublicationClosing(s, p);
    case Restarting(waiter, phase) => RestartClosing(s, waiter, phase, env);
    case Closing(closer, last) => CloseClosing(s, closer, last, env);
  }

  lemma TakenShutdown(s: State, e: Event)
    requires Enabled(s, e) && (e.Receive? || e.Tick?)
    ensures var s' := Step(s, e);
      && s'.calls == s.calls && s'.closed == s.closed && s'.dropped == s.dropped
      && s'.queue == (if e.Receive? then s.queue[1..] else s.queue) && !s'.mgr.Gone?
      && (s'.mgr.Closing? <==> e.Receive? && s.queue[0].Shutdown?)
      && (s'.mgr.Closing? ==> s'.mgr.closer.Some?)
  {
    hide AssignRotates, RotateResult, AssignLanes, RotateLanes, ReplyTo, ExpireLanes;
  }

  /**
   Across all handles, at every state of every run, at most one shutdown is under way: one caller
   that won the swap, or one queued command, or the manager closing for one caller.
   */
  lemma {:induction false} AtMostOneShutdown(run: Run, k: nat)
    requires run.Valid() && k < |run.states|
    ensures OneShutdown(run.states[k])
  {
    hide GoCall, WorkStep, TakeCommand, TakeTick;
    if k > 0 {
      AtMostOneShutdown(run, k - 1);
      LastStep(run, k);
      var s, e := run.states[k - 1], run.events[k - 1];
      match e
      case Go(call) => GoKeepsOneShutdown(s, call);
      case Work(env) => WorkIsClosing(s, env);
      case Receive(entropy) => TakenShutdown(s, e);
      case Tick(entropies) => TakenShutdown(s, e);
      case _ =>
    } else {
      FirstState(run);
    }
  }

  // ---- Progress -----------------------------------------------------------------------------

  /** Where the Shutdown command stands in the queue. */
  function ShutdownPosition(queue: seq<Command>): (p: nat)
    ensures p <= |queue|
    ensures p < |queue| ==> queue[p].Shutdown?
    ensures forall j | 0 <= j < p :: !queue[j].Shutdown?
  {
    if queue == [] || queue[0].Shutdown? then 0 else 1 + ShutdownPosition(queue[1..])
  }

  lemma {:induction false} PositionIsStable(queue: seq<Command>, queue': seq<Command>)
    requires queue <= queue' && !NoneQueued(queue)
    ensures ShutdownPosition(queue') == ShutdownPosition(queue) < |queue|
  {
  }

  /**
   A queued Shutdown moves forward by one with every command the manager takes, is overtaken by
   nothing, and is acted on when it reaches the front.
   */
  lemma ShutdownApproaches(s: State, e: Event)
    requires OneShutdown(s) && Enabled(s, e) && !NoneQueued(s.queue)
    ensures var p := ShutdownPosition(s.queue);
      if !e.Receive? then ShutdownPosition(Step(s, e).queue) == p && !NoneQueued(Step(s, e).queue)
      else if p > 0 then ShutdownPosition(Step(s, e).queue) == p - 1 && !NoneQueued(Step(s, e).queue)
      else Step(s, e).mgr.Closing?
  {
    hide GoCall, WorkStep, TakeCommand, TakeTick;
    match e
    case Go(call) =>
      GoMovesOnly(s, call);
      PositionIsStable(s.queue, GoCall(s, call).queue);
    case Work(env) => WorkIsClosing(s, env);
    case Receive(entropy) =>
      TakenShutdown(s, e);
      var k :| 0 <= k < |s.queue| && s.queue[k].Shutdown?;
      if ShutdownPosition(s.queue) > 0 {
        assert s.queue[1..][k - 1] == s.queue[k];
      }
    case Tick(entropies) => TakenShutdown(s, e);
    case _ =>
  }

  // ---- What the winner may rely on ----------------------------------------------------------

  /** The instance has been shut down and the manager only has to leave, or has left. */
  ghost predicate InstanceStopped(s: State) {
    s.mgr.Gone? || (s.mgr.Closing? && s.mgr.last.Exiting?)
  }

  ghost predicate StoppedMeansHalted(s: State) {
    s.mgr.Gone? || (s.mgr.Closing? && (s.mgr.last.Exiting? || s.mgr.last.LastReply?)) ==> !s.core.running
  }

  lemma TakenStarts(s: State, e: Event)
    requires Enabled(s, e) && e.Receive?
    ensures Step(s, e).mgr.Closing? ==> Step(s, e).mgr.last.LastHide?
  {
    hide AssignRotates, RotateResult, AssignLanes, RotateLanes, ReplyTo, ExpireLanes;
  }

  /** Where the winning call may stand: past its wait only once the instance is stopped. */
  ghost predicate WinnerPromise(s: State, call: nat) {
    && call in s.calls
    && (forall k | 0 <= k < |s.queue| && TokenOf(s.queue[k]) == Some(call) :: s.queue[k] == Shutdown(call))
    && (ManagerToken(s.mgr) == Some(call) ==> s.mgr.Closing?)
    && match s.calls[call]
       case Stopping(Won) => true
       case Stopping(Asked) => true
       case Stopping(_) => InstanceStopped(s)
       case Done(Cancelled) => true
       case Done(Returned(_)) => InstanceStopped(s)
       case _ => false
  }

  lemma WinnerGoes(s: State, call: nat)
    requires WinnerPromise(s, call) && CanGo(s, s.calls[call])
    ensures WinnerPromise(GoCall(s, call), call)
  {
    hide GoHandOut, GoRotation;
  }

  lemma OtherGoes(s: State, t: nat, call: nat)
    requires WinnerPromise(s, call) && t in s.calls && CanGo(s, s.calls[t]) && t != call
    ensures WinnerPromise(GoCall(s, t), call)
  {
    GoMovesOnly(s, t);
    GoGains(s, t);
    hide GoCall;
    assert GoCall(s, t).calls[call] == s.calls[call];
  }

  lemma CloseKeepsWinner(s: State, closer: Option<nat>, last: ClosePhase, env: Env, call: nat)
    requires s.mgr == Closing(closer, last) && WinnerPromise(s, call)
    ensures WinnerPromise(WorkClose(s, closer, last, env), call)
  {
    hide ShutdownResult;
  }

  lemma PublicationKeepsWinner(s: State, p: Publication, call: nat)
    requires s.mgr == Publishing(p) && WinnerPromise(s, call)
    ensures WinnerPromise(WorkPublication(s, p), call)
  {
    hide ReadyLanes;
  }

  lemma RestartKeepsWinner(s: State, waiter: nat, phase: RestartPhase, env: Env, call: nat)
    requires s.mgr == Restarting(waiter, phase) && WinnerPromise(s, call)
    ensures WinnerPromise(WorkRestart(s, waiter, phase, env), call)
  {
    hide RestartLane, WithState;
  }

  lemma TakeKeepsWinner(s: State, e: Event, call: nat)
    requires Enabled(s, e) && (e.Receive? || e.Tick?) && WinnerPromise(s, call)
    ensures WinnerPromise(Step(s, e), call)
  {
    TakenShutdown(s, e);
    if e.Receive? {
      TakenToken(s, e.entropy);
    } else {
      TickToken(s, e.entropies);
    }
    hide TakeCommand, TakeTick;
  }

  lemma {:induction false} WinnerIsKept(run: Run, j: nat, k: nat, call: nat)
    requires run.Valid() && j < k < |run.states|
    requires run.events[j] == Start(call, AskShutdown) && !run.states[j].closed
    ensures WinnerPromise(run.states[k], call)
    decreases k - j
  {
    hide Init, StoppedMeansHalted, GoCall, TakeCommand, TakeTick, WorkPublication, WorkRestart, WorkClose;
    if j + 1 < k {
      WinnerIsKept(run, j, k - 1, call);
      LastStep(run, k);
      var s, e := run.states[k - 1], run.events[k - 1];
      match e
      case Go(t) => if t == call { WinnerGoes(s, call); } else { OtherGoes(s, t, call); }
      case Receive(_) => TakeKeepsWinner(s, e, call);
      case Tick(_) => TakeKeepsWinner(s, e, call);
      case Work(env) =>
        match s.mgr {
          case Publishing(p) => PublicationKeepsWinner(s, p, call);
          case Restarting(waiter, phase) => RestartKeepsWinner(s, waiter, phase, env, call);
          case Closing(closer, last) => CloseKeepsWinner(s, closer, last, env, call);
        }
      case _ =>
    } else {
      WinnerStarts(run, j, call);
    }
  }

  lemma {:induction false} HaltedThroughout(run: Run, k: nat)
    requires run.Valid() && k < |run.states|
    ensures StoppedMeansHalted(run.states[k])
  {
    hide GoCall, TakeCommand, TakeTick, WorkRestart, WorkPublication, ShutdownResult;
    if k > 0 {
      HaltedThroughout(run, k - 1);
      LastStep(run, k);
      var s, e := run.states[k - 1], run.events[k - 1];
      match e
      case Go(call) => GoMovesOnly(s, call);
      case Work(env) => WorkIsClosing(s, env);
      case Receive(_) => TakenShutdown(s, e); TakenStarts(s, e);
      case Tick(_) => TakenShutdown(s, e);
      case _ =>
    } else {
      FirstState(run);
    }
  }

  lemma WinnerStarts(run: Run, j: nat, call: nat)
    requires run.Valid() && j < |run.events|
    requires run.events[j] == Start(call, AskShutdown) && !run.states[j].closed
    ensures WinnerPromise(run.states[j + 1], call) && StoppedMeansHalted(run.states[j + 1])
  {
    LastStep(run, j + 1);
    HaltedThroughout(run, j + 1);
    RunKeepsTokens(run, j);
    var s := run.states[j];
    assert SentBy(s.calls, ManagerToken(s.mgr));
    forall k | 0 <= k < |s.queue|
      ensures TokenOf(s.queue[k]) != Some(call)
    {
      assert SentBy(s.calls, TokenOf(s.queue[k]));
    }
  }

  /**
   The caller that won the swap returns only after the instance has been shut down: the manager
   is gone, or has nothing left to do but leave, and no instance is running.
   */
  lemma WinnerReturnsAfterStop(run: Run, j: nat, k: nat, call: nat, v: Verdict)
    requires run.Valid() && j < k < |run.states|
    requires run.events[j] == Start(call, AskShutdown) && !run.states[j].closed
    requires call in run.states[k].calls && run.states[k].calls[call] == Done(Returned(v))
    ensures InstanceStopped(run.states[k]) && !run.states[k].core.running
  {
    WinnerIsKept(run, j, k, call);
    HaltedThroughout(run, k);
  }

  // ---- What the winner is told --------------------------------------------------------------

  /** The manager stops the instance for `call`, and that fails. */
  ghost predicate HaltFails(s: State, e: Event, call: nat) {
    e.Work? && s.mgr == Closing(Some(call), LastHalt) && s.core.running && !e.env.stopOk
  }

  /** What `call` is told when stopping the instance has failed, or not. */
  function Told(failed: bool): Verdict {
    if failed then Err(Instance) else Ok(())
  }

  predicate Pends(c: Call) {
    c == Stopping(Asked) || c == Done(Cancelled)
  }

  /** Where the verdict of the winner is, given whether stopping the instance for it has failed. */
  ghost predicate VerdictOnItsWay(s: State, call: nat, failed: bool) {
    && call in s.calls
    && (failed ==> s.mgr.Gone? || (s.mgr.Closing? && s.mgr.closer == Some(call)
                                   && (s.mgr.last.LastReply? || s.mgr.last.Exiting?)))
    && (s.mgr.Closing? && s.mgr.closer == Some(call) && s.mgr.last.LastReply? ==> s.mgr.last.verdict == Told(failed))
    && (s.mgr.Closing? && s.mgr.closer == Some(call) && !s.mgr.last.Exiting? ==> Pends(s.calls[call]))
    && ((exists k | 0 <= k < |s.queue| :: s.queue[k] == Shutdown(call)) ==> Pends(s.calls[call]))
    && match s.calls[call]
       case Stopping(Won) => !failed
       case Stopping(Asked) => failed ==> s.mgr.Closing? && s.mgr.last.LastReply?
       case Stopping(Joining(v)) => v == Told(failed)
       case Stopping(JoiningTask(v)) => v == Told(failed)
       case Done(Returned(v)) => v == Told(failed)
       case Done(Cancelled) => true
       case _ => false
  }

  lemma WinnerGoesOn(s: State, call: nat, failed: bool)
    requires OneShutdown(s) && VerdictOnItsWay(s, call, failed) && CanGo(s, s.calls[call])
    ensures VerdictOnItsWay(GoCall(s, call), call, failed)
  {
    assert s.mgr.Gone? ==> s.queue == [];
    hide GoHandOut, GoRotation, OneShutdown;
  }

  lemma OtherGoesOn(s: State, t: nat, call: nat, failed: bool)
    requires VerdictOnItsWay(s, call, failed) && t in s.calls && CanGo(s, s.calls[t]) && t != call
    ensures VerdictOnItsWay(GoCall(s, t), call, failed)
  {
    GoMovesOnly(s, t);
    GoGains(s, t);
    hide GoCall;
    var s' := GoCall(s, t);
    assert s'.calls[call] == s.calls[call];
    if k :| 0 <= k < |s'.queue| && s'.queue[k] == Shutdown(call) {
      assert k < |s.queue| ==> s.queue[k] == s'.queue[k];
      assert TokenOf(Shutdown(call)) == Some(call);
    }
  }

  lemma CloseTells(s: State, closer: Option<nat>, last: ClosePhase, env: Env, call: nat, failed: bool)
    requires s.mgr == Closing(closer, last) && VerdictOnItsWay(s, call, failed)
    requires forall k | 0 <= k < |s.queue| :: s.queue[k] != Shutdown(call)
    ensures VerdictOnItsWay(WorkClose(s, closer, last, env), call, failed || HaltFails(s, Work(env), call))
  {
  }

  lemma PublicationTellsNothing(s: State, p: Publication, call: nat, failed: bool)
    requires s.mgr == Publishing(p) && VerdictOnItsWay(s, call, failed) && ManagerToken(s.mgr) != Some(call)
    ensures VerdictOnItsWay(WorkPublication(s, p), call, failed)
  {
    hide ReadyLanes;
  }

  lemma RestartTellsNothing(s: State, waiter: nat, phase: RestartPhase, env: Env, call: nat, failed: bool)
    requires s.mgr == Restarting(waiter, phase) && VerdictOnItsWay(s, call, failed)
    ensures VerdictOnItsWay(WorkRestart(s, waiter, phase, env), call, failed)
  {
    hide RestartLane, WithState;
  }

  lemma TakeTellsNothing(s: State, e: Event, call: nat, failed: bool)
    requires Enabled(s, e) && (e.Receive? || e.Tick?) && VerdictOnItsWay(s, call, failed)
    ensures VerdictOnItsWay(Step(s, e), call, failed)
  {
    TakenShutdown(s, e);
    TakenCloses(s, e);
    hide Step;
    var s' := Step(s, e);
    if k :| 0 <= k < |s'.queue| && s'.queue[k] == Shutdown(call) {
      assert s.queue[if e.Receive? then k + 1 else k] == Shutdown(call);
    }
  }

  lemma TakenCloses(s: State, e: Event)
    requires Enabled(s, e) && (e.Receive? || e.Tick?)
    ensures Step(s, e).mgr.Closing? ==>
              e.Receive? && s.queue[0].Shutdown? && Step(s, e).mgr == Closing(Some(s.queue[0].caller), LastHide)
  {
    hide AssignRotates, RotateResult, AssignLanes, RotateLanes, ReplyTo, ExpireLanes;
  }

  /** Stopping the instance for `call` has failed at some step. */
  ghost predicate HaltFailed(run: Run, k: nat, call: nat)
    requires run.Valid() && k < |run.states|
  {
    exists m | 0 <= m < k :: HaltFails(run.states[m], run.events[m], call)
  }

  lemma {:induction false} VerdictArrives(run: Run, j: nat, k: nat, call: nat)
    requires run.Valid() && j < k < |run.states|
    requires run.events[j] == Start(call, AskShutdown) && !run.states[j].closed
    ensures VerdictOnItsWay(run.states[k], call, HaltFailed(run, k, call))
    decreases k - j
  {
    hide Init, GoCall, TakeCommand, TakeTick, WorkPublication, WorkRestart, WorkClose, VerdictOnItsWay, HaltFails;
    LastStep(run, k);
    if j + 1 < k {
      VerdictArrives(run, j, k - 1, call);
      WinnerIsKept(run, j, k - 1, call);
      AtMostOneShutdown(run, k - 1);
      var s, e := run.states[k - 1], run.events[k - 1];
      var failed := HaltFailed(run, k - 1, call);
      assert HaltFailed(run, k, call) <==> failed || HaltFails(s, e, call);
      FailsOnlyClosing(s, e, call);
      NoneQueuedForWinner(s, call);
      match e
      case Go(t) =>
        GoMovesOnly(s, t);
        if t == call {
          WinnerGoesOn(s, call, failed);
        } else {
          OtherGoesOn(s, t, call, failed);
        }
      case Receive(_) => TakeTellsNothing(s, e, call, failed);
      case Tick(_) => TakeTellsNothing(s, e, call, failed);
      case Work(env) =>
        match s.mgr {
          case Publishing(p) => PublicationTellsNothing(s, p, call, failed);
          case Restarting(waiter, phase) => RestartTellsNothing(s, waiter, phase, env, call, failed);
          case Closing(closer, last) => CloseTells(s, closer, last, env, call, failed);
        }
      case _ => OthersTellNothing(s, e, call, failed);
    } else {
      WinnerHasNotFailed(run, j, call);
    }
  }

  lemma NoneQueuedForWinner(s: State, call: nat)
    requires OneShutdown(s)
    ensures s.mgr.Closing? ==> forall k | 0 <= k < |s.queue| :: s.queue[k] != Shutdown(call)
  {
  }

  lemma FailsOnlyClosing(s: State, e: Event, call: nat)
    ensures HaltFails(s, e, call) ==> e.Work? && s.mgr.Closing?
  {
  }

  lemma OthersTellNothing(s: State, e: Event, call: nat, failed: bool)
    requires Enabled(s, e) && VerdictOnItsWay(s, call, failed)
    requires e.Start? || e.Cancel? || e.DropPool? || e.HangUp? || e.Elapse?
    ensures VerdictOnItsWay(Step(s, e), call, failed)
  {
  }

  lemma {:induction false} OpenBefore(run: Run, m: nat, j: nat)
    requires run.Valid() && m <= j < |run.states| && !run.states[j].closed
    ensures !run.states[m].closed
  {
    hide Init, GoCall, TakeCommand, TakeTick, WorkStep;
    if m < j {
      LastStep(run, j);
      var s, e := run.states[j - 1], run.events[j - 1];
      match e {
        case Go(t) => GoMovesOnly(s, t);
        case Receive(_) => TakenShutdown(s, e);
        case Tick(_) => TakenShutdown(s, e);
        case Work(env) => WorkIsClosing(s, env);
        case _ =>
      }
      OpenBefore(run, m, j - 1);
    }
  }

  /** A call that has just won the swap: the manager has not begun to close for it. */
  lemma WinnerHasNotFailed(run: Run, j: nat, call: nat)
    requires run.Valid() && j < |run.events|
    requires run.events[j] == Start(call, AskShutdown) && !run.states[j].closed
    ensures !HaltFailed(run, j + 1, call)
    ensures VerdictOnItsWay(run.states[j + 1], call, false)
  {
    hide Init;
    LastStep(run, j + 1);
    AtMostOneShutdown(run, j);
    forall m | 0 <= m <= j
      ensures !HaltFails(run.states[m], run.events[m], call)
    {
      OpenBefore(run, m, j);
      AtMostOneShutdown(run, m);
    }
  }

  /**
   What the caller that won the swap is told, in every run: an error if and only if there was an
   instance to stop for it and stopping that failed.
   */
  lemma WinnerIsToldExactly(run: Run, j: nat, k: nat, call: nat, v: Verdict)
    requires run.Valid() && j < k < |run.states|
    requires run.events[j] == Start(call, AskShutdown) && !run.states[j].closed
    requires call in run.states[k].calls && run.states[k].calls[call] == Done(Returned(v))
    ensures v == Ok(()) || v == Err(Instance)
    ensures v == Err(Instance) <==> exists m | 0 <= m < k ::
              && run.events[m].Work? && run.states[m].mgr == Closing(Some(call), LastHalt)
              && run.states[m].core.running && !run.events[m].env.stopOk
  {
    VerdictArrives(run, j, k, call);
    assert HaltFailed(run, k, call) <==> exists m | 0 <= m < k ::
        && run.events[m].Work? && run.states[m].mgr == Closing(Some(call), LastHalt)
        && run.states[m].core.running && !run.events[m].env.stopOk by {
      if m: nat :| m < k && run.events[m].Work? && run.states[m].mgr == Closing(Some(call), LastHalt)
                   && run.states[m].core.running && !run.events[m].env.stopOk {
        assert HaltFails(run.states[m], run.events[m], call);
      }
    }
  }

  // ---- After the end ------------------------------------------------------------------------

  lemma {:induction false} AnswersAreFinal(run: Run, j: nat, k: nat, call: nat)
    requires run.Valid() && j <= k < |run.states|
    requires call in run.states[j].calls && run.states[j].calls[call].Done?
    ensures call in run.states[k].calls && run.states[k].calls[call] == run.states[j].calls[call]
    decreases k - j
  {
    hide Init, Run.Valid, GoCall, TakeCommand, TakeTick, WorkStep;
    if j < k {
      LastStep(run, k);
      AnswersAreFinal(run, j, k - 1, call);
      var s, e := run.states[k - 1], run.events[k - 1];
      match e
      case Go(t) => GoMovesOnly(s, t);
      case Work(env) => WorkLeavesCall(s, env, call);
      case Receive(_) => TakeFrame(s, e);
      case Tick(_) => TakeFrame(s, e);
      case _ =>
    }
  }

  /** Once a shutdown has begun, every later call but a shutdown is refused, whatever happens next. */
  lemma ClosedRefusesCalls(run: Run, j: nat, k: nat, call: nat, request: Request)
    requires run.Valid() && j < k < |run.states| && run.events[j] == Start(call, request)
    requires run.states[j].closed && !request.AskShutdown?
    ensures call in run.states[k].calls && run.states[k].calls[call] == Done(Returned(Err(Closed)))
  {
    LastStep(run, j + 1);
    AnswersAreFinal(run, j + 1, k, call);
  }

  /** The endpoint a call has returned, if it returned one. */
  function ProxyOf(s: State, call: nat): Option<Endpoint> {
    if call in s.calls && s.calls[call].Done? && s.calls[call].answer.Given?
    then Some(s.calls[call].answer.proxy) else None
  }

  lemma GoneGivesNothing(s: State, e: Event, call: nat)
    requires Enabled(s, e) && s.mgr.Gone?
    ensures Step(s, e).mgr.Gone?
    ensures ProxyOf(Step(s, e), call).Some? ==> ProxyOf(Step(s, e), call) == ProxyOf(s, call)
  {
    hide FindEndpoint, Without;
    match e
    case Go(t) => GoMovesOnly(s, t);
    case _ =>
  }

  /** No proxy is returned once the manager is gone: whoever has one got it before. */
  lemma {:induction false} NoProxyAfterTheEnd(run: Run, j: nat, k: nat, call: nat)
    requires run.Valid() && j <= k < |run.states| && run.states[j].mgr.Gone?
    ensures run.states[k].mgr.Gone?
    ensures ProxyOf(run.states[k], call).Some? ==> ProxyOf(run.states[j], call) == ProxyOf(run.states[k], call)
    decreases k - j
  {
    hide Step, Init, ProxyOf;
    if j < k {
      NoProxyAfterTheEnd(run, j, k - 1, call);
      LastStep(run, k);
      GoneGivesNothing(run.states[k - 1], run.events[k - 1], call);
    }
  }
}
