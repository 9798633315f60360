/**
 Response channels over whole runs: each belongs to one call, is in one place at a time, and is
 answered at most once. With it: what an awaited rotation and a shutdown have done when they return.
 */
module Tokens {
  import opened Wrappers
  import opened Lanes
  import opened Select
  import opened PoolCore
  import opened Protocol

  /** The call whose response channel a command carries. */
  function TokenOf(c: Command): Option<nat> {
    match c
    case Assign(_, _) => None
    case Rotate(_, waiter) => waiter
    case Restart(caller) => Some(caller)
    case Shutdown(caller) => Some(caller)
  }

  function ReplyToken(r: Reply): Option<nat> {
    match r case Silent => None case To(w, _) => Some(w)
  }

  /** The response channel the manager is holding. */
  function ManagerToken(m: Manager): Option<nat> {
    match m
    case Publishing(Replying(w, _)) => Some(w)
    case Publishing(p) => ReplyToken(p.reply)
    case Restarting(w, _) => Some(w)
    case Closing(closer, last) => if last.Exiting? then None else closer
    case _ => None
  }

  /** A call that has sent its command. */
  predicate HasSent(c: Call) {
    c.Waiting? || c.Done? || (c.Stopping? && !c.stop.Won?)
  }

  predicate SentBy(calls: map<nat, Call>, token: Option<nat>) {
    token.Some? ==> token.value in calls && HasSent(calls[token.value])
  }

  ghost predicate TokensOk(s: State) {
    && (forall k | 0 <= k < |s.queue| :: SentBy(s.calls, TokenOf(s.queue[k])))
    && SentBy(s.calls, ManagerToken(s.mgr))
    && (forall k | 0 <= k < |s.queue| && TokenOf(s.queue[k]).Some? :: TokenOf(s.queue[k]) != ManagerToken(s.mgr))
    && (forall j, k | 0 <= j < k < |s.queue| && TokenOf(s.queue[j]).Some? :: TokenOf(s.queue[j]) != TokenOf(s.queue[k]))
  }

  /** What the queue may gain from one call's step: at most the command of that very call. */
  ghost predicate QueueGains(s: State, call: nat, s': State)
    requires call in s'.calls
  {
    || s'.queue == s.queue
    || (&& |s'.queue| == |s.queue| + 1 && s'.queue == s.queue + [s'.queue[|s.queue|]]
        && (TokenOf(s'.queue[|s.queue|]) == None
            || (&& TokenOf(s'.queue[|s.queue|]) == Some(call)
                && call in s.calls && !HasSent(s.calls[call]) && HasSent(s'.calls[call]))))
  }

  lemma GoGains(s: State, call: nat)
    requires call in s.calls && CanGo(s, s.calls[call])
    ensures call in GoCall(s, call).calls && QueueGains(s, call, GoCall(s, call))
    ensures HasSent(s.calls[call]) ==> HasSent(GoCall(s, call).calls[call])
  {
    hide FindEndpoint, Without, Chosen;
    GoMovesOnly(s, call);
  }

  lemma GainKeepsTokens(s: State, call: nat, s': State)
    requires TokensOk(s) && MovesOnly(s, call, s') && QueueGains(s, call, s')
    requires call in s.calls && HasSent(s.calls[call]) ==> HasSent(s'.calls[call])
    ensures TokensOk(s')
  {
    forall k | 0 <= k < |s'.queue|
      ensures SentBy(s'.calls, TokenOf(s'.queue[k]))
      ensures TokenOf(s'.queue[k]).Some? ==> TokenOf(s'.queue[k]) != ManagerToken(s'.mgr)
      ensures forall j | 0 <= j < k && TokenOf(s'.queue[j]).Some? :: TokenOf(s'.queue[j]) != TokenOf(s'.queue[k])
    {
      if k < |s.queue| {
        assert s'.queue[k] == s.queue[k];
        assert SentBy(s.calls, TokenOf(s.queue[k]));
      }
    }
  }

  lemma RotateToken(s: State, lane: nat, waiter: Option<nat>, entropy: Entropy)
    ensures ManagerToken(TakeRotate(s, lane, waiter, entropy).mgr) == waiter
    ensures var t := TakeRotate(s, lane, waiter, entropy); t.queue == s.queue && t.calls == s.calls
  {
    hide RotateResult, RotateLanes;
  }

  lemma TakenToken(s: State, entropy: Entropy)
    requires s.mgr.Idle? && s.queue != []
    ensures ManagerToken(TakeCommand(s, entropy).mgr) == TokenOf(s.queue[0])
    ensures TakeCommand(s, entropy).queue == s.queue[1..] && TakeCommand(s, entropy).calls == s.calls
  {
    hide AssignRotates, AssignLanes, TakeRotate;
    if s.queue[0].Rotate? {
      RotateToken(s.(queue := s.queue[1..]), s.queue[0].lane, s.queue[0].waiter, entropy);
    }
  }

  lemma DeliverKeepsSent(calls: map<nat, Call>, waiter: nat, verdict: Verdict)
    ensures forall t <- calls :: t in Deliver(calls, waiter, verdict)
    ensures forall t <- calls :: HasSent(calls[t]) ==> HasSent(Deliver(calls, waiter, verdict)[t])
  {
  }

  ghost predicate WorkKeepsToken(s: State, s': State) {
    && (s'.queue == s.queue || s'.queue == [])
    && (ManagerToken(s'.mgr) == ManagerToken(s.mgr) || ManagerToken(s'.mgr) == None)
    && (forall t <- s.calls :: t in s'.calls && (HasSent(s.calls[t]) ==> HasSent(s'.calls[t])))
  }

  lemma PublicationToken(s: State, p: Publication)
    requires s.mgr == Publishing(p)
    ensures WorkKeepsToken(s, WorkPublication(s, p))
  {
    hide ReadyLanes;
  }

  lemma RestartToken(s: State, waiter: nat, phase: RestartPhase, env: Env)
    requires s.mgr == Restarting(waiter, phase)
    ensures WorkKeepsToken(s, WorkRestart(s, waiter, phase, env))
  {
    hide RestartLane, WithState;
  }

  lemma CloseToken(s: State, closer: Option<nat>, last: ClosePhase, env: Env)
    requires s.mgr == Closing(closer, last)
    ensures WorkKeepsToken(s, WorkClose(s, closer, last, env))
  {
    hide ShutdownResult;
  }

  /** The manager's own steps keep the channel it holds, until it answers on it. */
  lemma WorkToken(s: State, env: Env)
    requires !s.mgr.Idle? && !s.mgr.Gone?
    ensures WorkKeepsToken(s, WorkStep(s, env))
  {
    hide WorkPublication, WorkRestart, WorkClose, WorkKeepsToken;
    match s.mgr
    case Publishing(p) => PublicationToken(s, p);
    case Restarting(waiter, phase) => RestartToken(s, waiter, phase, env);
    case Closing(closer, last) => CloseToken(s, closer, last, env);
  }

  lemma TickToken(s: State, entropies: seq<Entropy>)
    requires |entropies| == |s.core.lanes| && s.mgr.Idle?
    ensures TakeTick(s, entropies).queue == s.queue && TakeTick(s, entropies).calls == s.calls
    ensures ManagerToken(TakeTick(s, entropies).mgr) == None
  {
  }

  lemma {:induction false} RunKeepsTokens(run: Run, k: nat)
    requires run.Valid() && k < |run.states|
    ensures TokensOk(run.states[k])
  {
    hide GoCall, WorkStep, TakeCommand, TakeTick;
    if k > 0 {
      RunKeepsTokens(run, k - 1);
      LastStep(run, k);
      var s, e := run.states[k - 1], run.events[k - 1];
      match e
      case Go(call) =>
        GoMovesOnly(s, call);
        GoGains(s, call);
        GainKeepsTokens(s, call, GoCall(s, call));
      case Work(env) => WorkToken(s, env);
      case Receive(entropy) => TakenToken(s, entropy);
      case Tick(entropies) => TickToken(s, entropies);
      case _ =>
    } else {
      FirstState(run);
    }
  }

  // ---- Nobody is stranded -------------------------------------------------------------------

  /** A call that waits for the manager's answer. */
  predicate Awaits(c: Call) {
    c.Waiting? || c == Stopping(Asked)
  }

  ghost predicate HoldsToken(s: State, call: nat) {
    ManagerToken(s.mgr) == Some(call) || exists k | 0 <= k < |s.queue| :: TokenOf(s.queue[k]) == Some(call)
  }

  ghost predicate AllHeld(s: State) {
    !s.mgr.Gone? ==> forall t <- s.calls | Awaits(s.calls[t]) :: HoldsToken(s, t)
  }

  /** A call comes to wait for the manager only by queueing its own response channel. */
  lemma GoAwaits(s: State, call: nat)
    requires call in s.calls && CanGo(s, s.calls[call]) && !s.mgr.Gone?
    ensures var s' := GoCall(s, call);
      && call in s'.calls
      && (Awaits(s'.calls[call]) ==>
            exists c: Command :: s'.queue == s.queue + [c] && TokenOf(c) == Some(call))
  {
    hide FindEndpoint, Without, Chosen, GoHandOut;
    match s.calls[call]
    case Choosing(h) => HandOutAwaitsNothing(s, call, h);
    case Rotating(Overwritten(lane, awaited)) =>
      if awaited {
        assert TokenOf(Rotate(lane, Some(call))) == Some(call);
      }
    case RestartOpen => assert TokenOf(Restart(call)) == Some(call);
    case Stopping(Won) => assert TokenOf(Shutdown(call)) == Some(call);
    case _ =>
  }

  lemma HandOutAwaitsNothing(s: State, call: nat, h: HandOut)
    ensures call in GoHandOut(s, call, h).calls && !Awaits(GoHandOut(s, call, h).calls[call])
  {
    hide FindEndpoint;
  }

  lemma GoKeepsWaiters(s: State, call: nat)
    requires AllHeld(s) && call in s.calls && CanGo(s, s.calls[call])
    ensures AllHeld(GoCall(s, call))
  {
    GoMovesOnly(s, call);
    if !s.mgr.Gone? {
      GoAwaits(s, call);
    }
    var s' := GoCall(s, call);
    hide GoCall, ManagerToken, TokenOf;
    forall t <- s'.calls | !s'.mgr.Gone? && Awaits(s'.calls[t])
      ensures HoldsToken(s', t)
    {
      if t == call {
        assert TokenOf(s'.queue[|s.queue|]) == Some(call);
      } else if ManagerToken(s.mgr) != Some(t) {
        var k :| 0 <= k < |s.queue| && TokenOf(s.queue[k]) == Some(t);
        assert s'.queue[k] == s.queue[k];
      }
    }
  }

  /** Whatever the manager lets go of it has answered: nobody awaits it any more. */
  ghost predicate WorkAnswers(s: State, s': State) {
    && (s'.queue == s.queue || s'.mgr.Gone?)
    && (forall t <- s'.calls | Awaits(s'.calls[t]) :: t in s.calls && Awaits(s.calls[t]))
    && (ManagerToken(s'.mgr) == ManagerToken(s.mgr)
        || (ManagerToken(s.mgr).Some? && ManagerToken(s.mgr).value in s'.calls ==>
              !Awaits(s'.calls[ManagerToken(s.mgr).value])))
  }

  lemma WorkIsAnswering(s: State, env: Env)
    requires !s.mgr.Idle? && !s.mgr.Gone?
    ensures WorkAnswers(s, WorkStep(s, env))
  {
    hide WorkPublication, WorkRestart, WorkClose, WorkAnswers;
    match s.mgr
    case Publishing(p) => PublicationAnswers(s, p);
    case Restarting(waiter, phase) => RestartAnswers(s, waiter, phase, env);
    case Closing(closer, last) => CloseAnswers(s, closer, last, env);
  }

  lemma PublicationAnswers(s: State, p: Publication)
    requires s.mgr == Publishing(p)
    ensures WorkAnswers(s, WorkPublication(s, p))
  {
    hide ReadyLanes;
  }

  lemma RestartAnswers(s: State, waiter: nat, phase: RestartPhase, env: Env)
    requires s.mgr == Restarting(waiter, phase)
    ensures WorkAnswers(s, WorkRestart(s, waiter, phase, env))
  {
    hide RestartLane, WithState, Ids;
  }

  lemma CloseAnswers(s: State, closer: Option<nat>, last: ClosePhase, env: Env)
    requires s.mgr == Closing(closer, last)
    ensures WorkAnswers(s, WorkClose(s, closer, last, env))
  {
    hide ShutdownResult;
  }

  lemma TakeKeepsWaiters(s: State, s': State)
    requires AllHeld(s) && s'.calls == s.calls && s.mgr.Idle?
    requires || (s'.queue == s.queue && ManagerToken(s'.mgr) == None)
             || (s.queue != [] && s'.queue == s.queue[1..] && ManagerToken(s'.mgr) == TokenOf(s.queue[0]))
    ensures AllHeld(s')
  {
    hide TokenOf;
    forall t <- s'.calls | Awaits(s'.calls[t])
      ensures HoldsToken(s', t)
    {
      var k :| 0 <= k < |s.queue| && TokenOf(s.queue[k]) == Some(t);
      if s'.queue == s.queue {
        assert TokenOf(s'.queue[k]) == Some(t);
      } else if k > 0 {
        assert s'.queue[k - 1] == s.queue[k];
      }
    }
  }

  /**
   While the manager lives, the response channel of every call that waits for an answer is in the
   queue or in the manager's hands: no accepted rotate, restart or shutdown is ever forgotten.
   */
  lemma {:induction false} NobodyIsStranded(run: Run, k: nat)
    requires run.Valid() && k < |run.states|
    ensures AllHeld(run.states[k])
  {
    hide GoCall, WorkStep, TakeCommand, TakeTick, TokenOf;
    if k > 0 {
      NobodyIsStranded(run, k - 1);
      LastStep(run, k);
      var s, e := run.states[k - 1], run.events[k - 1];
      match e
      case Go(call) => GoKeepsWaiters(s, call);
      case Work(env) => WorkIsAnswering(s, env);
      case Receive(entropy) =>
        TakenToken(s, entropy);
        TakeKeepsWaiters(s, TakeCommand(s, entropy));
      case Tick(entropies) =>
        TickToken(s, entropies);
        TakeKeepsWaiters(s, TakeTick(s, entropies));
      case _ =>
    } else {
      FirstState(run);
    }
  }

  // ---- Answered at most once ----------------------------------------------------------------

  /** No response channel of `call` is left anywhere, and none will be made. */
  ghost predicate Spent(s: State, call: nat) {
    && call in s.calls && HasSent(s.calls[call])
    && ManagerToken(s.mgr) != Some(call)
    && forall k | 0 <= k < |s.queue| :: TokenOf(s.queue[k]) != Some(call)
  }

  lemma {:induction false} StaysSpent(run: Run, j: nat, k: nat, call: nat)
    requires run.Valid() && j <= k < |run.states| && Spent(run.states[j], call)
    ensures Spent(run.states[k], call)
    decreases k - j
  {
    hide Init, GoCall, WorkStep, TakeCommand, TakeTick;
    if j < k {
      StaysSpent(run, j, k - 1, call);
      LastStep(run, k);
      var s, e := run.states[k - 1], run.events[k - 1];
      match e
      case Go(t) =>
        GoMovesOnly(s, t);
        GoGains(s, t);
      case Work(env) => WorkToken(s, env);
      case Receive(entropy) => TakenToken(s, entropy);
      case Tick(entropies) => TickToken(s, entropies);
      case _ =>
    }
  }

  /** The manager is about to send `call` its answer: to a rotate or restart, or to the shutdown that ends it. */
  predicate Answers(m: Manager, call: nat) {
    || (m.Publishing? && m.publication.Replying? && m.publication.waiter == call)
    || (m.Closing? && m.last.LastReply? && m.closer == Some(call))
  }

  lemma AnsweringSpends(s: State, env: Env, call: nat)
    requires TokensOk(s) && Answers(s.mgr, call)
    ensures Spent(WorkStep(s, env), call)
  {
    assert SentBy(s.calls, ManagerToken(s.mgr));
    assert forall k | 0 <= k < |s.queue| :: TokenOf(s.queue[k]) != Some(call);
    var v := if s.mgr.Publishing? then s.mgr.publication.verdict else s.mgr.last.verdict;
    DeliverKeepsSent(s.calls, call, v);
  }

  /** The manager answers a waiting call at most once in a whole run, whatever the call asked for. */
  lemma AnsweredAtMostOnce(run: Run, j: nat, k: nat, call: nat)
    requires run.Valid() && j < k < |run.states| - 1
    requires Answers(run.states[j].mgr, call) && run.events[j].Work?
    ensures !Answers(run.states[k].mgr, call)
  {
    hide TokensOk;
    LastStep(run, j + 1);
    RunKeepsTokens(run, j);
    AnsweringSpends(run.states[j], run.events[j].env, call);
    StaysSpent(run, j + 1, k, call);
  }

  // ---- Where answers come from --------------------------------------------------------------

  /** The manager is sending `call` this verdict. */
  predicate Sends(m: Manager, call: nat, v: Verdict) {
    || m == Publishing(Replying(call, v))
    || m == Closing(Some(call), LastReply(v))
  }

  /** What a call that has waited may have returned. */
  ghost predicate AnsweredBy(run: Run, j: nat, k: nat, call: nat)
    requires run.Valid() && k < |run.states|
  {
    && call in run.states[k].calls
    && match run.states[k].calls[call]
       case Waiting => true
       case Done(Cancelled) => true
       case Done(Returned(v)) =>
         || (v == Err(Closed) && run.states[k].mgr.Gone?)
         || exists m | j <= m < k :: run.events[m].Work? && Sends(run.states[m].mgr, call, v)
       case _ => false
  }

  lemma WaitingStep(s: State, e: Event, call: nat)
    requires Enabled(s, e) && call in s.calls && s.calls[call] == Waiting
    ensures call in Step(s, e).calls
    ensures match Step(s, e).calls[call]
            case Waiting => true
            case Done(Cancelled) => true
            case Done(Returned(v)) =>
              (v == Err(Closed) && Step(s, e).mgr.Gone?) || (e.Work? && Sends(s.mgr, call, v))
            case _ => false
  {
    hide WorkStep, TakeCommand, TakeTick;
    match e
    case Go(t) => GoMovesOnly(s, t);
    case Receive(_) => TakeFrame(s, e);
    case Tick(_) => TakeFrame(s, e);
    case Work(env) => WorkAnswersWaiting(s, env, call);
    case _ =>
  }

  lemma WorkAnswersWaiting(s: State, env: Env, call: nat)
    requires !s.mgr.Idle? && !s.mgr.Gone? && call in s.calls && s.calls[call] == Waiting
    ensures call in WorkStep(s, env).calls
    ensures var c := WorkStep(s, env).calls[call];
      c == Waiting || (c.Done? && c.answer.Returned? && Sends(s.mgr, call, c.answer.verdict))
  {
    hide ReadyLanes, WorkRestart, ShutdownResult;
    if s.mgr.Restarting? {
      RestartLeavesCalls(s, s.mgr.waiter, s.mgr.phase, env);
    }
  }

  lemma RestartLeavesCalls(s: State, waiter: nat, phase: RestartPhase, env: Env)
    ensures WorkRestart(s, waiter, phase, env).calls == s.calls
  {
    hide RestartLane, WithState;
  }

  lemma FinishedStep(s: State, e: Event, call: nat)
    requires Enabled(s, e) && call in s.calls && s.calls[call].Done?
    ensures call in Step(s, e).calls && Step(s, e).calls[call] == s.calls[call]
    ensures s.mgr.Gone? ==> Step(s, e).mgr.Gone?
  {
    hide WorkStep, TakeCommand, TakeTick, GoCall;
    match e
    case Go(t) => GoMovesOnly(s, t);
    case Receive(_) => TakeFrame(s, e);
    case Tick(_) => TakeFrame(s, e);
    case Work(env) => WorkLeavesFinished(s, env, call);
    case _ =>
  }

  lemma WorkLeavesFinished(s: State, env: Env, call: nat)
    requires !s.mgr.Idle? && !s.mgr.Gone? && call in s.calls && s.calls[call].Done?
    ensures call in WorkStep(s, env).calls && WorkStep(s, env).calls[call] == s.calls[call]
  {
    hide ReadyLanes, RestartLane, WithState, ShutdownResult;
  }

  /**
   A rotate or restart that has waited returns what the manager sent to it, or Closed once the
   manager is gone, and nothing else.
   */
  lemma {:induction false} AnswersAreTheManagers(run: Run, j: nat, k: nat, call: nat)
    requires run.Valid() && j <= k < |run.states|
    requires call in run.states[j].calls && run.states[j].calls[call] == Waiting
    ensures AnsweredBy(run, j, k, call)
    decreases k - j
  {
    hide Init, Step, Enabled, Sends;
    if j < k {
      AnswersAreTheManagers(run, j, k - 1, call);
      LastStep(run, k);
      var s, e := run.states[k - 1], run.events[k - 1];
      if s.calls[call].Done? {
        FinishedStep(s, e, call);
      } else {
        WaitingStep(s, e, call);
      }
    }
  }
}
