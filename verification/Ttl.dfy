/** Time-to-live rotation on a run's clock, in nanoseconds (src/pool/manager.rs:307-309, 380-396, 473-476). */
module Ttl {
  import opened Wrappers
  import opened Lanes
  import opened PoolCore
  import opened Protocol
  import opened Ledger
  import opened Shape

  const MILLISECOND: nat := 1_000_000
  const SECOND: nat := 1_000_000_000

  function Clamp(x: nat, low: nat, high: nat): nat
    requires low <= high
  {
    if x < low then low else if x > high then high else x
  }

  function TickPeriod(ttl: Option<nat>): nat {
    match ttl
    case None => 24 * 60 * 60 * SECOND
    case Some(d) => Clamp(d / 4, 5 * MILLISECOND, SECOND)
  }

  /** At most a second, and at most a quarter of the time-to-live exactly from 20 ms up. */
  lemma TickPeriodBounds(ttl: nat)
    ensures 5_000_000 <= TickPeriod(Some(ttl)) <= 1_000_000_000
    ensures 4 * TickPeriod(Some(ttl)) <= ttl <==> ttl >= 20_000_000
    ensures 20_000_000 <= ttl < 4_000_000_000 ==>
              4 * TickPeriod(Some(ttl)) <= ttl < 4 * TickPeriod(Some(ttl)) + 4
    ensures ttl >= 4_000_000_000 ==> TickPeriod(Some(ttl)) == 1_000_000_000
    ensures TickPeriod(None) == 86_400_000_000_000
  {
  }

  /** No Ready lane was as old as `ttl` at time `since`. */
  ghost predicate YoungAt(s: State, ttl: nat, since: nat) {
    forall i | 0 <= i < |s.core.lanes| && s.core.lanes[i].state == Ready :: since < s.core.lanes[i].createdAt + ttl
  }

  /** A step keeps a lane's age or makes it new. */
  ghost predicate Renewed(l: LaneData, l': LaneData, now: nat) {
    l'.state == Ready ==> l'.createdAt == now || (l'.createdAt == l.createdAt && l.state == Ready)
  }

  ghost predicate AllRenewed(c: Core, c': Core, now: nat) {
    |c'.lanes| == |c.lanes| && forall i | 0 <= i < |c.lanes| :: Renewed(c.lanes[i], c'.lanes[i], now)
  }

  lemma RestartRenews(s: State, waiter: nat, phase: RestartPhase, env: Env)
    ensures AllRenewed(s.core, WorkRestart(s, waiter, phase, env).core, s.now)
    ensures WorkRestart(s, waiter, phase, env).now == s.now
  {
    hide RestartLane;
    if phase.MovingLanes? && phase.next < |s.core.lanes| {
      MoveRenews(s.core, phase.next, env.entropy, s.now);
    }
  }

  lemma MoveRenews(c: Core, next: nat, entropy: Entropy, now: nat)
    requires next < |c.lanes|
    ensures AllRenewed(c, RestartLane(c, next, entropy, now), now)
  {
  }

  lemma TakenRenews(s: State, entropy: Entropy)
    requires s.queue != []
    ensures AllRenewed(s.core, TakeCommand(s, entropy).core, s.now)
    ensures TakeCommand(s, entropy).now == s.now
  {
    hide RotateResult, ReplyTo, Finish, AssignRotates;
    match s.queue[0]
    case Assign(lane, epoch) => AssignRenews(s.core, s.config.limit, lane, epoch, entropy, s.now);
    case Rotate(lane, _) => RotateRenews(s.core, lane, entropy, s.now);
    case _ =>
  }

  lemma AssignRenews(c: Core, limit: Option<nat>, lane: nat, epoch: nat, entropy: Entropy, now: nat)
    ensures AllRenewed(c, c.(lanes := AssignLanes(c, limit, lane, epoch, entropy, now)), now)
  {
  }

  lemma RotateRenews(c: Core, lane: nat, entropy: Entropy, now: nat)
    ensures AllRenewed(c, c.(lanes := RotateLanes(c, lane, entropy, now)), now)
  {
  }

  lemma StepRenews(s: State, e: Event)
    requires Enabled(s, e)
    ensures AllRenewed(s.core, Step(s, e).core, s.now)
    ensures s.now <= Step(s, e).now
  {
    hide WorkRestart, TakeCommand;
    match e
    case Go(call) => GoMovesOnly(s, call); GoKeepsTime(s, call);
    case Receive(entropy) => TakenRenews(s, entropy);
    case Work(env) => if s.mgr.Restarting? { RestartRenews(s, s.mgr.waiter, s.mgr.phase, env); }
    case _ =>
  }

  lemma GoKeepsTime(s: State, call: nat)
    requires call in s.calls && CanGo(s, s.calls[call])
    ensures GoCall(s, call).now == s.now
  {
    hide Select.FindEndpoint, Select.Without, Chosen;
  }

  /** A tick rotates exactly the Ready lanes that have reached the time-to-live, and no younger one. */
  lemma TickRotatesExpired(s: State, entropies: seq<Entropy>, ttl: nat, i: nat)
    requires Enabled(s, Tick(entropies)) && s.config.ttl == Some(ttl) && i < |s.core.lanes| && ttl > 0
    ensures var (l, l') := (s.core.lanes[i], Step(s, Tick(entropies)).core.lanes[i]);
      && (l.state == Ready && s.now >= l.createdAt + ttl ==> l' != l && (l'.state == Ready ==> l'.createdAt == s.now))
      && (!(l.state == Ready && s.now >= l.createdAt + ttl) ==> l' == l)
    ensures YoungAt(Step(s, Tick(entropies)), ttl, s.now)
  {
  }

  lemma {:induction false} StaysYoung(run: Run, j: nat, k: nat, ttl: nat, since: nat)
    requires run.Valid() && j <= k < |run.states| && ttl > 0
    requires YoungAt(run.states[j], ttl, since) && since <= run.states[j].now
    ensures YoungAt(run.states[k], ttl, since) && since <= run.states[k].now
    decreases k - j
  {
    hide Step, Init;
    if j < k {
      StaysYoung(run, j, k - 1, ttl, since);
      LastStep(run, k);
      StepRenews(run.states[k - 1], run.events[k - 1]);
      var (c, c') := (run.states[k - 1].core, run.states[k].core);
      forall i | 0 <= i < |c'.lanes| && c'.lanes[i].state == Ready
        ensures since < c'.lanes[i].createdAt + ttl
      {
        assert Renewed(c.lanes[i], c'.lanes[i], run.states[k - 1].now);
      }
    }
  }

  /** The pool was just built, or a tick was just handled. */
  ghost predicate AfterTick(run: Run, j: nat) {
    run.Valid() && j < |run.states| && (j == 0 || run.events[j - 1].Tick?)
  }

  /**
   The age bound: if the pool was built or its latest tick handled at most `period` ago, no Ready
   lane is as old as the time-to-live plus the period.
   */
  lemma AgeBound(run: Run, j: nat, k: nat, i: nat, ttl: nat, period: nat)
    requires AfterTick(run, j) && j <= k < |run.states|
    requires run.states[0].config.ttl == Some(ttl) && ttl > 0
    requires run.states[k].now <= run.states[j].now + period
    requires i < |run.states[k].core.lanes| && run.states[k].core.lanes[i].state == Ready
    ensures run.states[k].now < run.states[k].core.lanes[i].createdAt + ttl + period
  {
    if j > 0 {
      LastStep(run, j);
      SameConfig(run, j - 1);
      TickYoung(run.states[j - 1], run.events[j - 1].entropies, ttl);
    } else {
      FirstState(run);
      FreshIsYoung(run.states[0], ttl);
    }
    StaysYoung(run, j, k, ttl, run.states[j].now);
  }

  lemma FreshIsYoung(s: State, ttl: nat)
    requires Init(s) && ttl > 0
    ensures YoungAt(s, ttl, s.now)
  {
    InitIsShaped(s);
    forall i | 0 <= i < |s.core.lanes|
      ensures s.now < s.core.lanes[i].createdAt + ttl
    {
      var bytes :| NewLane(i, s.core.runtime, Some(bytes), s.now) == Ok(s.core.lanes[i]);
    }
  }

  lemma {:induction false} SameConfig(run: Run, k: nat)
    requires run.Valid() && k < |run.states|
    ensures run.states[k].config == run.states[0].config
  {
    hide Step, Init;
    if k > 0 {
      SameConfig(run, k - 1);
      LastStep(run, k);
      StepKeepsConfig(run.states[k - 1], run.events[k - 1]);
    }
  }

  lemma TickYoung(s: State, entropies: seq<Entropy>, ttl: nat)
    requires Enabled(s, Tick(entropies)) && s.config.ttl == Some(ttl) && ttl > 0
    ensures YoungAt(Step(s, Tick(entropies)), ttl, s.now) && Step(s, Tick(entropies)).now == s.now
  {
    if |s.core.lanes| > 0 {
      TickRotatesExpired(s, entropies, ttl, 0);
    }
  }
}
