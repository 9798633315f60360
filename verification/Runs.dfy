/** What holds of whole runs of the pool: epochs, credentials and where endpoints come from. */
module Runs {
  import opened Wrappers
  import opened Lanes
  import opened Select
  import opened PoolCore
  import opened Protocol
  import opened Shape
  import Hex

  /** Epochs never fall, restarts included, and an endpoint is fixed by its lane and epoch. */
  lemma {:induction false} EpochsNeverFall(run: Run, j: nat, k: nat, lane: nat)
    requires run.Valid() && j <= k < |run.states| && lane < |run.states[j].core.lanes|
    ensures lane < |run.states[k].core.lanes|
    ensures run.states[j].core.lanes[lane].epoch <= run.states[k].core.lanes[lane].epoch
    ensures run.states[j].core.lanes[lane].epoch == run.states[k].core.lanes[lane].epoch ==>
              run.states[j].core.lanes[lane].endpoint == run.states[k].core.lanes[lane].endpoint
    decreases k - j
  {
    if j < k {
      EpochsNeverFall(run, j, k - 1, lane);
      LastStep(run, k);
      StepAdvancesLanes(run.states[k - 1], run.events[k - 1]);
      assert LaneAdvances(run.states[k - 1].core.lanes[lane], run.states[k].core.lanes[lane],
                          run.states[k].core.runtime);
    }
  }

  // ---- Endpoints only ever come from lanes --------------------------------------------------

  ghost predicate From(snapshot: seq<Endpoint>, source: iset<Endpoint>) {
    forall e <- snapshot :: e in source
  }

  ghost predicate CallFrom(c: Call, source: iset<Endpoint>) {
    match c
    case Choosing(Holding(_, snapshot)) => From(snapshot, source)
    case Choosing(HandingOut(e)) => e in source
    case Rotating(Looked(_, snapshot, _)) => From(snapshot, source)
    case Rotating(Inserted(_, snapshot, _)) => From(snapshot, source)
    case Done(Given(e)) => e in source
    case _ => true
  }

  /** Every endpoint published, about to be published, held by a call or handed out. */
  ghost predicate HeldFrom(s: State, source: iset<Endpoint>) {
    && From(s.core.ready, source)
    && (s.mgr.Publishing? && s.mgr.publication.Storing? ==> From(s.mgr.publication.snapshot, source))
    && forall t <- s.calls :: CallFrom(s.calls[t], source)
  }

  ghost predicate LanesFrom(lanes: seq<LaneData>, source: iset<Endpoint>) {
    forall i | 0 <= i < |lanes| :: lanes[i].endpoint in source
  }

  lemma HandOutKeepsHeld(s: State, call: nat, h: HandOut, source: iset<Endpoint>)
    requires HeldFrom(s, source) && CallFrom(Choosing(h), source)
    ensures HeldFrom(GoHandOut(s, call, h), source)
  {
    if h.Holding? && h.pick.Next? && h.snapshot != [] {
      assert h.snapshot[s.cursor % |h.snapshot|] in h.snapshot;
    }
  }

  lemma RotationKeepsHeld(s: State, call: nat, r: Rotation, source: iset<Endpoint>)
    requires HeldFrom(s, source) && CallFrom(Rotating(r), source)
    ensures HeldFrom(GoRotation(s, call, r), source)
  {
  }

  lemma StopKeepsHeld(s: State, call: nat, p: Stop, source: iset<Endpoint>)
    requires HeldFrom(s, source)
    ensures HeldFrom(GoStop(s, call, p), source)
  {
  }

  lemma GoKeepsHeld(s: State, call: nat, source: iset<Endpoint>)
    requires HeldFrom(s, source) && call in s.calls && CanGo(s, s.calls[call])
    ensures HeldFrom(GoCall(s, call), source)
  {
    hide GoHandOut, GoRotation, GoStop;
    assert CallFrom(s.calls[call], source);
    match s.calls[call]
    case Choosing(h) => HandOutKeepsHeld(s, call, h, source);
    case Rotating(r) => RotationKeepsHeld(s, call, r, source);
    case Stopping(p) => StopKeepsHeld(s, call, p, source);
    case _ =>
  }

  lemma PublicationKeepsHeld(s: State, p: Publication, source: iset<Endpoint>)
    requires WellFormed(s.core.lanes) && HeldFrom(s, source) && s.mgr == Publishing(p)
    requires LanesFrom(s.core.lanes, source)
    ensures HeldFrom(WorkPublication(s, p), source)
  {
    if p.Computing? {
      ReadyLanesMembers(s.core.lanes, s.core.unavailable);
    }
  }

  lemma RestartKeepsHeld(s: State, waiter: nat, phase: RestartPhase, env: Env, source: iset<Endpoint>)
    requires HeldFrom(s, source) && s.mgr == Restarting(waiter, phase)
    ensures HeldFrom(WorkRestart(s, waiter, phase, env), source)
  {
  }

  lemma CloseKeepsHeld(s: State, closer: Option<nat>, last: ClosePhase, env: Env, source: iset<Endpoint>)
    requires HeldFrom(s, source) && s.mgr == Closing(closer, last)
    ensures HeldFrom(WorkClose(s, closer, last, env), source)
  {
  }

  lemma WorkKeepsHeld(s: State, env: Env, source: iset<Endpoint>)
    requires WellFormed(s.core.lanes) && HeldFrom(s, source) && !s.mgr.Idle? && !s.mgr.Gone?
    requires LanesFrom(s.core.lanes, source)
    ensures HeldFrom(WorkStep(s, env), source)
  {
    hide WorkPublication, WorkRestart, WorkClose;
    match s.mgr
    case Publishing(p) => PublicationKeepsHeld(s, p, source);
    case Restarting(waiter, phase) => RestartKeepsHeld(s, waiter, phase, env, source);
    case Closing(closer, last) => CloseKeepsHeld(s, closer, last, env, source);
  }

  lemma TakeKeepsHeld(s: State, e: Event, source: iset<Endpoint>)
    requires HeldFrom(s, source) && Enabled(s, e) && (e.Receive? || e.Tick?)
    ensures HeldFrom(Step(s, e), source)
  {
    hide AssignLanes, RotateLanes, ExpireLanes, AssignRotates, RotateResult;
  }

  /** No step makes an endpoint up: what it holds afterwards was held before or is a lane's own. */
  lemma StepKeepsHeld(s: State, e: Event, source: iset<Endpoint>)
    requires Shaped(s) && HeldFrom(s, source) && Enabled(s, e)
    requires LanesFrom(s.core.lanes, source)
    ensures HeldFrom(Step(s, e), source)
  {
    hide GoCall, WorkStep, TakeCommand, TakeTick;
    match e
    case Go(call) => GoKeepsHeld(s, call, source);
    case Work(env) => WorkKeepsHeld(s, env, source);
    case Receive(_) => TakeKeepsHeld(s, e, source);
    case Tick(_) => TakeKeepsHeld(s, e, source);
    case _ =>
  }

  /** `e` was the endpoint of its lane at some state of the run up to `k`. */
  ghost predicate WasReal(run: Run, k: nat, e: Endpoint)
    requires k < |run.states|
  {
    exists j | 0 <= j <= k :: e.lane < |run.states[j].core.lanes| && run.states[j].core.lanes[e.lane].endpoint == e
  }

  ghost function RealEndpoints(run: Run, k: nat): iset<Endpoint>
    requires k < |run.states|
  {
    iset e: Endpoint | WasReal(run, k, e)
  }

  lemma LanesAreReal(run: Run, k: nat)
    requires run.Valid() && k < |run.states|
    ensures LanesFrom(run.states[k].core.lanes, RealEndpoints(run, k))
  {
    RunIsShaped(run, k);
    var lanes := run.states[k].core.lanes;
    forall i | 0 <= i < |lanes|
      ensures lanes[i].endpoint in RealEndpoints(run, k)
    {
      assert lanes[i].endpoint.lane == i;
    }
  }

  lemma {:induction false} RunHoldsRealEndpoints(run: Run, k: nat)
    requires run.Valid() && k < |run.states|
    ensures HeldFrom(run.states[k], RealEndpoints(run, k))
  {
    RunIsShaped(run, k);
    if k == 0 {
      FirstState(run);
      ReadyLanesMembers(run.states[0].core.lanes, {});
      LanesAreReal(run, 0);
    } else {
      RunIsShaped(run, k - 1);
      RunHoldsRealEndpoints(run, k - 1);
      LanesAreReal(run, k - 1);
      LastStep(run, k);
      StepKeepsHeld(run.states[k - 1], run.events[k - 1], RealEndpoints(run, k - 1));
    }
  }

  /**
   The shape of every published snapshot, under all interleavings: strictly increasing lanes,
   and each element was its lane's endpoint at some earlier state, of an epoch no later than now.
   */
  lemma SnapshotShape(run: Run, k: nat)
    requires run.Valid() && k < |run.states|
    ensures StrictlyIncreasing(run.states[k].core.ready)
    ensures forall e <- run.states[k].core.ready ::
              && WasReal(run, k, e)
              && e.lane < |run.states[k].core.lanes| && e.epoch <= run.states[k].core.lanes[e.lane].epoch
  {
    RunIsShaped(run, k);
    RunHoldsRealEndpoints(run, k);
  }

  // ---- Credentials are never reused ---------------------------------------------------------

  /** Two endpoints that were real at some time and share a username are one and the same. */
  lemma RealEndpointsDiffer(run: Run, j: nat, k: nat, e: Endpoint, e': Endpoint)
    requires run.Valid() && j <= k < |run.states|
    requires e.lane < |run.states[j].core.lanes| && run.states[j].core.lanes[e.lane].endpoint == e
    requires e'.lane < |run.states[k].core.lanes| && run.states[k].core.lanes[e'.lane].endpoint == e'
    requires e.auth.username == e'.auth.username
    ensures e == e'
  {
    RunIsShaped(run, j);
    RunIsShaped(run, k);
    UsernameInjective(e.lane, e.epoch, e'.lane, e'.epoch);
    EpochsNeverFall(run, j, k, e.lane);
  }

  /** An endpoint somebody can see: published now, or already given to a caller. */
  ghost predicate Visible(s: State, e: Endpoint) {
    e in s.core.ready || exists t <- s.calls :: s.calls[t] == Done(Given(e))
  }

  lemma VisibleIsReal(run: Run, k: nat, e: Endpoint)
    requires run.Valid() && k < |run.states| && Visible(run.states[k], e)
    ensures WasReal(run, k, e)
  {
    RunHoldsRealEndpoints(run, k);
    if e !in run.states[k].core.ready {
      var t :| t in run.states[k].calls && run.states[k].calls[t] == Done(Given(e));
      assert CallFrom(run.states[k].calls[t], RealEndpoints(run, k));
    }
  }

  /**
   Credential freshness: no two distinct endpoints ever visible in a run share a username,
   whatever the random source yields.
   */
  lemma CredentialsNeverReused(run: Run, j: nat, k: nat, e: Endpoint, e': Endpoint)
    requires run.Valid() && j < |run.states| && k < |run.states|
    requires Visible(run.states[j], e) && Visible(run.states[k], e')
    requires e.auth.username == e'.auth.username
    ensures e == e'
  {
    VisibleIsReal(run, j, e);
    VisibleIsReal(run, k, e');
    var i :| 0 <= i <= j && e.lane < |run.states[i].core.lanes| && run.states[i].core.lanes[e.lane].endpoint == e;
    var i' :|
      0 <= i' <= k && e'.lane < |run.states[i'].core.lanes| && run.states[i'].core.lanes[e'.lane].endpoint == e';
    if i <= i' {
      RealEndpointsDiffer(run, i, i', e, e');
    } else {
      RealEndpointsDiffer(run, i', i, e', e);
    }
  }

  // ---- Sticky selection ---------------------------------------------------------------------

  /** Where a call for a key may stand: it only ever gives the hashed lane or fails. */
  predicate Sticks(c: Call, lane: nat) {
    match c
    case Choosing(Selecting(pick)) => pick == Key(lane)
    case Choosing(Holding(pick, _)) => pick == Key(lane)
    case Choosing(HandingOut(e)) => e.lane == lane
    case Done(Given(e)) => e.lane == lane
    case Done(Returned(Err(e))) => e == Closed || e == LaneUnavailable(lane)
    case _ => false
  }

  /** The manager moves only calls that wait for it. */
  lemma WorkLeavesCall(s: State, env: Env, call: nat)
    requires !s.mgr.Idle? && !s.mgr.Gone? && call in s.calls && !Waits(s.calls[call])
    ensures call in WorkStep(s, env).calls && WorkStep(s, env).calls[call] == s.calls[call]
  {
    hide ReadyLanes, RestartLane, WithState;
  }

  lemma GoSticks(s: State, call: nat, lane: nat)
    requires call in s.calls && CanGo(s, s.calls[call]) && Sticks(s.calls[call], lane)
    ensures call in GoCall(s, call).calls && Sticks(GoCall(s, call).calls[call], lane)
  {
    hide GoRotation, GoStop, FindEndpoint;
  }

  lemma SticksWaitsNot(c: Call, lane: nat)
    requires Sticks(c, lane)
    ensures !Waits(c)
  {
  }

  /** `for_key` never gives another lane: the answer is the hashed lane's endpoint or an error naming it. */
  lemma {:induction false} ForKeySticks(run: Run, j: nat, k: nat, call: nat, key: seq<Hex.byte>)
    requires run.Valid() && j < k < |run.states| && run.events[j] == Start(call, AskKey(key))
    ensures call in run.states[k].calls && run.states[j].config.lanes > 0
    ensures Sticks(run.states[k].calls[call], StableLaneIndex(key, run.states[j].config.lanes))
    decreases k - j
  {
    hide Run.Valid, Init, StableLaneIndex, GoCall, TakeCommand, TakeTick, WorkStep;
    LastStep(run, k);
    if k > j + 1 {
      hide Sticks;
      ForKeySticks(run, j, k - 1, call, key);
      var s, e := run.states[k - 1], run.events[k - 1];
      var lane := StableLaneIndex(key, run.states[j].config.lanes);
      SticksWaitsNot(s.calls[call], lane);
      match e
      case Go(t) =>
        GoMovesOnly(s, t);
        if t == call {
          GoSticks(s, call, lane);
        }
      case Receive(_) => TakeFrame(s, e);
      case Tick(_) => TakeFrame(s, e);
      case Work(env) => WorkLeavesCall(s, env, call);
      case _ =>
    }
  }
}
