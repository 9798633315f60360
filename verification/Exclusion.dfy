/**
 What the documentation says of a rotating lane, proved of every run, at the grain of single shared
 accesses, in which rotations keep out of each other's way and of the manager's publications. None
 of the conditions can be dropped: Limits has a run against each.
 */
module Exclusion {
  import opened Wrappers
  import opened Lanes
  import opened Select
  import opened PoolCore
  import opened Protocol
  import opened Shape
  import opened Agreement
  import opened FailedLanes
  import opened Awaited

  // ---- Runs in which rotations do not disturb each other ------------------------------------

  /** A rotating call between its successful look at the snapshot and its send. */
  predicate InWindow(c: Call) {
    c.Rotating? && (c.rotation.Looked? || c.rotation.Inserted? || c.rotation.Overwritten?)
  }

  /** A rotating call whose lane is marked and still published. */
  predicate Inserting(c: Call) {
    c.Rotating? && c.rotation.Inserted?
  }

  ghost predicate OthersOut(calls: map<nat, Call>, call: nat) {
    forall t <- calls | t != call :: !InWindow(calls[t])
  }

  /**
   No call marks its lane while another one is between its look and its send, or while the manager
   is between computing a snapshot and storing it; and no call looks while another one has marked
   its lane and not hidden it yet.
   */
  ghost predicate Serial(s: State, e: Event) {
    e.Go? && e.call in s.calls && s.calls[e.call].Rotating? ==>
      match s.calls[e.call].rotation
      case Looked(_, _, _) => OthersOut(s.calls, e.call) && !IsStoring(s.mgr)
      case Checked(lane, _) =>
        FindEndpoint(s.core.ready, lane).Some? ==> forall t <- s.calls :: !Inserting(s.calls[t])
      case _ => true
  }

  /** A run up to state `k` of serial steps and without a restart. */
  ghost predicate SerialRun(run: Run, k: nat) {
    && run.Valid() && k < |run.states|
    && (forall m | 0 <= m < k :: Serial(run.states[m], run.events[m]))
    && (forall m | 0 <= m <= k :: !run.states[m].mgr.Restarting?)
  }

  /** The lane whose queued rotation this step finds to fail. */
  function FailedRotation(s: State, e: Event): set<nat> {
    if e.Receive? && s.queue != [] && s.queue[0].Rotate?
       && RotateResult(s.core.lanes, s.queue[0].lane, e.entropy) == Err(Internal)
    then {s.queue[0].lane} else {}
  }

  /** Every lane whose queued rotation has failed so far. */
  ghost function ManualFailures(run: Run, k: nat): set<nat>
    requires run.Valid() && k < |run.states|
  {
    if k == 0 then {}
    else ManualFailures(run, k - 1) + FailedRotation(run.states[k - 1], run.events[k - 1])
  }

  // ---- The invariant ------------------------------------------------------------------------

  predicate IsRemoving(m: Manager, lane: nat) {
    m.Publishing? && m.publication.Removing? && m.publication.lane == lane
  }

  ghost predicate AtMostOneRotate(queue: seq<Command>) {
    forall j, k | 0 <= j < k < |queue| && queue[j].Rotate? && queue[k].Rotate? :: queue[j].lane != queue[k].lane
  }

  ghost predicate Clear(snapshot: seq<Endpoint>, unavailable: set<nat>) {
    forall e <- snapshot :: e.lane !in unavailable
  }

  /** Of two calls in their windows neither has marked its lane, or one has hidden it and the other only looked. */
  ghost predicate WindowsApart(calls: map<nat, Call>) {
    forall t <- calls, t' <- calls | t != t' && Owes(calls[t]) && InWindow(calls[t']) ::
      calls[t].rotation.Overwritten? && calls[t'].rotation.Looked?
  }

  ghost predicate HeldClear(calls: map<nat, Call>, unavailable: set<nat>) {
    forall t <- calls | calls[t].Rotating? ::
      match calls[t].rotation
      case Looked(lane, snapshot, _) => FindEndpoint(snapshot, lane).Some? && Clear(snapshot, unavailable)
      case Inserted(lane, snapshot, _) => Clear(snapshot, unavailable - {lane})
      case _ => true
  }

  ghost predicate StoringClear(m: Manager, unavailable: set<nat>) {
    IsStoring(m) ==> Clear(m.publication.snapshot, unavailable)
  }

  ghost predicate InsertsLane(calls: map<nat, Call>, lane: nat) {
    exists t <- calls :: Inserting(calls[t]) && calls[t].rotation.lane == lane
  }

  /** A published lane is hidden only in the moment between the insert and the overwrite. */
  ghost predicate ReadyClear(s: State) {
    forall e <- s.core.ready | e.lane in s.core.unavailable :: InsertsLane(s.calls, e.lane)
  }

  ghost predicate Reason(s: State, failed: set<nat>, lane: nat) {
    CallOwes(s, lane) || RotateQueued(s, lane) || IsRemoving(s.mgr, lane) || lane in failed
  }

  /** A lane is unavailable for exactly one reason. */
  ghost predicate OneReason(s: State, failed: set<nat>) {
    && (forall lane: nat :: lane in s.core.unavailable <==> Reason(s, failed, lane))
    && (forall lane: nat | RotateQueued(s, lane) ::
          !CallOwes(s, lane) && !IsRemoving(s.mgr, lane) && lane !in failed)
    && (forall lane: nat | CallOwes(s, lane) :: !IsRemoving(s.mgr, lane) && lane !in failed)
    && (forall lane <- failed :: !IsRemoving(s.mgr, lane))
  }

  ghost predicate FailedOk(lanes: seq<LaneData>, failed: set<nat>) {
    forall lane <- failed :: lane < |lanes| && lanes[lane].state == Failed
  }

  ghost predicate Exclusive(s: State, failed: set<nat>) {
    && WindowsApart(s.calls) && HeldClear(s.calls, s.core.unavailable)
    && StoringClear(s.mgr, s.core.unavailable) && ReadyClear(s)
    && AtMostOneRotate(s.queue) && OneReason(s, failed) && FailedOk(s.core.lanes, failed)
  }

  // ---- Steps of a rotating call -------------------------------------------------------------

  lemma LookKeeps(s: State, failed: set<nat>, call: nat, lane: nat, awaited: bool)
    requires Exclusive(s, failed) && call in s.calls && s.calls[call] == Rotating(Checked(lane, awaited))
    requires FindEndpoint(s.core.ready, lane).Some? && forall t <- s.calls :: !Inserting(s.calls[t])
    ensures Exclusive(At(s, call, Rotating(Looked(lane, s.core.ready, awaited))), failed)
  {
    var s' := At(s, call, Rotating(Looked(lane, s.core.ready, awaited)));
    SameOwing(s, s', call);
  }

  /** A step of one call that neither owes before nor after leaves every reason as it was. */
  lemma SameOwing(s: State, s': State, call: nat)
    requires call in s'.calls && s'.calls == s.calls[call := s'.calls[call]] && s'.queue == s.queue
    requires call in s.calls ==> (Owes(s.calls[call]) <==> Owes(s'.calls[call]))
    requires call in s.calls && Owes(s.calls[call]) ==> s.calls[call].rotation.lane == s'.calls[call].rotation.lane
    requires call !in s.calls ==> !Owes(s'.calls[call])
    ensures forall lane :: CallOwes(s, lane) <==> CallOwes(s', lane)
    ensures forall lane :: RotateQueued(s, lane) <==> RotateQueued(s', lane)
  {
    forall lane
      ensures CallOwes(s, lane) <==> CallOwes(s', lane)
    {
      if CallOwes(s, lane) {
        var t :| t in s.calls && OwesLane(s.calls[t], lane);
        assert t in s'.calls && OwesLane(s'.calls[t], lane);
      }
      if CallOwes(s', lane) {
        var t :| t in s'.calls && OwesLane(s'.calls[t], lane);
        assert t in s.calls && OwesLane(s.calls[t], lane);
      }
    }
  }

  lemma InsertKeeps(s: State, failed: set<nat>, call: nat, lane: nat, snapshot: seq<Endpoint>, awaited: bool)
    requires Exclusive(s, failed) && call in s.calls && s.calls[call] == Rotating(Looked(lane, snapshot, awaited))
    requires OthersOut(s.calls, call) && !IsStoring(s.mgr)
    ensures Exclusive(GoRotation(s, call, s.calls[call].rotation), failed)
  {
    var s' := GoRotation(s, call, s.calls[call].rotation);
    assert lane !in s.core.unavailable;
    assert s'.core.unavailable - {lane} == s.core.unavailable;
    assert Inserting(s'.calls[call]) && OwesLane(s'.calls[call], lane);
    forall l: nat
      ensures CallOwes(s', l) <==> l == lane
      ensures !CallOwes(s, l)
      ensures RotateQueued(s', l) <==> RotateQueued(s, l)
    {
    }
    assert InsertsLane(s'.calls, lane);
    assert forall l :: !InsertsLane(s.calls, l);
  }

  lemma OverwriteKeeps(s: State, failed: set<nat>, call: nat, lane: nat, snapshot: seq<Endpoint>, awaited: bool)
    requires Exclusive(s, failed) && call in s.calls && s.calls[call] == Rotating(Inserted(lane, snapshot, awaited))
    ensures Exclusive(GoRotation(s, call, s.calls[call].rotation), failed)
  {
    var s' := GoRotation(s, call, s.calls[call].rotation);
    SameOwing(s, s', call);
  }

  lemma SendKeeps(s: State, failed: set<nat>, call: nat, lane: nat, awaited: bool)
    requires Exclusive(s, failed) && call in s.calls && s.calls[call] == Rotating(Overwritten(lane, awaited))
    requires !s.mgr.Gone?
    ensures Exclusive(GoRotation(s, call, s.calls[call].rotation), failed)
  {
    var s' := GoRotation(s, call, s.calls[call].rotation);
    var n := |s.queue|;
    assert s'.queue[n].Rotate? && s'.queue[n].lane == lane;
    assert OwesLane(s.calls[call], lane);
    forall l: nat
      ensures CallOwes(s, l) <==> l == lane
      ensures !CallOwes(s', l)
      ensures RotateQueued(s', l) <==> RotateQueued(s, l) || l == lane
    {
      if RotateQueued(s, l) {
        var k :| 0 <= k < n && s.queue[k].Rotate? && s.queue[k].lane == l;
        assert s'.queue[k] == s.queue[k];
      }
    }
    assert !RotateQueued(s, lane);
    assert forall l :: !InsertsLane(s.calls, l);
  }

  // ---- Steps that leave the windows alone ---------------------------------------------------

  /** The calls in their windows are the same ones, at the same points. */
  ghost predicate SameWindows(calls: map<nat, Call>, calls': map<nat, Call>) {
    && (forall t <- calls | InWindow(calls[t]) :: t in calls' && calls'[t] == calls[t])
    && (forall t <- calls' | InWindow(calls'[t]) :: t in calls && calls[t] == calls'[t])
  }

  lemma QuietKeeps(s: State, s': State, failed: set<nat>)
    requires Exclusive(s, failed) && SameWindows(s.calls, s'.calls) && s'.core.unavailable == s.core.unavailable
    requires AtMostOneRotate(s'.queue) && forall lane: nat :: RotateQueued(s, lane) <==> RotateQueued(s', lane)
    requires forall lane: nat :: IsRemoving(s'.mgr, lane) <==> IsRemoving(s.mgr, lane)
    requires StoringClear(s'.mgr, s.core.unavailable) && FailedOk(s'.core.lanes, failed)
    requires s'.core.ready == s.core.ready || Clear(s'.core.ready, s.core.unavailable)
    requires forall t <- s'.calls | s'.calls[t].Rotating? && s'.calls[t].rotation.Looked? :: InWindow(s'.calls[t])
    ensures Exclusive(s', failed)
  {
    forall lane: nat
      ensures CallOwes(s, lane) <==> CallOwes(s', lane)
    {
      if CallOwes(s, lane) {
        var t :| t in s.calls && OwesLane(s.calls[t], lane);
        assert t in s'.calls && OwesLane(s'.calls[t], lane);
      }
      if CallOwes(s', lane) {
        var t :| t in s'.calls && OwesLane(s'.calls[t], lane);
        assert t in s.calls && OwesLane(s.calls[t], lane);
      }
    }
    forall e <- s'.core.ready | e.lane in s'.core.unavailable
      ensures InsertsLane(s'.calls, e.lane)
    {
      var t :| t in s.calls && Inserting(s.calls[t]) && s.calls[t].rotation.lane == e.lane;
      assert t in s'.calls && Inserting(s'.calls[t]);
    }
    assert HeldClear(s'.calls, s'.core.unavailable);
  }

  /** A step of a call outside its window that stays outside it, and sends no Rotate. */
  lemma OutsideKeeps(s: State, failed: set<nat>, call: nat, s': State)
    requires Exclusive(s, failed) && call in s'.calls && s'.calls == s.calls[call := s'.calls[call]]
    requires (call in s.calls ==> !InWindow(s.calls[call])) && !InWindow(s'.calls[call])
    requires s'.core == s.core && s'.mgr == s.mgr
    requires s'.queue == s.queue
          || exists c: Command :: !c.Rotate? && s'.queue == s.queue + [c]
    ensures Exclusive(s', failed)
  {
    forall lane: nat
      ensures RotateQueued(s, lane) <==> RotateQueued(s', lane)
    {
      if RotateQueued(s, lane) {
        var k :| 0 <= k < |s.queue| && s.queue[k].Rotate? && s.queue[k].lane == lane;
        assert s'.queue[k] == s.queue[k];
      }
    }
    hide Exclusive;
    QuietKeeps(s, s', failed);
  }

  lemma GoKeeps(s: State, failed: set<nat>, call: nat)
    requires Exclusive(s, failed) && Serial(s, Go(call)) && Running(s) && NoneUndoing(s.calls)
    requires call in s.calls && CanGo(s, s.calls[call])
    ensures Exclusive(GoCall(s, call), failed)
  {
    hide Exclusive, FindEndpoint, Without;
    match s.calls[call]
    case Rotating(r) => RotatingKeeps(s, failed, call, r);
    case Choosing(h) => HandingOutKeeps(s, failed, call, h);
    case RestartOpen => OutsideKeeps(s, failed, call, GoCall(s, call));
    case Stopping(_) => OutsideKeeps(s, failed, call, GoCall(s, call));
    case _ =>
  }

  lemma HandingOutKeeps(s: State, failed: set<nat>, call: nat, h: HandOut)
    requires Exclusive(s, failed) && call in s.calls && s.calls[call] == Choosing(h) && !s.mgr.Gone?
    ensures Exclusive(GoHandOut(s, call, h), failed)
  {
    hide Exclusive, FindEndpoint;
    var s' := GoHandOut(s, call, h);
    OutsideKeeps(s, failed, call, s');
  }

  lemma RotatingKeeps(s: State, failed: set<nat>, call: nat, r: Rotation)
    requires Exclusive(s, failed) && Serial(s, Go(call)) && Running(s) && NoneUndoing(s.calls)
    requires call in s.calls && s.calls[call] == Rotating(r)
    ensures Exclusive(GoRotation(s, call, r), failed)
  {
    hide Exclusive, FindEndpoint, Without;
    match r
    case Checked(lane, awaited) =>
      if FindEndpoint(s.core.ready, lane).Some? {
        LookKeeps(s, failed, call, lane, awaited);
      } else {
        OutsideKeeps(s, failed, call, GoRotation(s, call, r));
      }
    case Looked(lane, snapshot, awaited) => InsertKeeps(s, failed, call, lane, snapshot, awaited);
    case Inserted(lane, snapshot, awaited) => OverwriteKeeps(s, failed, call, lane, snapshot, awaited);
    case Overwritten(lane, awaited) => SendKeeps(s, failed, call, lane, awaited);
    case Undoing(_) =>
  }

  // ---- Steps of the manager -----------------------------------------------------------------

  lemma PopQueued(s: State, s': State)
    requires s.queue != [] && s'.queue == s.queue[1..] && AtMostOneRotate(s.queue)
    ensures AtMostOneRotate(s'.queue)
    ensures forall lane: nat :: RotateQueued(s', lane) <==>
              RotateQueued(s, lane) && !(s.queue[0].Rotate? && s.queue[0].lane == lane)
  {
    forall lane: nat
      ensures RotateQueued(s', lane) <==>
                RotateQueued(s, lane) && !(s.queue[0].Rotate? && s.queue[0].lane == lane)
    {
      if RotateQueued(s', lane) {
        var k :| 0 <= k < |s'.queue| && s'.queue[k].Rotate? && s'.queue[k].lane == lane;
        assert s.queue[k + 1] == s'.queue[k];
      }
      if RotateQueued(s, lane) {
        var k :| 0 <= k < |s.queue| && s.queue[k].Rotate? && s.queue[k].lane == lane;
        if k > 0 {
          assert s'.queue[k - 1] == s.queue[k];
        }
      }
    }
  }

  lemma TakeAssignKeeps(s: State, failed: set<nat>, lane: nat, epoch: nat, entropy: Entropy)
    requires Exclusive(s, failed) && s.mgr.Idle? && s.queue != [] && s.queue[0] == Assign(lane, epoch)
    ensures Exclusive(TakeAssign(s.(queue := s.queue[1..]), lane, epoch, entropy), failed)
  {
    hide AssignLanes, AssignRotates;
    var s' := TakeAssign(s.(queue := s.queue[1..]), lane, epoch, entropy);
    PopQueued(s, s');
    forall l <- failed
      ensures l < |s'.core.lanes| && s'.core.lanes[l].state == Failed
    {
      PolicyLeavesFailed(s.core, s.config.limit, lane, epoch, entropy, s.now, l);
    }
    assert FailedOk(s'.core.lanes, failed);
    assert StoringClear(s'.mgr, s.core.unavailable);
    QuietKeeps(s, s', failed);
  }

  lemma TickKeeps(s: State, failed: set<nat>, entropies: seq<Entropy>)
    requires Exclusive(s, failed) && s.mgr.Idle? && |entropies| == |s.core.lanes|
    ensures Exclusive(TakeTick(s, entropies), failed)
  {
    hide ExpireLanes, AnyExpired;
    var s' := TakeTick(s, entropies);
    forall l <- failed
      ensures l < |s'.core.lanes| && s'.core.lanes[l].state == Failed
    {
      PolicyLeavesFailed(s.core, None, 0, 0, None, s.now, l);
    }
    assert FailedOk(s'.core.lanes, failed);
    QuietKeeps(s, s', failed);
  }

  /** A Rotate taken out of the queue is being shown again or has failed for good. */
  lemma HandledKeeps(s: State, s': State, failed: set<nat>, lane: nat, shown: bool)
    requires Exclusive(s, failed) && RotateQueued(s, lane) && s.mgr.Idle? && s'.calls == s.calls
    requires s'.core.unavailable == s.core.unavailable && s'.core.ready == s.core.ready
    requires AtMostOneRotate(s'.queue) && !IsStoring(s'.mgr)
    requires forall l: nat :: RotateQueued(s', l) <==> RotateQueued(s, l) && l != lane
    requires forall l: nat :: IsRemoving(s'.mgr, l) <==> shown && l == lane
    requires FailedOk(s'.core.lanes, failed + if shown then {} else {lane})
    ensures Exclusive(s', failed + if shown then {} else {lane})
  {
    hide RotateQueued;
    forall l: nat
      ensures CallOwes(s, l) <==> CallOwes(s', l)
    {
      if CallOwes(s, l) {
        var t :| t in s.calls && OwesLane(s.calls[t], l);
        assert OwesLane(s'.calls[t], l);
      }
    }
  }

  lemma TakeRotateKeeps(s: State, failed: set<nat>, lane: nat, waiter: Option<nat>, entropy: Entropy)
    requires Shaped(s) && Exclusive(s, failed) && s.mgr.Idle? && s.queue != [] && s.queue[0] == Rotate(lane, waiter)
    ensures Exclusive(TakeRotate(s.(queue := s.queue[1..]), lane, waiter, entropy),
                      failed + FailedRotation(s, Receive(entropy)))
  {
    var s' := TakeRotate(s.(queue := s.queue[1..]), lane, waiter, entropy);
    assert RotateQueued(s, lane) && AtMostOneRotate(s.queue) && FailedOk(s.core.lanes, failed);
    RotatedStates(s.core, lane, entropy, s.now);
    PopQueued(s, s');
    hide Exclusive, RotateLanes, RotateResult, Shaped, RotateQueued, AtMostOneRotate, ReplyTo, Finish;
    HandledKeeps(s, s', failed, lane, RotateResult(s.core.lanes, lane, entropy).Ok?);
  }

  /** What a rotation does to the states: its own lane is Ready or Failed, the others are kept. */
  lemma RotatedStates(c: Core, lane: nat, entropy: Entropy, now: nat)
    requires WellFormed(c.lanes) && lane < |c.lanes|
    ensures var lanes' := RotateLanes(c, lane, entropy, now);
      && (RotateResult(c.lanes, lane, entropy) == Ok(()) || RotateResult(c.lanes, lane, entropy) == Err(Internal))
      && (RotateResult(c.lanes, lane, entropy) == Err(Internal) ==> lanes'[lane].state == Failed)
      && forall i | 0 <= i < |c.lanes| && i != lane :: lanes'[i] == c.lanes[i]
  {
    KnownLaneIndex(c.lanes, lane);
    RotationEffect(c.lanes[lane], c.runtime, entropy, now);
    hide RotatedOrFailed;
  }

  lemma PublicationKeeps(s: State, failed: set<nat>, p: Publication)
    requires Shaped(s) && Exclusive(s, failed) && s.mgr == Publishing(p)
    ensures Exclusive(WorkPublication(s, p), failed)
  {
    hide ReadyLanes;
    var s' := WorkPublication(s, p);
    match p
    case Removing(lane, _) => RemovingKeeps(s, failed, p);
    case Computing(_) =>
      ReadyLanesClear(s.core.lanes, s.core.unavailable);
      hide Shaped;
      QuietKeeps(s, s', failed);
    case Storing(_, _) => QuietKeeps(s, s', failed);
    case Replying(_, _) => QuietKeeps(s, s', failed);
  }

  lemma ReadyLanesClear(lanes: seq<LaneData>, unavailable: set<nat>)
    requires WellFormed(lanes)
    ensures Clear(ReadyLanes(lanes, unavailable), unavailable)
  {
    ReadyLanesMembers(lanes, unavailable);
    forall e <- ReadyLanes(lanes, unavailable)
      ensures e.lane !in unavailable
    {
      assert lanes[e.lane].id == e.lane;
    }
  }

  lemma RemovingKeeps(s: State, failed: set<nat>, p: Publication)
    requires Exclusive(s, failed) && s.mgr == Publishing(p) && p.Removing?
    ensures Exclusive(WorkPublication(s, p), failed)
  {
    var s' := WorkPublication(s, p);
    assert IsRemoving(s.mgr, p.lane);
    forall l: nat
      ensures CallOwes(s, l) <==> CallOwes(s', l)
      ensures RotateQueued(s, l) <==> RotateQueued(s', l)
    {
      if CallOwes(s, l) {
        var t :| t in s.calls && OwesLane(s.calls[t], l);
        assert OwesLane(s'.calls[t], l);
      }
    }
  }

  // ---- Over every serial run ----------------------------------------------------------------

  /** Every step of a serial run without a restart keeps the exclusion while the manager lives. */
  lemma StepExcludes(s: State, e: Event, failed: set<nat>)
    requires Shaped(s) && Cached(s) && Enabled(s, e) && Serial(s, e) && Running(s) && Exclusive(s, failed)
    requires !s.mgr.Restarting? && !Step(s, e).mgr.Restarting? && Running(Step(s, e))
    ensures Exclusive(Step(s, e), failed + FailedRotation(s, e))
  {
    hide Exclusive, GoCall, TakeAssign, TakeRotate, TakeTick, WorkPublication, Shaped, FailedRotation;
    NoOtherFailure(s, e);
    assert failed + {} == failed;
    match e
    case Go(call) => GoKeeps(s, failed, call);
    case Start(call, _) => OutsideKeeps(s, failed, call, Step(s, e));
    case Cancel(call) => OutsideKeeps(s, failed, call, Step(s, e));
    case Receive(entropy) =>
      match s.queue[0] {
        case Assign(lane, epoch) => TakeAssignKeeps(s, failed, lane, epoch, entropy);
        case Rotate(lane, waiter) => TakeRotateKeeps(s, failed, lane, waiter, entropy);
        case Restart(_) => OtherKeeps(s, failed, Step(s, e));
        case _ =>
      }
    case Tick(entropies) => TickKeeps(s, failed, entropies);
    case Work(env) => PublicationKeeps(s, failed, s.mgr.publication);
    case DropPool => OtherKeeps(s, failed, Step(s, e));
    case Elapse(_) => OtherKeeps(s, failed, Step(s, e));
    case _ =>
  }

  lemma NoOtherFailure(s: State, e: Event)
    ensures !(e.Receive? && s.queue != [] && s.queue[0].Rotate?) ==> FailedRotation(s, e) == {}
  {
  }

  lemma OtherKeeps(s: State, failed: set<nat>, s': State)
    requires Exclusive(s, failed) && s'.calls == s.calls && s'.core == s.core
    requires s'.queue == s.queue || (s.queue != [] && !s.queue[0].Rotate? && s'.queue == s.queue[1..])
    requires s'.mgr == s.mgr || (s.mgr.Idle? && s'.mgr.Publishing? && s'.mgr.publication.Replying?)
    ensures Exclusive(s', failed)
  {
    if s'.queue != s.queue {
      PopQueued(s, s');
    }
    QuietKeeps(s, s', failed);
  }

  lemma FreshIsExclusive(s: State)
    requires Init(s)
    ensures Exclusive(s, {})
  {
    assert forall lane :: !CallOwes(s, lane) && !RotateQueued(s, lane) && !IsRemoving(s.mgr, lane);
  }

  lemma {:induction false} SerialRunIsExclusive(run: Run, k: nat)
    requires SerialRun(run, k) && Running(run.states[k])
    ensures Exclusive(run.states[k], ManualFailures(run, k))
  {
    hide Exclusive, Serial, Shaped, Cached, Init;
    if k == 0 {
      FirstState(run);
      FreshIsExclusive(run.states[0]);
    } else {
      LastStep(run, k);
      StillRunning(run.states[k - 1], run.events[k - 1]);
      SerialRunIsExclusive(run, k - 1);
      RunIsCached(run, k - 1);
      StepExcludes(run.states[k - 1], run.events[k - 1], ManualFailures(run, k - 1));
    }
  }

  /**
   In every serial run without a restart, while the manager lives: at most one Rotate per lane is
   queued; a lane is unavailable exactly when a call is about to queue its Rotate, the Rotate is
   queued, its success is being published or its rotation failed; and a published endpoint is of an
   available lane, but for the moment between a call's insert and its overwrite.
   */
  lemma RotationExclusion(run: Run, k: nat)
    requires SerialRun(run, k) && Running(run.states[k])
    ensures var s := run.states[k];
      && AtMostOneRotate(s.queue)
      && (forall lane: nat :: lane in s.core.unavailable <==>
            CallOwes(s, lane) || RotateQueued(s, lane) || IsRemoving(s.mgr, lane) || lane in ManualFailures(run, k))
      && (forall e <- s.core.ready | e.lane in s.core.unavailable :: InsertsLane(s.calls, e.lane))
  {
    hide SerialRun, CallOwes, RotateQueued, AtMostOneRotate, InsertsLane, IsRemoving;
    SerialRunIsExclusive(run, k);
  }

  /** So between commands with nobody mid-rotation: unavailable is queued or failed, and disjoint from `ready`. */
  lemma RotationExclusionAtRest(run: Run, k: nat)
    requires SerialRun(run, k) && run.states[k].mgr.Idle?
    requires forall t <- run.states[k].calls :: !InWindow(run.states[k].calls[t])
    ensures var s := run.states[k];
      && (forall lane: nat :: lane in s.core.unavailable <==> RotateQueued(s, lane) || lane in ManualFailures(run, k))
      && (forall e <- s.core.ready :: e.lane !in s.core.unavailable)
  {
    hide SerialRun, RotateQueued;
    RotationExclusion(run, k);
  }

  /** A lane whose queued rotation failed stays Failed, out of the snapshot and out of the queue. */
  lemma {:induction false} ManualFailureIsFinal(run: Run, j: nat, k: nat, lane: nat)
    requires SerialRun(run, k) && j <= k && Running(run.states[k]) && lane in ManualFailures(run, j)
    ensures lane in ManualFailures(run, k)
    ensures var s := run.states[k];
      && lane < |s.core.lanes| && s.core.lanes[lane].state == Failed
      && !RotateQueued(s, lane) && forall e <- s.core.ready :: e.lane != lane
    decreases k - j
  {
    SerialRunIsExclusive(run, k);
    if j < k {
      LastStep(run, k);
      StillRunning(run.states[k - 1], run.events[k - 1]);
      ManualFailureIsFinal(run, j, k - 1, lane);
    }
    var s := run.states[k];
    assert lane in s.core.unavailable && !CallOwes(s, lane);
    assert InsertsLane(s.calls, lane) ==> CallOwes(s, lane);
  }

  // ---- Runs in which nothing is stored while a rotation holds a snapshot --------------------

  /** A rotating call between its look and its overwrite. */
  predicate HoldsSnapshot(c: Call) {
    c.Rotating? && (c.rotation.Looked? || c.rotation.Inserted?)
  }

  /** The manager stores no snapshot while a call is about to overwrite it with an older one. */
  ghost predicate Settled(s: State, e: Event) {
    e.Work? && IsStoring(s.mgr) ==> forall t <- s.calls :: !HoldsSnapshot(s.calls[t])
  }

  ghost predicate SettledRun(run: Run, k: nat) {
    SerialRun(run, k) && forall m | 0 <= m < k :: Settled(run.states[m], run.events[m])
  }

  ghost predicate HeldIsReady(calls: map<nat, Call>, ready: seq<Endpoint>) {
    forall t <- calls | HoldsSnapshot(calls[t]) :: calls[t].rotation.snapshot == ready
  }

  /** The snapshot is that of the lanes now, but for a lane about to be hidden. */
  ghost predicate ReadyIsExact(s: State) {
    && ((forall t <- s.calls :: !Inserting(s.calls[t])) ==> s.core.ready == Snapshot(s))
    && (forall t <- s.calls | Inserting(s.calls[t]) ::
          s.core.ready == ReadyLanes(s.core.lanes, s.core.unavailable - {s.calls[t].rotation.lane}))
  }

  ghost predicate Exact(s: State) {
    && HeldIsReady(s.calls, s.core.ready)
    && (s.mgr.Idle? || (s.mgr.Publishing? && s.mgr.publication.Replying?) ==> ReadyIsExact(s))
    && (IsStoring(s.mgr) ==> s.mgr.publication.snapshot == Snapshot(s))
  }

  lemma InsertStaysExact(s: State, failed: set<nat>, call: nat)
    requires Exclusive(s, failed) && Exact(s) && call in s.calls && s.calls[call].Rotating?
    requires s.calls[call].rotation.Looked? && OthersOut(s.calls, call) && !IsStoring(s.mgr)
    ensures Exact(GoRotation(s, call, s.calls[call].rotation))
  {
    hide ReadyLanes;
    var r := s.calls[call].rotation;
    var s' := GoRotation(s, call, r);
    assert r.lane !in s.core.unavailable;
    assert s'.core.unavailable - {r.lane} == s.core.unavailable;
    assert Inserting(s'.calls[call]);
  }

  lemma OverwriteStaysExact(s: State, failed: set<nat>, call: nat)
    requires Shaped(s) && Exclusive(s, failed) && Exact(s) && call in s.calls && Inserting(s.calls[call])
    ensures Exact(GoRotation(s, call, s.calls[call].rotation))
  {
    var lane := s.calls[call].rotation.lane;
    assert OwesLane(s.calls[call], lane);
    assert CallOwes(s, lane) && Reason(s, failed, lane);
    assert OthersOut(s.calls, call);
    HidingOneLane(s.core.lanes, s.core.unavailable - {lane}, lane);
    hide Exclusive, Shaped, ReadyLanes, Without;
    assert s.core.unavailable - {lane} + {lane} == s.core.unavailable;
    OverwriteHides(s, call);
  }

  lemma OverwriteHides(s: State, call: nat)
    requires Exact(s) && call in s.calls && Inserting(s.calls[call]) && OthersOut(s.calls, call)
    requires var lane := s.calls[call].rotation.lane;
      Without(ReadyLanes(s.core.lanes, s.core.unavailable - {lane}), lane) == Snapshot(s)
    ensures Exact(GoRotation(s, call, s.calls[call].rotation))
  {
    hide ReadyLanes, Without;
  }

  /** A step of a call that hides nothing: it moves no window but its own, and leaves the snapshot alone. */
  lemma LeavingStaysExact(s: State, s': State)
    requires Exact(s) && s'.core == s.core && s'.mgr == s.mgr
    requires forall t <- s'.calls | InWindow(s'.calls[t]) ::
               (|| (t in s.calls && s.calls[t] == s'.calls[t])
                || (s'.calls[t].rotation.Looked? && s'.calls[t].rotation.snapshot == s.core.ready))
    requires forall t <- s.calls | Inserting(s.calls[t]) :: t in s'.calls && s'.calls[t] == s.calls[t]
    ensures Exact(s')
  {
    hide ReadyLanes;
  }

  lemma GoStaysExact(s: State, failed: set<nat>, call: nat)
    requires Shaped(s) && Exclusive(s, failed) && Exact(s) && Serial(s, Go(call)) && Running(s) && NoneUndoing(s.calls)
    requires call in s.calls && CanGo(s, s.calls[call])
    ensures Exact(GoCall(s, call))
  {
    hide Exact, Exclusive, FindEndpoint, Without, Shaped, GoHandOut, GoStop;
    if s.calls[call].Rotating? && (s.calls[call].rotation.Looked? || s.calls[call].rotation.Inserted?) {
      if s.calls[call].rotation.Looked? {
        InsertStaysExact(s, failed, call);
      } else {
        OverwriteStaysExact(s, failed, call);
      }
    } else {
      GoLeaves(s, call);
      hide GoCall, Serial;
      LeavingStaysExact(s, GoCall(s, call));
    }
  }

  lemma GoLeaves(s: State, call: nat)
    requires call in s.calls && CanGo(s, s.calls[call]) && Running(s) && NoneUndoing(s.calls)
    requires !(s.calls[call].Rotating? && (s.calls[call].rotation.Looked? || s.calls[call].rotation.Inserted?))
    ensures var s' := GoCall(s, call);
      && s'.core == s.core && s'.mgr == s.mgr && call in s'.calls && s'.calls == s.calls[call := s'.calls[call]]
      && (InWindow(s'.calls[call]) ==>
            s'.calls[call].rotation.Looked? && s'.calls[call].rotation.snapshot == s.core.ready)
  {
    hide FindEndpoint, Without;
    GoMovesOnly(s, call);
  }

  /** What counting, expiry and a finished command leave as it was between commands. */
  ghost predicate SameLanes(c: Core, c': Core) {
    && |c.lanes| == |c'.lanes| && c' == c.(lanes := c'.lanes)
    && forall i | 0 <= i < |c.lanes| ::
         && c.lanes[i].state == c'.lanes[i].state && c.lanes[i].endpoint == c'.lanes[i].endpoint
         && c.lanes[i].id == c'.lanes[i].id
  }

  lemma SameLanesStayExact(s: State, s': State)
    requires Exact(s) && s.mgr.Idle? && SameLanes(s.core, s'.core) && s'.calls == s.calls
    requires !IsStoring(s'.mgr)
    ensures Exact(s')
  {
    forall u: set<nat>
      ensures ReadyLanes(s.core.lanes, u) == ReadyLanes(s'.core.lanes, u)
    {
      ReadyLanesCongruence(s.core.lanes, s'.core.lanes, u, u);
    }
    hide ReadyLanes;
  }

  /** While the manager has a publication still to compute nothing is promised of the snapshot. */
  lemma BusyStaysExact(s: State, s': State)
    requires Exact(s) && s'.calls == s.calls && s'.core.ready == s.core.ready
    requires s'.mgr.Publishing? && (s'.mgr.publication.Removing? || s'.mgr.publication.Computing?)
    ensures Exact(s')
  {
  }

  lemma AssignStaysExact(s: State, lane: nat, epoch: nat, entropy: Entropy)
    requires Exact(s) && s.mgr.Idle?
    ensures Exact(TakeAssign(s, lane, epoch, entropy))
  {
    hide Exact, RotatedOrFailed;
    var s' := TakeAssign(s, lane, epoch, entropy);
    if AssignRotates(s.core.lanes, s.config.limit, lane, epoch) {
      hide AssignRotates, AssignLanes;
      BusyStaysExact(s, s');
    } else {
      SameLanesStayExact(s, s');
    }
  }

  lemma TickStaysExact(s: State, entropies: seq<Entropy>)
    requires Exact(s) && s.mgr.Idle? && |entropies| == |s.core.lanes|
    ensures Exact(TakeTick(s, entropies))
  {
    hide Exact, RotatedOrFailed, Expired;
    var s' := TakeTick(s, entropies);
    if AnyExpired(s.core.lanes, s.config.ttl, s.now) {
      hide ExpireLanes;
      BusyStaysExact(s, s');
    } else {
      SameLanesStayExact(s, s');
    }
  }

  lemma TakeRotateStaysExact(s: State, lane: nat, waiter: Option<nat>, entropy: Entropy)
    requires Shaped(s) && Exact(s) && s.mgr.Idle? && lane < |s.core.lanes|
    ensures Exact(TakeRotate(s, lane, waiter, entropy))
  {
    RotatedStates(s.core, lane, entropy, s.now);
    hide Exact, Shaped, RotateLanes, RotateResult;
    BusyStaysExact(s, TakeRotate(s, lane, waiter, entropy));
  }

  lemma QueueLeavesExact(s: State, queue: seq<Command>)
    requires Exact(s)
    ensures Exact(s.(queue := queue))
  {
    hide ReadyLanes;
  }

  lemma TakingStaysExact(s: State, entropy: Entropy)
    requires Shaped(s) && Exact(s) && s.mgr.Idle? && s.queue != [] && Running(TakeCommand(s, entropy))
    requires !TakeCommand(s, entropy).mgr.Restarting?
    ensures Exact(TakeCommand(s, entropy))
  {
    var t := s.(queue := s.queue[1..]);
    QueueLeavesExact(s, s.queue[1..]);
    assert Shaped(t);
    hide Exact, TakeAssign, TakeRotate, WellFormed;
    match s.queue[0]
    case Assign(lane, epoch) => AssignStaysExact(t, lane, epoch, entropy);
    case Rotate(lane, waiter) => TakeRotateStaysExact(t, lane, waiter, entropy);
    case Restart(_) => SameLanesStayExact(t, TakeCommand(s, entropy));
    case _ =>
  }

  lemma PublicationStaysExact(s: State, p: Publication)
    requires Exact(s) && s.mgr == Publishing(p)
    requires p.Storing? ==> forall t <- s.calls :: !HoldsSnapshot(s.calls[t])
    ensures Exact(WorkPublication(s, p))
  {
    var s' := WorkPublication(s, p);
    hide ReadyLanes;
    if p.Replying? {
      assert forall t <- s'.calls :: InWindow(s'.calls[t]) ==> t in s.calls && s.calls[t] == s'.calls[t];
      assert forall t <- s.calls :: InWindow(s.calls[t]) ==> t in s'.calls && s.calls[t] == s'.calls[t];
    } else if p.Storing? {
      assert forall t <- s.calls :: !Inserting(s.calls[t]);
    }
  }

  lemma StepStaysExact(s: State, e: Event, failed: set<nat>)
    requires Shaped(s) && Cached(s) && Enabled(s, e) && Serial(s, e) && Settled(s, e) && Running(s)
    requires Exclusive(s, failed) && Exact(s)
    requires !s.mgr.Restarting? && !Step(s, e).mgr.Restarting? && Running(Step(s, e))
    ensures Exact(Step(s, e))
  {
    hide Exclusive, Exact, GoCall, TakeCommand, TakeTick, WorkPublication, Shaped;
    match e
    case Go(call) => GoStaysExact(s, failed, call);
    case Receive(entropy) => TakingStaysExact(s, entropy);
    case Tick(entropies) => TickStaysExact(s, entropies);
    case Work(env) => PublicationStaysExact(s, s.mgr.publication);
    case Start(_, _) => LeavingStaysExact(s, Step(s, e));
    case Cancel(_) => LeavingStaysExact(s, Step(s, e));
    case DropPool => LeavingStaysExact(s, Step(s, e));
    case Elapse(_) => LeavingStaysExact(s, Step(s, e));
    case _ =>
  }

  lemma {:induction false} SettledRunIsExact(run: Run, k: nat)
    requires SettledRun(run, k) && Running(run.states[k])
    ensures Exact(run.states[k])
  {
    hide Exclusive, Exact, Serial, Settled, Shaped, Cached, Init;
    if k == 0 {
      FirstState(run);
      FreshIsExact(run.states[0]);
    } else {
      LastStep(run, k);
      StillRunning(run.states[k - 1], run.events[k - 1]);
      SettledRunIsExact(run, k - 1);
      SerialRunIsExclusive(run, k - 1);
      RunIsCached(run, k - 1);
      StepStaysExact(run.states[k - 1], run.events[k - 1], ManualFailures(run, k - 1));
    }
  }

  lemma FreshIsExact(s: State)
    requires Init(s)
    ensures Exact(s)
  {
  }

  /** Between commands of a settled run the snapshot is that of the lanes now, but for a lane about to be hidden. */
  lemma SettledSnapshot(run: Run, k: nat)
    requires SettledRun(run, k) && run.states[k].mgr.Idle?
    ensures var s := run.states[k];
      && ((forall t <- s.calls :: !Inserting(s.calls[t])) ==>
            s.core.ready == ReadyLanes(s.core.lanes, s.core.unavailable))
      && (forall t <- s.calls | Inserting(s.calls[t]) ::
            s.core.ready == ReadyLanes(s.core.lanes, s.core.unavailable - {s.calls[t].rotation.lane}))
  {
    hide SettledRun;
    SettledRunIsExact(run, k);
  }

  // ---- Failed lanes -------------------------------------------------------------------------

  /** A Failed lane that is nowhere published and that nobody is rotating. */
  ghost predicate Down(s: State, lane: nat) {
    && lane < |s.core.lanes| && s.core.lanes[lane].state == Failed && !RotateQueued(s, lane)
    && (forall t <- s.calls | InWindow(s.calls[t]) :: s.calls[t].rotation.lane != lane)
    && (forall e <- s.core.ready :: e.lane != lane)
    && (IsStoring(s.mgr) ==> forall e <- s.mgr.publication.snapshot :: e.lane != lane)
  }

  lemma HandleStaysDown(s: State, s': State, lane: nat)
    requires Down(s, lane) && s'.core.lanes == s.core.lanes && s'.mgr == s.mgr
    requires forall e <- s'.core.ready :: e.lane != lane
    requires forall t <- s'.calls | InWindow(s'.calls[t]) ::
               s'.calls[t].rotation.lane != lane || (t in s.calls && s.calls[t] == s'.calls[t])
    requires s'.queue == s.queue
          || exists c: Command :: !(c.Rotate? && c.lane == lane) && s'.queue == s.queue + [c]
    ensures Down(s', lane)
  {
    forall k | 0 <= k < |s'.queue| && s'.queue[k].Rotate?
      ensures s'.queue[k].lane != lane
    {
      assert k < |s.queue| ==> s'.queue[k] == s.queue[k];
    }
  }

  lemma RotationStaysDown(s: State, call: nat, lane: nat)
    requires Down(s, lane) && call in s.calls && s.calls[call].Rotating? && HeldIsReady(s.calls, s.core.ready)
    ensures Down(GoRotation(s, call, s.calls[call].rotation), lane)
  {
    hide RotateQueued, FindEndpoint, Without, Down;
    var r := s.calls[call].rotation;
    match r
    case Overwritten(_, _) => SendStaysDown(s, call, lane);
    case Inserted(_, _, _) => OverwriteStaysDown(s, call, lane);
    case _ => OtherStaysDown(s, call, lane);
  }

  lemma OtherStaysDown(s: State, call: nat, lane: nat)
    requires Down(s, lane) && call in s.calls && s.calls[call].Rotating?
    requires !s.calls[call].rotation.Overwritten? && !s.calls[call].rotation.Inserted?
    ensures Down(GoRotation(s, call, s.calls[call].rotation), lane)
  {
    hide RotateQueued, FindEndpoint;
    var s' := GoRotation(s, call, s.calls[call].rotation);
    HandleStaysDown(s, s', lane);
  }

  lemma OverwriteStaysDown(s: State, call: nat, lane: nat)
    requires Down(s, lane) && call in s.calls && HeldIsReady(s.calls, s.core.ready)
    requires Inserting(s.calls[call])
    ensures Down(GoRotation(s, call, s.calls[call].rotation), lane)
  {
    hide RotateQueued, Without;
    var s' := GoRotation(s, call, s.calls[call].rotation);
    assert s.calls[call].rotation.snapshot == s.core.ready;
    HandleStaysDown(s, s', lane);
  }

  lemma SendStaysDown(s: State, call: nat, lane: nat)
    requires Down(s, lane) && call in s.calls && s.calls[call].Rotating? && s.calls[call].rotation.Overwritten?
    ensures Down(GoRotation(s, call, s.calls[call].rotation), lane)
  {
    hide RotateQueued;
    var r := s.calls[call].rotation;
    var s' := GoRotation(s, call, r);
    var c := Rotate(r.lane, if r.awaited then Some(call) else None);
    assert s'.queue == s.queue || s'.queue == s.queue + [c];
    HandleStaysDown(s, s', lane);
  }

  lemma GoStaysDown(s: State, call: nat, lane: nat)
    requires Down(s, lane) && call in s.calls && CanGo(s, s.calls[call]) && HeldIsReady(s.calls, s.core.ready)
    ensures Down(GoCall(s, call), lane)
  {
    hide GoRotation, GoHandOut, GoStop;
    if s.calls[call].Rotating? {
      RotationStaysDown(s, call, lane);
    } else {
      GoMovesOnly(s, call);
      OthersSendNoRotate(s, call);
      hide GoCall;
      HandleStaysDown(s, GoCall(s, call), lane);
    }
  }

  /** A call that is not rotating leaves the snapshot alone and queues no Rotate. */
  lemma OthersSendNoRotate(s: State, call: nat)
    requires call in s.calls && CanGo(s, s.calls[call]) && !s.calls[call].Rotating?
    ensures var s' := GoCall(s, call);
      && s'.core == s.core && call in s'.calls && !InWindow(s'.calls[call])
      && (s'.queue == s.queue || exists c: Command :: !c.Rotate? && s'.queue == s.queue + [c])
  {
    hide FindEndpoint, GoRotation;
    match s.calls[call]
    case Choosing(h) => assert InWindow(GoCall(s, call).calls[call]) ==> !h.HandingOut?;
    case _ =>
  }

  lemma WorkStaysDown(s: State, p: Publication, lane: nat)
    requires WellFormed(s.core.lanes) && Down(s, lane) && s.mgr == Publishing(p)
    ensures Down(WorkPublication(s, p), lane)
  {
    hide ReadyLanes, WellFormed;
    if p.Computing? {
      ReadyLanesMembers(s.core.lanes, s.core.unavailable);
    }
  }

  lemma TakeStaysDown(s: State, e: Event, lane: nat)
    requires Shaped(s) && Enabled(s, e) && (e.Receive? || e.Tick?) && Down(s, lane)
    ensures Down(Step(s, e), lane)
  {
    FailedUnlessRevived(s, e, lane);
    StoringFollowsComputing(s, e);
    TakeFrame(s, e);
    hide Shaped, Step;
    if e.Receive? {
      assert s.queue[0].Rotate? ==> s.queue[0].lane != lane;
      forall k | 0 <= k < |s.queue| - 1 && s.queue[1..][k].Rotate?
        ensures s.queue[1..][k].lane != lane
      {
        assert s.queue[1..][k] == s.queue[k + 1];
      }
    }
  }

  lemma StepStaysDown(s: State, e: Event, lane: nat)
    requires Shaped(s) && Enabled(s, e) && Down(s, lane) && HeldIsReady(s.calls, s.core.ready)
    requires Running(s) && !s.mgr.Restarting?
    ensures Running(Step(s, e)) ==> Down(Step(s, e), lane)
  {
    assert WellFormed(s.core.lanes);
    hide Shaped, GoCall, TakeCommand, TakeTick, WorkPublication, WellFormed;
    match e
    case Go(call) => GoStaysDown(s, call, lane);
    case Receive(_) => TakeStaysDown(s, e, lane);
    case Tick(_) => TakeStaysDown(s, e, lane);
    case Work(_) => WorkStaysDown(s, s.mgr.publication, lane);
    case _ =>
  }

  lemma DownAtRest(s: State, lane: nat)
    requires Shaped(s) && Exact(s) && s.mgr.Idle? && !PendingLane(s, lane)
    requires lane < |s.core.lanes| && s.core.lanes[lane].state == Failed
    requires forall t <- s.calls | InWindow(s.calls[t]) :: s.calls[t].rotation.lane != lane
    ensures Down(s, lane)
  {
    forall u: set<nat>
      ensures forall e <- ReadyLanes(s.core.lanes, u) :: e.lane != lane
    {
      ReadyLanesMembers(s.core.lanes, u);
    }
    hide ReadyLanes, Shaped;
  }

  /**
   In every settled run a lane found Failed between commands, with nobody rotating it, stays Failed
   and hidden: nothing but a rotation of it would revive it, and none is accepted.
   */
  lemma {:induction false} FailedStaysFailed(run: Run, j: nat, k: nat, lane: nat)
    requires SettledRun(run, k) && j <= k && Running(run.states[k]) && run.states[j].mgr.Idle?
    requires lane < |run.states[j].core.lanes| && run.states[j].core.lanes[lane].state == Failed
    requires !PendingLane(run.states[j], lane)
    requires forall t <- run.states[j].calls | InWindow(run.states[j].calls[t]) ::
               run.states[j].calls[t].rotation.lane != lane
    ensures Down(run.states[k], lane)
    decreases k - j
  {
    hide Exclusive, Serial, Settled, Shaped, Cached, Init, Down, Reason, ReadyIsExact, PendingLane, InWindow;
    if j < k {
      LastStep(run, k);
      StillRunning(run.states[k - 1], run.events[k - 1]);
      FailedStaysFailed(run, j, k - 1, lane);
      SettledRunIsExact(run, k - 1);
      RunIsShaped(run, k - 1);
      StepStaysDown(run.states[k - 1], run.events[k - 1], lane);
    } else {
      SettledRunIsExact(run, k);
      RunIsShaped(run, k);
      DownAtRest(run.states[k], lane);
    }
  }
}
