/**
 Exactly when a hidden lane is published all the same, and exactly when an awaited rotation's new
 endpoint is in the snapshot by the time its caller hears of it.
 */
module Exposure {
  import opened Wrappers
  import opened Lanes
  import opened Select
  import opened PoolCore
  import opened Protocol
  import opened Shape
  import opened Agreement
  import opened Outcomes

  predicate Lists(snapshot: seq<Endpoint>, lane: nat) {
    exists e <- snapshot :: e.lane == lane
  }

  /** A rotating call is about to write the snapshot it holds, filtered, over the published one. */
  predicate IsOverwrite(s: State, e: Event) {
    e.Go? && e.call in s.calls && s.calls[e.call].Rotating? && s.calls[e.call].rotation.Inserted?
  }

  predicate IsStore(s: State, e: Event) {
    e.Work? && IsStoring(s.mgr)
  }

  predicate IsHiding(s: State, e: Event) {
    e.Work? && ((s.mgr.Restarting? && s.mgr.phase.HidingReady?) || (s.mgr.Closing? && s.mgr.last.LastHide?))
  }

  /** The steps that write `ready`. */
  predicate Writes(s: State, e: Event) {
    IsOverwrite(s, e) || IsStore(s, e) || IsHiding(s, e)
  }

  /** Those that publish `lane`: an overwrite by a rotation of another lane, or a store. */
  predicate Brings(s: State, e: Event, lane: nat) {
    || (IsOverwrite(s, e) && s.calls[e.call].rotation.lane != lane && Lists(s.calls[e.call].rotation.snapshot, lane))
    || (IsStore(s, e) && Lists(s.mgr.publication.snapshot, lane))
  }

  /** The others take `lane` out. */
  predicate Removes(s: State, e: Event, lane: nat) {
    Writes(s, e) && !Brings(s, e, lane)
  }

  lemma WithoutLists(snapshot: seq<Endpoint>, hidden: nat, lane: nat)
    ensures Lists(Without(snapshot, hidden), lane) <==> lane != hidden && Lists(snapshot, lane)
  {
    hide Without;
    if lane != hidden && Lists(snapshot, lane) {
      var e :| e in snapshot && e.lane == lane;
      assert e in Without(snapshot, hidden);
    }
  }

  /** A step of a call that is no overwrite leaves `ready` alone. */
  lemma CallLeavesReady(s: State, call: nat)
    requires call in s.calls && CanGo(s, s.calls[call]) && !IsOverwrite(s, Go(call))
    ensures GoCall(s, call).core.ready == s.core.ready
  {
  }

  lemma PublicationWrites(s: State, p: Publication)
    ensures WorkPublication(s, p).core.ready == if p.Storing? then p.snapshot else s.core.ready
    ensures WorkPublication(s, p).core.unavailable <= s.core.unavailable
  {
    hide ReadyLanes;
  }

  lemma RestartWrites(s: State, waiter: nat, phase: RestartPhase, env: Env)
    ensures var c := WorkRestart(s, waiter, phase, env).core;
      && c.ready == (if phase.HidingReady? then [] else s.core.ready)
      && c.unavailable <= s.core.unavailable + (if phase.RetiringLanes? then Ids(s.core.lanes) else {})
      && (phase.RetiringLanes? ==> c.unavailable == s.core.unavailable + Ids(s.core.lanes))
  {
    hide WithState, Ids;
  }

  lemma CloseWrites(s: State, closer: Option<nat>, last: ClosePhase, env: Env)
    ensures var c := WorkClose(s, closer, last, env).core;
      c.ready == (if last.LastHide? then [] else s.core.ready) && c.unavailable == s.core.unavailable
  {
    hide ShutdownResult;
  }

  lemma WorkWrites(s: State, env: Env)
    requires !s.mgr.Idle? && !s.mgr.Gone?
    ensures WorkStep(s, env).core.ready
         == if IsStoring(s.mgr) then s.mgr.publication.snapshot
            else if IsHiding(s, Work(env)) then [] else s.core.ready
  {
    hide WorkPublication, WorkRestart, WorkClose, Ids;
    match s.mgr
    case Publishing(p) => PublicationWrites(s, p);
    case Restarting(waiter, phase) => RestartWrites(s, waiter, phase, env);
    case Closing(closer, last) => CloseWrites(s, closer, last, env);
  }

  /**
   A lane that is not published, hidden or not, is so after a step if and only if the step is an
   overwrite by a rotation of another lane whose snapshot holds it, or a store of a snapshot that
   holds it. Neither takes it out of `unavailable`.
   */
  lemma PublishedByStep(s: State, e: Event, lane: nat)
    requires Enabled(s, e) && !Lists(s.core.ready, lane)
    ensures Lists(Step(s, e).core.ready, lane) <==> Brings(s, e, lane)
    ensures Brings(s, e, lane) ==> Step(s, e).core.unavailable == s.core.unavailable
  {
    StepWrites(s, e, lane);
    if Brings(s, e, lane) {
      BringingHidesNothing(s, e, lane);
    }
  }

  lemma BringingHidesNothing(s: State, e: Event, lane: nat)
    requires Enabled(s, e) && Brings(s, e, lane)
    ensures Step(s, e).core.unavailable == s.core.unavailable
  {
    hide Lists, Without;
  }

  /** What a step makes of `ready`. */
  lemma StepReady(s: State, e: Event)
    requires Enabled(s, e)
    ensures Step(s, e).core.ready
         == if IsOverwrite(s, e) then Without(s.calls[e.call].rotation.snapshot, s.calls[e.call].rotation.lane)
            else if IsStore(s, e) then s.mgr.publication.snapshot
            else if IsHiding(s, e) then [] else s.core.ready
  {
    hide GoCall, WorkStep, TakeCommand, TakeTick, Without;
    match e
    case Go(call) =>
      if IsOverwrite(s, e) {
        OverwriteReady(s, call);
      } else {
        CallLeavesReady(s, call);
      }
    case Receive(_) => TakeFrame(s, e);
    case Tick(_) => TakeFrame(s, e);
    case Work(env) => WorkWrites(s, env);
    case _ =>
  }

  lemma OverwriteReady(s: State, call: nat)
    requires IsOverwrite(s, Go(call))
    ensures GoCall(s, call).core.ready == Without(s.calls[call].rotation.snapshot, s.calls[call].rotation.lane)
  {
  }

  lemma StepWrites(s: State, e: Event, lane: nat)
    requires Enabled(s, e)
    ensures Lists(Step(s, e).core.ready, lane)
       <==> Brings(s, e, lane) || (Lists(s.core.ready, lane) && !Removes(s, e, lane))
  {
    hide Step, Enabled, Lists;
    StepReady(s, e);
    NothingListed(lane);
    if IsOverwrite(s, e) {
      WithoutLists(s.calls[e.call].rotation.snapshot, s.calls[e.call].rotation.lane, lane);
    }
  }

  lemma NothingListed(lane: nat)
    ensures !Lists([], lane)
  {
  }

  // ---- Published although hidden ------------------------------------------------------------

  ghost predicate Exposed(s: State, lane: nat) {
    lane in s.core.unavailable && Lists(s.core.ready, lane)
  }

  /** The steps that put `lane` into `unavailable`: a rotating call's insert and the start of a restart. */
  predicate Hides(s: State, e: Event, lane: nat) {
    || (e.Go? && e.call in s.calls && s.calls[e.call].Rotating?
        && s.calls[e.call].rotation.Looked? && s.calls[e.call].rotation.lane == lane)
    || (e.Work? && s.mgr.Restarting? && s.mgr.phase.RetiringLanes? && lane in Ids(s.core.lanes))
  }

  lemma CallHides(s: State, call: nat, lane: nat)
    requires call in s.calls && CanGo(s, s.calls[call]) && lane !in s.core.unavailable
    ensures lane in GoCall(s, call).core.unavailable <==> Hides(s, Go(call), lane)
  {
    hide GoRotation, FindEndpoint, Ids;
    if s.calls[call].Rotating? {
      RotationHides(s, call, s.calls[call].rotation, lane);
    }
  }

  lemma RotationHides(s: State, call: nat, r: Rotation, lane: nat)
    requires lane !in s.core.unavailable
    ensures lane in GoRotation(s, call, r).core.unavailable <==> r.Looked? && r.lane == lane
  {
    hide FindEndpoint, Without;
  }

  lemma WorkHides(s: State, env: Env, lane: nat)
    requires !s.mgr.Idle? && !s.mgr.Gone? && lane !in s.core.unavailable
    ensures lane in WorkStep(s, env).core.unavailable <==> Hides(s, Work(env), lane)
  {
    hide WorkPublication, WorkRestart, WorkClose, Ids;
    match s.mgr
    case Publishing(p) => PublicationWrites(s, p);
    case Restarting(waiter, phase) => RestartWrites(s, waiter, phase, env);
    case Closing(closer, last) => CloseWrites(s, closer, last, env);
  }

  lemma HiddenByStep(s: State, e: Event, lane: nat)
    requires Enabled(s, e) && lane !in s.core.unavailable
    ensures lane in Step(s, e).core.unavailable <==> Hides(s, e, lane)
  {
    hide GoCall, WorkStep, TakeCommand, TakeTick, Ids;
    match e
    case Go(call) => CallHides(s, call, lane);
    case Receive(_) => TakeFrame(s, e);
    case Tick(_) => TakeFrame(s, e);
    case Work(env) => WorkHides(s, env, lane);
    case _ =>
  }

  /**
   A step makes a lane published although hidden if and only if it publishes a hidden lane, as
   above, or hides a published one.
   */
  lemma ExposedByStep(s: State, e: Event, lane: nat)
    requires Enabled(s, e) && !Exposed(s, lane)
    ensures Exposed(Step(s, e), lane)
       <==> (lane in s.core.unavailable && Brings(s, e, lane)) || (Lists(s.core.ready, lane) && Hides(s, e, lane))
  {
    hide Step, Enabled, Ids, Lists;
    StepWrites(s, e, lane);
    if lane in s.core.unavailable {
      PublishedByStep(s, e, lane);
    } else {
      HiddenByStep(s, e, lane);
    }
  }

  // ---- Over runs ----------------------------------------------------------------------------

  /** Some step from `j` on published the lane, and no later one took it out again. */
  ghost predicate BroughtBack(run: Run, j: nat, k: nat, lane: nat)
    requires run.Valid() && j <= k < |run.states|
  {
    exists m | j <= m < k :: Brings(run.states[m], run.events[m], lane)
                          && forall n | m < n < k :: !Removes(run.states[n], run.events[n], lane)
  }

  /**
   Over any stretch of any run: a lane not published at its start is published at its end, whether
   it is in `unavailable` there or not, if and only if it was brought back in between.
   */
  lemma {:induction false} PublishedIffBroughtBack(run: Run, j: nat, k: nat, lane: nat)
    requires run.Valid() && j <= k < |run.states| && !Lists(run.states[j].core.ready, lane)
    ensures Lists(run.states[k].core.ready, lane) <==> BroughtBack(run, j, k, lane)
    decreases k - j
  {
    hide Lists, Brings, Removes, Init, Step, Enabled;
    if j < k {
      PublishedIffBroughtBack(run, j, k - 1, lane);
      LastStep(run, k);
      StepWrites(run.states[k - 1], run.events[k - 1], lane);
      if BroughtBack(run, j, k, lane) && !Brings(run.states[k - 1], run.events[k - 1], lane) {
        assert BroughtBack(run, j, k - 1, lane);
      }
      if BroughtBack(run, j, k - 1, lane) && !Removes(run.states[k - 1], run.events[k - 1], lane) {
        var m :| j <= m < k - 1 && Brings(run.states[m], run.events[m], lane)
              && forall n | m < n < k - 1 :: !Removes(run.states[n], run.events[n], lane);
        assert BroughtBack(run, j, k, lane);
      }
    }
  }

  // ---- From the manager's store to the Ok ---------------------------------------------------

  /** The last overwrite among the steps from `from` up to `upto`. */
  ghost function LastOverwrite(run: Run, from: nat, upto: nat): (r: Option<nat>)
    requires run.Valid() && from <= upto < |run.states|
    ensures r.Some? ==> from <= r.value < upto && IsOverwrite(run.states[r.value], run.events[r.value])
    ensures forall n | (if r.Some? then r.value + 1 else from) <= n < upto :: !IsOverwrite(run.states[n], run.events[n])
  {
    if from == upto then None
    else if IsOverwrite(run.states[upto - 1], run.events[upto - 1]) then Some(upto - 1)
    else LastOverwrite(run, from, upto - 1)
  }

  /** The snapshot held by the call that overwrites at step `n`, and the lane it leaves out of it. */
  ghost function HeldAt(run: Run, n: nat): Rotation
    requires run.Valid() && n < |run.events| && IsOverwrite(run.states[n], run.events[n])
  {
    run.states[n].calls[run.events[n].call].rotation
  }

  lemma ReplyingStep(s: State, e: Event)
    requires Enabled(s, e) && s.mgr.Publishing? && s.mgr.publication.Replying? && Step(s, e).mgr == s.mgr
    ensures Step(s, e).core.lanes == s.core.lanes && !IsStore(s, e) && !IsHiding(s, e)
  {
    hide GoCall;
    if e.Go? {
      GoMovesOnly(s, e.call);
    }
  }

  /** While the manager is about to answer, `ready` is what the last overwrite left. */
  lemma {:induction false} ReplyingReady(run: Run, m: nat, k: nat, x: Endpoint)
    requires run.Valid() && m <= k < |run.states|
    requires run.states[m].mgr.Publishing? && run.states[m].mgr.publication.Replying?
    requires forall n | m <= n <= k :: run.states[n].mgr == run.states[m].mgr
    ensures run.states[k].core.lanes == run.states[m].core.lanes
    ensures x in run.states[k].core.ready
       <==> match LastOverwrite(run, m, k)
            case None => x in run.states[m].core.ready
            case Some(n) => x.lane != HeldAt(run, n).lane && x in HeldAt(run, n).snapshot
    decreases k - m
  {
    hide Without, Init, Step, Enabled;
    if m < k {
      ReplyingReady(run, m, k - 1, x);
      LastStep(run, k);
      ReplyingStep(run.states[k - 1], run.events[k - 1]);
      StepReady(run.states[k - 1], run.events[k - 1]);
    }
  }

  lemma StoringStep(s: State, e: Event)
    requires Enabled(s, e) && IsStoring(s.mgr)
    ensures Step(s, e).core.lanes == s.core.lanes
    ensures e.Work? ==>
              Step(s, e).core.ready == s.mgr.publication.snapshot && Step(s, e).mgr == Finish(s.mgr.publication.reply)
    ensures !e.Work? ==> Step(s, e).mgr == s.mgr
  {
    hide GoCall;
    if e.Go? {
      GoMovesOnly(s, e.call);
    }
  }

  /** The manager computes at `c`, stores at `m`, and is about to answer `call` with Ok up to `k`. */
  ghost predicate Answering(run: Run, c: nat, m: nat, k: nat, call: nat) {
    && run.Valid() && c < m < k < |run.states|
    && run.states[c].mgr == Publishing(Computing(To(call, Ok(())))) && run.events[c].Work?
    && (forall n | c < n <= m :: IsStoring(run.states[n].mgr)) && run.events[m].Work?
    && (forall n | m < n <= k :: run.states[n].mgr == Publishing(Replying(call, Ok(()))))
  }

  lemma {:induction false} StoringKeeps(run: Run, c: nat, m: nat)
    requires run.Valid() && c < m < |run.states| && forall n | c < n <= m :: IsStoring(run.states[n].mgr)
    requires run.states[c].mgr.Publishing? && run.states[c].mgr.publication.Computing? && run.events[c].Work?
    ensures run.states[m].core.lanes == run.states[c].core.lanes
    ensures run.states[m].mgr == Publishing(Storing(Snapshot(run.states[c]), run.states[c].mgr.publication.reply))
  {
    hide ReadyLanes, Init, GoCall;
    LastStep(run, m);
    if c + 1 < m {
      StoringKeeps(run, c, m - 1);
      hide Step, Enabled;
      StoringStep(run.states[m - 1], run.events[m - 1]);
    }
  }

  /**
   When the Ok of an awaited rotation is about to be sent, the lane's new endpoint is published if
   and only if no rotating call has overwritten the snapshot since the manager stored it, and the
   lane was not hidden when the manager computed it; or the last call that did was rotating another
   lane and held that very endpoint.
   */
  lemma PublishedAtOk(run: Run, j: nat, c: nat, m: nat, k: nat, call: nat, lane: nat)
    requires Answering(run, c, m, k, call) && j < c && Queues(run, j, call, lane)
    ensures lane < |run.states[k].core.lanes| && lane < |run.states[j].core.lanes|
    ensures run.states[k].core.lanes[lane].epoch > run.states[j].core.lanes[lane].epoch
    ensures var e := run.states[k].core.lanes[lane].endpoint;
      e in run.states[k].core.ready <==>
        match LastOverwrite(run, m + 1, k)
        case None => lane !in run.states[c].core.unavailable
        case Some(n) => HeldAt(run, n).lane != lane && e in HeldAt(run, n).snapshot
  {
    hide Init, Step, Enabled, Queues, Run.Valid;
    PromiseIsKept(run, j, c, call, lane);
    RunIsShaped(run, c);
    StoringKeeps(run, c, m);
    LastStep(run, m + 1);
    StoringStep(run.states[m], run.events[m]);
    var e := run.states[c].core.lanes[lane].endpoint;
    ReplyingReady(run, m + 1, k, e);
    SnapshotHolds(run.states[c], lane);
  }

  lemma SnapshotHolds(s: State, lane: nat)
    requires Shaped(s) && lane < |s.core.lanes| && s.core.lanes[lane].state == Ready
    ensures s.core.lanes[lane].endpoint in Snapshot(s) <==> lane !in s.core.unavailable
    ensures s.core.lanes[lane].endpoint.lane == lane
  {
    ReadyLanesMembers(s.core.lanes, s.core.unavailable);
    assert s.core.lanes[lane].id == lane;
  }
}
