/**
 Where the fine-grained protocol falls short of what its documentation says, each with a run from
 any freshly built pool. The exact conditions are in Exposure, Staleness, FailedLanes, Joins and Instances.
 */
module Limits {
  import opened Wrappers
  import opened Lanes
  import opened Select
  import opened PoolCore
  import opened Protocol
  import opened Shape
  import opened Agreement
  import Hex
  import Exclusion

  ghost predicate IsSerial(run: Run) {
    Exclusion.SerialRun(run, |run.events|)
  }

  lemma SerialTo(run: Run, k: nat)
    requires IsSerial(run) && k == |run.events|
    ensures Exclusion.SerialRun(run, k)
  {
  }

  /** One more event at the end of a run. */
  lemma Do(run: Run, e: Event) returns (r: Run)
    requires run.Valid() && Enabled(run.Last(), e)
    ensures r.Valid() && r.Last() == Step(run.Last(), e)
    ensures r.states[0] == run.states[0]
    ensures r.events == run.events + [e] && r.states[|run.events|] == run.Last()
    ensures IsSerial(run) && (e.Go? ==> Exclusion.Serial(run.Last(), e)) && !r.Last().mgr.Restarting? ==> IsSerial(r)
    ensures IsSerial(run) ==> !run.Last().mgr.Restarting?
  {
    hide Init, Step;
    r := Run(run.states + [Step(run.Last(), e)], run.events + [e]);
    forall k | 0 <= k < |r.states|
      ensures r.Reached(k)
    {
      if k < |run.states| {
        assert run.Reached(k);
      }
    }
  }

  lemma Begin(s: State) returns (r: Run)
    requires Init(s)
    ensures r.Valid() && r.Last() == s && r.states[0] == s && r.events == [] && IsSerial(r)
  {
    r := Run([s], []);
  }

  /** A fresh call that has read the snapshot and found its lane in it. */
  lemma DoLook(run: Run, call: nat, lane: nat) returns (r: Run)
    requires run.Valid()
    requires var s := run.Last(); call !in s.calls && !s.dropped && !s.closed && lane < s.config.lanes
                                  && FindEndpoint(s.core.ready, lane).Some?
    ensures r.Valid() && r.states[0] == run.states[0]
    ensures r.events == run.events + [Start(call, AskRotate(lane, true)), Go(call)]
    ensures r.Last() == At(run.Last(), call, Rotating(Looked(lane, run.Last().core.ready, true)))
    ensures IsSerial(run) && (forall t <- run.Last().calls :: !Exclusion.Inserting(run.Last().calls[t])) ==> IsSerial(r)
  {
    hide IsSerial;
    var s := run.Last();
    var r1 := Do(run, Start(call, AskRotate(lane, true)));
    assert r1.Last() == At(s, call, Rotating(Checked(lane, true)));
    r := Do(r1, Go(call));
    assert r1.Last().calls[call := r.Last().calls[call]] == s.calls[call := r.Last().calls[call]];
  }

  /** It marks its lane and overwrites the snapshot with the filtered one it holds. */
  lemma DoHide(run: Run, call: nat, lane: nat, snapshot: seq<Endpoint>) returns (r: Run)
    requires run.Valid()
    requires call in run.Last().calls && run.Last().calls[call] == Rotating(Looked(lane, snapshot, true))
    ensures r.Valid() && r.states[0] == run.states[0] && r.events == run.events + [Go(call), Go(call)]
    ensures var s := run.Last();
      r.Last() == At(s, call, Rotating(Overwritten(lane, true))).(
        core := s.core.(ready := Without(snapshot, lane), unavailable := s.core.unavailable + {lane}))
    ensures IsSerial(run) && Exclusion.OthersOut(run.Last().calls, call) && !IsStoring(run.Last().mgr) ==> IsSerial(r)
  {
    hide IsSerial;
    hide Without;
    var s := run.Last();
    var r1 := Do(run, Go(call));
    r := Do(r1, Go(call));
    assert r1.Last().calls[call := r.Last().calls[call]] == s.calls[call := r.Last().calls[call]];
  }

  lemma DoSend(run: Run, call: nat, lane: nat) returns (r: Run)
    requires run.Valid() && !run.Last().mgr.Gone?
    requires call in run.Last().calls && run.Last().calls[call] == Rotating(Overwritten(lane, true))
    ensures r.Valid() && r.states[0] == run.states[0] && r.events == run.events + [Go(call)]
    ensures r.Last() == At(run.Last(), call, Waiting).(queue := run.Last().queue + [Rotate(lane, Some(call))])
    ensures IsSerial(run) ==> IsSerial(r)
  {
    hide IsSerial;
    r := Do(run, Go(call));
  }

  lemma FreshFinds(s: State, lane: nat)
    requires Init(s) && lane < s.config.lanes
    ensures FindEndpoint(s.core.ready, lane) == Some(s.core.lanes[lane].endpoint)
    ensures s.core.lanes[lane].endpoint.lane == lane && s.core.lanes[lane].epoch == 1
  {
    InitIsShaped(s);
    InitLane(s, lane);
    ReadyLanesMembers(s.core.lanes, {});
    assert Published(s.core.lanes[lane], {});
    FindIsUnique(s.core.ready, s.core.lanes[lane].endpoint);
  }

  lemma InitLane(s: State, lane: nat)
    requires Init(s) && lane < s.config.lanes
    ensures s.core.lanes[lane].state == Ready && s.core.lanes[lane].epoch == 1 && s.core.lanes[lane].id == lane
  {
    var bytes :| NewLane(lane, s.core.runtime, Some(bytes), s.now) == Ok(s.core.lanes[lane]);
  }

  /**
   `next` can hand out a lane whose rotation is queued: of two overlapping rotations the second
   overwrites the snapshot with the one it read before the first. So `ready` and `unavailable`
   need not be disjoint.
   */
  lemma HiddenLaneIsPublished(s: State) returns (run: Run, e: Endpoint)
    requires Init(s) && s.config.lanes >= 2
    ensures run.Valid() && run.states[0] == s
    ensures e in run.Last().core.ready && e.lane in run.Last().core.unavailable
    ensures RotateQueued(run.Last(), e.lane)
  {
    hide IsSerial, Exclusion.Serial;
    hide Init, Step, Without, FindEndpoint;
    FreshFinds(s, 0);
    FreshFinds(s, 1);
    FreshIsIdle(s);
    e := s.core.lanes[0].endpoint;
    run := Begin(s);
    run := DoLook(run, 0, 0);
    run := DoLook(run, 1, 1);
    run := DoHide(run, 0, 0, s.core.ready);
    run := DoSend(run, 0, 0);
    run := DoHide(run, 1, 1, s.core.ready);
    assert run.Last().queue[0] == Rotate(0, Some(0));
    WithoutKeeps(s.core.ready, 1, e);
  }

  lemma FreshIsIdle(s: State)
    requires Init(s)
    ensures s.calls == map[] && !s.closed && !s.dropped && s.mgr.Idle? && s.queue == [] && s.handle && s.cursor == 0
    ensures |s.core.lanes| == s.config.lanes && s.core.unavailable == {}
  {
  }

  lemma WithoutKeeps(snapshot: seq<Endpoint>, lane: nat, e: Endpoint)
    requires FindEndpoint(snapshot, e.lane) == Some(e) && e.lane != lane
    ensures e in Without(snapshot, lane)
  {
  }

  /**
   An awaited rotation can return Ok while the credentials it replaced are published and the new
   ones are not: a rotation of another lane that read the snapshot before overwrites it just
   before the Ok is sent.
   */
  lemma OldCredentialsReturn(s: State, entropy: Entropy, env: Env) returns (run: Run, e: Endpoint)
    requires Init(s) && s.config.lanes >= 2 && entropy.Some?
    ensures run.Valid() && run.states[0] == s && |run.events| > 0
    ensures run.events[|run.events| - 1].Work?
    ensures run.states[|run.events| - 1].mgr == Publishing(Replying(1, Ok(())))
    ensures 1 in run.Last().calls && run.Last().calls[1] == Done(Returned(Ok(()))) && run.Last().mgr.Idle?
    ensures 0 < |run.Last().core.lanes| && run.Last().core.lanes[0].epoch == 2
    ensures run.Last().core.lanes[0].state == Ready
    ensures e in run.Last().core.ready && e.lane == 0 && e.epoch == 1
    ensures run.Last().core.lanes[0].endpoint !in run.Last().core.ready
  {
    hide IsSerial, Exclusion.Serial;
    hide Init, Step, Without, FindEndpoint, WorkStep, RotateLanes, RotateResult, ReadyLanes;
    FreshFinds(s, 0);
    FreshFinds(s, 1);
    FreshIsIdle(s);
    e := s.core.lanes[0].endpoint;
    run := Begin(s);
    run := DoLook(run, 0, 1);
    run := DoLook(run, 1, 0);
    run := DoHide(run, 1, 0, s.core.ready);
    run := DoSend(run, 1, 0);
    var before := run.Last();
    assert before.core.lanes == s.core.lanes && before.queue == [Rotate(0, Some(1))];
    run := DoReceive(run, entropy);
    RotatedLanes(s, before, entropy);
    run := DoPublish(run, 0, To(1, Ok(())), env);
    run := DoHide(run, 0, 1, s.core.ready);
    WithoutKeeps(s.core.ready, 1, e);
    FreshEpochs(s);
    run := DoReply(run, 1, Ok(()), env);
  }

  /** From a successful rotation of `lane` to the point where its reply goes out. */
  lemma DoPublish(run: Run, lane: nat, reply: Reply, env: Env) returns (r: Run)
    requires run.Valid() && run.Last().mgr == Publishing(Removing(lane, reply))
    ensures r.Valid() && r.states[0] == run.states[0]
    ensures var s := run.Last(); var u := s.core.unavailable - {lane};
      r.Last() == s.(mgr := Finish(reply), core := s.core.(unavailable := u, ready := ReadyLanes(s.core.lanes, u)))
    ensures r.events == run.events + [Work(env), Work(env), Work(env)] && (IsSerial(run) ==> IsSerial(r))
  {
    hide IsSerial, Exclusion.Serial;
    r := Do(run, Work(env));
    r := Do(r, Work(env));
    r := Do(r, Work(env));
  }

  lemma DoReply(run: Run, call: nat, v: Verdict, env: Env) returns (r: Run)
    requires run.Valid() && run.Last().mgr == Publishing(Replying(call, v))
    requires call in run.Last().calls && run.Last().calls[call] == Waiting
    ensures r.Valid() && r.states[0] == run.states[0]
    ensures |r.events| > 0 && r.events[|r.events| - 1].Work? && r.states[|r.events| - 1] == run.Last()
    ensures r.Last() == run.Last().(calls := run.Last().calls[call := Done(Returned(v))], mgr := Idle)
    ensures r.events == run.events + [Work(env)] && (IsSerial(run) ==> IsSerial(r))
  {
    hide IsSerial, Exclusion.Serial;
    hide Init;
    r := Do(run, Work(env));
  }

  lemma FreshEpochs(s: State)
    requires Init(s)
    ensures forall e <- s.core.ready :: e.epoch == 1
  {
    InitIsShaped(s);
    ReadyLanesMembers(s.core.lanes, {});
    forall e <- s.core.ready
      ensures e.epoch == 1
    {
      InitLane(s, e.lane);
    }
  }

  lemma DoReceive(run: Run, entropy: Entropy) returns (r: Run)
    requires run.Valid() && run.Last().mgr.Idle? && run.Last().queue != []
    ensures r.Valid() && r.states[0] == run.states[0] && r.Last() == TakeCommand(run.Last(), entropy)
    ensures IsSerial(run) && !r.Last().mgr.Restarting? ==> IsSerial(r)
    ensures r.events == run.events + [Receive(entropy)]
  {
    hide IsSerial, Exclusion.Serial;
    r := Do(run, Receive(entropy));
  }

  lemma RotatedLanes(origin: State, s: State, entropy: Entropy)
    requires Init(origin) && s.core.lanes == origin.core.lanes && origin.config.lanes >= 1 && entropy.Some?
    ensures RotateResult(s.core.lanes, 0, entropy) == Ok(())
    ensures var lanes := RotateLanes(s.core, 0, entropy, s.now);
      |lanes| > 0 && lanes[0].epoch == 2 && lanes[0].endpoint.epoch == 2 && lanes[0].state == Ready
  {
    InitIsShaped(origin);
    InitLane(origin, 0);
    KnownLaneIndex(s.core.lanes, 0);
  }

  // ---- Failed lanes -------------------------------------------------------------------------

  /** Two rotations of lane 0 that both found it in the snapshot, both queued. */
  lemma DoRotateTwice(s: State) returns (run: Run)
    requires Init(s)
    ensures run.Valid() && run.states[0] == s && run.Last().mgr.Idle?
    ensures run.Last().core.lanes == s.core.lanes && run.Last().queue == [Rotate(0, Some(0)), Rotate(0, Some(1))]
  {
    hide IsSerial, Exclusion.Serial;
    hide Init, Step, Without, FindEndpoint;
    AtLeastOneLane(s);
    FreshFinds(s, 0);
    FreshIsIdle(s);
    run := Begin(s);
    run := DoLook(run, 0, 0);
    run := DoLook(run, 1, 0);
    run := DoHide(run, 0, 0, s.core.ready);
    run := DoSend(run, 0, 0);
    run := DoHide(run, 1, 0, s.core.ready);
    run := DoSend(run, 1, 0);
  }

  /**
   A lane can be Ready again after its rotation failed, without a restart: two rotations of it
   that overlap leave two commands in the queue, and the second one succeeds.
   */
  lemma FailedLaneRevives(s: State, entropy: Entropy, env: Env) returns (run: Run, k: nat)
    requires Init(s) && entropy.Some?
    ensures run.Valid() && run.states[0] == s && k < |run.states|
    ensures 0 < |run.states[k].core.lanes| && run.states[k].core.lanes[0].state == Failed
    ensures run.states[k].mgr.Idle?
    ensures 0 < |run.Last().core.lanes| && run.Last().core.lanes[0].state == Ready
  {
    hide IsSerial, Exclusion.Serial;
    hide Init, RotateResult, RotateLanes;
    run := DoRotateTwice(s);
    FreshIsIdle(s);
    AtLeastOneLane(s);
    FailedFirst(s, run.Last());
    run := DoReceive(run, None);
    run := DoFailedReply(run, 0, env);
    k := |run.events|;
    RevivedLanes(run.Last(), entropy);
    run := Do(run, Receive(entropy));
  }

  lemma AtLeastOneLane(s: State)
    requires Init(s)
    ensures s.config.lanes >= 1
  {
  }

  lemma FailedFirst(origin: State, s: State)
    requires Init(origin) && s.core.lanes == origin.core.lanes && origin.config.lanes >= 1
    ensures RotateResult(s.core.lanes, 0, None) == Err(Internal)
    ensures var lanes := RotateLanes(s.core, 0, None, s.now);
      |lanes| > 0 && lanes[0] == s.core.lanes[0].(state := Failed) && lanes[0].epoch == 1 && lanes[0].id == 0
  {
    InitIsShaped(origin);
    InitLane(origin, 0);
    KnownLaneIndex(s.core.lanes, 0);
  }

  lemma RevivedLanes(s: State, entropy: Entropy)
    requires |s.core.lanes| > 0 && s.core.lanes[0].id == 0 && s.core.lanes[0].epoch == 1 && entropy.Some?
    ensures RotateResult(s.core.lanes, 0, entropy) == Ok(())
    ensures var lanes := RotateLanes(s.core, 0, entropy, s.now);
      |lanes| > 0 && lanes[0].state == Ready && lanes[0].id == 0
  {
    assert LaneIndex(s.core.lanes, 0) == 0;
  }

  /** From a failed rotation to the point where the manager waits again. */
  lemma DoFailedReply(run: Run, call: nat, env: Env) returns (r: Run)
    requires run.Valid() && run.Last().mgr == Publishing(Computing(To(call, Err(Internal))))
    ensures r.Valid() && r.states[0] == run.states[0] && r.Last().mgr.Idle?
    ensures r.Last().queue == run.Last().queue && r.Last().core.lanes == run.Last().core.lanes
    ensures r.Last().core.runtime == run.Last().core.runtime
  {
    hide IsSerial, Exclusion.Serial;
    hide Init, ReadyLanes;
    r := Do(run, Work(env));
    r := Do(r, Work(env));
    r := Do(r, Work(env));
  }

  /**
   A third shutdown caller returns at once although the manager still runs: the second one took
   the join handle.
   */
  lemma ThirdShutdownReturnsEarly(s: State) returns (run: Run)
    requires Init(s)
    ensures run.Valid() && run.states[0] == s
    ensures 2 in run.Last().calls && run.Last().calls[2] == Done(Returned(Ok(())))
    ensures run.Last().mgr.Idle? && run.Last().core == s.core
  {
    hide IsSerial, Exclusion.Serial;
    hide Init;
    FreshIsIdle(s);
    InitIsShaped(s);
    run := Begin(s);
    run := Do(run, Start(0, AskShutdown));
    run := Do(run, Start(1, AskShutdown));
    run := Do(run, Go(1));
    run := Do(run, Start(2, AskShutdown));
    run := Do(run, Go(2));
  }

  // ---- The manager's own window -------------------------------------------------------------

  /** The five steps of an awaited rotation of a published lane, with nothing in between. */
  function RotationSteps(call: nat, lane: nat): seq<Event> {
    [Start(call, AskRotate(lane, true)), Go(call), Go(call), Go(call), Go(call)]
  }

  lemma DoRotation(run: Run, call: nat, lane: nat) returns (r: Run)
    requires run.Valid()
    requires var s := run.Last(); call !in s.calls && !s.dropped && !s.closed && !s.mgr.Gone? && lane < s.config.lanes
                                  && FindEndpoint(s.core.ready, lane).Some?
    ensures r.Valid() && r.states[0] == run.states[0] && r.events == run.events + RotationSteps(call, lane)
    ensures var s := run.Last();
      r.Last() == At(s, call, Waiting).(
        core := s.core.(ready := Without(s.core.ready, lane), unavailable := s.core.unavailable + {lane}),
        queue := s.queue + [Rotate(lane, Some(call))])
    ensures IsSerial(run) && Exclusion.OthersOut(run.Last().calls, call) && !IsStoring(run.Last().mgr) ==> IsSerial(r)
  {
    hide IsSerial, Exclusion.Serial;
    hide Without, FindEndpoint, Init;
    var s := run.Last();
    r := DoLook(run, call, lane);
    r := DoHide(r, call, lane, s.core.ready);
    r := DoSend(r, call, lane);
    assert r.Last().calls == s.calls[call := Waiting];
  }

  /** After the ttl has passed, a tick renews lane 0 and the manager computes the snapshot to publish. */
  lemma DoExpire(s: State, entropies: seq<Entropy>, env: Env) returns (run: Run)
    requires Init(s) && s.config.ttl.Some? && |entropies| == s.config.lanes && entropies[0].Some?
    ensures run.Valid() && run.states[0] == s
    ensures run.events == [Elapse(s.config.ttl.value), Tick(entropies), Work(env)]
    ensures var t := run.Last();
      && t == s.(core := s.core.(lanes := t.core.lanes), mgr := t.mgr, now := t.now)
      && t.core.lanes == ExpireLanes(s.core, s.config.ttl, entropies, t.now)
      && t.now == s.now + s.config.ttl.value && IsSerial(run)
      && IsStoring(t.mgr) && t.mgr.publication.reply == Silent
      && t.core.lanes != [] && t.core.lanes[0].endpoint.lane == 0
      && t.core.lanes[0].endpoint in t.mgr.publication.snapshot
      && StrictlyIncreasing(t.mgr.publication.snapshot)
  {
    hide IsSerial, Exclusion.Serial;
    hide RotatedOrFailed, Init;
    FreshIsIdle(s);
    AtLeastOneLane(s);
    run := Begin(s);
    run := Do(run, Elapse(s.config.ttl.value));
    FirstExpires(s, run.Last(), entropies);
    hide ExpireLanes, AnyExpired, ReadyLanes, Published;
    run := Do(run, Tick(entropies));
    FirstIsPublished(run);
    run := Do(run, Work(env));
  }

  lemma FirstIsPublished(run: Run)
    requires run.Valid() && run.Last().core.lanes != [] && run.Last().core.unavailable == {}
    requires Published(run.Last().core.lanes[0], {})
    ensures var c := run.Last().core;
      && c.lanes[0].endpoint.lane == 0 && c.lanes[0].endpoint in ReadyLanes(c.lanes, c.unavailable)
      && StrictlyIncreasing(ReadyLanes(c.lanes, c.unavailable))
  {
    RunIsShaped(run, |run.states| - 1);
    ReadyLanesMembers(run.Last().core.lanes, {});
  }

  lemma FirstExpires(origin: State, s: State, entropies: seq<Entropy>)
    requires Init(origin) && origin.config.ttl.Some? && s == origin.(now := origin.now + origin.config.ttl.value)
    requires |entropies| == |s.core.lanes| && entropies[0].Some?
    ensures AnyExpired(s.core.lanes, s.config.ttl, s.now)
    ensures Published(ExpireLanes(s.core, s.config.ttl, entropies, s.now)[0], {})
  {
    InitIsShaped(origin);
    var bytes :| NewLane(0, origin.core.runtime, Some(bytes), origin.now) == Ok(origin.core.lanes[0]);
    assert Expired(s.core.lanes[0], s.config.ttl, s.now);
    RotationEffect(s.core.lanes[0], s.core.runtime, entropies[0], s.now);
  }

  /**
   A single rotation, with no other call in the whole run, and its lane is published while its
   Rotate is queued: the manager stores the snapshot it had computed before.
   */
  lemma StoredOverHidden(s: State, entropies: seq<Entropy>, env: Env) returns (run: Run, e: Endpoint)
    requires Init(s) && s.config.ttl.Some? && |entropies| == s.config.lanes && entropies[0].Some?
    ensures run.Valid() && run.states[0] == s
    ensures run.events == [Elapse(s.config.ttl.value), Tick(entropies), Work(env)] + RotationSteps(0, 0) + [Work(env)]
    ensures e in run.Last().core.ready && e.lane == 0 && 0 in run.Last().core.unavailable
    ensures FindEndpoint(run.Last().core.ready, 0).Some? && 1 !in run.Last().calls
    ensures run.Last().queue == [Rotate(0, Some(0))] && run.Last().mgr.Idle?
    ensures !run.Last().closed && !run.Last().dropped && run.Last().config == s.config
  {
    hide IsSerial, Exclusion.Serial;
    hide Init, Without, FindEndpoint;
    FreshIsIdle(s);
    AtLeastOneLane(s);
    FreshFinds(s, 0);
    run := DoExpire(s, entropies, env);
    e := run.Last().core.lanes[0].endpoint;
    FindIsUnique(run.Last().mgr.publication.snapshot, e);
    run := DoRotation(run, 0, 0);
    run := Do(run, Work(env));
  }

  /** So a second rotation begun after the first has returned from its send queues the lane again. */
  lemma RotationQueuedTwice(s: State, entropies: seq<Entropy>, env: Env) returns (run: Run)
    requires Init(s) && s.config.ttl.Some? && |entropies| == s.config.lanes && entropies[0].Some?
    ensures run.Valid() && run.states[0] == s
    ensures run.events == [Elapse(s.config.ttl.value), Tick(entropies), Work(env)]
                        + RotationSteps(0, 0) + [Work(env)] + RotationSteps(1, 0)
    ensures run.Last().queue == [Rotate(0, Some(0)), Rotate(0, Some(1))]
  {
    hide IsSerial, Exclusion.Serial;
    hide Init, Without, FindEndpoint;
    AtLeastOneLane(s);
    var e;
    run, e := StoredOverHidden(s, entropies, env);
    run := DoRotation(run, 1, 0);
  }

  // ---- A store within a rotation's window ---------------------------------------------------

  /** What a tick makes of lane 1 once the ttl has passed. */
  lemma SecondExpires(origin: State, entropies: seq<Entropy>)
    requires Init(origin) && origin.config.ttl.Some? && |entropies| == origin.config.lanes >= 2
    ensures |origin.core.lanes| == origin.config.lanes && origin.core.lanes[1].state == Ready
    ensures ExpireLanes(origin.core, origin.config.ttl, entropies, origin.now + origin.config.ttl.value)[0].epoch <= 2
    ensures var l := ExpireLanes(origin.core, origin.config.ttl, entropies, origin.now + origin.config.ttl.value)[1];
      if entropies[1].Some? then l.state == Ready && l.epoch == 2 && l.endpoint.epoch == 2
      else l == origin.core.lanes[1].(state := Failed) && l.epoch == 1
  {
    var bytes :| NewLane(1, origin.core.runtime, Some(bytes), origin.now) == Ok(origin.core.lanes[1]);
    InitLane(origin, 0);
    RotationEffect(origin.core.lanes[1], origin.core.runtime, entropies[1],
                   origin.now + origin.config.ttl.value);
  }

  /**
   A single rotation, of lane 0, in a serial run: the manager stores its snapshot between the look
   and the insert, and the overwrite then publishes what lane 1 had before. It is the endpoint of an
   older epoch if the tick has renewed lane 1, and a Failed lane's if it has not.
   */
  lemma StoredInWindow(s: State, entropies: seq<Entropy>, env: Env) returns (run: Run, e: Endpoint)
    requires Init(s) && s.config.lanes >= 2 && s.config.ttl.Some?
    requires |entropies| == s.config.lanes && entropies[0].Some?
    ensures run.Valid() && run.states[0] == s && Exclusion.SerialRun(run, 9)
    ensures run.events == [Elapse(s.config.ttl.value), Tick(entropies), Work(env), Start(0, AskRotate(0, true)), Go(0),
                           Work(env), Go(0), Go(0), Go(0)]
    ensures var t := run.Last();
      && t.mgr.Idle? && t.core.unavailable == {0} && t.queue == [Rotate(0, Some(0))] && t.calls == map[0 := Waiting]
      && e in t.core.ready && e.lane == 1 && e.epoch == 1 && FindEndpoint(t.core.ready, 1).Some?
      && |t.core.lanes| == t.config.lanes == s.config.lanes && !t.closed && !t.dropped
      && t.core.lanes == ExpireLanes(s.core, s.config.ttl, entropies, t.now)
      && t.core.lanes[0].epoch <= 2 && IsSerial(run)
      && (if entropies[1].Some? then t.core.lanes[1].state == Ready && t.core.lanes[1].endpoint.epoch == 2
          else t.core.lanes[1].state == Failed && t.core.lanes[1].epoch == 1)
  {
    hide IsSerial, Exclusion.Serial;
    hide Init, Without, FindEndpoint, ExpireLanes;
    FreshIsIdle(s);
    FreshFinds(s, 0);
    FreshFinds(s, 1);
    SecondExpires(s, entropies);
    e := s.core.lanes[1].endpoint;
    run := DoExpire(s, entropies, env);
    run := DoLook(run, 0, 0);
    run := Do(run, Work(env));
    run := DoHide(run, 0, 0, s.core.ready);
    run := DoSend(run, 0, 0);
    WithoutKeeps(s.core.ready, 0, e);
    FreshEpochs(s);
    SerialTo(run, 9);
    assert run.events == [Elapse(s.config.ttl.value), Tick(entropies), Work(env)]
                       + [Start(0, AskRotate(0, true)), Go(0)] + [Work(env)] + [Go(0), Go(0)] + [Go(0)];
  }

  /**
   So a Failed lane that nobody is rotating can be queued and become Ready again, without a restart
   and with no two rotations overlapping.
   */
  lemma FailedLaneIsQueued(s: State, entropies: seq<Entropy>, env: Env, entropy: Entropy)
    returns (queued: Run, run: Run)
    requires Init(s) && s.config.lanes >= 2 && s.config.ttl.Some? && entropy.Some?
    requires |entropies| == s.config.lanes && entropies[0].Some? && entropies[1].None?
    ensures queued.Valid() && queued.states[0] == s
    ensures queued.events
         == [Elapse(s.config.ttl.value), Tick(entropies), Work(env), Start(0, AskRotate(0, true)), Go(0),
             Work(env), Go(0), Go(0), Go(0)] + RotationSteps(1, 1)
    ensures var t := queued.Last();
      && t.queue == [Rotate(0, Some(0)), Rotate(1, Some(1))]
      && |t.core.lanes| >= 2 && t.core.lanes[1].state == Failed
    ensures run.Valid() && run.states[0] == s && Exclusion.SerialRun(run, |run.events|)
    ensures run.events == queued.events + [Receive(entropy)] + [Work(env), Work(env), Work(env)] + [Work(env)]
                        + [Receive(entropy)]
    ensures |run.Last().core.lanes| >= 2 && run.Last().core.lanes[1].state == Ready
  {
    hide Init, RotateLanes, RotateResult, ReadyLanes, FindEndpoint, Without, ExpireLanes;
    hide IsSerial, Exclusion.Serial, Exclusion.SerialRun;
    var e;
    queued, e := StoredInWindow(s, entropies, env);
    queued := DoRotation(queued, 1, 1);
    RotatesWell(queued, 0, entropy);
    run := DoReceive(queued, entropy);
    run := DoPublish(run, 0, To(0, Ok(())), env);
    run := DoReply(run, 0, Ok(()), env);
    RotatesWell(run, 1, entropy);
    run := DoReceive(run, entropy);
    SerialTo(run, |run.events|);
  }

  /** A Rotate of a lane whose epoch can grow, taken now with a random source that works. */
  lemma RotatesWell(run: Run, lane: nat, entropy: Entropy)
    requires run.Valid() && entropy.Some? && lane < |run.Last().core.lanes|
    requires run.Last().core.lanes[lane].epoch <= 2
    ensures var (c, now) := (run.Last().core, run.Last().now);
      && RotateResult(c.lanes, lane, entropy) == Ok(())
      && var lanes := RotateLanes(c, lane, entropy, now);
      && |lanes| == |c.lanes| && lanes[lane].state == Ready
      && forall i | 0 <= i < |lanes| && i != lane :: lanes[i] == c.lanes[i]
  {
    RunIsShaped(run, |run.states| - 1);
    KnownLaneIndex(run.Last().core.lanes, lane);
    hide Run.Valid, Shaped;
  }

  /**
   No call marks its lane within another one's look-to-send window, and the manager does nothing,
   and still a lane is published whose Rotate is queued: the second call has looked between the
   first one's insert and its overwrite.
   */
  lemma LookBetweenIsStale(s: State) returns (run: Run, e: Endpoint)
    requires Init(s) && s.config.lanes >= 2
    ensures run.Valid() && run.states[0] == s
    ensures run.events == [Start(0, AskRotate(0, true)), Go(0), Go(0), Start(1, AskRotate(1, true)), Go(1),
                           Go(0), Go(0), Go(1), Go(1)]
    ensures e in run.Last().core.ready && e.lane == 0 && 0 in run.Last().core.unavailable
    ensures run.Last().queue == [Rotate(0, Some(0))]
  {
    hide IsSerial, Exclusion.Serial;
    hide Init, Without, FindEndpoint;
    FreshFinds(s, 0);
    FreshFinds(s, 1);
    FreshIsIdle(s);
    e := s.core.lanes[0].endpoint;
    run := Begin(s);
    run := DoLook(run, 0, 0);
    run := Do(run, Go(0));
    run := DoLook(run, 1, 1);
    run := Do(run, Go(0));
    run := DoSend(run, 0, 0);
    run := DoHide(run, 1, 1, s.core.ready);
    assert run.events == [Start(0, AskRotate(0, true)), Go(0)] + [Go(0)] + [Start(1, AskRotate(1, true)), Go(1)]
                       + [Go(0)] + [Go(0)] + [Go(1), Go(1)];
    WithoutKeeps(s.core.ready, 1, e);
  }

  // ---- Restarts -----------------------------------------------------------------------------

  /** A restart command in the queue, a Rotate of lane 0 behind it, and the manager about to hide everything. */
  lemma DoTakeRestart(s: State) returns (run: Run)
    requires Init(s) && s.config.restartable
    ensures run.Valid() && run.states[0] == s
    ensures run.events == [Start(0, AskRestart), Go(0)] + RotationSteps(1, 0) + [Receive(None)]
    ensures var t := run.Last();
      && t == s.(core := t.core, queue := [Rotate(0, Some(1))], calls := map[0 := Waiting, 1 := Waiting],
                 mgr := Restarting(0, HidingReady))
      && t.core.lanes == s.core.lanes && t.core.runtime == s.core.runtime && t.core.unavailable == {0}
  {
    hide IsSerial, Exclusion.Serial;
    hide Init, Without, FindEndpoint;
    AtLeastOneLane(s);
    FreshIsIdle(s);
    FreshFinds(s, 0);
    run := Begin(s);
    run := Do(run, Start(0, AskRestart));
    run := Do(run, Go(0));
    run := DoRotation(run, 1, 0);
    run := Do(run, Receive(None));
    assert run.events == [Start(0, AskRestart)] + [Go(0)] + RotationSteps(1, 0) + [Receive(None)];
  }

  /** Up to the start of the new instance: everything is hidden and the old instance has stopped. */
  lemma DoHalt(run: Run, caller: nat, env: Env) returns (r: Run)
    requires run.Valid() && run.Last().mgr == Restarting(caller, HidingReady) && env.stopOk
    ensures r.Valid() && r.states[0] == run.states[0] && r.events == run.events + [Work(env), Work(env), Work(env)]
    ensures var s := run.Last();
      r.Last() == s.(mgr := Restarting(caller, StartingNew), core := RestartHidden(s.core).(running := false))
  {
    hide IsSerial, Exclusion.Serial;
    hide WithState, Ids, Init;
    r := Do(run, Work(env));
    r := Do(r, Work(env));
    r := Do(r, Work(env));
  }

  /** The last three steps of a restart. */
  lemma DoAnswer(run: Run, caller: nat, v: Verdict, env: Env) returns (r: Run)
    requires run.Valid() && run.Last().mgr == Publishing(Computing(To(caller, v)))
    requires caller in run.Last().calls && run.Last().calls[caller] == Waiting
    ensures r.Valid() && r.states[0] == run.states[0]
    ensures var s := run.Last();
      r.Last() == s.(mgr := Idle, core := Publish(s.core), calls := s.calls[caller := Done(Returned(v))])
  {
    hide IsSerial, Exclusion.Serial;
    hide ReadyLanes, Init;
    r := Do(run, Work(env));
    r := Do(r, Work(env));
    r := Do(r, Work(env));
  }

  /**
   A restart whose new instance does not start leaves every lane Failed, yet a Rotate queued behind
   it makes its lane Ready again and publishes an endpoint of the instance that was stopped.
   */
  lemma DeadInstanceIsPublished(s: State, entropy: Entropy) returns (run: Run, e: Endpoint)
    requires Init(s) && s.config.restartable && entropy.Some?
    ensures run.Valid() && run.states[0] == s
    ensures run.Last().mgr == Publishing(Replying(1, Ok(()))) && !run.Last().core.running
    ensures e in run.Last().core.ready && run.Last().core.lanes != [] && e == run.Last().core.lanes[0].endpoint
    ensures e.instance == s.core.runtime.instance && run.Last().core.lanes[0].state == Ready
  {
    hide IsSerial, Exclusion.Serial;
    hide Init, RotateResult, RotateLanes, ReadyLanes;
    var env := Env(None, true, None);
    FreshIsIdle(s);
    AtLeastOneLane(s);
    InitLane(s, 0);
    run := DoTakeRestart(s);
    run := DoHalt(run, 0, env);
    run := DoNoStart(run, 0, env);
    run := DoAnswer(run, 0, Err(Instance), env);
    RevivedLanes(run.Last(), entropy);
    run := DoReceive(run, entropy);
    run := DoPublish(run, 0, To(1, Ok(())), env);
    e := run.Last().core.lanes[0].endpoint;
    ShownIsPublished(run);
  }

  lemma DoNoStart(run: Run, caller: nat, env: Env) returns (r: Run)
    requires run.Valid() && run.Last().mgr == Restarting(caller, StartingNew) && env.started.None?
    ensures r.Valid() && r.states[0] == run.states[0]
    ensures var s := run.Last();
      r.Last() == s.(mgr := Publishing(Computing(To(caller, Err(Instance)))),
                     core := s.core.(lanes := WithState(s.core.lanes, Failed)))
  {
    hide IsSerial, Exclusion.Serial;
    r := Do(run, Work(env));
  }

  /** Lane 0 is Ready and not hidden. */
  predicate Shown(c: Core) {
    c.lanes != [] && c.lanes[0].id == 0 && Published(c.lanes[0], c.unavailable)
  }

  lemma ShownIsPublished(run: Run)
    requires run.Valid() && Shown(run.Last().core)
    requires run.Last().core.ready == ReadyLanes(run.Last().core.lanes, run.Last().core.unavailable)
    ensures var c := run.Last().core;
      && c.lanes[0].endpoint in c.ready && FindEndpoint(c.ready, 0) == Some(c.lanes[0].endpoint)
      && c.lanes[0].endpoint.instance == c.runtime.instance
  {
    var c := run.Last().core;
    RunIsShaped(run, |run.states| - 1);
    ReadyLanesMembers(c.lanes, c.unavailable);
    FindIsUnique(c.ready, c.lanes[0].endpoint);
  }

  /** The manager moves the lanes that are left onto the new instance. */
  lemma DoMoves(run: Run, caller: nat, next: nat, env: Env) returns (r: Run)
    requires run.Valid() && run.Last().mgr == Restarting(caller, MovingLanes(next))
    requires 1 <= next <= |run.Last().core.lanes| && Shown(run.Last().core) && env.entropy.Some?
    ensures r.Valid() && r.states[0] == run.states[0] && Shown(r.Last().core)
    ensures var s := run.Last();
      r.Last() == s.(core := r.Last().core, mgr := Publishing(Computing(To(caller, Ok(())))))
    decreases |run.Last().core.lanes| - next
  {
    hide IsSerial, Exclusion.Serial;
    hide RotatedOrFailed, Init;
    r := Do(run, Work(env));
    if next < |run.Last().core.lanes| {
      r := DoMoves(r, caller, next + 1, env);
    }
  }

  /**
   A restart shows lanes whose Rotate is still queued, so that a rotation of lane 0 after the
   restart queues it a second time although the first one was long over.
   */
  lemma RestartLetsQueueTwice(s: State, rt: Runtime, bytes: seq<Hex.byte>) returns (run: Run)
    requires Init(s) && s.config.restartable
    ensures run.Valid() && run.states[0] == s
    ensures run.Last().calls == map[0 := Done(Returned(Ok(()))), 1 := Waiting, 2 := Waiting]
    ensures run.Last().queue == [Rotate(0, Some(1)), Rotate(0, Some(2))]
  {
    hide IsSerial, Exclusion.Serial;
    hide Init, ReadyLanes, Run.Valid, FindEndpoint, Without;
    var env := Env(Some(bytes), true, Some(rt));
    FreshIsIdle(s);
    AtLeastOneLane(s);
    InitLane(s, 0);
    run := DoTakeRestart(s);
    run := DoHalt(run, 0, env);
    run := DoStartNew(run, 0, env);
    run := DoMoves(run, 0, 1, env);
    run := DoAnswer(run, 0, Ok(()), env);
    ShownIsPublished(run);
    run := DoRotation(run, 2, 0);
  }

  /** The new instance starts and lane 0 is moved onto it. */
  lemma DoStartNew(run: Run, caller: nat, env: Env) returns (r: Run)
    requires run.Valid() && run.Last().mgr == Restarting(caller, StartingNew)
    requires env.started.Some? && env.entropy.Some?
    requires var c := run.Last().core; c.lanes != [] && c.lanes[0].id == 0 && c.lanes[0].epoch == 1
    ensures r.Valid() && r.states[0] == run.states[0] && Shown(r.Last().core)
    ensures var s := run.Last();
      && r.Last() == s.(core := r.Last().core, mgr := Restarting(caller, MovingLanes(1)))
      && |r.Last().core.lanes| == |s.core.lanes|
  {
    hide IsSerial, Exclusion.Serial;
    hide Init;
    r := Do(run, Work(env));
    r := Do(r, Work(env));
  }
}
