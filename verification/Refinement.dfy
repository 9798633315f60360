/**
 The manager's commands as wholes: run without interruption, the fine steps of each command do
 exactly what the functions of PoolCore say, which are the contracts of the ManagerState methods.
 */
module Refinement {
  import opened Wrappers
  import opened Lanes
  import opened PoolCore
  import opened Protocol

  /** The manager working alone until it is idle, gone, or out of decisions to take. */
  function Works(s: State, envs: seq<Env>): State
    decreases |envs|
  {
    if envs == [] || s.mgr.Idle? || s.mgr.Gone? then s
    else Works(WorkStep(s, envs[0]), envs[1..])
  }

  /** Publishing: two shared accesses, and the answer if there is one. */
  lemma PublishingRefines(s: State, reply: Reply, envs: seq<Env>)
    requires s.mgr == Publishing(Computing(reply)) && |envs| >= 3
    ensures var t := Works(s, envs);
      && t.mgr.Idle? && t.core == Publish(s.core) && t.queue == s.queue
      && t.calls == match reply case Silent => s.calls case To(w, v) => Deliver(s.calls, w, v)
  {
    hide ReadyLanes;
    var s1 := WorkStep(s, envs[0]);
    var s2 := WorkStep(s1, envs[1..][0]);
    assert envs[1..][1..] == envs[2..];
    assert Works(s, envs) == Works(s2, envs[2..]);
    if reply.To? {
      assert Works(s2, envs[2..]) == Works(WorkStep(s2, envs[2]), envs[2..][1..]);
    }
  }

  lemma IdleRests(s: State, envs: seq<Env>)
    requires s.mgr.Idle?
    ensures Works(s, envs) == s
  {
  }

  lemma OneWork(s: State, envs: seq<Env>)
    requires envs != [] && !s.mgr.Idle? && !s.mgr.Gone?
    ensures Works(s, envs) == Works(WorkStep(s, envs[0]), envs[1..])
  {
  }

  lemma AssignRefines(s: State, entropy: Entropy, envs: seq<Env>)
    requires s.mgr.Idle? && s.queue != [] && s.queue[0].Assign? && |envs| >= 3
    ensures var t := Works(TakeCommand(s, entropy), envs);
      && t.mgr.Idle? && t.queue == s.queue[1..] && t.calls == s.calls
      && t.core == AssignCore(s.core, s.config.limit, s.queue[0].lane, s.queue[0].epoch, entropy, s.now)
  {
    hide AssignLanes, Works;
    var t := TakeCommand(s, entropy);
    if t.mgr.Publishing? {
      PublishingRefines(t, Silent, envs);
    } else {
      IdleRests(t, envs);
    }
  }

  lemma TickRefines(s: State, entropies: seq<Entropy>, envs: seq<Env>)
    requires s.mgr.Idle? && |entropies| == |s.core.lanes| && |envs| >= 3
    ensures var t := Works(TakeTick(s, entropies), envs);
      && t.mgr.Idle? && t.queue == s.queue && t.calls == s.calls
      && t.core == ExpireCore(s.core, s.config.ttl, entropies, s.now)
  {
    hide ExpireLanes, Works;
    var t := TakeTick(s, entropies);
    if t.mgr.Publishing? {
      PublishingRefines(t, Silent, envs);
    } else {
      IdleRests(t, envs);
    }
  }

  lemma RotateRefines(s: State, entropy: Entropy, envs: seq<Env>)
    requires s.mgr.Idle? && s.queue != [] && s.queue[0].Rotate? && |envs| >= 4
    ensures var t := Works(TakeCommand(s, entropy), envs);
            var result := RotateResult(s.core.lanes, s.queue[0].lane, entropy);
      && t.mgr.Idle? && t.queue == s.queue[1..]
      && t.core == RotateCore(s.core, s.queue[0].lane, entropy, s.now)
      && t.calls == match s.queue[0].waiter case None => s.calls case Some(w) => Deliver(s.calls, w, result)
  {
    hide RotateLanes, RotateResult, Works;
    var t := TakeCommand(s, entropy);
    var lane := s.queue[0].lane;
    var result := RotateResult(s.core.lanes, lane, entropy);
    var reply := ReplyTo(s.queue[0].waiter, result);
    if result.Ok? {
      OneWork(t, envs);
      PublishingRefines(WorkStep(t, envs[0]), reply, envs[1..]);
    } else if result.error.UnknownLane? {
      UnknownLaneChangesNothing(s.core, lane, entropy, s.now);
      if reply.To? {
        OneWork(t, envs);
        IdleRests(WorkStep(t, envs[0]), envs[1..]);
      } else {
        IdleRests(t, envs);
      }
    } else {
      PublishingRefines(t, reply, envs);
    }
  }

  lemma UnknownLaneChangesNothing(c: Core, lane: nat, entropy: Entropy, now: nat)
    requires RotateResult(c.lanes, lane, entropy).Err? && RotateResult(c.lanes, lane, entropy).error.UnknownLane?
    ensures RotateLanes(c, lane, entropy, now) == c.lanes
    ensures RotateResult(c.lanes, lane, entropy) == Err(UnknownLane(lane))
  {
  }

  // ---- Restart ------------------------------------------------------------------------------

  /** The random buffers drawn while the lanes are moved, one environment a lane. */
  function Drawn(envs: seq<Env>, n: nat): (r: seq<Entropy>)
    requires n <= |envs|
    ensures |r| == n
  {
    seq(n, i requires 0 <= i < n => envs[i].entropy)
  }

  lemma {:induction false} MovingRefines(s: State, waiter: nat, i: nat, c: Core, entropies: seq<Entropy>,
                                         envs: seq<Env>)
    requires i <= |c.lanes| == |entropies| && |envs| == |c.lanes| - i + 4
    requires s.mgr == Restarting(waiter, MovingLanes(i)) && s.core == RestartUpTo(c, i, entropies, s.now)
    requires forall m | i <= m < |c.lanes| :: envs[m - i].entropy == entropies[m]
    ensures var t := Works(s, envs);
      && t.mgr.Idle? && t.queue == s.queue
      && t.core == Publish(RestartUpTo(c, |c.lanes|, entropies, s.now))
      && t.calls == Deliver(s.calls, waiter, Ok(()))
    decreases |c.lanes| - i
  {
    hide RestartLane, Publish, Works;
    OneWork(s, envs);
    var s' := WorkStep(s, envs[0]);
    if i < |c.lanes| {
      assert envs[0].entropy == entropies[i];
      assert RestartUpTo(c, i + 1, entropies, s.now)
          == RestartLane(RestartUpTo(c, i, entropies, s.now), i, entropies[i], s.now);
      MovingRefines(s', waiter, i + 1, c, entropies, envs[1..]);
    } else {
      PublishingRefines(s', To(waiter, Ok(())), envs[1..]);
    }
  }

  /** `envs[2]` decides the stop, `envs[3]` the start, `envs[4..]` the lanes. */
  lemma RestartRefines(s: State, entropy: Entropy, envs: seq<Env>)
    requires s.mgr.Idle? && s.queue != [] && s.queue[0].Restart? && |envs| == |s.core.lanes| + 8
    ensures var t := Works(TakeCommand(s, entropy), envs);
            var drawn := Drawn(envs[4..], |s.core.lanes|);
      && t.mgr.Idle? && t.queue == s.queue[1..]
      && t.core == RestartCore(s.core, s.config.restartable, envs[2].stopOk, envs[3].started, drawn, s.now)
      && t.calls == Deliver(s.calls, s.queue[0].caller,
                            RestartResult(s.core, s.config.restartable, envs[2].stopOk, envs[3].started))
  {
    hide Works, RestartUpTo, Publish, WithState, Ids, Deliver;
    var t := TakeCommand(s, entropy);
    var w := s.queue[0].caller;
    OneWork(t, envs);
    if !s.config.restartable {
      IdleRests(WorkStep(t, envs[0]), envs[1..]);
    } else {
      var t1 := WorkStep(t, envs[0]);
      OneWork(t1, envs[1..]);
      var t2 := WorkStep(t1, envs[1]);
      assert envs[1..][1..] == envs[2..];
      assert t2.core == RestartHidden(s.core);
      OneWork(t2, envs[2..]);
      var t3 := WorkStep(t2, envs[2]);
      assert envs[2..][1..] == envs[3..];
      OneWork(t3, envs[3..]);
      var t4 := WorkStep(t3, envs[3]);
      assert envs[3..][1..] == envs[4..];
      if s.core.running && !envs[2].stopOk {
        IdleRests(t4, envs[4..]);
      } else {
        RestartTail(s, t3, w, envs);
      }
    }
  }

  lemma RestartTail(s: State, t3: State, w: nat, envs: seq<Env>)
    requires |envs| == |s.core.lanes| + 8 == |t3.core.lanes| + 8
    requires t3.mgr == Restarting(w, StartingNew) && t3.now == s.now
    ensures var t := Works(WorkStep(t3, envs[3]), envs[4..]);
      && t.mgr.Idle? && t.queue == t3.queue
      && t.core == Relaunch(t3.core, envs[3].started, Drawn(envs[4..], |s.core.lanes|), s.now)
      && t.calls == Deliver(t3.calls, w, if envs[3].started.None? then Err(Instance) else Ok(()))
  {
    hide Works, Publish, WithState, Deliver, RestartLane;
    var t4 := WorkStep(t3, envs[3]);
    if envs[3].started.None? {
      PublishingRefines(t4, To(w, Err(Instance)), envs[4..]);
    } else {
      MovingRefines(t4, w, 0, t4.core, Drawn(envs[4..], |s.core.lanes|), envs[4..]);
    }
  }

  // ---- Shutdown -----------------------------------------------------------------------------

  lemma ShutdownRefines(s: State, entropy: Entropy, envs: seq<Env>)
    requires s.mgr.Idle? && s.queue != [] && s.queue[0].Shutdown? && |envs| >= 4
    ensures var t := Works(TakeCommand(s, entropy), envs);
      && t.mgr.Gone? && t.queue == [] && t.core == ShutdownCore(s.core)
      && t.calls == Deliver(s.calls, s.queue[0].caller, ShutdownResult(s.core, envs[1].stopOk))
  {
    hide Works, Deliver;
    var t0 := TakeCommand(s, entropy);
    OneWork(t0, envs);
    var t1 := WorkStep(t0, envs[0]);
    OneWork(t1, envs[1..]);
    assert envs[1..][1..] == envs[2..];
    var t2 := WorkStep(t1, envs[1]);
    OneWork(t2, envs[2..]);
    assert envs[2..][1..] == envs[3..];
    var t3 := WorkStep(t2, envs[2]);
    OneWork(t3, envs[3..]);
    GoneRests(WorkStep(t3, envs[3]), envs[3..][1..]);
  }

  lemma GoneRests(s: State, envs: seq<Env>)
    requires s.mgr.Gone?
    ensures Works(s, envs) == s
  {
  }
}
