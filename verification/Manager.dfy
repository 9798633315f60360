/** The manager's state as objects updated in place (src/pool/manager.rs:340-449). */
module Manager {
  import opened Wrappers
  import opened Lanes
  import opened PoolCore

  /** The two locked values every pool handle can reach. */
  class Shared {
    var ready: seq<Endpoint>
    var unavailable: set<nat>

    constructor (ready: seq<Endpoint>, unavailable: set<nat>)
      ensures this.ready == ready && this.unavailable == unavailable
    {
      this.ready, this.unavailable := ready, unavailable;
    }
  }

  class ManagerState {
    const config: Config
    var lanes: seq<Lane>
    const shared: Shared
    var runtime: Runtime
    var running: bool

    ghost predicate Valid()
      reads this
    {
      forall i, j | 0 <= i < j < |lanes| :: lanes[i] != lanes[j]
    }

    function Datas(): (r: seq<LaneData>)
      reads this, lanes
      ensures |r| == |lanes|
    {
      seq(|lanes|, i requires 0 <= i < |lanes| reads this, lanes => lanes[i].Data())
    }

    function View(): Core
      reads this, lanes, shared
    {
      Core(Datas(), runtime, running, shared.ready, shared.unavailable)
    }

    constructor (config: Config, lanes: seq<Lane>, shared: Shared, runtime: Runtime, running: bool)
      requires forall i, j | 0 <= i < j < |lanes| :: lanes[i] != lanes[j]
      ensures Valid() && this.lanes == lanes && this.shared == shared && this.config == config
      ensures this.runtime == runtime && this.running == running
    {
      this.config, this.lanes, this.shared := config, lanes, shared;
      this.runtime, this.running := runtime, running;
    }

    method PublishReady()
      requires Valid()
      modifies shared
      ensures View() == Publish(old(View()))
    {
      shared.ready := ReadyLanes(Datas(), shared.unavailable);
    }

    method Assign(id: nat, epoch: nat, entropy: Entropy, now: nat)
      requires Valid()
      modifies shared, lanes
      ensures View() == AssignCore(old(View()), config.limit, id, epoch, entropy, now)
    {
      if config.limit.None? {
        return;
      }
      ghost var before := Datas();
      var i := AssignIndex(Datas(), id, epoch);
      if i == |lanes| {
        return;
      }
      var lane := lanes[i];
      lane.assignments := SaturatingIncrement(lane.assignments);
      assert Datas() == before[i := Counted(before[i])];
      if lane.assignments < config.limit.value {
        return;
      }
      var _ := lane.RotateOrFail(runtime, entropy, now);
      assert Datas() == before[i := RotatedOrFailed(Counted(before[i]), runtime, entropy, now)];
      PublishReady();
    }

    method Rotate(id: nat, entropy: Entropy, now: nat) returns (r: Result<(), Error>)
      requires Valid()
      modifies shared, lanes
      ensures View() == RotateCore(old(View()), id, entropy, now)
      ensures r == RotateResult(old(Datas()), id, entropy)
    {
      ghost var before := Datas();
      var i := LaneIndex(Datas(), id);
      if i == |lanes| {
        return Err(UnknownLane(id));
      }
      var rotated := lanes[i].RotateOrFail(runtime, entropy, now);
      assert Datas() == before[i := RotatedOrFailed(before[i], runtime, entropy, now)];
      if rotated.Ok? {
        shared.unavailable := shared.unavailable - {id};
        r := Ok(());
      } else {
        r := Err(Internal);
      }
      PublishReady();
    }

    /** One turn of the expiry loop. */
    method ExpireAt(i: nat, entropy: Entropy, now: nat) returns (expired: bool)
      requires Valid() && i < |lanes|
      modifies lanes[i]
      ensures Datas() == old(Datas())[i := ExpireLane(old(Datas())[i], config.ttl, runtime, entropy, now)]
      ensures expired <==> Expired(old(Datas())[i], config.ttl, now)
    {
      expired := Expired(lanes[i].Data(), config.ttl, now);
      if expired {
        var _ := lanes[i].RotateOrFail(runtime, entropy, now);
      }
    }

    method RotateExpired(entropy: seq<Entropy>, now: nat)
      requires Valid() && |entropy| == |lanes|
      modifies shared, lanes
      ensures View() == ExpireCore(old(View()), config.ttl, entropy, now)
    {
      var changed := false;
      ghost var before := Datas();
      if config.ttl.None? {
        assert Datas() == ExpireLanes(View(), config.ttl, entropy, now);
        return;
      }
      hide ExpireLane, Expired;
      for i := 0 to |lanes|
        invariant forall j | 0 <= j < i :: Datas()[j] == ExpireLane(before[j], config.ttl, runtime, entropy[j], now)
        invariant forall j | i <= j < |lanes| :: Datas()[j] == before[j]
        invariant changed <==> exists j | 0 <= j < i :: Expired(before[j], config.ttl, now)
        invariant shared.ready == old(shared.ready) && shared.unavailable == old(shared.unavailable)
      {
        var expired := ExpireAt(i, entropy[i], now);
        changed := changed || expired;
      }
      assert Datas() == ExpireLanes(old(View()), config.ttl, entropy, now);
      if changed {
        PublishReady();
      }
    }

    method SetStates(state: LaneState)
      requires Valid()
      modifies lanes
      ensures Datas() == WithState(old(Datas()), state)
    {
      ghost var before := Datas();
      for i := 0 to |lanes|
        invariant forall j | 0 <= j < i :: lanes[j].Data() == before[j].(state := state)
        invariant forall j | i <= j < |lanes| :: lanes[j].Data() == before[j]
      {
        lanes[i].state := state;
      }
    }

    method RotateAllLanes(entropy: seq<Entropy>, now: nat)
      requires Valid() && |entropy| == |lanes|
      modifies shared, lanes
      ensures View() == RestartUpTo(old(View()), |lanes|, entropy, now)
    {
      ghost var before := View();
      for i := 0 to |lanes|
        invariant View() == RestartUpTo(before, i, entropy, now)
      {
        ghost var datas := Datas();
        var rotated := lanes[i].RotateOrFail(runtime, entropy[i], now);
        assert Datas() == datas[i := RotatedOrFailed(datas[i], runtime, entropy[i], now)];
        if rotated.Ok? {
          shared.unavailable := shared.unavailable - {lanes[i].id};
        }
      }
    }

    /** The first part of a restart: nothing is published any more and every lane is Retiring. */
    method HideLanes()
      requires Valid()
      modifies shared, lanes
      ensures View() == RestartHidden(old(View()))
    {
      shared.ready := [];
      shared.unavailable := shared.unavailable + Ids(Datas());
      SetStates(Retiring);
    }

    /** Takes the instance, if there is one, and stops it. */
    method StopInstance(stopOk: bool) returns (r: Result<(), Error>)
      requires Valid()
      modifies this`running
      ensures View() == old(View()).(running := false)
      ensures r == ShutdownResult(old(View()), stopOk)
    {
      if running {
        running := false;
        if !stopOk {
          return Err(Instance);
        }
      }
      return Ok(());
    }

    /** The second part of a restart: the lanes fail together or move to the new instance. */
    method RelaunchLanes(started: Option<Runtime>, entropy: seq<Entropy>, now: nat)
      requires Valid() && |entropy| == |lanes|
      modifies this`runtime, this`running, shared, lanes
      ensures View() == Relaunch(old(View()), started, entropy, now)
    {
      ghost var before := View();
      if started.None? {
        SetStates(Failed);
        assert View() == before.(lanes := WithState(before.lanes, Failed));
      } else {
        runtime, running := started.value, true;
        assert View() == before.(runtime := started.value, running := true);
        RotateAllLanes(entropy, now);
      }
      PublishReady();
    }

    method Restart(stopOk: bool, started: Option<Runtime>, entropy: seq<Entropy>, now: nat)
      returns (r: Result<(), Error>)
      requires Valid() && |entropy| == |lanes|
      modifies this`runtime, this`running, shared, lanes
      ensures Valid()
      ensures View() == RestartCore(old(View()), config.restartable, stopOk, started, entropy, now)
      ensures r == RestartResult(old(View()), config.restartable, stopOk, started)
    {
      if !config.restartable {
        return Err(RestartUnavailable);
      }
      HideLanes();
      var stopped := StopInstance(stopOk);
      if stopped.Err? {
        return Err(Instance);
      }
      RelaunchLanes(started, entropy, now);
      r := if started.None? then Err(Instance) else Ok(());
    }

    method ShutdownInstance(stopOk: bool) returns (r: Result<(), Error>)
      requires Valid()
      modifies this`running, shared
      ensures Valid()
      ensures View() == ShutdownCore(old(View()))
      ensures r == ShutdownResult(old(View()), stopOk)
    {
      shared.ready := [];
      r := StopInstance(stopOk);
    }
  }
}
