/** Building a pool (src/pool/manager.rs:243-274, 451-459): where every run starts. */
module Spawn {
  import opened Wrappers
  import opened Lanes
  import opened PoolCore
  import opened Protocol

  /** Lanes in the order of their ids, up to the first that cannot be made. */
  function CreateLanes(rt: Runtime, entropies: seq<Entropy>, now: nat): (r: Result<seq<LaneData>, LaneError>)
    ensures r.Ok? ==> |r.value| == |entropies|
  {
    if entropies == [] then Ok([])
    else
      var n := |entropies| - 1;
      var front :- CreateLanes(rt, entropies[..n], now);
      var last :- NewLane(n, rt, entropies[n], now);
      Ok(front + [last])
  }

  /** The pool and its manager as they are put together; `ready` is computed from the lanes. */
  function Spawned(config: Config, rt: Runtime, running: bool, entropies: seq<Entropy>, now: nat)
    : Result<State, LaneError>
  {
    var lanes :- CreateLanes(rt, entropies, now);
    Ok(State(config, Core(lanes, rt, running, ReadyLanes(lanes, {}), {}), [], map[], Idle, 0, false, true, false, now))
  }

  lemma {:induction false} CreatedLanes(rt: Runtime, entropies: seq<Entropy>, now: nat)
    ensures CreateLanes(rt, entropies, now).Ok? <==> forall i | 0 <= i < |entropies| :: entropies[i].Some?
    ensures var r := CreateLanes(rt, entropies, now);
      r.Ok? ==> forall i | 0 <= i < |entropies| :: NewLane(i, rt, entropies[i], now) == Ok(r.value[i])
  {
    if entropies != [] {
      CreatedLanes(rt, entropies[..|entropies| - 1], now);
    }
  }

  /**
   A validated configuration yields a pool exactly when the random source serves every lane, and
   that pool is a starting state of the protocol.
   */
  lemma SpawnedIsInit(config: Config, rt: Runtime, running: bool, entropies: seq<Entropy>, now: nat)
    requires 1 <= config.lanes == |entropies| && (config.limit.Some? ==> 1 <= config.limit.value <= U64_MAX)
    ensures var r := Spawned(config, rt, running, entropies, now);
      && (r.Ok? <==> forall i | 0 <= i < |entropies| :: entropies[i].Some?)
      && (r.Ok? ==> Init(r.value))
  {
    CreatedLanes(rt, entropies, now);
    var r := CreateLanes(rt, entropies, now);
    if r.Ok? {
      forall i | 0 <= i < |r.value|
        ensures exists bytes :: NewLane(i, rt, Some(bytes), now) == Ok(r.value[i])
      {
        assert NewLane(i, rt, Some(entropies[i].value), now) == Ok(r.value[i]);
      }
    }
  }
}
