/**
 The state the manager and the pool handles work on, and what each manager command
 does to it when nothing runs in between (src/pool/manager.rs).
 */
module PoolCore {
  import opened Wrappers
  import opened Lanes
  import opened Select

  /** Errors a pool call can report. */
  datatype Error =
    | Closed | NoReadyLanes | LaneUnavailable(lane: nat) | UnknownLane(lane: nat)
    | Internal | Instance | RestartUnavailable

  datatype Config = Config(lanes: nat, limit: Option<nat>, ttl: Option<nat>, restartable: bool)

  /** `ready` and `unavailable` are shared with the pool handles; the rest is the manager's own. */
  datatype Core = Core(
    lanes: seq<LaneData>, runtime: Runtime, running: bool,
    ready: seq<Endpoint>, unavailable: set<nat>)

  // ---- The snapshot the cache stands for ----------------------------------------------------

  predicate Published(l: LaneData, unavailable: set<nat>) {
    l.state == Ready && l.id !in unavailable
  }

  function ReadyLanes(lanes: seq<LaneData>, unavailable: set<nat>): (r: seq<Endpoint>)
    ensures |r| <= |lanes|
  {
    if lanes == [] then []
    else
      var front := ReadyLanes(lanes[..|lanes| - 1], unavailable);
      var last := lanes[|lanes| - 1];
      if Published(last, unavailable) then front + [last.endpoint] else front
  }

  function Publish(c: Core): Core {
    c.(ready := ReadyLanes(c.lanes, c.unavailable))
  }

  // ---- Assign -------------------------------------------------------------------------------

  predicate Assignable(l: LaneData, id: nat, epoch: nat) {
    l.id == id && l.epoch == epoch && l.state == Ready
  }

  /** The first lane an assignment of `(id, epoch)` counts for; `|lanes|` when there is none. */
  function AssignIndex(lanes: seq<LaneData>, id: nat, epoch: nat): (i: nat)
    ensures i <= |lanes|
    ensures i < |lanes| ==> Assignable(lanes[i], id, epoch)
    ensures forall j | 0 <= j < i :: !Assignable(lanes[j], id, epoch)
  {
    if lanes == [] || Assignable(lanes[0], id, epoch) then 0
    else 1 + AssignIndex(lanes[1..], id, epoch)
  }

  function SaturatingIncrement(n: nat): nat {
    if n >= U64_MAX then U64_MAX else n + 1
  }

  function Counted(l: LaneData): LaneData {
    l.(assignments := SaturatingIncrement(l.assignments))
  }

  /** Does this assignment reach the limit and so rotate its lane? */
  predicate AssignRotates(lanes: seq<LaneData>, limit: Option<nat>, id: nat, epoch: nat) {
    limit.Some? && var i := AssignIndex(lanes, id, epoch);
    i < |lanes| && Counted(lanes[i]).assignments >= limit.value
  }

  function AssignLanes(c: Core, limit: Option<nat>, id: nat, epoch: nat, entropy: Entropy, now: nat): (r: seq<LaneData>)
    ensures |r| == |c.lanes|
  {
    var i := AssignIndex(c.lanes, id, epoch);
    if limit.None? || i == |c.lanes| then c.lanes
    else if AssignRotates(c.lanes, limit, id, epoch) then
      c.lanes[i := RotatedOrFailed(Counted(c.lanes[i]), c.runtime, entropy, now)]
    else c.lanes[i := Counted(c.lanes[i])]
  }

  function AssignCore(c: Core, limit: Option<nat>, id: nat, epoch: nat, entropy: Entropy, now: nat): Core {
    var c' := c.(lanes := AssignLanes(c, limit, id, epoch, entropy, now));
    if AssignRotates(c.lanes, limit, id, epoch) then Publish(c') else c'
  }

  // ---- Rotate -------------------------------------------------------------------------------

  function LaneIndex(lanes: seq<LaneData>, id: nat): (i: nat)
    ensures i <= |lanes|
    ensures i < |lanes| ==> lanes[i].id == id
    ensures forall j | 0 <= j < i :: lanes[j].id != id
  {
    if lanes == [] || lanes[0].id == id then 0 else 1 + LaneIndex(lanes[1..], id)
  }

  function RotateResult(lanes: seq<LaneData>, id: nat, entropy: Entropy): Result<(), Error> {
    var i := LaneIndex(lanes, id);
    if i == |lanes| then Err(UnknownLane(id))
    else if RotationError(lanes[i], entropy).Some? then Err(Internal)
    else Ok(())
  }

  function RotateLanes(c: Core, id: nat, entropy: Entropy, now: nat): (r: seq<LaneData>)
    ensures |r| == |c.lanes|
  {
    var i := LaneIndex(c.lanes, id);
    if i == |c.lanes| then c.lanes
    else c.lanes[i := RotatedOrFailed(c.lanes[i], c.runtime, entropy, now)]
  }

  function RotateCore(c: Core, id: nat, entropy: Entropy, now: nat): Core {
    var c' := c.(lanes := RotateLanes(c, id, entropy, now));
    match RotateResult(c.lanes, id, entropy)
    case Ok(_) => Publish(c'.(unavailable := c.unavailable - {id}))
    case Err(UnknownLane(_)) => c
    case Err(_) => Publish(c')
  }

  // ---- Time-to-live -------------------------------------------------------------------------

  predicate Expired(l: LaneData, ttl: Option<nat>, now: nat) {
    ttl.Some? && l.state == Ready && now >= l.createdAt && now - l.createdAt >= ttl.value
  }

  function ExpireLane(l: LaneData, ttl: Option<nat>, rt: Runtime, entropy: Entropy, now: nat): LaneData {
    if Expired(l, ttl, now) then RotatedOrFailed(l, rt, entropy, now) else l
  }

  function ExpireLanes(c: Core, ttl: Option<nat>, entropy: seq<Entropy>, now: nat): (r: seq<LaneData>)
    requires |entropy| == |c.lanes|
    ensures |r| == |c.lanes|
  {
    seq(|c.lanes|, i requires 0 <= i < |c.lanes| => ExpireLane(c.lanes[i], ttl, c.runtime, entropy[i], now))
  }

  predicate AnyExpired(lanes: seq<LaneData>, ttl: Option<nat>, now: nat) {
    exists i | 0 <= i < |lanes| :: Expired(lanes[i], ttl, now)
  }

  function ExpireCore(c: Core, ttl: Option<nat>, entropy: seq<Entropy>, now: nat): Core
    requires |entropy| == |c.lanes|
  {
    var c' := c.(lanes := ExpireLanes(c, ttl, entropy, now));
    if AnyExpired(c.lanes, ttl, now) then Publish(c') else c'
  }

  // ---- Restart ------------------------------------------------------------------------------

  function WithState(lanes: seq<LaneData>, state: LaneState): (r: seq<LaneData>)
    ensures |r| == |lanes|
  {
    seq(|lanes|, i requires 0 <= i < |lanes| => lanes[i].(state := state))
  }

  function Ids(lanes: seq<LaneData>): set<nat> {
    set i | 0 <= i < |lanes| :: lanes[i].id
  }

  /** Everything is hidden before the old instance is touched. */
  function RestartHidden(c: Core): Core {
    c.(ready := [], unavailable := c.unavailable + Ids(c.lanes), lanes := WithState(c.lanes, Retiring))
  }

  /** Lane `i` is rotated onto the new instance and, on success, shown again. */
  function RestartLane(c: Core, i: nat, entropy: Entropy, now: nat): Core
    requires i < |c.lanes|
  {
    var c' := c.(lanes := c.lanes[i := RotatedOrFailed(c.lanes[i], c.runtime, entropy, now)]);
    if RotationError(c.lanes[i], entropy).Some? then c'
    else c'.(unavailable := c.unavailable - {c.lanes[i].id})
  }

  function RestartUpTo(c: Core, n: nat, entropy: seq<Entropy>, now: nat): (r: Core)
    requires n <= |c.lanes| == |entropy|
    ensures |r.lanes| == |c.lanes|
  {
    if n == 0 then c
    else RestartLane(RestartUpTo(c, n - 1, entropy, now), n - 1, entropy[n - 1], now)
  }

  /** `stopOk` and `started` are what the old instance's shutdown and the new one's start yield. */
  function RestartResult(c: Core, restartable: bool, stopOk: bool, started: Option<Runtime>): Result<(), Error> {
    if !restartable then Err(RestartUnavailable)
    else if (c.running && !stopOk) || started.None? then Err(Instance)
    else Ok(())
  }

  /** The second half of a restart, once the old instance is gone. */
  function Relaunch(c: Core, started: Option<Runtime>, entropy: seq<Entropy>, now: nat): Core
    requires |entropy| == |c.lanes|
  {
    if started.None? then Publish(c.(lanes := WithState(c.lanes, Failed)))
    else Publish(RestartUpTo(c.(runtime := started.value, running := true), |c.lanes|, entropy, now))
  }

  function RestartCore(c: Core, restartable: bool, stopOk: bool, started: Option<Runtime>,
                       entropy: seq<Entropy>, now: nat): Core
    requires |entropy| == |c.lanes|
  {
    var hidden := RestartHidden(c).(running := false);
    if !restartable then c
    else if c.running && !stopOk then hidden
    else Relaunch(hidden, started, entropy, now)
  }

  // ---- Shutdown -----------------------------------------------------------------------------

  function ShutdownResult(c: Core, stopOk: bool): Result<(), Error> {
    if c.running && !stopOk then Err(Instance) else Ok(())
  }

  function ShutdownCore(c: Core): Core {
    c.(ready := [], running := false)
  }

  // ---- What the snapshot function means -----------------------------------------------------

  /** Lane `i` has id `i`, and its endpoint is its own, of its current epoch. */
  ghost predicate WellFormed(lanes: seq<LaneData>) {
    forall i | 0 <= i < |lanes| ::
      && lanes[i].id == i && lanes[i].endpoint.lane == i
      && lanes[i].endpoint.epoch == lanes[i].epoch <= U64_MAX
      && lanes[i].endpoint.auth.username == Username(i, lanes[i].epoch)
  }

  /** Exactly the endpoints of the Ready lanes outside `unavailable`, in lane order. */
  lemma {:induction false} ReadyLanesMembers(lanes: seq<LaneData>, unavailable: set<nat>)
    requires WellFormed(lanes)
    ensures StrictlyIncreasing(ReadyLanes(lanes, unavailable))
    ensures forall e <- ReadyLanes(lanes, unavailable) ::
              e.lane < |lanes| && e == lanes[e.lane].endpoint && Published(lanes[e.lane], unavailable)
    ensures forall i | 0 <= i < |lanes| && Published(lanes[i], unavailable) ::
              lanes[i].endpoint in ReadyLanes(lanes, unavailable)
  {
    if lanes != [] {
      var front := lanes[..|lanes| - 1];
      ReadyLanesMembers(front, unavailable);
      forall i | 0 <= i < |lanes| && Published(lanes[i], unavailable)
        ensures lanes[i].endpoint in ReadyLanes(lanes, unavailable)
      {
        if i < |front| {
          assert front[i] == lanes[i];
        }
      }
    }
  }

  /** The snapshot depends on nothing but which endpoints are published. */
  lemma {:induction false} ReadyLanesCongruence(lanes: seq<LaneData>, lanes': seq<LaneData>, u: set<nat>, u': set<nat>)
    requires |lanes| == |lanes'|
    requires forall i | 0 <= i < |lanes| ::
               && Published(lanes[i], u) == Published(lanes'[i], u')
               && (Published(lanes[i], u) ==> lanes[i].endpoint == lanes'[i].endpoint)
    ensures ReadyLanes(lanes, u) == ReadyLanes(lanes', u')
  {
    if lanes != [] {
      ReadyLanesCongruence(lanes[..|lanes| - 1], lanes'[..|lanes| - 1], u, u');
    }
  }

  /** Filtering one lane out of the snapshot is what marking it unavailable publishes. */
  lemma {:induction false} HidingOneLane(lanes: seq<LaneData>, u: set<nat>, id: nat)
    requires WellFormed(lanes)
    ensures Without(ReadyLanes(lanes, u), id) == ReadyLanes(lanes, u + {id})
  {
    if lanes != [] {
      var front := lanes[..|lanes| - 1];
      HidingOneLane(front, u, id);
      var r := ReadyLanes(lanes, u);
      if Published(lanes[|lanes| - 1], u) {
        assert r[..|r| - 1] == ReadyLanes(front, u);
      }
    }
  }

  lemma {:induction false} NothingReady(lanes: seq<LaneData>, u: set<nat>)
    requires forall i | 0 <= i < |lanes| :: lanes[i].state != Ready
    ensures ReadyLanes(lanes, u) == []
  {
    if lanes != [] {
      NothingReady(lanes[..|lanes| - 1], u);
    }
  }

  /** Counting and expiry leave a Failed lane alone. */
  lemma PolicyLeavesFailed(c: Core, limit: Option<nat>, id: nat, epoch: nat, entropy: Entropy, now: nat, lane: nat)
    requires lane < |c.lanes| && c.lanes[lane].state == Failed
    ensures AssignLanes(c, limit, id, epoch, entropy, now)[lane] == c.lanes[lane]
    ensures forall ttl, entropies | |entropies| == |c.lanes| ::
              ExpireLanes(c, ttl, entropies, now)[lane] == c.lanes[lane]
  {
    hide RotatedOrFailed, Counted;
  }

  // ---- What the commands do, lane by lane ---------------------------------------------------

  /**
   An assignment counts for the Ready lane it names, if that is at the epoch it names and there is a
   limit; at the limit the lane is renewed or fails. It touches no other lane.
   */
  lemma AssignEffect(c: Core, limit: Option<nat>, id: nat, epoch: nat, entropy: Entropy, now: nat, i: nat)
    requires WellFormed(c.lanes) && i < |c.lanes|
    ensures var (l, l') := (c.lanes[i], AssignLanes(c, limit, id, epoch, entropy, now)[i]);
      var counts := limit.Some? && i == id && l.epoch == epoch && l.state == Ready;
      && (!counts ==> l' == l)
      && (counts && l.assignments < U64_MAX && l.assignments + 1 < limit.value ==>
            l' == l.(assignments := l.assignments + 1))
      && (counts && l.assignments < U64_MAX && l.assignments + 1 >= limit.value ==>
            l' == RotatedOrFailed(l.(assignments := l.assignments + 1), c.runtime, entropy, now))
  {
    hide RotatedOrFailed;
    var index := AssignIndex(c.lanes, id, epoch);
    assert c.lanes[i].id == i;
    assert index < |c.lanes| ==> c.lanes[index].id == index;
  }

  /** A rotation reports an unknown lane, a failed rotation, or success, and touches its lane only. */
  lemma RotateEffect(c: Core, id: nat, entropy: Entropy, now: nat, i: nat)
    requires WellFormed(c.lanes) && i < |c.lanes|
    ensures RotateResult(c.lanes, id, entropy)
         == if id >= |c.lanes| then Err(UnknownLane(id))
            else if c.lanes[id].epoch < U64_MAX && entropy.Some? then Ok(())
            else Err(Internal)
    ensures RotateLanes(c, id, entropy, now)[i]
         == if i == id then RotatedOrFailed(c.lanes[i], c.runtime, entropy, now) else c.lanes[i]
  {
    hide RotatedOrFailed;
    var index := LaneIndex(c.lanes, id);
    assert id < |c.lanes| ==> c.lanes[id].id == id;
    assert index < |c.lanes| ==> c.lanes[index].id == index;
  }
}
