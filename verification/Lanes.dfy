/** One logical lane: its endpoint, credentials and rotation (src/pool/lane.rs). */
module Lanes {
  import opened Wrappers
  import opened Hex
  import opened Decimal

  const U64_MAX: nat := 0xFFFF_FFFF_FFFF_FFFF

  datatype SocketAddr = SocketAddr(host: string, port: nat)

  /** The running Tor instance every fresh endpoint is bound to. */
  datatype Runtime = Runtime(instance: nat, addr: SocketAddr)

  datatype SocksAuth = SocksAuth(username: string, password: string)

  datatype Endpoint = Endpoint(lane: nat, epoch: nat, instance: nat, addr: SocketAddr, auth: SocksAuth)

  datatype LaneState = Ready | Retiring | Failed

  datatype LaneError = EpochOverflow(lane: nat) | Random

  /** What the random source yields: a filled buffer, or nothing when it fails. */
  type Entropy = Option<seq<byte>>

  /** The value of a lane at one moment. */
  datatype LaneData = LaneData(
    id: nat, epoch: nat, endpoint: Endpoint, createdAt: nat, assignments: nat, state: LaneState)

  function Username(id: nat, epoch: nat): string {
    "lane-" + Padded(6, Numeral(id)) + "-" + Padded(8, Numeral(epoch))
  }

  function LaneAuth(id: nat, epoch: nat, entropy: Entropy): Result<SocksAuth, LaneError> {
    match entropy
    case None => Err(Random)
    case Some(bytes) => Ok(SocksAuth(Username(id, epoch), Encode(Lower, bytes)))
  }

  function NewLane(id: nat, rt: Runtime, entropy: Entropy, now: nat): Result<LaneData, LaneError> {
    var auth :- LaneAuth(id, 1, entropy);
    Ok(LaneData(id, 1, Endpoint(id, 1, rt.instance, rt.addr, auth), now, 0, Ready))
  }

  /** Why a rotation fails, if it does: the epoch check comes before the random source. */
  function RotationError(l: LaneData, entropy: Entropy): Option<LaneError> {
    if l.epoch >= U64_MAX then Some(EpochOverflow(l.id))
    else if entropy.None? then Some(Random)
    else None
  }

  /** The lane after `rotate_lane`; a failure leaves it Retiring at its old epoch. */
  function Rotated(l: LaneData, rt: Runtime, entropy: Entropy, now: nat): LaneData {
    if RotationError(l, entropy).Some? then l.(state := Retiring)
    else
      var auth := SocksAuth(Username(l.id, l.epoch + 1), Encode(Lower, entropy.value));
      l.(epoch := l.epoch + 1,
         endpoint := Endpoint(l.id, l.epoch + 1, rt.instance, rt.addr, auth),
         assignments := 0, createdAt := now, state := Ready)
  }

  /** Every caller marks a lane Failed when its rotation fails. */
  function RotatedOrFailed(l: LaneData, rt: Runtime, entropy: Entropy, now: nat): (r: LaneData) {
    var r := Rotated(l, rt, entropy, now);
    if RotationError(l, entropy).Some? then r.(state := Failed) else r
  }

  /** `lane-`, the lane in six digits or more, a dash, and the epoch in eight or more. */
  ghost predicate Names(username: string, id: nat, epoch: nat) {
    exists a, b | AllDigits(a) && AllDigits(b) ::
      && username == "lane-" + a + "-" + b && Value(a) == id && Value(b) == epoch
      && |a| == (if |Numeral(id)| < 6 then 6 else |Numeral(id)|)
      && |b| == (if |Numeral(epoch)| < 8 then 8 else |Numeral(epoch)|)
  }

  /** What credentials are made of: the name of a lane and an epoch, and random bytes in lower-case digits. */
  ghost predicate CredentialsOf(auth: SocksAuth, id: nat, epoch: nat, bytes: seq<byte>) {
    && Names(auth.username, id, epoch)
    && Decode(auth.password) == Some(bytes) && forall c <- auth.password :: !('A' <= c <= 'Z')
  }

  lemma UsernameNames(id: nat, epoch: nat)
    ensures Names(Username(id, epoch), id, epoch)
  {
    var a, b := Padded(6, Numeral(id)), Padded(8, Numeral(epoch));
    ValueOfPadded(6, Numeral(id));
    ValueOfPadded(8, Numeral(epoch));
    ValueOfNumeral(id);
    ValueOfNumeral(epoch);
    hide Value, Numeral, Padded;
    assert Username(id, epoch) == "lane-" + a + "-" + b;
  }

  lemma LaneAuthMeans(id: nat, epoch: nat, entropy: Entropy)
    requires entropy.Some?
    ensures LaneAuth(id, epoch, entropy).Ok?
    ensures CredentialsOf(LaneAuth(id, epoch, entropy).value, id, epoch, entropy.value)
  {
    hide Names, Decode, Encode, Username;
    UsernameNames(id, epoch);
    DecodeEncode(Lower, entropy.value);
    LowerHasNoCapitals(entropy.value);
  }

  method GenerateLaneAuth(id: nat, epoch: nat, entropy: Entropy) returns (r: Result<SocksAuth, LaneError>)
    ensures r == LaneAuth(id, epoch, entropy)
    ensures entropy.None? ==> r == Err(Random)
    ensures entropy.Some? ==> r.Ok? && CredentialsOf(r.value, id, epoch, entropy.value)
  {
    if entropy.Some? {
      LaneAuthMeans(id, epoch, entropy);
    }
    var username := "lane-" + Padded(6, Numeral(id)) + "-" + Padded(8, Numeral(epoch));
    if entropy.None? {
      return Err(Random);
    }
    var password := EncodeHex(Lower, entropy.value);
    return Ok(SocksAuth(username, password));
  }

  class Lane {
    const id: nat
    var epoch: nat
    var endpoint: Endpoint
    var createdAt: nat
    var assignments: nat
    var state: LaneState

    function Data(): LaneData
      reads this
    {
      LaneData(id, epoch, endpoint, createdAt, assignments, state)
    }

    constructor (data: LaneData)
      ensures Data() == data
    {
      id, epoch, endpoint := data.id, data.epoch, data.endpoint;
      createdAt, assignments, state := data.createdAt, data.assignments, data.state;
    }

    method Rotate(rt: Runtime, entropy: Entropy, now: nat) returns (r: Result<(), LaneError>)
      modifies this
      ensures Data() == Rotated(old(Data()), rt, entropy, now)
      ensures r == match RotationError(old(Data()), entropy) case Some(e) => Err(e) case None => Ok(())
      ensures old(epoch) >= 0xFFFF_FFFF_FFFF_FFFF ==> r == Err(EpochOverflow(id))
      ensures old(epoch) < 0xFFFF_FFFF_FFFF_FFFF && entropy.None? ==> r == Err(Random)
    {
      hide CredentialsOf, Username, Encode;
      state := Retiring;
      if epoch >= U64_MAX {
        return Err(EpochOverflow(id));
      }
      var next := epoch + 1;
      var auth := GenerateLaneAuth(id, next, entropy);
      if auth.Err? {
        return Err(auth.error);
      }
      epoch := next;
      endpoint := Endpoint(id, next, rt.instance, rt.addr, auth.value);
      assignments := 0;
      createdAt := now;
      state := Ready;
      return Ok(());
    }

    /** Rotation as every caller runs it. */
    method RotateOrFail(rt: Runtime, entropy: Entropy, now: nat) returns (r: Result<(), LaneError>)
      modifies this
      ensures Data() == RotatedOrFailed(old(Data()), rt, entropy, now)
      ensures r == match RotationError(old(Data()), entropy) case Some(e) => Err(e) case None => Ok(())
    {
      r := Rotate(rt, entropy, now);
      if r.Err? {
        state := Failed;
      }
    }
  }

  // ---- The username names exactly one lane and one epoch ------------------------------------

  /** Two dash-separated pairs of digit strings are equal only piece by piece. */
  lemma SplitAtDash(a: string, b: string, c: string, d: string)
    requires AllDigits(a) && AllDigits(c)
    requires a + "-" + b == c + "-" + d
    ensures a == c && b == d
  {
    var left := a + "-" + b;
    var right := c + "-" + d;
    assert left[|a|] == '-' && right[|c|] == '-';
    assert a == left[..|a|] && c == right[..|c|];
    assert b == left[|a| + 1..] && d == right[|c| + 1..];
  }

  /** Injective over all ids and epochs, also past the widths six and eight. */
  lemma UsernameInjective(id: nat, epoch: nat, id': nat, epoch': nat)
    requires Username(id, epoch) == Username(id', epoch')
    ensures id == id' && epoch == epoch'
  {
    var (a, b) := (Padded(6, Numeral(id)), Padded(8, Numeral(epoch)));
    var (c, d) := (Padded(6, Numeral(id')), Padded(8, Numeral(epoch')));
    assert Username(id, epoch)[5..] == a + "-" + b;
    assert Username(id', epoch')[5..] == c + "-" + d;
    SplitAtDash(a, b, c, d);
    ValueOfPadded(6, Numeral(id));
    ValueOfPadded(6, Numeral(id'));
    ValueOfPadded(8, Numeral(epoch));
    ValueOfPadded(8, Numeral(epoch'));
    ValueOfNumeral(id);
    ValueOfNumeral(id');
    ValueOfNumeral(epoch);
    ValueOfNumeral(epoch');
  }

  /** A rotation either starts the next epoch with fresh credentials, bound to `rt`, or changes none. */
  lemma RotationEffect(l: LaneData, rt: Runtime, entropy: Entropy, now: nat)
    ensures var r := RotatedOrFailed(l, rt, entropy, now);
      && r.id == l.id
      && (r.state == Ready <==> l.epoch < U64_MAX && entropy.Some?)
      && (r.state == Ready ==>
            && r.epoch == l.epoch + 1 && r.assignments == 0 && r.createdAt == now
            && r.endpoint.lane == l.id && r.endpoint.epoch == r.epoch
            && r.endpoint.instance == rt.instance && r.endpoint.addr == rt.addr
            && r.endpoint.auth.username == Username(l.id, r.epoch))
      && (r.state != Ready ==> r == l.(state := Failed))
  {
  }

  /** The credentials of a renewed lane name it and its new epoch, and its password is the random bytes. */
  lemma RotationCredentials(l: LaneData, rt: Runtime, entropy: Entropy, now: nat)
    ensures var r := RotatedOrFailed(l, rt, entropy, now);
      r.state == Ready ==> entropy.Some? && CredentialsOf(r.endpoint.auth, l.id, r.epoch, entropy.value)
  {
    hide Names, CredentialsOf, Username;
    if entropy.Some? {
      LaneAuthMeans(l.id, l.epoch + 1, entropy);
    }
  }

  /** A new lane is Ready at epoch 1 with fresh credentials, unless the random source fails. */
  lemma NewLaneEffect(id: nat, rt: Runtime, entropy: Entropy, now: nat)
    ensures NewLane(id, rt, entropy, now).Err? <==> entropy.None?
    ensures entropy.None? ==> NewLane(id, rt, entropy, now) == Err(Random)
    ensures entropy.Some? ==>
              && var l := NewLane(id, rt, entropy, now).value;
              && l.id == id && l.epoch == 1 && l.createdAt == now && l.assignments == 0 && l.state == Ready
              && l.endpoint.lane == id && l.endpoint.epoch == 1
              && l.endpoint.instance == rt.instance && l.endpoint.addr == rt.addr
              && CredentialsOf(l.endpoint.auth, id, 1, entropy.value)
  {
    hide Names, CredentialsOf, Username;
    if entropy.Some? {
      LaneAuthMeans(id, 1, entropy);
    }
  }
}
