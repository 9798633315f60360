/** The Tor configuration, its builder's validation, and port ranges (src/tor/torc). */
module TorConfig {
  import opened Wrappers
  import opened Decimal
  import opened Text

  // ---- Values -------------------------------------------------------------------------------

  datatype Address = V4(text: string) | V6(text: string)

  predicate IsHexDigit(c: char) {
    '0' <= c <= '9' || 'a' <= c <= 'f'
  }

  /** The characters an address is printed with; only the sixth version has colons. */
  predicate AddressOk(a: Address) {
    match a
    case V4(text) => text != [] && forall c <- text :: IsHexDigit(c) || c == '.'
    case V6(text) => ':' in text && forall c <- text :: IsHexDigit(c) || c == '.' || c == ':'
  }

  /** An IP address, by the text it prints as. */
  type Ip = a: Address | AddressOk(a) witness V4("0")

  predicate IsLoopbackAddress(a: Ip) {
    match a
    case V4(text) => "127." <= text
    case V6(text) => text == "::1"
  }

  datatype PortSpec = Num(port: nat) | Auto | UnixPath(path: string)

  datatype Tristate = Off | On | Default

  function TcpPort(p: PortSpec): Option<nat> {
    if p.Num? then Some(p.port) else None
  }

  const LOCALHOST: Ip := V4("127.0.0.1")

  // ---- Control interface --------------------------------------------------------------------

  datatype ControlAuth = CookieAuth | HashedPasswordAuth(hash: string) | NoAuth

  datatype ControlListen = Tcp(addr: Ip, port: PortSpec) | UnixSocket(path: string)

  datatype ControlConfig = ControlConfig(
    listen: ControlListen, auth: ControlAuth, writePortToFile: Option<string>, owningProcess: Option<nat>)

  function ListenPort(l: ControlListen): Option<nat> {
    match l
    case Tcp(_, port) => TcpPort(port)
    case UnixSocket(_) => None
  }

  predicate IsLoopback(l: ControlListen) {
    match l
    case Tcp(addr, _) => IsLoopbackAddress(addr)
    case UnixSocket(_) => true
  }

  // ---- SOCKS listeners ----------------------------------------------------------------------

  datatype Isolation =
    | IsolateClientAddr | NoIsolateClientAddr | IsolateSocksAuth | NoIsolateSocksAuth
    | IsolateClientProtocol | IsolateDestPort | IsolateDestAddr | KeepAliveIsolateSocksAuth
    | SessionGroup(group: int)

  datatype SocksFlag =
    | NoIPv4Traffic | IPv6Traffic | PreferIPv6 | NoDNSRequest | NoOnionTraffic | OnionTrafficOnly
    | CacheDNS | UseDNSCache | PreferSocksNoAuth | ExtendedErrors

  datatype SocksPort = SocksPort(addr: Ip, port: PortSpec, flags: seq<SocksFlag>, isolation: seq<Isolation>)

  datatype SocksConfig = SocksConfig(listeners: seq<SocksPort>, rangeError: Option<ConfigError>)

  // ---- Bridges ------------------------------------------------------------------------------

  datatype Arg = Arg(key: string, value: string)

  datatype Bridge = Bridge(
    transport: Option<string>, addr: string, fingerprint: Option<string>, args: seq<Arg>)

  datatype Plugin = Plugin(names: seq<string>, executable: string, args: seq<string>)

  datatype BridgeConfig = BridgeConfig(useBridges: bool, bridges: seq<Bridge>, plugins: seq<Plugin>)

  // ---- The rest -----------------------------------------------------------------------------

  datatype NetworkConfig = NetworkConfig(useIPv4: Option<bool>, useIPv6: Option<bool>)

  /** Durations are in whole seconds, all that is rendered of them. */
  datatype CircuitConfig = CircuitConfig(
    maxCircuitDirtiness: Option<nat>, newCircuitPeriod: Option<nat>, circuitsAvailableTimeout: Option<nat>,
    socksTimeout: Option<nat>, circuitBuildTimeout: Option<nat>, learnCircuitBuildTimeout: Option<bool>,
    circuitStreamTimeout: Option<nat>, maxClientCircuitsPending: Option<nat>, numEntryGuards: Option<nat>,
    useEntryGuards: Option<bool>)

  datatype PaddingConfig = PaddingConfig(
    connectionPadding: Option<Tristate>, reducedConnectionPadding: Option<bool>, circuitPadding: Option<bool>,
    reducedCircuitPadding: Option<bool>, keepalivePeriod: Option<nat>)

  datatype NodeSelection = NodeSelection(
    exitNodes: seq<string>, excludeExitNodes: seq<string>, strictNodes: Option<bool>)

  datatype SystemConfig = SystemConfig(
    avoidDiskWrites: Option<bool>, hardwareAccel: Option<bool>, connLimit: Option<nat>,
    disableDebuggerAttachment: Option<bool>)

  datatype Severity = Debug | Info | Notice | Warn | Error

  datatype LogDest = Stdout | Stderr | Syslog | LogFile(path: string)

  datatype LogLine = LogLine(severity: Severity, destination: LogDest)

  datatype LoggingConfig = LoggingConfig(
    logs: seq<LogLine>, safeLogging: Option<bool>, syslogIdentityTag: Option<string>)

  datatype RawPair = RawPair(key: string, value: string)

  predicate RawKeyOk(key: string) {
    key != [] && forall c <- key :: !IsWhitespace(c) && c != '\0'
  }

  predicate RawOk(r: RawPair) {
    RawKeyOk(r.key) && '\n' !in r.value && '\r' !in r.value && '\0' !in r.value
  }

  /** A raw option; there are no others than `TorOption::new` admits. */
  type RawOption = r: RawPair | RawOk(r) witness RawPair("Log", "")

  function NewRawOption(key: string, value: string): (r: Result<RawOption, ConfigError>)
    ensures r.Ok? <==> RawOk(RawPair(key, value))
    ensures r.Ok? ==> r.value == RawPair(key, value)
    ensures r == Err(InvalidRawOptionKey) <==> !RawKeyOk(key)
    ensures r == Err(InvalidRawOptionValue) <==> RawKeyOk(key) && !RawOk(RawPair(key, value))
  {
    if key == [] || exists c <- key :: IsWhitespace(c) || c == '\0' then Err(InvalidRawOptionKey)
    else if exists c <- value :: c == '\n' || c == '\r' || c == '\0' then Err(InvalidRawOptionValue)
    else Ok(RawPair(key, value))
  }

  datatype Config = Config(
    dataDirectory: string, control: Option<ControlConfig>, socks: SocksConfig, network: NetworkConfig,
    circuits: CircuitConfig, padding: PaddingConfig, bridges: Option<BridgeConfig>, nodes: NodeSelection,
    system: SystemConfig, logging: LoggingConfig, rawOptions: seq<RawOption>)

  datatype ConfigError =
    | EmptySocksPortRange | PortRangeOverflow | NoListeners | UnauthenticatedNonLoopbackControlPort
    | DuplicatePort(port: nat) | MissingTransportPlugin(name: string) | InvalidObfs4Bridge(what: string)
    | InvalidRawOptionKey | InvalidRawOptionValue

  datatype Warning =
    | UnauthenticatedLoopbackControlPort | AutoControlPortWithoutWriteFile | ManySocksListeners(count: nat)
    | HighConnLimit(limit: nat) | UnsafeLoggingDisabled

  // ---- Duplicate ports ----------------------------------------------------------------------

  function ListenerPorts(listeners: seq<SocksPort>): seq<nat> {
    if listeners == [] then []
    else
      var port := listeners[|listeners| - 1].port;
      ListenerPorts(listeners[..|listeners| - 1]) + if port.Num? then [port.port] else []
  }

  function ControlPorts(control: Option<ControlConfig>): seq<nat> {
    match control
    case Some(ControlConfig(Tcp(_, Num(port)), _, _, _)) => [port]
    case _ => []
  }

  /** Every fixed TCP port, the control port first. */
  function FixedPorts(control: Option<ControlConfig>, listeners: seq<SocksPort>): seq<nat> {
    ControlPorts(control) + ListenerPorts(listeners)
  }

  predicate Distinct(ports: seq<nat>) {
    forall i, j | 0 <= i < j < |ports| :: ports[i] != ports[j]
  }

  /** Position `i` is the first that repeats an earlier port. */
  predicate FirstRepeat(ports: seq<nat>, i: nat) {
    i < |ports| && Distinct(ports[..i]) && ports[i] in ports[..i]
  }

  ghost predicate RepeatsFirst(ports: seq<nat>, port: nat) {
    exists i: nat :: FirstRepeat(ports, i) && ports[i] == port
  }

  method ValidateDuplicatePorts(control: Option<ControlConfig>, listeners: seq<SocksPort>)
    returns (r: Result<(), ConfigError>)
    ensures r.Ok? <==> Distinct(FixedPorts(control, listeners))
    ensures r.Err? ==> r.error.DuplicatePort? && RepeatsFirst(FixedPorts(control, listeners), r.error.port)
  {
    var seen: set<nat> := {};
    if control.Some? && ListenPort(control.value.listen).Some? {
      seen := seen + {ListenPort(control.value.listen).value};
    }
    assert ListenerPorts(listeners[..0]) == [];
    for k := 0 to |listeners|
      invariant Distinct(FixedPorts(control, listeners[..k]))
      invariant forall p: nat :: p in seen <==> p in FixedPorts(control, listeners[..k])
      invariant FixedPorts(control, listeners[..k]) <= FixedPorts(control, listeners)
    {
      ghost var before := FixedPorts(control, listeners[..k]);
      PortsGrow(control, listeners, k);
      var port := TcpPort(listeners[k].port);
      if port.Some? {
        if port.value in seen {
          RepeatFound(FixedPorts(control, listeners), before, port.value);
          return Err(DuplicatePort(port.value));
        }
        assert forall i | 0 <= i < |before| :: before[i] in seen;
        seen := seen + {port.value};
      }
    }
    assert listeners[..|listeners|] == listeners;
    return Ok(());
  }

  lemma {:induction false} PortsOfPrefix(listeners: seq<SocksPort>, k: nat)
    requires k <= |listeners|
    ensures ListenerPorts(listeners[..k]) <= ListenerPorts(listeners)
  {
    if k == |listeners| {
      assert listeners[..k] == listeners;
    } else {
      var front := listeners[..|listeners| - 1];
      PortsOfPrefix(front, k);
      assert front[..k] == listeners[..k];
    }
  }

  lemma PortsGrow(control: Option<ControlConfig>, listeners: seq<SocksPort>, k: nat)
    requires k < |listeners|
    ensures var port := TcpPort(listeners[k].port);
      var next := FixedPorts(control, listeners[..k + 1]);
      && next == FixedPorts(control, listeners[..k]) + (if port.Some? then [port.value] else [])
      && next <= FixedPorts(control, listeners)
  {
    assert listeners[..k + 1][..k] == listeners[..k];
    PortsOfPrefix(listeners, k + 1);
  }

  lemma RepeatFound(ports: seq<nat>, before: seq<nat>, port: nat)
    requires Distinct(before) && port in before && before + [port] <= ports
    ensures FirstRepeat(ports, |before|) && ports[|before|] == port && !Distinct(ports)
  {
    assert ports[..|before|] == before && ports[|before|] == (before + [port])[|before|];
    var i :| 0 <= i < |before| && before[i] == port;
    assert ports[i] == ports[|before|];
  }

  // ---- Port ranges --------------------------------------------------------------------------

  function Localhost(port: nat): SocksPort {
    SocksPort(LOCALHOST, Num(port), [], [])
  }

  function RangeListeners(start: nat, count: nat): (r: seq<SocksPort>)
    ensures |r| == count
  {
    seq(count, i requires 0 <= i < count => Localhost(start + i))
  }

  /** `count` localhost listeners from `start`, unless there are none or they run past 65535. */
  function PortRange(start: nat, count: nat): SocksConfig {
    if count == 0 then SocksConfig([], Some(EmptySocksPortRange))
    else if start + (count - 1) > 65535 then SocksConfig([], Some(PortRangeOverflow))
    else SocksConfig(RangeListeners(start, count), None)
  }

  lemma {:induction false} RangePorts(start: nat, count: nat)
    ensures var ports := ListenerPorts(RangeListeners(start, count));
      |ports| == count && forall i | 0 <= i < count :: ports[i] == start + i
  {
    if count > 0 {
      RangePorts(start, count - 1);
      var listeners := RangeListeners(start, count);
      assert listeners[count - 1] == Localhost(start + (count - 1));
      assert TcpPort(listeners[count - 1].port) == Some(start + (count - 1));
      assert RangeListeners(start, count)[..count - 1] == RangeListeners(start, count - 1);
    }
  }

  /** A range repeats no port, and none of the control port's exactly when that lies outside it. */
  lemma RangeIsDistinct(control: Option<ControlConfig>, start: nat, count: nat)
    ensures Distinct(FixedPorts(control, RangeListeners(start, count)))
       <==> forall p <- ControlPorts(control) :: !(start <= p < start + count)
  {
    RangePorts(start, count);
    var control' := ControlPorts(control);
    var ports := FixedPorts(control, RangeListeners(start, count));
    assert forall k | |control'| <= k < |ports| :: ports[k] == start + (k - |control'|);
    if control' != [] && start <= control'[0] < start + count {
      assert ports[0] == ports[1 + (control'[0] - start)];
      assert control'[0] in control';
    }
  }

  // ---- Bridges ------------------------------------------------------------------------------

  predicate Registered(config: BridgeConfig, transport: string) {
    exists i, j :: 0 <= i < |config.plugins| && 0 <= j < |config.plugins[i].names|
                   && config.plugins[i].names[j] == transport
  }

  /** The value of the first argument with that key. */
  function ArgValue(args: seq<Arg>, key: string): Option<string> {
    if args == [] then None
    else if args[0].key == key then Some(args[0].value)
    else ArgValue(args[1..], key)
  }

  function OrEmpty(s: Option<string>): string {
    if s.Some? then s.value else []
  }

  function IatMode(b: Bridge): Option<nat> {
    var text := ArgValue(b.args, "iat-mode");
    if text.None? then None else ParseUnsigned(text.value, 255)
  }

  /** The first argument with that key has that value. */
  ghost predicate FirstArg(args: seq<Arg>, key: string, value: string) {
    exists i | 0 <= i < |args| :: args[i] == Arg(key, value) && forall k | 0 <= k < i :: args[k].key != key
  }

  /** A mode from 0 to 2 in decimal digits, with a plus and leading zeros or without. */
  predicate ModeOk(text: string) {
    var digits := if "+" <= text then text[1..] else text;
    digits != [] && AllDigits(digits) && Value(digits) <= 2
  }

  ghost predicate Obfs4Ok(b: Bridge) {
    && b.fingerprint.Some? && b.fingerprint.value != []
    && (exists cert :: FirstArg(b.args, "cert", cert) && cert != [])
    && (exists mode :: FirstArg(b.args, "iat-mode", mode) && ModeOk(mode))
  }

  lemma {:induction false} ArgValueIsFirst(args: seq<Arg>, key: string)
    ensures ArgValue(args, key).None? ==> forall v :: !FirstArg(args, key, v)
    ensures forall v :: FirstArg(args, key, v) <==> ArgValue(args, key) == Some(v)
  {
    if args != [] {
      ArgValueIsFirst(args[1..], key);
      forall v
        ensures FirstArg(args, key, v) <==> ArgValue(args, key) == Some(v)
      {
        if args[0].key != key {
          if FirstArg(args, key, v) {
            var i :| 0 <= i < |args| && args[i] == Arg(key, v) && forall k | 0 <= k < i :: args[k].key != key;
            assert args[1..][i - 1] == Arg(key, v);
            assert FirstArg(args[1..], key, v);
          }
          if FirstArg(args[1..], key, v) {
            var i :| 0 <= i < |args[1..]| && args[1..][i] == Arg(key, v)
                  && forall k | 0 <= k < i :: args[1..][k].key != key;
            assert args[i + 1] == Arg(key, v);
            assert forall k | 0 <= k < i + 1 :: k > 0 ==> args[k] == args[1..][k - 1];
          }
        } else {
          assert FirstArg(args, key, args[0].value);
        }
      }
    }
  }

  /** What the validation computes of an obfs4 bridge is what it must satisfy. */
  lemma Obfs4Checked(b: Bridge)
    ensures Obfs4Ok(b) <==>
              && OrEmpty(b.fingerprint) != [] && OrEmpty(ArgValue(b.args, "cert")) != []
              && IatMode(b).Some? && IatMode(b).value <= 2
  {
    hide FirstArg, ArgValue;
    ArgValueIsFirst(b.args, "cert");
    ArgValueIsFirst(b.args, "iat-mode");
  }

  ghost predicate BridgeOk(config: BridgeConfig, b: Bridge) {
    b.transport.Some? ==> Registered(config, b.transport.value) && (b.transport.value == "obfs4" ==> Obfs4Ok(b))
  }

  /** The first of a bridge's faults, in the order in which they are looked for. */
  ghost predicate BridgeFault(config: BridgeConfig, b: Bridge, e: ConfigError) {
    !BridgeOk(config, b) &&
    if !Registered(config, b.transport.value) then e == MissingTransportPlugin(b.transport.value)
    else if b.fingerprint.None? || b.fingerprint.value == [] then e == InvalidObfs4Bridge("empty fingerprint")
    else if !exists cert :: FirstArg(b.args, "cert", cert) && cert != [] then e == InvalidObfs4Bridge("empty cert")
    else e == InvalidObfs4Bridge("invalid iat-mode")
  }

  /** The error is the fault of the first bridge that has one. */
  ghost predicate FirstFault(config: BridgeConfig, e: ConfigError) {
    exists i | 0 <= i < |config.bridges| ::
      BridgeFault(config, config.bridges[i], e) && forall k | 0 <= k < i :: BridgeOk(config, config.bridges[k])
  }

  ghost predicate BridgesOk(config: BridgeConfig) {
    forall i | 0 <= i < |config.bridges| :: BridgeOk(config, config.bridges[i])
  }

  method TransportNames(config: BridgeConfig) returns (names: set<string>)
    ensures forall t :: t in names <==> Registered(config, t)
  {
    names := {};
    for i := 0 to |config.plugins|
      invariant forall t :: t in names <==>
        exists k, j :: 0 <= k < i && 0 <= j < |config.plugins[k].names| && config.plugins[k].names[j] == t
    {
      var plugin := config.plugins[i];
      names := names + (set j | 0 <= j < |plugin.names| :: plugin.names[j]);
    }
  }

  method ValidateBridges(config: BridgeConfig) returns (r: Result<(), ConfigError>)
    ensures r.Ok? <==> BridgesOk(config)
    ensures r.Err? ==> FirstFault(config, r.error)
  {
    hide Registered, ArgValue, IatMode, FirstArg, Obfs4Ok;
    var transports := TransportNames(config);
    for i := 0 to |config.bridges|
      invariant forall k | 0 <= k < i :: BridgeOk(config, config.bridges[k])
    {
      var b := config.bridges[i];
      if b.transport.Some? && b.transport.value !in transports {
        assert BridgeFault(config, b, MissingTransportPlugin(b.transport.value));
        return Err(MissingTransportPlugin(b.transport.value));
      }
      Obfs4Checked(b);
      ArgValueIsFirst(b.args, "cert");
      if b.transport == Some("obfs4") {
        if OrEmpty(b.fingerprint) == [] {
          assert BridgeFault(config, b, InvalidObfs4Bridge("empty fingerprint"));
          return Err(InvalidObfs4Bridge("empty fingerprint"));
        }
        if OrEmpty(ArgValue(b.args, "cert")) == [] {
          assert BridgeFault(config, b, InvalidObfs4Bridge("empty cert"));
          return Err(InvalidObfs4Bridge("empty cert"));
        }
        var mode := IatMode(b);
        if mode.None? || mode.value > 2 {
          assert BridgeFault(config, b, InvalidObfs4Bridge("invalid iat-mode"));
          return Err(InvalidObfs4Bridge("invalid iat-mode"));
        }
      }
    }
    return Ok(());
  }

  /** A typed obfs4 bridge as a bridge line. */
  function Obfs4Bridge(addr: string, fingerprint: string, cert: string, iatMode: nat): Bridge {
    Bridge(Some("obfs4"), addr, Some(fingerprint), [Arg("cert", cert), Arg("iat-mode", Numeral(iatMode))])
  }

  /** The conversion loses nothing the validation looks at. */
  lemma Obfs4BridgeOk(config: BridgeConfig, addr: string, fingerprint: string, cert: string, iatMode: nat)
    requires iatMode <= 255
    ensures BridgeOk(config, Obfs4Bridge(addr, fingerprint, cert, iatMode))
       <==> Registered(config, "obfs4") && fingerprint != [] && cert != [] && iatMode <= 2
  {
    var b := Obfs4Bridge(addr, fingerprint, cert, iatMode);
    ParsePaddedNumeral(0, iatMode, 255);
    assert Padded(0, Numeral(iatMode)) == Numeral(iatMode);
    assert "cert"[0] == 'c' && "iat-mode"[0] == 'i';
    assert b.args[1..][0] == Arg("iat-mode", Numeral(iatMode));
    assert ArgValue(b.args, "iat-mode") == ArgValue(b.args[1..], "iat-mode") == Some(Numeral(iatMode));
    assert IatMode(b) == Some(iatMode);
    Obfs4Checked(b);
  }

  // ---- Building -----------------------------------------------------------------------------

  predicate HasListener(c: Config) {
    c.control.Some? || c.socks.listeners != []
  }

  /** A control port open to the network without authentication. */
  predicate IsExposed(c: Config) {
    match c.control
    case Some(ControlConfig(Tcp(V4(text), _), NoAuth, _, _)) => !("127." <= text)
    case Some(ControlConfig(Tcp(V6(text), _), NoAuth, _, _)) => text != "::1"
    case _ => false
  }

  /** What a configuration must satisfy to be built. */
  ghost predicate Buildable(c: Config) {
    && c.socks.rangeError.None? && HasListener(c) && !IsExposed(c)
    && Distinct(FixedPorts(c.control, c.socks.listeners))
    && (c.bridges.Some? ==> BridgesOk(c.bridges.value))
  }

  /** What is worth a warning in a configuration that is built. */
  predicate Warranted(c: Config, w: Warning) {
    match w
    case UnauthenticatedLoopbackControlPort => c.control.Some? && c.control.value.auth.NoAuth?
    case AutoControlPortWithoutWriteFile =>
      && c.control.Some? && c.control.value.listen.Tcp? && c.control.value.listen.port.Auto?
      && c.control.value.writePortToFile.None?
    case ManySocksListeners(n) => n == |c.socks.listeners| > 32
    case HighConnLimit(n) => c.system.connLimit == Some(n) && n > 10_000
    case UnsafeLoggingDisabled => c.logging.safeLogging == Some(false)
  }

  /** The order in which warnings are given. */
  function Rank(w: Warning): nat {
    match w
    case UnauthenticatedLoopbackControlPort => 0
    case AutoControlPortWithoutWriteFile => 1
    case ManySocksListeners(_) => 2
    case HighConnLimit(_) => 3
    case UnsafeLoggingDisabled => 4
  }

  ghost predicate InOrder(warnings: seq<Warning>) {
    forall i, j | 0 <= i < j < |warnings| :: Rank(warnings[i]) < Rank(warnings[j])
  }

  function With(c: Config, warnings: seq<Warning>, w: Warning): seq<Warning> {
    if Warranted(c, w) then warnings + [w] else warnings
  }

  function Limit(c: Config): nat {
    if c.system.connLimit.Some? then c.system.connLimit.value else 0
  }

  /** Each kind of warning once at most, in the order of their ranks. */
  function Warnings(c: Config): seq<Warning> {
    var control := With(c, With(c, [], UnauthenticatedLoopbackControlPort), AutoControlPortWithoutWriteFile);
    var socks := With(c, control, ManySocksListeners(|c.socks.listeners|));
    With(c, With(c, socks, HighConnLimit(Limit(c))), UnsafeLoggingDisabled)
  }

  /** The warnings of the first `rank` kinds, in order. */
  ghost predicate Warned(c: Config, warnings: seq<Warning>, rank: nat) {
    InOrder(warnings) && forall w :: w in warnings <==> Warranted(c, w) && Rank(w) < rank
  }

  lemma WithIsWarned(c: Config, warnings: seq<Warning>, w: Warning)
    requires Warned(c, warnings, Rank(w)) && forall v | Warranted(c, v) && Rank(v) == Rank(w) :: v == w
    ensures Warned(c, With(c, warnings, w), Rank(w) + 1)
  {
    hide Warranted, Rank;
  }

  lemma WarningsAreWarranted(c: Config)
    ensures InOrder(Warnings(c))
    ensures forall w :: w in Warnings(c) <==> Warranted(c, w)
  {
    hide With, InOrder;
    var none: seq<Warning> := [];
    assert Warned(c, none, 0) by {
      NothingWarned(c);
    }
    var open := With(c, none, UnauthenticatedLoopbackControlPort);
    WithIsWarned(c, none, UnauthenticatedLoopbackControlPort);
    var control := With(c, open, AutoControlPortWithoutWriteFile);
    WithIsWarned(c, open, AutoControlPortWithoutWriteFile);
    var socks := With(c, control, ManySocksListeners(|c.socks.listeners|));
    WithIsWarned(c, control, ManySocksListeners(|c.socks.listeners|));
    var limited := With(c, socks, HighConnLimit(Limit(c)));
    WithIsWarned(c, socks, HighConnLimit(Limit(c)));
    WithIsWarned(c, limited, UnsafeLoggingDisabled);
  }

  lemma NothingWarned(c: Config)
    ensures Warned(c, [], 0)
  {
  }

  method Build(c: Config) returns (r: Result<seq<Warning>, ConfigError>)
    ensures r.Ok? <==> Buildable(c)
    ensures r.Ok? ==> InOrder(r.value) && forall w :: w in r.value <==> Warranted(c, w)
    ensures c.socks.rangeError.Some? ==> r == Err(c.socks.rangeError.value)
    ensures c.socks.rangeError.None? && !HasListener(c) ==> r == Err(NoListeners)
    ensures c.socks.rangeError.None? && HasListener(c) && IsExposed(c) ==>
      r == Err(UnauthenticatedNonLoopbackControlPort)
    ensures c.socks.rangeError.None? && HasListener(c) && !IsExposed(c)
            && !Distinct(FixedPorts(c.control, c.socks.listeners)) ==>
      r.Err? && r.error.DuplicatePort? && RepeatsFirst(FixedPorts(c.control, c.socks.listeners), r.error.port)
    ensures c.socks.rangeError.None? && HasListener(c) && !IsExposed(c)
            && Distinct(FixedPorts(c.control, c.socks.listeners)) && !Buildable(c) ==>
      r.Err? && c.bridges.Some? && FirstFault(c.bridges.value, r.error)
  {
    hide Distinct, FixedPorts, BridgesOk, RepeatsFirst, FirstFault, InOrder, Rank;
    var warnings: seq<Warning> := [];
    if c.socks.rangeError.Some? {
      return Err(c.socks.rangeError.value);
    }
    if c.control.None? && c.socks.listeners == [] {
      return Err(NoListeners);
    }
    if c.control.Some? {
      var control := c.control.value;
      if control.auth.NoAuth? {
        if !IsLoopback(control.listen) {
          return Err(UnauthenticatedNonLoopbackControlPort);
        }
        warnings := warnings + [UnauthenticatedLoopbackControlPort];
      }
      if control.listen.Tcp? && control.listen.port.Auto? && control.writePortToFile.None? {
        warnings := warnings + [AutoControlPortWithoutWriteFile];
      }
    }
    var ports := ValidateDuplicatePorts(c.control, c.socks.listeners);
    if ports.Err? {
      return Err(ports.error);
    }
    if c.bridges.Some? {
      var bridges := ValidateBridges(c.bridges.value);
      if bridges.Err? {
        return Err(bridges.error);
      }
    }
    if |c.socks.listeners| > 32 {
      warnings := warnings + [ManySocksListeners(|c.socks.listeners|)];
    }
    if c.system.connLimit.Some? && c.system.connLimit.value > 10_000 {
      warnings := warnings + [HighConnLimit(c.system.connLimit.value)];
    }
    if c.logging.safeLogging == Some(false) {
      warnings := warnings + [UnsafeLoggingDisabled];
    }
    assert warnings == Warnings(c);
    WarningsAreWarranted(c);
    return Ok(warnings);
  }

  /**
   A configuration whose listeners are a port range can be built exactly when the range is not empty,
   ends by 65535 and leaves out the control port, the control interface is not exposed and the
   bridges are in order; it then has exactly `count` listeners.
   */
  lemma RangeBuilds(c: Config, start: nat, count: nat)
    requires c.socks == PortRange(start, count)
    ensures Buildable(c) <==>
      && 0 < count && start + count <= 65536
      && (forall p <- ControlPorts(c.control) :: !(start <= p < start + count))
      && !IsExposed(c) && (c.bridges.Some? ==> BridgesOk(c.bridges.value))
    ensures Buildable(c) ==>
              && |c.socks.listeners| == count
              && forall i | 0 <= i < count :: c.socks.listeners[i] == SocksPort(V4("127.0.0.1"), Num(start + i), [], [])
    ensures count == 0 ==> c.socks.rangeError == Some(EmptySocksPortRange)
    ensures count > 0 && start + count > 65536 ==> c.socks.rangeError == Some(PortRangeOverflow)
  {
    hide BridgesOk, Distinct, FixedPorts, IsExposed;
    forall i | 0 <= i < count
      ensures RangeListeners(start, count)[i] == SocksPort(V4("127.0.0.1"), Num(start + i), [], [])
    {
      assert RangeListeners(start, count)[i] == Localhost(start + i);
    }
    RangeIsDistinct(c.control, start, count);
  }
}
