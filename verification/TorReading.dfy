/**
 Reading a torrc back: each option is looked up by its keyword in the text and its value parsed, with
 no regard to how the text was put together.
 */
module TorReading {
  import opened Wrappers
  import opened Decimal
  import opened Text
  import opened TorConfig
  import opened TorRender

  /** What reading yields; an error is the text that does not read. */
  type Reading<T> = Result<T, string>

  // ---- Options by keyword -------------------------------------------------------------------

  function ValueOf(line: string, keyword: string): seq<string> {
    if keyword + " " <= line then [line[|keyword| + 1..]] else []
  }

  /** The values of the options with that keyword, in order. */
  function Values(lines: seq<string>, keyword: string): seq<string> {
    if lines == [] then [] else ValueOf(lines[0], keyword) + Values(lines[1..], keyword)
  }

  function FirstOf(values: seq<string>): Option<string> {
    if values == [] then None else Some(values[0])
  }

  function Optional<T>(values: seq<string>, parse: string -> Reading<T>): Reading<Option<T>> {
    if values == [] then Ok(None)
    else
      var x :- parse(values[0]);
      Ok(Some(x))
  }

  function Each<T>(values: seq<string>, parse: string -> Reading<T>): Reading<seq<T>> {
    if values == [] then Ok([])
    else
      var x :- parse(values[0]);
      var rest :- Each(values[1..], parse);
      Ok([x] + rest)
  }

  // ---- Values -------------------------------------------------------------------------------

  function FlagOf(v: string): Reading<bool> {
    if v == "1" then Ok(true) else if v == "0" then Ok(false) else Err(v)
  }

  function TristateOf(v: string): Reading<Tristate> {
    if v == "1" then Ok(On) else if v == "0" then Ok(Off) else if v == "auto" then Ok(Default) else Err(v)
  }

  function NumberOf(v: string): Reading<nat> {
    if v != [] && AllDigits(v) then Ok(Value(v)) else Err(v)
  }

  function IntegerOf(v: string): Reading<int> {
    if "-" <= v then
      var n :- NumberOf(v[1..]);
      Ok(0 - n as int)
    else
      var n :- NumberOf(v);
      Ok(n)
  }

  function ListOf(values: seq<string>): seq<string> {
    if values == [] then [] else Split(values[0], ',')
  }

  /** The last position of `c`, or the length when it does not occur. */
  function LastIndexOf(s: string, c: char): (i: nat)
    ensures i <= |s| && (i < |s| ==> s[i] == c)
    ensures forall j | i < j < |s| :: s[j] != c
    ensures i == |s| <==> c !in s
  {
    if s == [] then 0
    else if s[|s| - 1] == c then |s| - 1
    else
      var i := LastIndexOf(s[..|s| - 1], c);
      if i == |s| - 1 then |s| else i
  }

  function AddressOf(a: Address): Reading<Ip> {
    if AddressOk(a) then Ok(a) else Err(a.text)
  }

  /** A host is of the sixth version when it has colons, in brackets or not. */
  function HostOf(v: string): Reading<Ip> {
    if |v| >= 2 && v[0] == '[' && v[|v| - 1] == ']' then AddressOf(V6(v[1..|v| - 1]))
    else if ':' in v then AddressOf(V6(v))
    else AddressOf(V4(v))
  }

  function PortOf(v: string): Reading<PortSpec> {
    if v == "auto" then Ok(Auto)
    else
      var n :- NumberOf(v);
      Ok(Num(n))
  }

  datatype Place = Place(host: Option<Ip>, port: PortSpec)

  /** `unix:` and a path, or a host and a port after the last colon. */
  function PlaceOf(v: string): Reading<Place> {
    if "unix:" <= v then Ok(Place(None, UnixPath(v[5..])))
    else
      var i := LastIndexOf(v, ':');
      if i == |v| then Err(v)
      else
        var host :- HostOf(v[..i]);
        var port :- PortOf(v[i + 1..]);
        Ok(Place(Some(host), port))
  }

  function ListenOf(v: string): Reading<ControlListen> {
    var place :- PlaceOf(v);
    match place.host
    case Some(host) => Ok(Tcp(host, place.port))
    case None => if place.port.UnixPath? then Ok(UnixSocket(place.port.path)) else Err(v)
  }

  datatype Part = FlagPart(flag: SocksFlag) | IsolationPart(isolation: Isolation)

  function PartOf(v: string): Reading<Part> {
    if v == "NoIPv4Traffic" then Ok(FlagPart(NoIPv4Traffic))
    else if v == "IPv6Traffic" then Ok(FlagPart(IPv6Traffic))
    else if v == "PreferIPv6" then Ok(FlagPart(PreferIPv6))
    else if v == "NoDNSRequest" then Ok(FlagPart(NoDNSRequest))
    else if v == "NoOnionTraffic" then Ok(FlagPart(NoOnionTraffic))
    else if v == "OnionTrafficOnly" then Ok(FlagPart(OnionTrafficOnly))
    else if v == "CacheDNS" then Ok(FlagPart(CacheDNS))
    else if v == "UseDNSCache" then Ok(FlagPart(UseDNSCache))
    else if v == "PreferSOCKSNoAuth" then Ok(FlagPart(PreferSocksNoAuth))
    else if v == "ExtendedErrors" then Ok(FlagPart(ExtendedErrors))
    else
      var isolation :- IsolationOf(v);
      Ok(IsolationPart(isolation))
  }

  function IsolationOf(v: string): Reading<Isolation> {
    if v == "IsolateClientAddr" then Ok(IsolateClientAddr)
    else if v == "NoIsolateClientAddr" then Ok(NoIsolateClientAddr)
    else if v == "IsolateSOCKSAuth" then Ok(IsolateSocksAuth)
    else if v == "NoIsolateSOCKSAuth" then Ok(NoIsolateSocksAuth)
    else if v == "IsolateClientProtocol" then Ok(IsolateClientProtocol)
    else if v == "IsolateDestPort" then Ok(IsolateDestPort)
    else if v == "IsolateDestAddr" then Ok(IsolateDestAddr)
    else if v == "KeepAliveIsolateSOCKSAuth" then Ok(KeepAliveIsolateSocksAuth)
    else if "SessionGroup=" <= v then
      var group :- IntegerOf(v[13..]);
      Ok(SessionGroup(group))
    else Err(v)
  }

  function FlagsIn(parts: seq<Part>): seq<SocksFlag> {
    if parts == [] then [] else (if parts[0].FlagPart? then [parts[0].flag] else []) + FlagsIn(parts[1..])
  }

  function IsolationsIn(parts: seq<Part>): seq<Isolation> {
    if parts == [] then []
    else (if parts[0].IsolationPart? then [parts[0].isolation] else []) + IsolationsIn(parts[1..])
  }

  function FlagParts(flags: seq<SocksFlag>): (r: seq<Part>)
    ensures |r| == |flags|
  {
    seq(|flags|, i requires 0 <= i < |flags| => FlagPart(flags[i]))
  }

  function IsolationParts(isolation: seq<Isolation>): (r: seq<Part>)
    ensures |r| == |isolation|
  {
    seq(|isolation|, i requires 0 <= i < |isolation| => IsolationPart(isolation[i]))
  }

  /** An address, then flags, then isolation. */
  function SocksOf(v: string): Reading<SocksPort> {
    var words := Split(v, ' ');
    var place :- PlaceOf(words[0]);
    var parts :- Each(words[1..], PartOf);
    if parts != FlagParts(FlagsIn(parts)) + IsolationParts(IsolationsIn(parts)) then Err(v)
    else
      Ok(SocksPort(if place.host.Some? then place.host.value else LOCALHOST, place.port,
                   FlagsIn(parts), IsolationsIn(parts)))
  }

  function PluginOf(v: string): Reading<Plugin> {
    var words := Split(v, ' ');
    if |words| < 3 || words[1] != "exec" then Err(v)
    else Ok(Plugin(Split(words[0], ','), words[2], words[3..]))
  }

  function ArgOf(v: string): Reading<Arg> {
    var i := IndexOf(v, '=');
    if i == |v| then Err(v) else Ok(Arg(v[..i], v[i + 1..]))
  }

  /** A first word without a colon is a transport, and a word after the address without `=` a fingerprint. */
  function BridgeOf(v: string): Reading<Bridge> {
    var words := Split(v, ' ');
    var n := if ':' in words[0] then 0 else 1;
    if |words| <= n then Err(v)
    else
      var transport := if n == 1 then Some(words[0]) else None;
      var rest := words[n + 1..];
      var named := rest != [] && '=' !in rest[0];
      var args :- Each(if named then rest[1..] else rest, ArgOf);
      Ok(Bridge(transport, words[n], if named then Some(rest[0]) else None, args))
  }

  function SeverityOf(v: string): Reading<Severity> {
    if v == "debug" then Ok(Debug)
    else if v == "info" then Ok(Info)
    else if v == "notice" then Ok(Notice)
    else if v == "warn" then Ok(Warn)
    else if v == "err" then Ok(Error)
    else Err(v)
  }

  function LogDestOf(v: string): Reading<LogDest> {
    if v == "stdout" then Ok(Stdout)
    else if v == "stderr" then Ok(Stderr)
    else if v == "syslog" then Ok(Syslog)
    else if "file " <= v then Ok(LogFile(v[5..]))
    else Err(v)
  }

  function LogOf(v: string): Reading<LogLine> {
    var i := IndexOf(v, ' ');
    if i == |v| then Err(v)
    else
      var severity :- SeverityOf(v[..i]);
      var destination :- LogDestOf(v[i + 1..]);
      Ok(LogLine(severity, destination))
  }

  // ---- The parts of a configuration ---------------------------------------------------------

  function AuthOf(cookie: seq<string>, hashed: seq<string>): Reading<ControlAuth> {
    if cookie == ["1"] && hashed == [] then Ok(CookieAuth)
    else if cookie == ["0"] && hashed == [] then Ok(NoAuth)
    else if cookie == [] && |hashed| == 1 then Ok(HashedPasswordAuth(hashed[0]))
    else Err("CookieAuthentication")
  }

  function ReadControl(lines: seq<string>): Reading<Option<ControlConfig>> {
    var ports := Values(lines, "ControlPort");
    if ports == [] then Ok(None)
    else
      var listen :- ListenOf(ports[0]);
      var auth :- AuthOf(Values(lines, "CookieAuthentication"), Values(lines, "HashedControlPassword"));
      var owner :- Optional(Values(lines, "__OwningControllerProcess"), NumberOf);
      Ok(Some(ControlConfig(listen, auth, FirstOf(Values(lines, "ControlPortWriteToFile")), owner)))
  }

  function ReadNetwork(lines: seq<string>): Reading<NetworkConfig> {
    var useIPv4 :- Optional(Values(lines, "ClientUseIPv4"), FlagOf);
    var useIPv6 :- Optional(Values(lines, "ClientUseIPv6"), FlagOf);
    Ok(NetworkConfig(useIPv4, useIPv6))
  }

  function ReadCircuits(lines: seq<string>): Reading<CircuitConfig> {
    var maxCircuitDirtiness :- Optional(Values(lines, "MaxCircuitDirtiness"), NumberOf);
    var newCircuitPeriod :- Optional(Values(lines, "NewCircuitPeriod"), NumberOf);
    var circuitsAvailableTimeout :- Optional(Values(lines, "CircuitsAvailableTimeout"), NumberOf);
    var socksTimeout :- Optional(Values(lines, "SocksTimeout"), NumberOf);
    var circuitBuildTimeout :- Optional(Values(lines, "CircuitBuildTimeout"), NumberOf);
    var learnCircuitBuildTimeout :- Optional(Values(lines, "LearnCircuitBuildTimeout"), FlagOf);
    var circuitStreamTimeout :- Optional(Values(lines, "CircuitStreamTimeout"), NumberOf);
    var maxClientCircuitsPending :- Optional(Values(lines, "MaxClientCircuitsPending"), NumberOf);
    var numEntryGuards :- Optional(Values(lines, "NumEntryGuards"), NumberOf);
    var useEntryGuards :- Optional(Values(lines, "UseEntryGuards"), FlagOf);
    Ok(CircuitConfig(
      maxCircuitDirtiness, newCircuitPeriod, circuitsAvailableTimeout, socksTimeout, circuitBuildTimeout,
      learnCircuitBuildTimeout, circuitStreamTimeout, maxClientCircuitsPending, numEntryGuards, useEntryGuards))
  }

  function ReadPadding(lines: seq<string>): Reading<PaddingConfig> {
    var connectionPadding :- Optional(Values(lines, "ConnectionPadding"), TristateOf);
    var reducedConnectionPadding :- Optional(Values(lines, "ReducedConnectionPadding"), FlagOf);
    var circuitPadding :- Optional(Values(lines, "CircuitPadding"), FlagOf);
    var reducedCircuitPadding :- Optional(Values(lines, "ReducedCircuitPadding"), FlagOf);
    var keepalivePeriod :- Optional(Values(lines, "KeepalivePeriod"), NumberOf);
    Ok(PaddingConfig(
      connectionPadding, reducedConnectionPadding, circuitPadding, reducedCircuitPadding, keepalivePeriod))
  }

  function ReadBridges(lines: seq<string>): Reading<Option<BridgeConfig>> {
    var use :- Optional(Values(lines, "UseBridges"), FlagOf);
    if use.None? then Ok(None)
    else
      var plugins :- Each(Values(lines, "ClientTransportPlugin"), PluginOf);
      var bridges :- Each(Values(lines, "Bridge"), BridgeOf);
      Ok(Some(BridgeConfig(use.value, bridges, plugins)))
  }

  function ReadNodes(lines: seq<string>): Reading<NodeSelection> {
    var strictNodes :- Optional(Values(lines, "StrictNodes"), FlagOf);
    Ok(NodeSelection(ListOf(Values(lines, "ExitNodes")), ListOf(Values(lines, "ExcludeExitNodes")), strictNodes))
  }

  function ReadSystem(lines: seq<string>): Reading<SystemConfig> {
    var avoidDiskWrites :- Optional(Values(lines, "AvoidDiskWrites"), FlagOf);
    var hardwareAccel :- Optional(Values(lines, "HardwareAccel"), FlagOf);
    var connLimit :- Optional(Values(lines, "ConnLimit"), NumberOf);
    var disableDebuggerAttachment :- Optional(Values(lines, "DisableDebuggerAttachment"), FlagOf);
    Ok(SystemConfig(avoidDiskWrites, hardwareAccel, connLimit, disableDebuggerAttachment))
  }

  function ReadLogging(lines: seq<string>): Reading<LoggingConfig> {
    var logs :- Each(Values(lines, "Log"), LogOf);
    var safeLogging :- Optional(Values(lines, "SafeLogging"), FlagOf);
    Ok(LoggingConfig(logs, safeLogging, FirstOf(Values(lines, "SyslogIdentityTag"))))
  }

  // ---- Looking a keyword up among rendered options ------------------------------------------

  /** The values of the options with that keyword. */
  function Chosen(options: seq<Opt>, keyword: string): seq<string> {
    if options == [] then []
    else (if options[0].keyword == keyword then [options[0].value] else []) + Chosen(options[1..], keyword)
  }

  lemma {:induction false} ChosenTogether(a: seq<Opt>, b: seq<Opt>, keyword: string)
    ensures Chosen(a + b, keyword) == Chosen(a, keyword) + Chosen(b, keyword)
  {
    if a == [] {
      assert a + b == b;
    } else {
      ChosenTogether(a[1..], b, keyword);
      assert (a + b)[1..] == a[1..] + b;
    }
  }

  lemma {:induction false} ValuesTogether(a: seq<string>, b: seq<string>, keyword: string)
    ensures Values(a + b, keyword) == Values(a, keyword) + Values(b, keyword)
  {
    hide ValueOf;
    if a == [] {
      assert a + b == b;
    } else {
      ValuesTogether(a[1..], b, keyword);
      assert (a + b)[1..] == a[1..] + b;
    }
  }

  /** Two words without a space, each before one, are the beginning of one line only if they are equal. */
  lemma WordOf(a: string, b: string, value: string)
    requires ' ' !in a && ' ' !in b
    ensures ValueOf(a + " " + value, b) == if a == b then [value] else []
  {
    var line := a + " " + value;
    assert line[|a|] == ' ';
    if b + " " <= line {
      assert line[|b|] == (b + " ")[|b|] == ' ';
      assert forall i | 0 <= i < |b| :: line[i] == (b + " ")[i] == b[i];
      assert |a| == |b|;
      assert a == line[..|a|] && b == line[..|b|];
    }
    if a == b {
      assert line == (b + " ") + value;
    }
  }

  lemma {:induction false} ValuesOfOptions(options: seq<Opt>, keyword: string)
    requires ' ' !in keyword
    ensures Values(OptTexts(options), keyword) == Chosen(options, keyword)
  {
    hide ValueOf;
    if options != [] {
      WordOf(options[0].keyword, keyword, options[0].value);
      ValuesOfOptions(options[1..], keyword);
      assert OptTexts(options)[0] == OptText(options[0]);
      assert OptTexts(options)[1..] == OptTexts(options[1..]);
    }
  }

  lemma {:induction false} ValuesOfRaw(raw: seq<RawOption>, keyword: string)
    requires ' ' !in keyword && forall r <- raw :: r.key != keyword
    ensures Values(Map(RawText, raw), keyword) == []
  {
    hide ValueOf;
    if raw != [] {
      var r := raw[0];
      assert r in raw && forall x <- raw[1..] :: x in raw;
      WordOf(r.key, keyword, r.value);
      ValuesOfRaw(raw[1..], keyword);
      assert Map(RawText, raw)[0] == RawText(r);
      assert Map(RawText, raw)[1..] == Map(RawText, raw[1..]);
    }
  }

  lemma ChosenPresent(item: Option<Opt>, rest: seq<Opt>, keyword: string)
    ensures Chosen(Present(item, rest), keyword)
         == (if item.Some? && item.value.keyword == keyword then [item.value.value] else []) + Chosen(rest, keyword)
  {
    if item.Some? {
      assert ([item.value] + rest)[1..] == rest;
    }
  }

  function OptValues(options: seq<Opt>): (r: seq<string>)
    ensures |r| == |options|
  {
    seq(|options|, i requires 0 <= i < |options| => options[i].value)
  }

  lemma {:induction false} ChosenAlike(options: seq<Opt>, of: string, keyword: string)
    requires forall o <- options :: o.keyword == of
    ensures Chosen(options, keyword) == if keyword == of then OptValues(options) else []
  {
    if options != [] {
      assert options[0] in options && forall o <- options[1..] :: o in options;
      ChosenAlike(options[1..], of, keyword);
      assert OptValues(options) == [options[0].value] + OptValues(options[1..]);
    }
  }

  // ---- Values as they are written -----------------------------------------------------------

  function FlagValues(b: Option<bool>): seq<string> {
    if b.Some? then [FlagText(b.value)] else []
  }

  function TristateValues(t: Option<Tristate>): seq<string> {
    if t.Some? then [TristateText(t.value)] else []
  }

  function NumberValues(n: Option<nat>): seq<string> {
    if n.Some? then [Numeral(n.value)] else []
  }

  function TextValues(s: Option<string>): seq<string> {
    if s.Some? then [s.value] else []
  }

  function ListValues(values: seq<string>): seq<string> {
    if values != [] then [Join(values, ',')] else []
  }

  /** These values if this is their keyword. */
  function At(keyword: string, of: string, values: seq<string>): seq<string> {
    if keyword == of then values else []
  }

  lemma Picks(k: string)
    ensures forall of: Keyword, b, rest {:trigger Chosen(Present(FlagOpt(of, b), rest), k)} ::
              Chosen(Present(FlagOpt(of, b), rest), k) == At(k, of, FlagValues(b)) + Chosen(rest, k)
    ensures forall of: Keyword, t, rest {:trigger Chosen(Present(TristateOpt(of, t), rest), k)} ::
              Chosen(Present(TristateOpt(of, t), rest), k) == At(k, of, TristateValues(t)) + Chosen(rest, k)
    ensures forall of: Keyword, n, rest {:trigger Chosen(Present(NumberOpt(of, n), rest), k)} ::
              Chosen(Present(NumberOpt(of, n), rest), k) == At(k, of, NumberValues(n)) + Chosen(rest, k)
    ensures forall of: Keyword, s, rest {:trigger Chosen(Present(TextOpt(of, s), rest), k)} ::
              Chosen(Present(TextOpt(of, s), rest), k) == At(k, of, TextValues(s)) + Chosen(rest, k)
    ensures forall of: Keyword, l, rest {:trigger Chosen(Present(ListOpt(of, l), rest), k)} ::
              Chosen(Present(ListOpt(of, l), rest), k) == At(k, of, ListValues(l)) + Chosen(rest, k)
    ensures Chosen([], k) == []
  {
    hide Chosen, FlagText, TristateText, Join;
    forall item: Option<Opt>, rest: seq<Opt>
      ensures Chosen(Present(item, rest), k)
           == (if item.Some? && item.value.keyword == k then [item.value.value] else []) + Chosen(rest, k)
    {
      ChosenPresent(item, rest, k);
    }
    assert Chosen([], k) == [] by {
      NothingChosen(k);
    }
  }

  lemma NothingChosen(k: string)
    ensures Chosen([], k) == []
  {
  }

  lemma NetworkValues(n: NetworkConfig, k: string)
    ensures Chosen(NetworkOptions(n), k)
         == At(k, "ClientUseIPv4", FlagValues(n.useIPv4)) + At(k, "ClientUseIPv6", FlagValues(n.useIPv6))
  {
    hide Chosen, Present, FlagOpt, At;
    Picks(k);
  }

  lemma CircuitValues(c: CircuitConfig, k: string)
    ensures Chosen(CircuitOptions(c), k)
         == At(k, "MaxCircuitDirtiness", NumberValues(c.maxCircuitDirtiness))
            + At(k, "NewCircuitPeriod", NumberValues(c.newCircuitPeriod))
            + At(k, "CircuitsAvailableTimeout", NumberValues(c.circuitsAvailableTimeout))
            + At(k, "SocksTimeout", NumberValues(c.socksTimeout))
            + At(k, "CircuitBuildTimeout", NumberValues(c.circuitBuildTimeout))
            + At(k, "LearnCircuitBuildTimeout", FlagValues(c.learnCircuitBuildTimeout))
            + At(k, "CircuitStreamTimeout", NumberValues(c.circuitStreamTimeout))
            + At(k, "MaxClientCircuitsPending", NumberValues(c.maxClientCircuitsPending))
            + At(k, "NumEntryGuards", NumberValues(c.numEntryGuards))
            + At(k, "UseEntryGuards", FlagValues(c.useEntryGuards))
  {
    hide Chosen, Present, FlagOpt, NumberOpt, At;
    Picks(k);
  }

  lemma PaddingValues(p: PaddingConfig, k: string)
    ensures Chosen(PaddingOptions(p), k)
         == At(k, "ConnectionPadding", TristateValues(p.connectionPadding))
            + At(k, "ReducedConnectionPadding", FlagValues(p.reducedConnectionPadding))
            + At(k, "CircuitPadding", FlagValues(p.circuitPadding))
            + At(k, "ReducedCircuitPadding", FlagValues(p.reducedCircuitPadding))
            + At(k, "KeepalivePeriod", NumberValues(p.keepalivePeriod))
  {
    hide Chosen, Present, FlagOpt, NumberOpt, TristateOpt, At;
    Picks(k);
  }

  lemma NodeValues(n: NodeSelection, k: string)
    ensures Chosen(NodeOptions(n), k)
         == At(k, "ExitNodes", ListValues(n.exitNodes))
            + At(k, "ExcludeExitNodes", ListValues(n.excludeExitNodes))
            + At(k, "StrictNodes", FlagValues(n.strictNodes))
  {
    hide Chosen, Present, FlagOpt, ListOpt, At;
    Picks(k);
  }

  lemma SystemValues(s: SystemConfig, k: string)
    ensures Chosen(SystemOptions(s), k)
         == At(k, "AvoidDiskWrites", FlagValues(s.avoidDiskWrites))
            + At(k, "HardwareAccel", FlagValues(s.hardwareAccel))
            + At(k, "ConnLimit", NumberValues(s.connLimit))
            + At(k, "DisableDebuggerAttachment", FlagValues(s.disableDebuggerAttachment))
  {
    hide Chosen, Present, FlagOpt, NumberOpt, At;
    Picks(k);
  }

  lemma ChosenMap<T>(items: seq<T>, f: T -> Opt, of: string, k: string)
    requires forall x: T :: f(x).keyword == of
    ensures Chosen(Map(f, items), k) == At(k, of, OptValues(Map(f, items)))
  {
    ChosenAlike(Map(f, items), of, k);
  }

  lemma LoggingValues(l: LoggingConfig, k: string)
    ensures Chosen(LoggingOptions(l), k)
         == At(k, "Log", OptValues(Map(LogOpt, l.logs)))
            + At(k, "SafeLogging", FlagValues(l.safeLogging))
            + At(k, "SyslogIdentityTag", TextValues(l.syslogIdentityTag))
  {
    hide Chosen, Present, FlagOpt, TextOpt, At, Map, OptValues;
    Picks(k);
    ChosenMap(l.logs, LogOpt, "Log", k);
    ChosenTogether(Map(LogOpt, l.logs), Present(FlagOpt(SAFE_LOGGING, l.safeLogging),
                   Present(TextOpt(SYSLOG_IDENTITY_TAG, l.syslogIdentityTag), [])), k);
  }

  lemma SocksValues(listeners: seq<SocksPort>, k: string)
    ensures Chosen(Map(SocksOpt, listeners), k) == At(k, "SocksPort", OptValues(Map(SocksOpt, listeners)))
  {
    hide Chosen, At, Map, OptValues;
    ChosenMap(listeners, SocksOpt, "SocksPort", k);
  }

  lemma OneChosen(o: Opt, k: string)
    ensures Chosen([o], k) == At(k, o.keyword, [o.value])
  {
  }

  lemma BridgeValues(b: BridgeConfig, k: string)
    ensures Chosen(BridgeOptions(b), k)
         == At(k, "UseBridges", [FlagText(b.useBridges)])
            + At(k, "ClientTransportPlugin", OptValues(Map(PluginOpt, b.plugins)))
            + At(k, "Bridge", OptValues(Map(BridgeOpt, b.bridges)))
  {
    hide Chosen, At, Map, OptValues;
    OneChosen(Opt(USE_BRIDGES, FlagText(b.useBridges)), k);
    ChosenMap(b.plugins, PluginOpt, "ClientTransportPlugin", k);
    ChosenMap(b.bridges, BridgeOpt, "Bridge", k);
    var use := [Opt(USE_BRIDGES, FlagText(b.useBridges))];
    ChosenTogether(use + Map(PluginOpt, b.plugins), Map(BridgeOpt, b.bridges), k);
    ChosenTogether(use, Map(PluginOpt, b.plugins), k);
  }

  lemma ControlValues(c: ControlConfig, k: string)
    ensures Chosen(ControlOptions(Some(c)), k)
         == At(k, "ControlPort", [ListenText(c.listen)])
            + At(k, "CookieAuthentication",
                 match c.auth case CookieAuth => ["1"] case NoAuth => ["0"] case HashedPasswordAuth(_) => [])
            + At(k, "HashedControlPassword", match c.auth case HashedPasswordAuth(hash) => [hash] case _ => [])
            + At(k, "ControlPortWriteToFile", TextValues(c.writePortToFile))
            + At(k, "__OwningControllerProcess", NumberValues(c.owningProcess))
  {
    hide Chosen, Present, NumberOpt, TextOpt, ListenText;
    Picks(k);
    var port, auth := Opt(CONTROL_PORT, ListenText(c.listen)), AuthOpt(c.auth);
    OneChosen(port, k);
    OneChosen(auth, k);
    ChosenTogether([port], [auth], k);
    assert [port] + [auth] == [port, auth];
    ChosenTogether([port, auth], Present(TextOpt(CONTROL_PORT_WRITE_TO_FILE, c.writePortToFile),
                   Present(NumberOpt(OWNING_CONTROLLER_PROCESS, c.owningProcess), [])), k);
  }

  // ---- All options of a configuration -------------------------------------------------------

  function BridgesOrNone(b: Option<BridgeConfig>): seq<Opt> {
    if b.Some? then BridgeOptions(b.value) else []
  }

  function TypedOptions(c: Config): seq<Opt> {
    [Opt(DATA_DIRECTORY, c.dataDirectory)] + ControlOptions(c.control) + Map(SocksOpt, c.socks.listeners)
    + NetworkOptions(c.network) + CircuitOptions(c.circuits) + PaddingOptions(c.padding) + BridgesOrNone(c.bridges)
    + NodeOptions(c.nodes) + SystemOptions(c.system) + LoggingOptions(c.logging)
  }

  lemma {:induction false} AllTextsTogether(a: seq<Section>, b: seq<Section>)
    ensures AllTexts(a + b) == AllTexts(a) + AllTexts(b)
  {
    hide SectionLines;
    if a == [] {
      assert a + b == b;
    } else {
      AllTextsTogether(a[1..], b);
      assert (a + b)[1..] == a[1..] + b;
    }
  }

  /** The options of the sections, one section after the other. */
  function Gathered(sections: seq<Section>): seq<Opt> {
    if sections == [] then []
    else
      var last := sections[|sections| - 1];
      Gathered(sections[..|sections| - 1]) + if last.Typed? then last.options else []
  }

  lemma {:induction false} TextsGathered(sections: seq<Section>)
    requires forall s <- sections :: s.Typed?
    ensures AllTexts(sections) == OptTexts(Gathered(sections))
  {
    hide OptTexts;
    if sections == [] {
      NoTexts();
    } else {
      var front, last := sections[..|sections| - 1], sections[|sections| - 1];
      assert last in sections;
      TextsGathered(front);
      AllTextsTogether(front, [last]);
      assert front + [last] == sections;
      assert AllTexts([last]) == SectionLines(last);
      OptTextsTogether(Gathered(front), last.options);
    }
  }

  lemma NoTexts()
    ensures OptTexts([]) == []
  {
  }

  lemma OptTextsTogether(a: seq<Opt>, b: seq<Opt>)
    ensures OptTexts(a + b) == OptTexts(a) + OptTexts(b)
  {
  }

  lemma GatheredOne(sections: seq<Section>, s: Section)
    requires s.Typed?
    ensures Gathered(sections + [s]) == Gathered(sections) + s.options
  {
    assert (sections + [s])[..|sections|] == sections;
  }

  lemma SectionsGathered(c: Config)
    ensures Gathered(TypedSections(c)) == TypedOptions(c)
  {
    hide Gathered, ControlOptions, Map, NetworkOptions, CircuitOptions, PaddingOptions, BridgeOptions, NodeOptions,
         SystemOptions, LoggingOptions;
    NothingGathered();
    var s0: seq<Section> := [];
    var s1 := s0 + [Typed(DIRECTORIES_SECTION, [Opt(DATA_DIRECTORY, c.dataDirectory)])];
    var s2 := s1 + [Typed(CONTROL_INTERFACE_SECTION, ControlOptions(c.control))];
    var s3 := s2 + [Typed(SOCKS_LISTENERS_SECTION, Map(SocksOpt, c.socks.listeners))];
    var s4 := s3 + [Typed(ADDRESS_FAMILY_SECTION, NetworkOptions(c.network))];
    var s5 := s4 + [Typed(CIRCUITS_AND_TIMEOUTS_SECTION, CircuitOptions(c.circuits))];
    var s6 := s5 + [Typed(TRAFFIC_ANALYSIS_RESISTANCE_SECTION, PaddingOptions(c.padding))];
    var s7 := s6 + if c.bridges.Some? then [Typed(BRIDGES_SECTION, BridgeOptions(c.bridges.value))] else [];
    var s8 := s7 + [Typed(NODE_SELECTION_SECTION, NodeOptions(c.nodes))];
    var s9 := s8 + [Typed(SYSTEM_SECTION, SystemOptions(c.system))];
    var s10 := s9 + [Typed(LOGGING_SECTION, LoggingOptions(c.logging))];
    GatheredOne(s0, Typed(DIRECTORIES_SECTION, [Opt(DATA_DIRECTORY, c.dataDirectory)]));
    GatheredOne(s1, Typed(CONTROL_INTERFACE_SECTION, ControlOptions(c.control)));
    GatheredOne(s2, Typed(SOCKS_LISTENERS_SECTION, Map(SocksOpt, c.socks.listeners)));
    GatheredOne(s3, Typed(ADDRESS_FAMILY_SECTION, NetworkOptions(c.network)));
    GatheredOne(s4, Typed(CIRCUITS_AND_TIMEOUTS_SECTION, CircuitOptions(c.circuits)));
    GatheredOne(s5, Typed(TRAFFIC_ANALYSIS_RESISTANCE_SECTION, PaddingOptions(c.padding)));
    if c.bridges.Some? {
      GatheredOne(s6, Typed(BRIDGES_SECTION, BridgeOptions(c.bridges.value)));
    } else {
      assert s7 == s6;
    }
    GatheredOne(s7, Typed(NODE_SELECTION_SECTION, NodeOptions(c.nodes)));
    GatheredOne(s8, Typed(SYSTEM_SECTION, SystemOptions(c.system)));
    GatheredOne(s9, Typed(LOGGING_SECTION, LoggingOptions(c.logging)));
    assert s10 == TypedSections(c);
    assert Gathered(s6) == [Opt(DATA_DIRECTORY, c.dataDirectory)] + ControlOptions(c.control)
                         + Map(SocksOpt, c.socks.listeners) + NetworkOptions(c.network) + CircuitOptions(c.circuits)
                         + PaddingOptions(c.padding);
    assert Gathered(s7) == Gathered(s6) + BridgesOrNone(c.bridges);
  }

  lemma NothingGathered()
    ensures Gathered([]) == []
  {
  }

  /** The values of a keyword in all sections. */
  lemma ChosenInConfig(c: Config, k: string)
    ensures Chosen(TypedOptions(c), k)
         == Chosen([Opt(DATA_DIRECTORY, c.dataDirectory)], k) + Chosen(ControlOptions(c.control), k)
            + Chosen(Map(SocksOpt, c.socks.listeners), k) + Chosen(NetworkOptions(c.network), k)
            + Chosen(CircuitOptions(c.circuits), k) + Chosen(PaddingOptions(c.padding), k)
            + Chosen(BridgesOrNone(c.bridges), k) + Chosen(NodeOptions(c.nodes), k)
            + Chosen(SystemOptions(c.system), k) + Chosen(LoggingOptions(c.logging), k)
  {
    hide Chosen, ControlOptions, Map, NetworkOptions, CircuitOptions, PaddingOptions, BridgesOrNone, NodeOptions,
         SystemOptions, LoggingOptions;
    var o1 := [Opt(DATA_DIRECTORY, c.dataDirectory)];
    var o2 := o1 + ControlOptions(c.control);
    var o3 := o2 + Map(SocksOpt, c.socks.listeners);
    var o4 := o3 + NetworkOptions(c.network);
    var o5 := o4 + CircuitOptions(c.circuits);
    var o6 := o5 + PaddingOptions(c.padding);
    var o7 := o6 + BridgesOrNone(c.bridges);
    var o8 := o7 + NodeOptions(c.nodes);
    var o9 := o8 + SystemOptions(c.system);
    ChosenTogether(o1, ControlOptions(c.control), k);
    ChosenTogether(o2, Map(SocksOpt, c.socks.listeners), k);
    ChosenTogether(o3, NetworkOptions(c.network), k);
    ChosenTogether(o4, CircuitOptions(c.circuits), k);
    ChosenTogether(o5, PaddingOptions(c.padding), k);
    ChosenTogether(o6, BridgesOrNone(c.bridges), k);
    ChosenTogether(o7, NodeOptions(c.nodes), k);
    ChosenTogether(o8, SystemOptions(c.system), k);
    ChosenTogether(o9, LoggingOptions(c.logging), k);
  }

  // ---- No two keywords are the same ---------------------------------------------------------

  /** Every keyword has its number, found by its length and its two ends; other words may have any. */
  function Number(k: string): nat {
    if k == [] then 0 else NumberOfMark(|k|, k[0], k[|k| - 1])
  }

  function NumberOfMark(length: nat, first: char, last: char): nat {
    match length
    case 3 => 35
    case 6 => 27
    case 9 => if first == 'S' then 7 else if first == 'E' then 28 else 33
    case 10 => 25
    case 11 => if first == 'C' then 2 else if last == 's' then 30 else 36
    case 12 => 13
    case 13 => if first == 'D' then 1 else if last == '4' then 8 else if last == '6' then 9 else 32
    case 14 => if first == 'N' then 18 else if first == 'U' then 19 else 22
    case 15 => if first == 'K' then 24 else 31
    case 16 => if first == 'N' then 11 else 29
    case 17 => if first == 'C' then 20 else 37
    case 19 => if first == 'M' then 10 else 14
    case 20 => if last == 'n' then 3 else 16
    case 21 => if first == 'H' then 4 else if first == 'R' then 23 else 26
    case 22 => 5
    case 24 => if first == 'C' then 12 else if first == 'L' then 15 else if first == 'M' then 17 else 21
    case 25 => if first == '_' then 6 else 34
    case _ => 0
  }

  lemma NumberIs(k: string, length: nat, first: char, last: char, n: nat)
    requires |k| == length > 0 && k[0] == first && k[length - 1] == last && NumberOfMark(length, first, last) == n
    ensures Number(k) == n
  {
  }

  /** Words of different numbers are different. */
  lemma AtOthers(k: string)
    ensures forall of: string, v {:trigger At(k, of, v)} :: Number(k) != Number(of) ==> At(k, of, v) == []
    ensures forall v {:trigger At(k, k, v)} :: At(k, k, v) == v
  {
    hide Number;
  }

  lemma AtOther(k: string, of: string, values: seq<string>)
    requires Number(k) != Number(of)
    ensures At(k, of, values) == []
  {
    hide Number;
  }

  lemma DirectoryNumbers()
    ensures Number("DataDirectory") == 1
  {
    hide Number;
    NumberIs("DataDirectory", 13, 'D', 'y', 1);
  }

  lemma ControlNumbers()
    ensures Number("ControlPort") == 2 && Number("CookieAuthentication") == 3
         && Number("HashedControlPassword") == 4 && Number("ControlPortWriteToFile") == 5
         && Number("__OwningControllerProcess") == 6
  {
    hide Number;
    NumberIs("ControlPort", 11, 'C', 't', 2);
    NumberIs("CookieAuthentication", 20, 'C', 'n', 3);
    NumberIs("HashedControlPassword", 21, 'H', 'd', 4);
    NumberIs("ControlPortWriteToFile", 22, 'C', 'e', 5);
    NumberIs("__OwningControllerProcess", 25, '_', 's', 6);
  }

  lemma SocksNumbers()
    ensures Number("SocksPort") == 7
  {
    hide Number;
    NumberIs("SocksPort", 9, 'S', 't', 7);
  }

  lemma NetworkNumbers()
    ensures Number("ClientUseIPv4") == 8 && Number("ClientUseIPv6") == 9
  {
    hide Number;
    NumberIs("ClientUseIPv4", 13, 'C', '4', 8);
    NumberIs("ClientUseIPv6", 13, 'C', '6', 9);
  }

  lemma CircuitNumbers()
    ensures Number("MaxCircuitDirtiness") == 10 && Number("NewCircuitPeriod") == 11
         && Number("CircuitsAvailableTimeout") == 12 && Number("SocksTimeout") == 13
         && Number("CircuitBuildTimeout") == 14 && Number("LearnCircuitBuildTimeout") == 15
         && Number("CircuitStreamTimeout") == 16 && Number("MaxClientCircuitsPending") == 17
         && Number("NumEntryGuards") == 18 && Number("UseEntryGuards") == 19
  {
    hide Number;
    NumberIs("MaxCircuitDirtiness", 19, 'M', 's', 10);
    NumberIs("NewCircuitPeriod", 16, 'N', 'd', 11);
    NumberIs("CircuitsAvailableTimeout", 24, 'C', 't', 12);
    NumberIs("SocksTimeout", 12, 'S', 't', 13);
    NumberIs("CircuitBuildTimeout", 19, 'C', 't', 14);
    NumberIs("LearnCircuitBuildTimeout", 24, 'L', 't', 15);
    NumberIs("CircuitStreamTimeout", 20, 'C', 't', 16);
    NumberIs("MaxClientCircuitsPending", 24, 'M', 'g', 17);
    NumberIs("NumEntryGuards", 14, 'N', 's', 18);
    NumberIs("UseEntryGuards", 14, 'U', 's', 19);
  }

  lemma PaddingNumbers()
    ensures Number("ConnectionPadding") == 20 && Number("ReducedConnectionPadding") == 21
         && Number("CircuitPadding") == 22 && Number("ReducedCircuitPadding") == 23
         && Number("KeepalivePeriod") == 24
  {
    hide Number;
    NumberIs("ConnectionPadding", 17, 'C', 'g', 20);
    NumberIs("ReducedConnectionPadding", 24, 'R', 'g', 21);
    NumberIs("CircuitPadding", 14, 'C', 'g', 22);
    NumberIs("ReducedCircuitPadding", 21, 'R', 'g', 23);
    NumberIs("KeepalivePeriod", 15, 'K', 'd', 24);
  }

  lemma BridgeNumbers()
    ensures Number("UseBridges") == 25 && Number("ClientTransportPlugin") == 26 && Number("Bridge") == 27
  {
    hide Number;
    NumberIs("UseBridges", 10, 'U', 's', 25);
    NumberIs("ClientTransportPlugin", 21, 'C', 'n', 26);
    NumberIs("Bridge", 6, 'B', 'e', 27);
  }

  lemma NodeNumbers()
    ensures Number("ExitNodes") == 28 && Number("ExcludeExitNodes") == 29 && Number("StrictNodes") == 30
  {
    hide Number;
    NumberIs("ExitNodes", 9, 'E', 's', 28);
    NumberIs("ExcludeExitNodes", 16, 'E', 's', 29);
    NumberIs("StrictNodes", 11, 'S', 's', 30);
  }

  lemma SystemNumbers()
    ensures Number("AvoidDiskWrites") == 31 && Number("HardwareAccel") == 32 && Number("ConnLimit") == 33
         && Number("DisableDebuggerAttachment") == 34
  {
    hide Number;
    NumberIs("AvoidDiskWrites", 15, 'A', 's', 31);
    NumberIs("HardwareAccel", 13, 'H', 'l', 32);
    NumberIs("ConnLimit", 9, 'C', 't', 33);
    NumberIs("DisableDebuggerAttachment", 25, 'D', 't', 34);
  }

  lemma LoggingNumbers()
    ensures Number("Log") == 35 && Number("SafeLogging") == 36 && Number("SyslogIdentityTag") == 37
  {
    hide Number;
    NumberIs("Log", 3, 'L', 'g', 35);
    NumberIs("SafeLogging", 11, 'S', 'g', 36);
    NumberIs("SyslogIdentityTag", 17, 'S', 'g', 37);
  }

  lemma DirectoryForeign(directory: string, k: string)
    requires Number(k) != 1
    ensures Chosen([Opt(DATA_DIRECTORY, directory)], k) == []
  {
    hide FlagValues, NumberValues, TristateValues, ListValues, TextValues;
    hide Chosen, At, Number;
    DirectoryNumbers();
    AtOthers(k);
    OneChosen(Opt(DATA_DIRECTORY, directory), k);
  }

  lemma SocksForeign(listeners: seq<SocksPort>, k: string)
    requires Number(k) < 7 || Number(k) > 7
    ensures Chosen(Map(SocksOpt, listeners), k) == []
  {
    hide FlagValues, NumberValues, TristateValues, ListValues, TextValues;
    hide Chosen, At, Number, Map, OptValues;
    SocksNumbers();
    AtOthers(k);
    SocksValues(listeners, k);
  }

  lemma ControlForeign(control: Option<ControlConfig>, k: string)
    requires Number(k) < 2 || Number(k) > 6
    ensures Chosen(ControlOptions(control), k) == []
  {
    hide FlagValues, NumberValues, TristateValues, ListValues, TextValues;
    hide Chosen, At, Number, ListenText;
    ControlNumbers();
    AtOthers(k);
    if control.Some? {
      ControlValues(control.value, k);
    } else {
      NothingChosen(k);
    }
  }

  lemma BridgeForeign(bridges: Option<BridgeConfig>, k: string)
    requires Number(k) < 25 || Number(k) > 27
    ensures Chosen(BridgesOrNone(bridges), k) == []
  {
    hide FlagValues, NumberValues, TristateValues, ListValues, TextValues;
    hide Chosen, At, Number, BridgeOptions, Map, OptValues;
    BridgeNumbers();
    AtOthers(k);
    if bridges.Some? {
      BridgeValues(bridges.value, k);
    } else {
      NothingChosen(k);
    }
  }

  lemma NetworkForeign(x: NetworkConfig, k: string)
    requires Number(k) < 8 || Number(k) > 9
    ensures Chosen(NetworkOptions(x), k) == []
  {
    hide FlagValues, NumberValues, TristateValues, ListValues, TextValues;
    hide Chosen, At, Number, NetworkOptions, OptValues, Map;
    NetworkNumbers();
    AtOthers(k);
    NetworkValues(x, k);
  }

  lemma CircuitForeign(x: CircuitConfig, k: string)
    requires Number(k) < 10 || Number(k) > 19
    ensures Chosen(CircuitOptions(x), k) == []
  {
    hide *;
    CircuitNumbers();
    CircuitValues(x, k);
    AtOther(k, "MaxCircuitDirtiness", NumberValues(x.maxCircuitDirtiness));
    AtOther(k, "NewCircuitPeriod", NumberValues(x.newCircuitPeriod));
    AtOther(k, "CircuitsAvailableTimeout", NumberValues(x.circuitsAvailableTimeout));
    AtOther(k, "SocksTimeout", NumberValues(x.socksTimeout));
    AtOther(k, "CircuitBuildTimeout", NumberValues(x.circuitBuildTimeout));
    AtOther(k, "LearnCircuitBuildTimeout", FlagValues(x.learnCircuitBuildTimeout));
    AtOther(k, "CircuitStreamTimeout", NumberValues(x.circuitStreamTimeout));
    AtOther(k, "MaxClientCircuitsPending", NumberValues(x.maxClientCircuitsPending));
    AtOther(k, "NumEntryGuards", NumberValues(x.numEntryGuards));
    AtOther(k, "UseEntryGuards", FlagValues(x.useEntryGuards));
  }

  lemma PaddingForeign(x: PaddingConfig, k: string)
    requires Number(k) < 20 || Number(k) > 24
    ensures Chosen(PaddingOptions(x), k) == []
  {
    hide *;
    PaddingNumbers();
    AtOthers(k);
    PaddingValues(x, k);
  }

  lemma NodeForeign(x: NodeSelection, k: string)
    requires Number(k) < 28 || Number(k) > 30
    ensures Chosen(NodeOptions(x), k) == []
  {
    hide FlagValues, NumberValues, TristateValues, ListValues, TextValues;
    hide Chosen, At, Number, NodeOptions, OptValues, Map;
    NodeNumbers();
    AtOthers(k);
    NodeValues(x, k);
  }

  lemma SystemForeign(x: SystemConfig, k: string)
    requires Number(k) < 31 || Number(k) > 34
    ensures Chosen(SystemOptions(x), k) == []
  {
    hide FlagValues, NumberValues, TristateValues, ListValues, TextValues;
    hide Chosen, At, Number, SystemOptions, OptValues, Map;
    SystemNumbers();
    AtOthers(k);
    SystemValues(x, k);
  }

  lemma LoggingForeign(x: LoggingConfig, k: string)
    requires Number(k) < 35 || Number(k) > 37
    ensures Chosen(LoggingOptions(x), k) == []
  {
    hide FlagValues, NumberValues, TristateValues, ListValues, TextValues;
    hide Chosen, At, Number, LoggingOptions, OptValues, Map;
    LoggingNumbers();
    AtOthers(k);
    LoggingValues(x, k);
  }

  /** The options of the section with the keyword of that number. */
  function SectionOptions(c: Config, n: nat): seq<Opt> {
    if n == 1 then [Opt(DATA_DIRECTORY, c.dataDirectory)]
    else if 2 <= n <= 6 then ControlOptions(c.control)
    else if n == 7 then Map(SocksOpt, c.socks.listeners)
    else if 8 <= n <= 9 then NetworkOptions(c.network)
    else if 10 <= n <= 19 then CircuitOptions(c.circuits)
    else if 20 <= n <= 24 then PaddingOptions(c.padding)
    else if 25 <= n <= 27 then BridgesOrNone(c.bridges)
    else if 28 <= n <= 30 then NodeOptions(c.nodes)
    else if 31 <= n <= 34 then SystemOptions(c.system)
    else if 35 <= n <= 37 then LoggingOptions(c.logging)
    else []
  }

  /** A keyword is found in its own section only. */
  lemma ChosenAtHome(c: Config, k: string)
    ensures Chosen(TypedOptions(c), k) == Chosen(SectionOptions(c, Number(k)), k)
  {
    hide Chosen, ControlOptions, Map, NetworkOptions, CircuitOptions, PaddingOptions, BridgesOrNone, NodeOptions,
         SystemOptions, LoggingOptions, Number, TypedOptions;
    NothingChosen(k);
    ChosenInConfig(c, k);
    var n := Number(k);
    if n != 1 {
      DirectoryForeign(c.dataDirectory, k);
    }
    if n < 2 || n > 6 {
      ControlForeign(c.control, k);
    }
    if n != 7 {
      SocksForeign(c.socks.listeners, k);
    }
    if n < 8 || n > 9 {
      NetworkForeign(c.network, k);
    }
    if n < 10 || n > 19 {
      CircuitForeign(c.circuits, k);
    }
    if n < 20 || n > 24 {
      PaddingForeign(c.padding, k);
    }
    if n < 25 || n > 27 {
      BridgeForeign(c.bridges, k);
    }
    if n < 28 || n > 30 {
      NodeForeign(c.nodes, k);
    }
    if n < 31 || n > 34 {
      SystemForeign(c.system, k);
    }
    if n < 35 || n > 37 {
      LoggingForeign(c.logging, k);
    }
  }

  // ---- The keywords of torlane and the options beside them -----------------------------------

  predicate IsKeyword(k: string) {
    || k == DATA_DIRECTORY
    || k == CONTROL_PORT || k == COOKIE_AUTHENTICATION || k == HASHED_CONTROL_PASSWORD
    || k == CONTROL_PORT_WRITE_TO_FILE || k == OWNING_CONTROLLER_PROCESS
    || k == SOCKS_PORT
    || k == CLIENT_USE_IPV4 || k == CLIENT_USE_IPV6
    || k == MAX_CIRCUIT_DIRTINESS || k == NEW_CIRCUIT_PERIOD || k == CIRCUITS_AVAILABLE_TIMEOUT
    || k == SOCKS_TIMEOUT || k == CIRCUIT_BUILD_TIMEOUT || k == LEARN_CIRCUIT_BUILD_TIMEOUT
    || k == CIRCUIT_STREAM_TIMEOUT || k == MAX_CLIENT_CIRCUITS_PENDING || k == NUM_ENTRY_GUARDS
    || k == USE_ENTRY_GUARDS
    || k == CONNECTION_PADDING || k == REDUCED_CONNECTION_PADDING || k == CIRCUIT_PADDING
    || k == REDUCED_CIRCUIT_PADDING || k == KEEPALIVE_PERIOD
    || k == USE_BRIDGES || k == CLIENT_TRANSPORT_PLUGIN || k == BRIDGE
    || k == EXIT_NODES || k == EXCLUDE_EXIT_NODES || k == STRICT_NODES
    || k == AVOID_DISK_WRITES || k == HARDWARE_ACCEL || k == CONN_LIMIT
    || k == DISABLE_DEBUGGER_ATTACHMENT
    || k == LOG || k == SAFE_LOGGING || k == SYSLOG_IDENTITY_TAG
  }

  /** A typed value that keeps to its line, under one of the keywords. */
  predicate Proper(o: Opt) {
    '\n' !in o.value && IsKeyword(o.keyword)
  }

  ghost predicate AllProper(options: seq<Opt>) {
    forall o <- options :: Proper(o)
  }

  lemma DigitsAreOneLine(n: nat)
    ensures '\n' !in Numeral(n) && ' ' !in Numeral(n) && ':' !in Numeral(n)
  {
    hide Numeral;
  }

  lemma {:induction false} JoinIsOneLine(parts: seq<string>, c: char)
    requires c != '\n' && forall p <- parts :: '\n' !in p
    ensures '\n' !in Join(parts, c)
  {
    if |parts| > 1 {
      assert parts[0] in parts && forall p <- parts[1..] :: p in parts;
      JoinIsOneLine(parts[1..], c);
    } else if |parts| == 1 {
      assert parts[0] in parts;
    }
  }

  lemma ProperPresent()
    ensures forall of: Keyword, b, rest {:trigger AllProper(Present(FlagOpt(of, b), rest))} ::
              IsKeyword(of) && AllProper(rest) ==> AllProper(Present(FlagOpt(of, b), rest))
    ensures forall of: Keyword, t, rest {:trigger AllProper(Present(TristateOpt(of, t), rest))} ::
              IsKeyword(of) && AllProper(rest) ==> AllProper(Present(TristateOpt(of, t), rest))
    ensures forall of: Keyword, n, rest {:trigger AllProper(Present(NumberOpt(of, n), rest))} ::
              IsKeyword(of) && AllProper(rest) ==> AllProper(Present(NumberOpt(of, n), rest))
    ensures forall of: Keyword, t: Option<string>, rest {:trigger AllProper(Present(TextOpt(of, t), rest))} ::
              IsKeyword(of) && AllProper(rest) && (t.Some? ==> '\n' !in t.value) ==>
                AllProper(Present(TextOpt(of, t), rest))
    ensures forall of: Keyword, l: seq<string>, rest {:trigger AllProper(Present(ListOpt(of, l), rest))} ::
              IsKeyword(of) && AllProper(rest) && (forall x <- l :: '\n' !in x) ==>
                AllProper(Present(ListOpt(of, l), rest))
    ensures AllProper([])
  {
    hide IsKeyword, Numeral, Join;
    forall n: nat
      ensures '\n' !in Numeral(n)
    {
      DigitsAreOneLine(n);
    }
    forall l: seq<string> | forall x <- l :: '\n' !in x
      ensures '\n' !in Join(l, ',')
    {
      JoinIsOneLine(l, ',');
    }
  }

  // ---- Simple values read back --------------------------------------------------------------

  lemma NumberReads(n: nat)
    ensures NumberOf(Numeral(n)) == Ok(n)
  {
    ValueOfNumeral(n);
  }

  lemma FlagReads(b: Option<bool>)
    ensures Optional(FlagValues(b), FlagOf) == Ok(b)
  {
  }

  lemma TristateReads(t: Option<Tristate>)
    ensures Optional(TristateValues(t), TristateOf) == Ok(t)
  {
    assert "auto"[0] == 'a' && "1"[0] == '1' && "0"[0] == '0';
  }

  lemma OptionalNumberReads(n: Option<nat>)
    ensures Optional(NumberValues(n), NumberOf) == Ok(n)
  {
    hide Numeral;
    if n.Some? {
      NumberReads(n.value);
    }
  }

  lemma TextReads(t: Option<string>)
    ensures FirstOf(TextValues(t)) == t
  {
  }

  lemma ListReads(values: seq<string>)
    requires forall v <- values :: ',' !in v
    ensures ListOf(ListValues(values)) == values
  {
    if values != [] {
      SplitJoin(values, ',');
    }
  }

  lemma {:induction false} EachReads<T>(values: seq<string>, items: seq<T>, parse: string -> Reading<T>)
    requires |values| == |items| && forall i | 0 <= i < |values| :: parse(values[i]) == Ok(items[i])
    ensures Each(values, parse) == Ok(items)
  {
    if values != [] {
      EachReads(values[1..], items[1..], parse);
      assert [items[0]] + items[1..] == items;
    }
  }

  // ---- Places read back ---------------------------------------------------------------------

  lemma {:induction false} LastIndexIs(front: string, back: string, c: char)
    requires c !in back
    ensures LastIndexOf(front + [c] + back, c) == |front|
  {
    var s := front + [c] + back;
    if back == [] {
      assert s[|s| - 1] == c;
    } else {
      var shorter := back[..|back| - 1];
      assert back[|back| - 1] in back && s[|s| - 1] == back[|back| - 1];
      assert s[..|s| - 1] == front + [c] + shorter;
      LastIndexIs(front, shorter, c);
    }
  }

  /** A place without its host when there is none to write. */
  function ShownPlace(addr: Ip, port: PortSpec): Place {
    Place(if port.UnixPath? then None else Some(addr), port)
  }

  lemma PortReads(n: nat)
    ensures PortOf(Numeral(n)) == Ok(Num(n))
  {
    hide Numeral;
    NumberReads(n);
    assert "auto"[0] == 'a';
  }

  lemma HostReads(addr: Ip)
    ensures HostOf(if addr.V6? then "[" + addr.text + "]" else addr.text) == Ok(addr)
    ensures HostOf(addr.text) == Ok(addr)
  {
    HostBegins(addr);
    if addr.V6? {
      var bracketed := "[" + addr.text + "]";
      assert bracketed[1..|bracketed| - 1] == addr.text;
      assert bracketed[0] == '[' && bracketed[|bracketed| - 1] == ']';
      assert HostOf(bracketed) == AddressOf(V6(addr.text));
      assert HostOf(addr.text) == AddressOf(V6(addr.text));
    }
  }

  lemma NotUnix(text: string, rest: string)
    requires text != [] && text[0] != 'u'
    ensures !("unix:" <= text + rest)
  {
    assert (text + rest)[0] == text[0];
    assert "unix:"[0] == 'u';
  }

  lemma PlaceReads(addr: Ip, port: PortSpec)
    ensures PlaceOf(AddrPortText(addr, port)) == Ok(ShownPlace(addr, port))
  {
    hide Numeral, HostOf, PortOf, LastIndexOf;
    match port
    case UnixPath(path) => assert ("unix:" + path)[5..] == path;
    case Auto =>
      PlaceSplits(addr.text, "auto", addr, port);
      assert addr.text + ":auto" == addr.text + ":" + "auto";
    case Num(n) =>
      DigitsAreOneLine(n);
      PlaceSplits(if addr.V6? then "[" + addr.text + "]" else addr.text, Numeral(n), addr, port);
      assert "[" + addr.text + "]:" + Numeral(n) == "[" + addr.text + "]" + ":" + Numeral(n);
  }

  lemma PlaceSplits(host: string, port: string, addr: Ip, p: PortSpec)
    requires !p.UnixPath? && ':' !in port
    requires (p.Auto? && port == "auto") || (p.Num? && port == Numeral(p.port))
    requires host == addr.text || host == if addr.V6? then "[" + addr.text + "]" else addr.text
    ensures PlaceOf(host + ":" + port) == Ok(Place(Some(addr), p))
  {
    hide Numeral, HostOf, LastIndexOf;
    HostReads(addr);
    if p.Num? {
      PortReads(p.port);
    }
    HostBegins(addr);
    NotUnix(host, ":" + port);
    assert host + (":" + port) == host + ":" + port;
    LastIndexIs(host, port, ':');
    var v := host + ":" + port;
    assert v[..|host|] == host && v[|host| + 1..] == port;
  }

  lemma HostBegins(addr: Ip)
    ensures addr.text != [] && addr.text[0] != 'u' && addr.text[0] != '['
  {
    assert addr.text[0] in addr.text;
  }

  function ShownListen(l: ControlListen): ControlListen {
    match l
    case Tcp(_, UnixPath(path)) => UnixSocket(path)
    case _ => l
  }

  lemma ListenReads(l: ControlListen)
    ensures ListenOf(ListenText(l)) == Ok(ShownListen(l))
  {
    hide PlaceOf, AddrPortText;
    match l
    case Tcp(addr, port) => PlaceReads(addr, port);
    case UnixSocket(path) => UnixReads(path);
  }

  lemma UnixReads(path: string)
    ensures PlaceOf("unix:" + path) == Ok(Place(None, UnixPath(path)))
  {
    assert ("unix:" + path)[5..] == path;
  }

  // ---- Flags and isolation ------------------------------------------------------------------

  lemma IntegerReads(n: int)
    ensures IntegerOf(if n < 0 then "-" + Numeral(-n) else Numeral(n)) == Ok(n)
  {
    hide Numeral;
    if n < 0 {
      NumberReads(-n);
      assert ("-" + Numeral(-n))[1..] == Numeral(-n);
    } else {
      NumberReads(n);
      assert Numeral(n)[0] != '-';
    }
  }

  lemma FlagPartReads(f: SocksFlag)
    ensures PartOf(SocksFlagText(f)) == Ok(FlagPart(f))
  {
    hide IsolationOf;
  }

  lemma IsolationReads(i: Isolation)
    ensures IsolationOf(IsolationText(i)) == Ok(i)
  {
    hide Numeral, IntegerOf;
    if i.SessionGroup? {
      var number := if i.group < 0 then "-" + Numeral(-i.group) else Numeral(i.group);
      IntegerReads(i.group);
      var text := "SessionGroup=" + number;
      assert text[13..] == number && text[0] == 'S';
      assert IsolationOf(text) == Ok(SessionGroup(i.group));
    }
  }

  lemma IsolationIsNoFlag(i: Isolation)
    ensures PartOf(IsolationText(i)) == Ok(IsolationPart(i))
  {
    hide IsolationOf, Numeral;
    IsolationReads(i);
    if i.SessionGroup? {
      assert IsolationText(i)[0] == 'S';
    }
  }

  lemma FlagTextIsWord(f: SocksFlag)
    ensures forall x <- SocksFlagText(f) :: x > ' '
  {
  }

  lemma IsolationTextIsWord(i: Isolation)
    ensures forall x <- IsolationText(i) :: x > ' '
  {
    hide Numeral;
    if i.SessionGroup? {
      GroupIsWord(i.group);
    } else {
      SimpleIsolationIsWord(i);
    }
  }

  lemma SimpleIsolationIsWord(i: Isolation)
    requires !i.SessionGroup?
    ensures forall x <- IsolationText(i) :: x > ' '
  {
  }

  lemma GroupIsWord(group: int)
    ensures forall x <- IsolationText(SessionGroup(group)) :: x > ' '
  {
    hide Numeral;
    var number := if group < 0 then "-" + Numeral(-group) else Numeral(group);
    assert forall x <- number :: x > ' ';
    assert forall x <- "SessionGroup=" :: x > ' ';
  }

  lemma PlaceTextIsLine(addr: Ip, port: PortSpec, c: char)
    requires (c == ' ' || c == '\n') && (port.UnixPath? ==> c !in port.path)
    ensures c !in AddrPortText(addr, port)
  {
    hide Numeral;
    assert c !in addr.text;
    if port.Num? {
      DigitsAreOneLine(port.port);
    }
  }

  lemma {:induction false} IsolationsApart(isolation: seq<Isolation>)
    ensures FlagsIn(IsolationParts(isolation)) == [] && IsolationsIn(IsolationParts(isolation)) == isolation
  {
    if isolation != [] {
      IsolationsApart(isolation[1..]);
      assert IsolationParts(isolation)[1..] == IsolationParts(isolation[1..]);
      assert [isolation[0]] + isolation[1..] == isolation;
    }
  }

  lemma {:induction false} PartsApart(flags: seq<SocksFlag>, isolation: seq<Isolation>)
    ensures var parts := FlagParts(flags) + IsolationParts(isolation);
      FlagsIn(parts) == flags && IsolationsIn(parts) == isolation
  {
    var parts := FlagParts(flags) + IsolationParts(isolation);
    if flags == [] {
      IsolationsApart(isolation);
      assert parts == IsolationParts(isolation);
    } else {
      PartsApart(flags[1..], isolation);
      assert parts[1..] == FlagParts(flags[1..]) + IsolationParts(isolation);
      assert [flags[0]] + flags[1..] == flags;
    }
  }

  // ---- Listeners ----------------------------------------------------------------------------

  predicate SocksReadable(s: SocksPort) {
    s.port.UnixPath? ==> IsWord(s.port.path)
  }

  /** A listener on a path has no address to read back. */
  function ShownSocks(s: SocksPort): SocksPort {
    if s.port.UnixPath? then s.(addr := LOCALHOST) else s
  }

  function SocksWords(s: SocksPort): seq<string> {
    [AddrPortText(s.addr, s.port)] + Map(SocksFlagText, s.flags) + Map(IsolationText, s.isolation)
  }

  lemma SocksWordsAreWords(s: SocksPort)
    requires SocksReadable(s)
    ensures forall w <- SocksWords(s) :: ' ' !in w && '\n' !in w
  {
    hide AddrPortText, SocksFlagText, IsolationText;
    PlaceTextIsLine(s.addr, s.port, ' ');
    PlaceTextIsLine(s.addr, s.port, '\n');
    forall i | 0 <= i < |s.flags|
      ensures ' ' !in Map(SocksFlagText, s.flags)[i] && '\n' !in Map(SocksFlagText, s.flags)[i]
    {
      FlagTextIsWord(s.flags[i]);
    }
    forall i | 0 <= i < |s.isolation|
      ensures ' ' !in Map(IsolationText, s.isolation)[i] && '\n' !in Map(IsolationText, s.isolation)[i]
    {
      IsolationTextIsWord(s.isolation[i]);
    }
  }

  lemma SocksReads(s: SocksPort)
    requires SocksReadable(s)
    ensures SocksOf(SocksOpt(s).value) == Ok(ShownSocks(s))
  {
    hide AddrPortText, SocksFlagText, IsolationText, Split, Join, PlaceOf, PartOf, Each, FlagsIn, IsolationsIn;
    SocksWordsAreWords(s);
    assert forall w <- SocksWords(s) :: ' ' !in w;
    SplitJoin(SocksWords(s), ' ');
    PlaceReads(s.addr, s.port);
    var words := SocksWords(s);
    var parts := FlagParts(s.flags) + IsolationParts(s.isolation);
    forall i | 0 <= i < |parts|
      ensures PartOf(words[1..][i]) == Ok(parts[i])
    {
      if i < |s.flags| {
        FlagPartReads(s.flags[i]);
      } else {
        IsolationIsNoFlag(s.isolation[i - |s.flags|]);
      }
    }
    EachReads(words[1..], parts, PartOf);
    PartsApart(s.flags, s.isolation);
  }

  // ---- Bridges and plugins ------------------------------------------------------------------

  predicate IsWord(s: string) {
    ' ' !in s && '\n' !in s
  }

  ghost predicate PluginReadable(p: Plugin) {
    && p.names != [] && (forall n <- p.names :: IsWord(n) && ',' !in n)
    && IsWord(p.executable) && forall a <- p.args :: IsWord(a)
  }

  lemma {:induction false} JoinSnoc(parts: seq<string>, last: string)
    requires parts != []
    ensures Join(parts + [last], ' ') == Join(parts, ' ') + " " + last
  {
    if |parts| > 1 {
      JoinSnoc(parts[1..], last);
      assert (parts + [last])[1..] == parts[1..] + [last];
    } else {
      assert (parts + [last])[1..] == [last];
    }
  }

  lemma {:induction false} JoinSpacing(parts: seq<string>, args: seq<string>)
    requires parts != []
    ensures Join(parts + args, ' ') == Join(parts, ' ') + Spacing(args)
  {
    hide Join;
    if args == [] {
      assert parts + args == parts;
    } else {
      var front, last := args[..|args| - 1], args[|args| - 1];
      JoinSpacing(parts, front);
      JoinSnoc(parts + front, last);
      assert parts + args == parts + front + [last];
    }
  }

  lemma {:induction false} JoinIsWord(parts: seq<string>)
    requires forall p <- parts :: IsWord(p)
    ensures IsWord(Join(parts, ','))
  {
    if |parts| > 1 {
      assert parts[0] in parts && forall p <- parts[1..] :: p in parts;
      JoinIsWord(parts[1..]);
    } else if |parts| == 1 {
      assert parts[0] in parts;
    }
  }

  function PluginWords(p: Plugin): seq<string> {
    [Join(p.names, ','), "exec", p.executable] + p.args
  }

  lemma ThreeWords(a: string, b: string, c: string)
    ensures Join([a, b, c], ' ') == a + " " + b + " " + c
  {
    assert [a, b, c][1..] == [b, c] && [b, c][1..] == [c];
    assert Join([b, c], ' ') == b + " " + c;
    assert a + " " + (b + " " + c) == a + " " + b + " " + c;
  }

  lemma PluginText(p: Plugin)
    ensures PluginOpt(p).value == Join(PluginWords(p), ' ')
  {
    hide Join, Spacing;
    var names := Join(p.names, ',');
    JoinSpacing([names, "exec", p.executable], p.args);
    ThreeWords(names, "exec", p.executable);
    assert names + " " + "exec" + " " + p.executable == names + " exec " + p.executable;
  }

  lemma PluginWordsAreWords(p: Plugin)
    requires PluginReadable(p)
    ensures forall w <- PluginWords(p) :: IsWord(w)
  {
    hide Join;
    JoinIsWord(p.names);
    assert IsWord("exec");
  }

  lemma PluginReads(p: Plugin)
    requires PluginReadable(p)
    ensures PluginOf(PluginOpt(p).value) == Ok(p)
  {
    hide Join, Split, Spacing, PluginOpt;
    PluginText(p);
    PluginWordsAreWords(p);
    SplitJoin(PluginWords(p), ' ');
    SplitJoin(p.names, ',');
    assert PluginWords(p)[3..] == p.args;
  }

  ghost predicate ArgReadable(a: Arg) {
    IsWord(a.key) && '=' !in a.key && IsWord(a.value)
  }

  ghost predicate BridgeReadable(b: Bridge) {
    && (b.transport.Some? ==> IsWord(b.transport.value) && ':' !in b.transport.value)
    && IsWord(b.addr) && ':' in b.addr
    && (b.fingerprint.Some? ==> IsWord(b.fingerprint.value) && '=' !in b.fingerprint.value)
    && forall a <- b.args :: ArgReadable(a)
  }

  lemma ArgReads(a: Arg)
    requires ArgReadable(a)
    ensures ArgOf(ArgText(a)) == Ok(a) && IsWord(ArgText(a)) && '=' in ArgText(a)
  {
    var text := ArgText(a);
    assert text[|a.key|] == '=';
    assert forall j | 0 <= j < |a.key| :: text[j] == a.key[j];
    IndexOfIs(text, '=', |a.key|);
    assert text[..|a.key|] == a.key && text[|a.key| + 1..] == a.value;
  }

  function BridgeWords(b: Bridge): seq<string> {
    (if b.transport.Some? then [b.transport.value] else []) + [b.addr]
    + (if b.fingerprint.Some? then [b.fingerprint.value] else []) + Map(ArgText, b.args)
  }

  lemma BridgeWordsAreWords(b: Bridge)
    requires BridgeReadable(b)
    ensures forall w <- BridgeWords(b) :: IsWord(w)
    ensures forall i | 0 <= i < |b.args| ::
              ArgOf(Map(ArgText, b.args)[i]) == Ok(b.args[i]) && '=' in Map(ArgText, b.args)[i]
  {
    hide ArgOf, ArgText, IsWord;
    forall i | 0 <= i < |b.args|
      ensures var text := Map(ArgText, b.args)[i]; ArgOf(text) == Ok(b.args[i]) && IsWord(text) && '=' in text
    {
      assert b.args[i] in b.args;
      ArgReads(b.args[i]);
    }
  }

  lemma BridgeReads(b: Bridge)
    requires BridgeReadable(b)
    ensures BridgeOf(BridgeOpt(b).value) == Ok(b)
  {
    hide Join, Split, Each, ArgOf, IsWord, Map;
    BridgeWordsAreWords(b);
    var words := BridgeWords(b);
    assert forall w <- words :: ' ' !in w by {
      WordsHaveNoSpace(words);
    }
    SplitJoin(words, ' ');
    var n := if b.transport.Some? then 1 else 0;
    var args := Map(ArgText, b.args);
    var rest := (if b.fingerprint.Some? then [b.fingerprint.value] else []) + args;
    assert words[0] == if n == 1 then b.transport.value else b.addr;
    assert words[n] == b.addr && words[n + 1..] == rest;
    assert b.fingerprint.Some? ==> rest[1..] == args;
    assert b.fingerprint.None? ==> rest == args;
    EachReads(args, b.args, ArgOf);
  }

  lemma WordsHaveNoSpace(words: seq<string>)
    requires forall w <- words :: IsWord(w)
    ensures forall w <- words :: ' ' !in w
  {
  }

  // ---- Logs ---------------------------------------------------------------------------------

  predicate LogReadable(l: LogLine) {
    l.destination.LogFile? ==> '\n' !in l.destination.path
  }

  lemma SeverityReads(s: Severity)
    ensures SeverityOf(SeverityText(s)) == Ok(s) && ' ' !in SeverityText(s) && '\n' !in SeverityText(s)
  {
  }

  lemma LogDestReads(d: LogDest)
    ensures LogDestOf(LogDestText(d)) == Ok(d)
    ensures (d.LogFile? ==> '\n' !in d.path) ==> '\n' !in LogDestText(d)
  {
    if d.LogFile? {
      var text := "file " + d.path;
      assert text[5..] == d.path && text[0] == 'f';
    }
  }

  lemma LogReads(l: LogLine)
    ensures LogOf(LogOpt(l).value) == Ok(l)
  {
    hide SeverityText, LogDestText, SeverityOf, LogDestOf, IndexOf;
    SeverityReads(l.severity);
    LogDestReads(l.destination);
    var severity, destination := SeverityText(l.severity), LogDestText(l.destination);
    var text := severity + " " + destination;
    assert text[|severity|] == ' ';
    assert forall j | 0 <= j < |severity| :: text[j] == severity[j];
    IndexOfIs(text, ' ', |severity|);
    assert text[..|severity|] == severity && text[|severity| + 1..] == destination;
  }

  // ---- Values that keep to their lines ------------------------------------------------------

  predicate IsLine(s: string) {
    '\n' !in s
  }

  predicate PortIsLine(p: PortSpec) {
    p.UnixPath? ==> IsLine(p.path)
  }

  predicate ControlIsLines(c: ControlConfig) {
    && (match c.listen case Tcp(_, port) => PortIsLine(port) case UnixSocket(path) => IsLine(path))
    && (c.auth.HashedPasswordAuth? ==> IsLine(c.auth.hash))
    && (c.writePortToFile.Some? ==> IsLine(c.writePortToFile.value))
  }

  ghost predicate PluginIsLine(p: Plugin) {
    (forall n <- p.names :: IsLine(n)) && IsLine(p.executable) && forall a <- p.args :: IsLine(a)
  }

  ghost predicate BridgeIsLine(b: Bridge) {
    && (b.transport.Some? ==> IsLine(b.transport.value)) && IsLine(b.addr)
    && (b.fingerprint.Some? ==> IsLine(b.fingerprint.value))
    && forall a <- b.args :: IsLine(a.key) && IsLine(a.value)
  }

  /** No text of the configuration has a line break, and no raw option is a comment or one of torlane's own. */
  ghost predicate Tidy(c: Config) {
    && IsLine(c.dataDirectory)
    && (c.control.Some? ==> ControlIsLines(c.control.value))
    && (forall s <- c.socks.listeners :: PortIsLine(s.port))
    && (c.bridges.Some? ==>
          && (forall p <- c.bridges.value.plugins :: PluginIsLine(p))
          && (forall b <- c.bridges.value.bridges :: BridgeIsLine(b)))
    && (forall n <- c.nodes.exitNodes :: IsLine(n)) && (forall n <- c.nodes.excludeExitNodes :: IsLine(n))
    && (forall l <- c.logging.logs :: LogReadable(l))
    && (c.logging.syslogIdentityTag.Some? ==> IsLine(c.logging.syslogIdentityTag.value))
    && (forall r <- c.rawOptions :: r.key[0] != '#' && !IsKeyword(r.key))
  }

  lemma SocksIsLine(s: SocksPort)
    requires PortIsLine(s.port)
    ensures IsLine(SocksOpt(s).value)
  {
    hide Join, AddrPortText, SocksFlagText, IsolationText;
    PlaceTextIsLine(s.addr, s.port, '\n');
    forall i | 0 <= i < |s.flags|
      ensures '\n' !in Map(SocksFlagText, s.flags)[i]
    {
      FlagTextIsWord(s.flags[i]);
    }
    forall i | 0 <= i < |s.isolation|
      ensures '\n' !in Map(IsolationText, s.isolation)[i]
    {
      IsolationTextIsWord(s.isolation[i]);
    }
    JoinIsOneLine(SocksWords(s), ' ');
  }

  lemma PluginIsOneLine(p: Plugin)
    requires PluginIsLine(p)
    ensures IsLine(PluginOpt(p).value)
  {
    hide Join, PluginOpt;
    PluginText(p);
    JoinIsOneLine(p.names, ',');
    assert IsLine("exec");
    JoinIsOneLine(PluginWords(p), ' ');
  }

  lemma BridgeIsOneLine(b: Bridge)
    requires BridgeIsLine(b)
    ensures IsLine(BridgeOpt(b).value)
  {
    hide Join;
    forall i | 0 <= i < |b.args|
      ensures '\n' !in Map(ArgText, b.args)[i]
    {
      assert b.args[i] in b.args;
      assert Map(ArgText, b.args)[i] == ArgText(b.args[i]);
    }
    JoinIsOneLine(BridgeWords(b), ' ');
  }

  lemma MapIsProper<T>(items: seq<T>, f: T -> Opt)
    requires forall x <- items :: Proper(f(x))
    ensures AllProper(Map(f, items))
  {
    hide Proper;
    forall i | 0 <= i < |items|
      ensures Proper(Map(f, items)[i])
    {
      assert items[i] in items;
    }
  }

  lemma ControlIsProper(c: ControlConfig)
    requires ControlIsLines(c)
    ensures AllProper(ControlOptions(Some(c)))
  {
    hide Present, TextOpt, NumberOpt, AddrPortText;
    ProperPresent();
    if c.listen.Tcp? {
      PlaceTextIsLine(c.listen.addr, c.listen.port, '\n');
    }
    var rest := Present(TextOpt(CONTROL_PORT_WRITE_TO_FILE, c.writePortToFile),
                Present(NumberOpt(OWNING_CONTROLLER_PROCESS, c.owningProcess), []));
    assert AllProper(rest);
  }

  lemma BridgesAreProper(b: BridgeConfig)
    requires (forall p <- b.plugins :: PluginIsLine(p)) && forall x <- b.bridges :: BridgeIsLine(x)
    ensures AllProper(BridgeOptions(b))
  {
    hide PluginIsLine, BridgeIsLine, Join, Spacing, Map;
    forall p <- b.plugins
      ensures Proper(PluginOpt(p))
    {
      PluginIsOneLine(p);
    }
    forall x <- b.bridges
      ensures Proper(BridgeOpt(x))
    {
      BridgeIsOneLine(x);
    }
    MapIsProper(b.plugins, PluginOpt);
    MapIsProper(b.bridges, BridgeOpt);
  }

  lemma LoggingIsProper(l: LoggingConfig)
    requires forall x <- l.logs :: LogReadable(x)
    requires l.syslogIdentityTag.Some? ==> IsLine(l.syslogIdentityTag.value)
    ensures AllProper(LoggingOptions(l))
  {
    hide Present, TextOpt, FlagOpt, SeverityText, LogDestText, Map;
    ProperPresent();
    forall x <- l.logs
      ensures Proper(LogOpt(x))
    {
      SeverityReads(x.severity);
      LogDestReads(x.destination);
    }
    MapIsProper(l.logs, LogOpt);
    var rest := Present(FlagOpt(SAFE_LOGGING, l.safeLogging),
                Present(TextOpt(SYSLOG_IDENTITY_TAG, l.syslogIdentityTag), []));
    assert AllProper(rest);
  }

  lemma ListenersAreProper(listeners: seq<SocksPort>)
    requires forall s <- listeners :: PortIsLine(s.port)
    ensures AllProper(Map(SocksOpt, listeners))
  {
    hide Join, Map;
    forall s <- listeners
      ensures Proper(SocksOpt(s))
    {
      SocksIsLine(s);
    }
    MapIsProper(listeners, SocksOpt);
  }

  lemma SimpleSectionsAreProper(c: Config)
    requires (forall n <- c.nodes.exitNodes :: IsLine(n)) && forall n <- c.nodes.excludeExitNodes :: IsLine(n)
    ensures AllProper(NetworkOptions(c.network)) && AllProper(CircuitOptions(c.circuits))
    ensures AllProper(PaddingOptions(c.padding)) && AllProper(SystemOptions(c.system))
    ensures AllProper(NodeOptions(c.nodes))
  {
    hide Present, FlagOpt, NumberOpt, TristateOpt, ListOpt, AllProper;
    ProperPresent();
  }

  lemma TypedIsProper(c: Config)
    requires Tidy(c)
    ensures AllProper(TypedOptions(c))
  {
    hide ControlOptions, Map, NetworkOptions, CircuitOptions, PaddingOptions, BridgeOptions, NodeOptions,
         SystemOptions, LoggingOptions, ControlIsLines, PortIsLine, PluginIsLine, BridgeIsLine, LogReadable;
    var directory := [Opt(DATA_DIRECTORY, c.dataDirectory)];
    assert AllProper(directory);
    ControlOrNoneIsProper(c.control);
    ListenersAreProper(c.socks.listeners);
    SimpleSectionsAreProper(c);
    BridgesOrNoneAreProper(c.bridges);
    LoggingIsProper(c.logging);
    hide Proper;
  }

  lemma ControlOrNoneIsProper(control: Option<ControlConfig>)
    requires control.Some? ==> ControlIsLines(control.value)
    ensures AllProper(ControlOptions(control))
  {
    if control.Some? {
      ControlIsProper(control.value);
    }
  }

  lemma BridgesOrNoneAreProper(bridges: Option<BridgeConfig>)
    requires bridges.Some? ==>
               && (forall p <- bridges.value.plugins :: PluginIsLine(p))
               && (forall x <- bridges.value.bridges :: BridgeIsLine(x))
    ensures AllProper(BridgesOrNone(bridges))
  {
    if bridges.Some? {
      BridgesAreProper(bridges.value);
    }
  }

  // ---- The text, keyword by keyword ---------------------------------------------------------

  /** The option lines of the rendered text. */
  function Lines(c: Config): seq<string> {
    Extract(Render(c))
  }

  lemma OptionsInSections(c: Config)
    ensures AllTexts(Sections(c)) == OptTexts(TypedOptions(c)) + Map(RawText, c.rawOptions)
  {
    hide TypedSections, TypedOptions, OptTexts, Map, Gathered, AllTexts, SectionLines;
    TypedOnly(c);
    TextsGathered(TypedSections(c));
    SectionsGathered(c);
    AllTextsTogether(TypedSections(c), [Raw(RAW_SECTION, c.rawOptions)]);
    RawTexts(Raw(RAW_SECTION, c.rawOptions));
  }

  lemma RawTexts(s: Section)
    requires s.Raw?
    ensures AllTexts([s]) == Map(RawText, s.raw)
  {
    assert AllTexts([s]) == SectionLines(s);
  }

  lemma {:induction false} InGathered(sections: seq<Section>, s: Section, o: Opt)
    requires s in sections && s.Typed? && o in s.options
    ensures o in Gathered(sections)
  {
    if s != sections[|sections| - 1] {
      InGathered(sections[..|sections| - 1], s, o);
    }
  }

  /** A tidy configuration gives back its option lines. */
  lemma TidyComesBack(c: Config)
    requires Tidy(c)
    ensures Lines(c) == OptTexts(TypedOptions(c)) + Map(RawText, c.rawOptions)
  {
    hide TypedSections, TypedOptions, OptTexts, Map, Gathered, Extract, Render, AllTexts, Sections, Proper;
    TypedIsProper(c);
    SectionsGathered(c);
    forall s <- TypedSections(c)
      ensures OneLineValues(s)
    {
      if s.Typed? {
        forall o <- s.options
          ensures '\n' !in o.value
        {
          InGathered(TypedSections(c), s, o);
          ProperIsOneLine(o);
        }
      }
    }
    hide OneLineValues, IsKeyword, ControlIsLines, PortIsLine, PluginIsLine, BridgeIsLine, LogReadable;
    ConfigComesBack(c);
    OptionsInSections(c);
  }

  lemma ProperIsOneLine(o: Opt)
    requires Proper(o)
    ensures '\n' !in o.value
  {
  }

  /** A keyword of torlane's own is found with the values of its own section, and nothing else. */
  lemma Looked(c: Config, k: Keyword)
    requires Tidy(c) && IsKeyword(k)
    ensures Values(Lines(c), k) == Chosen(SectionOptions(c, Number(k)), k)
  {
    hide IsKeyword, Values, Chosen, SectionOptions, Number, OptTexts, TypedOptions, Map, Lines, ControlIsLines,
         PortIsLine, PluginIsLine, BridgeIsLine, LogReadable;
    TidyComesBack(c);
    ValuesTogether(OptTexts(TypedOptions(c)), Map(RawText, c.rawOptions), k);
    ValuesOfOptions(TypedOptions(c), k);
    ValuesOfRaw(c.rawOptions, k);
    ChosenAtHome(c, k);
  }

  // ---- The parts read back ------------------------------------------------------------------

  lemma NetworkLooked(c: Config)
    requires Tidy(c)
    ensures Values(Lines(c), "ClientUseIPv4") == FlagValues(c.network.useIPv4)
    ensures Values(Lines(c), "ClientUseIPv6") == FlagValues(c.network.useIPv6)
  {
    hide Tidy, Values, Lines, Chosen, At, Number, NetworkOptions, FlagValues, NumberValues, TristateValues, ListValues,
         TextValues, Map, OptValues;
    NetworkNumbers();
    assert Values(Lines(c), "ClientUseIPv4") == FlagValues(c.network.useIPv4) by {
      Looked(c, CLIENT_USE_IPV4);
      NetworkValues(c.network, CLIENT_USE_IPV4);
      AtOthers(CLIENT_USE_IPV4);
    }
    assert Values(Lines(c), "ClientUseIPv6") == FlagValues(c.network.useIPv6) by {
      Looked(c, CLIENT_USE_IPV6);
      NetworkValues(c.network, CLIENT_USE_IPV6);
      AtOthers(CLIENT_USE_IPV6);
    }
  }

  lemma CircuitLooked(c: Config)
    requires Tidy(c)
    ensures Values(Lines(c), "MaxCircuitDirtiness") == NumberValues(c.circuits.maxCircuitDirtiness)
    ensures Values(Lines(c), "NewCircuitPeriod") == NumberValues(c.circuits.newCircuitPeriod)
    ensures Values(Lines(c), "CircuitsAvailableTimeout") == NumberValues(c.circuits.circuitsAvailableTimeout)
    ensures Values(Lines(c), "SocksTimeout") == NumberValues(c.circuits.socksTimeout)
    ensures Values(Lines(c), "CircuitBuildTimeout") == NumberValues(c.circuits.circuitBuildTimeout)
    ensures Values(Lines(c), "LearnCircuitBuildTimeout") == FlagValues(c.circuits.learnCircuitBuildTimeout)
    ensures Values(Lines(c), "CircuitStreamTimeout") == NumberValues(c.circuits.circuitStreamTimeout)
    ensures Values(Lines(c), "MaxClientCircuitsPending") == NumberValues(c.circuits.maxClientCircuitsPending)
    ensures Values(Lines(c), "NumEntryGuards") == NumberValues(c.circuits.numEntryGuards)
    ensures Values(Lines(c), "UseEntryGuards") == FlagValues(c.circuits.useEntryGuards)
  {
    hide Tidy, Values, Lines, Chosen, At, Number, CircuitOptions, FlagValues, NumberValues, TristateValues, ListValues,
         TextValues, Map, OptValues;
    CircuitNumbers();
    assert Values(Lines(c), "MaxCircuitDirtiness") == NumberValues(c.circuits.maxCircuitDirtiness) by {
      Looked(c, MAX_CIRCUIT_DIRTINESS);
      CircuitValues(c.circuits, MAX_CIRCUIT_DIRTINESS);
      AtOthers(MAX_CIRCUIT_DIRTINESS);
    }
    assert Values(Lines(c), "NewCircuitPeriod") == NumberValues(c.circuits.newCircuitPeriod) by {
      Looked(c, NEW_CIRCUIT_PERIOD);
      CircuitValues(c.circuits, NEW_CIRCUIT_PERIOD);
      AtOthers(NEW_CIRCUIT_PERIOD);
    }
    assert Values(Lines(c), "CircuitsAvailableTimeout") == NumberValues(c.circuits.circuitsAvailableTimeout) by {
      Looked(c, CIRCUITS_AVAILABLE_TIMEOUT);
      CircuitValues(c.circuits, CIRCUITS_AVAILABLE_TIMEOUT);
      AtOthers(CIRCUITS_AVAILABLE_TIMEOUT);
    }
    assert Values(Lines(c), "SocksTimeout") == NumberValues(c.circuits.socksTimeout) by {
      Looked(c, SOCKS_TIMEOUT);
      CircuitValues(c.circuits, SOCKS_TIMEOUT);
      AtOthers(SOCKS_TIMEOUT);
    }
    assert Values(Lines(c), "CircuitBuildTimeout") == NumberValues(c.circuits.circuitBuildTimeout) by {
      Looked(c, CIRCUIT_BUILD_TIMEOUT);
      CircuitValues(c.circuits, CIRCUIT_BUILD_TIMEOUT);
      AtOthers(CIRCUIT_BUILD_TIMEOUT);
    }
    assert Values(Lines(c), "LearnCircuitBuildTimeout") == FlagValues(c.circuits.learnCircuitBuildTimeout) by {
      Looked(c, LEARN_CIRCUIT_BUILD_TIMEOUT);
      CircuitValues(c.circuits, LEARN_CIRCUIT_BUILD_TIMEOUT);
      AtOthers(LEARN_CIRCUIT_BUILD_TIMEOUT);
    }
    assert Values(Lines(c), "CircuitStreamTimeout") == NumberValues(c.circuits.circuitStreamTimeout) by {
      Looked(c, CIRCUIT_STREAM_TIMEOUT);
      CircuitValues(c.circuits, CIRCUIT_STREAM_TIMEOUT);
      AtOthers(CIRCUIT_STREAM_TIMEOUT);
    }
    assert Values(Lines(c), "MaxClientCircuitsPending") == NumberValues(c.circuits.maxClientCircuitsPending) by {
      Looked(c, MAX_CLIENT_CIRCUITS_PENDING);
      CircuitValues(c.circuits, MAX_CLIENT_CIRCUITS_PENDING);
      AtOthers(MAX_CLIENT_CIRCUITS_PENDING);
    }
    assert Values(Lines(c), "NumEntryGuards") == NumberValues(c.circuits.numEntryGuards) by {
      Looked(c, NUM_ENTRY_GUARDS);
      CircuitValues(c.circuits, NUM_ENTRY_GUARDS);
      AtOthers(NUM_ENTRY_GUARDS);
    }
    assert Values(Lines(c), "UseEntryGuards") == FlagValues(c.circuits.useEntryGuards) by {
      Looked(c, USE_ENTRY_GUARDS);
      CircuitValues(c.circuits, USE_ENTRY_GUARDS);
      AtOthers(USE_ENTRY_GUARDS);
    }
  }

  lemma PaddingLooked(c: Config)
    requires Tidy(c)
    ensures Values(Lines(c), "ConnectionPadding") == TristateValues(c.padding.connectionPadding)
    ensures Values(Lines(c), "ReducedConnectionPadding") == FlagValues(c.padding.reducedConnectionPadding)
    ensures Values(Lines(c), "CircuitPadding") == FlagValues(c.padding.circuitPadding)
    ensures Values(Lines(c), "ReducedCircuitPadding") == FlagValues(c.padding.reducedCircuitPadding)
    ensures Values(Lines(c), "KeepalivePeriod") == NumberValues(c.padding.keepalivePeriod)
  {
    hide Tidy, Values, Lines, Chosen, At, Number, PaddingOptions, FlagValues, NumberValues, TristateValues, ListValues,
         TextValues, Map, OptValues;
    PaddingNumbers();
    assert Values(Lines(c), "ConnectionPadding") == TristateValues(c.padding.connectionPadding) by {
      Looked(c, CONNECTION_PADDING);
      PaddingValues(c.padding, CONNECTION_PADDING);
      AtOthers(CONNECTION_PADDING);
    }
    assert Values(Lines(c), "ReducedConnectionPadding") == FlagValues(c.padding.reducedConnectionPadding) by {
      Looked(c, REDUCED_CONNECTION_PADDING);
      PaddingValues(c.padding, REDUCED_CONNECTION_PADDING);
      AtOthers(REDUCED_CONNECTION_PADDING);
    }
    assert Values(Lines(c), "CircuitPadding") == FlagValues(c.padding.circuitPadding) by {
      Looked(c, CIRCUIT_PADDING);
      PaddingValues(c.padding, CIRCUIT_PADDING);
      AtOthers(CIRCUIT_PADDING);
    }
    assert Values(Lines(c), "ReducedCircuitPadding") == FlagValues(c.padding.reducedCircuitPadding) by {
      Looked(c, REDUCED_CIRCUIT_PADDING);
      PaddingValues(c.padding, REDUCED_CIRCUIT_PADDING);
      AtOthers(REDUCED_CIRCUIT_PADDING);
    }
    assert Values(Lines(c), "KeepalivePeriod") == NumberValues(c.padding.keepalivePeriod) by {
      Looked(c, KEEPALIVE_PERIOD);
      PaddingValues(c.padding, KEEPALIVE_PERIOD);
      AtOthers(KEEPALIVE_PERIOD);
    }
  }

  lemma SystemLooked(c: Config)
    requires Tidy(c)
    ensures Values(Lines(c), "AvoidDiskWrites") == FlagValues(c.system.avoidDiskWrites)
    ensures Values(Lines(c), "HardwareAccel") == FlagValues(c.system.hardwareAccel)
    ensures Values(Lines(c), "ConnLimit") == NumberValues(c.system.connLimit)
    ensures Values(Lines(c), "DisableDebuggerAttachment") == FlagValues(c.system.disableDebuggerAttachment)
  {
    hide Tidy, Values, Lines, Chosen, At, Number, SystemOptions, FlagValues, NumberValues, TristateValues, ListValues,
         TextValues, Map, OptValues;
    SystemNumbers();
    assert Values(Lines(c), "AvoidDiskWrites") == FlagValues(c.system.avoidDiskWrites) by {
      Looked(c, AVOID_DISK_WRITES);
      SystemValues(c.system, AVOID_DISK_WRITES);
      AtOthers(AVOID_DISK_WRITES);
    }
    assert Values(Lines(c), "HardwareAccel") == FlagValues(c.system.hardwareAccel) by {
      Looked(c, HARDWARE_ACCEL);
      SystemValues(c.system, HARDWARE_ACCEL);
      AtOthers(HARDWARE_ACCEL);
    }
    assert Values(Lines(c), "ConnLimit") == NumberValues(c.system.connLimit) by {
      Looked(c, CONN_LIMIT);
      SystemValues(c.system, CONN_LIMIT);
      AtOthers(CONN_LIMIT);
    }
    assert Values(Lines(c), "DisableDebuggerAttachment") == FlagValues(c.system.disableDebuggerAttachment) by {
      Looked(c, DISABLE_DEBUGGER_ATTACHMENT);
      SystemValues(c.system, DISABLE_DEBUGGER_ATTACHMENT);
      AtOthers(DISABLE_DEBUGGER_ATTACHMENT);
    }
  }

  lemma NodeLooked(c: Config)
    requires Tidy(c)
    ensures Values(Lines(c), "ExitNodes") == ListValues(c.nodes.exitNodes)
    ensures Values(Lines(c), "ExcludeExitNodes") == ListValues(c.nodes.excludeExitNodes)
    ensures Values(Lines(c), "StrictNodes") == FlagValues(c.nodes.strictNodes)
  {
    hide Tidy, Values, Lines, Chosen, At, Number, NodeOptions, FlagValues, NumberValues, TristateValues, ListValues,
         TextValues, Map, OptValues;
    NodeNumbers();
    assert Values(Lines(c), "ExitNodes") == ListValues(c.nodes.exitNodes) by {
      Looked(c, EXIT_NODES);
      NodeValues(c.nodes, EXIT_NODES);
      AtOthers(EXIT_NODES);
    }
    assert Values(Lines(c), "ExcludeExitNodes") == ListValues(c.nodes.excludeExitNodes) by {
      Looked(c, EXCLUDE_EXIT_NODES);
      NodeValues(c.nodes, EXCLUDE_EXIT_NODES);
      AtOthers(EXCLUDE_EXIT_NODES);
    }
    assert Values(Lines(c), "StrictNodes") == FlagValues(c.nodes.strictNodes) by {
      Looked(c, STRICT_NODES);
      NodeValues(c.nodes, STRICT_NODES);
      AtOthers(STRICT_NODES);
    }
  }

  lemma LoggingLooked(c: Config)
    requires Tidy(c)
    ensures Values(Lines(c), "Log") == OptValues(Map(LogOpt, c.logging.logs))
    ensures Values(Lines(c), "SafeLogging") == FlagValues(c.logging.safeLogging)
    ensures Values(Lines(c), "SyslogIdentityTag") == TextValues(c.logging.syslogIdentityTag)
  {
    hide Tidy, Values, Lines, Chosen, At, Number, LoggingOptions, FlagValues, NumberValues, TristateValues, ListValues,
         TextValues, Map, OptValues;
    LoggingNumbers();
    assert Values(Lines(c), "Log") == OptValues(Map(LogOpt, c.logging.logs)) by {
      Looked(c, LOG);
      LoggingValues(c.logging, LOG);
      AtOthers(LOG);
    }
    assert Values(Lines(c), "SafeLogging") == FlagValues(c.logging.safeLogging) by {
      Looked(c, SAFE_LOGGING);
      LoggingValues(c.logging, SAFE_LOGGING);
      AtOthers(SAFE_LOGGING);
    }
    assert Values(Lines(c), "SyslogIdentityTag") == TextValues(c.logging.syslogIdentityTag) by {
      Looked(c, SYSLOG_IDENTITY_TAG);
      LoggingValues(c.logging, SYSLOG_IDENTITY_TAG);
      AtOthers(SYSLOG_IDENTITY_TAG);
    }
  }

  lemma DirectoryLooked(c: Config)
    requires Tidy(c)
    ensures Values(Lines(c), "DataDirectory") == [c.dataDirectory]
  {
    hide Tidy, Values, Lines, Chosen, Number;
    DirectoryNumbers();
    Looked(c, DATA_DIRECTORY);
    OneChosen(Opt(DATA_DIRECTORY, c.dataDirectory), DATA_DIRECTORY);
  }

  lemma SocksLooked(c: Config)
    requires Tidy(c)
    ensures Values(Lines(c), "SocksPort") == OptValues(Map(SocksOpt, c.socks.listeners))
  {
    hide Tidy, Values, Lines, Chosen, Number, Map, OptValues;
    SocksNumbers();
    Looked(c, SOCKS_PORT);
    SocksValues(c.socks.listeners, SOCKS_PORT);
  }

  lemma NothingLooked(c: Config, k: Keyword)
    requires Tidy(c) && IsKeyword(k)
    requires (c.control.None? && 2 <= Number(k) <= 6) || (c.bridges.None? && 25 <= Number(k) <= 27)
    ensures Values(Lines(c), k) == []
  {
    hide Tidy, Values, Lines, Number, IsKeyword;
    Looked(c, k);
  }

  lemma ControlLooked(c: Config, x: ControlConfig)
    requires Tidy(c) && c.control == Some(x)
    ensures Values(Lines(c), "ControlPort") == [ListenText(x.listen)]
    ensures Values(Lines(c), "CookieAuthentication")
         == (match x.auth case CookieAuth => ["1"] case NoAuth => ["0"] case HashedPasswordAuth(_) => [])
    ensures Values(Lines(c), "HashedControlPassword")
         == (match x.auth case HashedPasswordAuth(hash) => [hash] case _ => [])
    ensures Values(Lines(c), "ControlPortWriteToFile") == TextValues(x.writePortToFile)
    ensures Values(Lines(c), "__OwningControllerProcess") == NumberValues(x.owningProcess)
  {
    hide Tidy, Values, Lines, Chosen, At, Number, ControlOptions, NumberValues, TextValues, ListenText;
    ControlNumbers();
    assert Values(Lines(c), "ControlPort") == [ListenText(x.listen)] by {
      Looked(c, CONTROL_PORT);
      ControlValues(x, CONTROL_PORT);
      AtOthers(CONTROL_PORT);
    }
    assert Values(Lines(c), "CookieAuthentication")
        == (match x.auth case CookieAuth => ["1"] case NoAuth => ["0"] case HashedPasswordAuth(_) => []) by {
      Looked(c, COOKIE_AUTHENTICATION);
      ControlValues(x, COOKIE_AUTHENTICATION);
      AtOthers(COOKIE_AUTHENTICATION);
    }
    assert Values(Lines(c), "HashedControlPassword")
        == (match x.auth case HashedPasswordAuth(hash) => [hash] case _ => []) by {
      Looked(c, HASHED_CONTROL_PASSWORD);
      ControlValues(x, HASHED_CONTROL_PASSWORD);
      AtOthers(HASHED_CONTROL_PASSWORD);
    }
    assert Values(Lines(c), "ControlPortWriteToFile") == TextValues(x.writePortToFile) by {
      Looked(c, CONTROL_PORT_WRITE_TO_FILE);
      ControlValues(x, CONTROL_PORT_WRITE_TO_FILE);
      AtOthers(CONTROL_PORT_WRITE_TO_FILE);
    }
    assert Values(Lines(c), "__OwningControllerProcess") == NumberValues(x.owningProcess) by {
      Looked(c, OWNING_CONTROLLER_PROCESS);
      ControlValues(x, OWNING_CONTROLLER_PROCESS);
      AtOthers(OWNING_CONTROLLER_PROCESS);
    }
  }

  lemma BridgeLooked(c: Config, x: BridgeConfig)
    requires Tidy(c) && c.bridges == Some(x)
    ensures Values(Lines(c), "UseBridges") == [FlagText(x.useBridges)]
    ensures Values(Lines(c), "ClientTransportPlugin") == OptValues(Map(PluginOpt, x.plugins))
    ensures Values(Lines(c), "Bridge") == OptValues(Map(BridgeOpt, x.bridges))
  {
    hide Tidy, Values, Lines, Chosen, At, Number, BridgeOptions, Map, OptValues, FlagText;
    BridgeNumbers();
    assert Values(Lines(c), "UseBridges") == [FlagText(x.useBridges)] by {
      Looked(c, USE_BRIDGES);
      BridgeValues(x, USE_BRIDGES);
      AtOthers(USE_BRIDGES);
    }
    assert Values(Lines(c), "ClientTransportPlugin") == OptValues(Map(PluginOpt, x.plugins)) by {
      Looked(c, CLIENT_TRANSPORT_PLUGIN);
      BridgeValues(x, CLIENT_TRANSPORT_PLUGIN);
      AtOthers(CLIENT_TRANSPORT_PLUGIN);
    }
    assert Values(Lines(c), "Bridge") == OptValues(Map(BridgeOpt, x.bridges)) by {
      Looked(c, BRIDGE);
      BridgeValues(x, BRIDGE);
      AtOthers(BRIDGE);
    }
  }

  lemma NetworkReads(c: Config)
    requires Tidy(c)
    ensures ReadNetwork(Lines(c)) == Ok(c.network)
  {
    hide Tidy, Values, Lines, FlagValues, NumberValues, TristateValues, Optional;
    NetworkLooked(c);
    FlagReads(c.network.useIPv4);
    FlagReads(c.network.useIPv6);
  }

  lemma CircuitReads(c: Config)
    requires Tidy(c)
    ensures ReadCircuits(Lines(c)) == Ok(c.circuits)
  {
    hide Tidy, Values, Lines, FlagValues, NumberValues, TristateValues, Optional;
    CircuitLooked(c);
    OptionalNumberReads(c.circuits.maxCircuitDirtiness);
    OptionalNumberReads(c.circuits.newCircuitPeriod);
    OptionalNumberReads(c.circuits.circuitsAvailableTimeout);
    OptionalNumberReads(c.circuits.socksTimeout);
    OptionalNumberReads(c.circuits.circuitBuildTimeout);
    FlagReads(c.circuits.learnCircuitBuildTimeout);
    OptionalNumberReads(c.circuits.circuitStreamTimeout);
    OptionalNumberReads(c.circuits.maxClientCircuitsPending);
    OptionalNumberReads(c.circuits.numEntryGuards);
    FlagReads(c.circuits.useEntryGuards);
  }

  lemma PaddingReads(c: Config)
    requires Tidy(c)
    ensures ReadPadding(Lines(c)) == Ok(c.padding)
  {
    hide Tidy, Values, Lines, FlagValues, NumberValues, TristateValues, Optional;
    PaddingLooked(c);
    TristateReads(c.padding.connectionPadding);
    FlagReads(c.padding.reducedConnectionPadding);
    FlagReads(c.padding.circuitPadding);
    FlagReads(c.padding.reducedCircuitPadding);
    OptionalNumberReads(c.padding.keepalivePeriod);
  }

  lemma SystemReads(c: Config)
    requires Tidy(c)
    ensures ReadSystem(Lines(c)) == Ok(c.system)
  {
    hide Tidy, Values, Lines, FlagValues, NumberValues, TristateValues, Optional;
    SystemLooked(c);
    FlagReads(c.system.avoidDiskWrites);
    FlagReads(c.system.hardwareAccel);
    OptionalNumberReads(c.system.connLimit);
    FlagReads(c.system.disableDebuggerAttachment);
  }

  ghost predicate NodesReadable(n: NodeSelection) {
    (forall x <- n.exitNodes :: ',' !in x) && forall x <- n.excludeExitNodes :: ',' !in x
  }

  lemma NodesRead(c: Config)
    requires Tidy(c) && NodesReadable(c.nodes)
    ensures ReadNodes(Lines(c)) == Ok(c.nodes)
  {
    hide Tidy, Values, Lines, FlagValues, ListValues, ListOf, Optional;
    NodeLooked(c);
    ListReads(c.nodes.exitNodes);
    ListReads(c.nodes.excludeExitNodes);
    FlagReads(c.nodes.strictNodes);
  }

  lemma LoggingReads(c: Config)
    requires Tidy(c)
    ensures ReadLogging(Lines(c)) == Ok(c.logging)
  {
    hide Tidy, Values, Lines, FlagValues, TextValues, FirstOf, Optional, Each, LogOf, LogOpt;
    LoggingLooked(c);
    var values := OptValues(Map(LogOpt, c.logging.logs));
    forall i | 0 <= i < |values|
      ensures LogOf(values[i]) == Ok(c.logging.logs[i])
    {
      LogReads(c.logging.logs[i]);
    }
    EachReads(values, c.logging.logs, LogOf);
    FlagReads(c.logging.safeLogging);
    TextReads(c.logging.syslogIdentityTag);
  }

  function ShownControl(control: Option<ControlConfig>): Option<ControlConfig> {
    match control
    case None => None
    case Some(x) => Some(x.(listen := ShownListen(x.listen)))
  }

  lemma ControlReads(c: Config)
    requires Tidy(c)
    ensures ReadControl(Lines(c)) == Ok(ShownControl(c.control))
  {
    hide Tidy, Values, Lines, NumberValues, TextValues, FirstOf, Optional, ListenOf, ListenText, ShownListen;
    if c.control.Some? {
      var x := c.control.value;
      ControlLooked(c, x);
      ListenReads(x.listen);
      TextReads(x.writePortToFile);
      OptionalNumberReads(x.owningProcess);
    } else {
      hide Number;
      ControlNumbers();
      NothingLooked(c, CONTROL_PORT);
    }
  }

  ghost predicate BridgesReadable(b: BridgeConfig) {
    (forall p <- b.plugins :: PluginReadable(p)) && forall x <- b.bridges :: BridgeReadable(x)
  }

  lemma BridgesRead(c: Config)
    requires Tidy(c) && (c.bridges.Some? ==> BridgesReadable(c.bridges.value))
    ensures ReadBridges(Lines(c)) == Ok(c.bridges)
  {
    hide Tidy, Values, Lines, Each, PluginOf, BridgeOf, PluginOpt, BridgeOpt, PluginReadable, BridgeReadable;
    if c.bridges.Some? {
      var x := c.bridges.value;
      BridgeLooked(c, x);
      var plugins, bridges := OptValues(Map(PluginOpt, x.plugins)), OptValues(Map(BridgeOpt, x.bridges));
      forall i | 0 <= i < |plugins|
        ensures PluginOf(plugins[i]) == Ok(x.plugins[i])
      {
        assert x.plugins[i] in x.plugins;
        PluginReads(x.plugins[i]);
      }
      forall i | 0 <= i < |bridges|
        ensures BridgeOf(bridges[i]) == Ok(x.bridges[i])
      {
        assert x.bridges[i] in x.bridges;
        BridgeReads(x.bridges[i]);
      }
      EachReads(plugins, x.plugins, PluginOf);
      EachReads(bridges, x.bridges, BridgeOf);
    } else {
      hide Number;
      BridgeNumbers();
      NothingLooked(c, USE_BRIDGES);
    }
  }

  lemma ListenersRead(c: Config)
    requires Tidy(c) && forall s <- c.socks.listeners :: SocksReadable(s)
    ensures Each(Values(Lines(c), "SocksPort"), SocksOf) == Ok(Map(ShownSocks, c.socks.listeners))
  {
    hide Tidy, Values, Lines, Each, SocksOf, SocksOpt, ShownSocks, SocksReadable;
    SocksLooked(c);
    var values := OptValues(Map(SocksOpt, c.socks.listeners));
    var shown := Map(ShownSocks, c.socks.listeners);
    forall i | 0 <= i < |values|
      ensures SocksOf(values[i]) == Ok(shown[i])
    {
      assert c.socks.listeners[i] in c.socks.listeners;
      SocksReads(c.socks.listeners[i]);
    }
    EachReads(values, shown, SocksOf);
  }

  // ---- Raw options --------------------------------------------------------------------------

  function RawOf(line: string): Reading<RawOption> {
    var i := IndexOf(line, ' ');
    if i == |line| then Err(line)
    else
      var raw := RawPair(line[..i], line[i + 1..]);
      if RawOk(raw) then Ok(raw) else Err(line)
  }

  /** The options under other keywords, as they stand. */
  function ReadRaw(lines: seq<string>): Reading<seq<RawOption>> {
    if lines == [] then Ok([])
    else if IsKeyword(lines[0][..IndexOf(lines[0], ' ')]) then ReadRaw(lines[1..])
    else
      var x :- RawOf(lines[0]);
      var rest :- ReadRaw(lines[1..]);
      Ok([x] + rest)
  }

  lemma FirstWord(word: string, rest: string)
    requires ' ' !in word
    ensures var line := word + " " + rest;
      IndexOf(line, ' ') == |word| && line[..|word|] == word && line[|word| + 1..] == rest
  {
    var line := word + " " + rest;
    assert line[|word|] == ' ';
    assert forall j | 0 <= j < |word| :: line[j] == word[j];
    IndexOfIs(line, ' ', |word|);
  }

  lemma {:induction false} RawReads(raw: seq<RawOption>)
    requires forall r <- raw :: !IsKeyword(r.key)
    ensures ReadRaw(Map(RawText, raw)) == Ok(raw)
  {
    hide IsKeyword, IndexOf;
    if raw != [] {
      var r := raw[0];
      assert r in raw && forall x <- raw[1..] :: x in raw;
      assert ' ' !in r.key;
      FirstWord(r.key, r.value);
      RawReads(raw[1..]);
      assert Map(RawText, raw)[0] == RawText(r);
      assert Map(RawText, raw)[1..] == Map(RawText, raw[1..]);
      assert [raw[0]] + raw[1..] == raw;
    }
  }

  lemma {:induction false} KeywordsSkipped(options: seq<Opt>, rest: seq<string>)
    requires AllProper(options)
    ensures ReadRaw(OptTexts(options) + rest) == ReadRaw(rest)
  {
    hide IndexOf, RawOf;
    var lines := OptTexts(options) + rest;
    if options == [] {
      assert lines == rest;
    } else {
      var o := options[0];
      assert o in options && forall x <- options[1..] :: x in options;
      assert IsKeyword(o.keyword) && ' ' !in o.keyword;
      hide IsKeyword;
      FirstWord(o.keyword, o.value);
      KeywordsSkipped(options[1..], rest);
      assert lines[0] == OptText(o);
      assert lines[1..] == OptTexts(options[1..]) + rest;
    }
  }

  lemma RawOptionsRead(c: Config)
    requires Tidy(c)
    ensures ReadRaw(Lines(c)) == Ok(c.rawOptions)
  {
    assert forall r <- c.rawOptions :: !IsKeyword(r.key);
    hide Lines, OptTexts, TypedOptions, Map, ReadRaw, AllProper, IsKeyword, Tidy;
    TidyComesBack(c);
    TypedIsProper(c);
    KeywordsSkipped(TypedOptions(c), Map(RawText, c.rawOptions));
    RawReads(c.rawOptions);
  }

  // ---- The whole configuration --------------------------------------------------------------

  function ReadConfig(lines: seq<string>): Reading<Config> {
    var directories := Values(lines, "DataDirectory");
    if |directories| != 1 then Err("DataDirectory")
    else
      var control :- ReadControl(lines);
      var listeners :- Each(Values(lines, "SocksPort"), SocksOf);
      var network :- ReadNetwork(lines);
      var circuits :- ReadCircuits(lines);
      var padding :- ReadPadding(lines);
      var bridges :- ReadBridges(lines);
      var nodes :- ReadNodes(lines);
      var system :- ReadSystem(lines);
      var logging :- ReadLogging(lines);
      var raw :- ReadRaw(lines);
      Ok(Config(directories[0], control, SocksConfig(listeners, None), network, circuits, padding, bridges, nodes,
                system, logging, raw))
  }

  /** What can be told apart in a text: no separator within a list, a word or a path of a listener. */
  ghost predicate Readable(c: Config) {
    && Tidy(c) && NodesReadable(c.nodes) && (forall s <- c.socks.listeners :: SocksReadable(s))
    && (c.bridges.Some? ==> BridgesReadable(c.bridges.value))
  }

  /** The configuration as a text can show it: a listener on a path has no address. */
  function Shown(c: Config): Config {
    c.(control := ShownControl(c.control), socks := SocksConfig(Map(ShownSocks, c.socks.listeners), None))
  }

  /**
   Reading a rendered configuration gives it back, field by field: each option is found by its literal
   keyword, in order where there are several, and absent exactly when it was not set.
   */
  lemma ConfigIsReadBack(c: Config)
    requires Readable(c)
    ensures ReadConfig(Extract(Render(c))) == Ok(Shown(c))
  {
    hide Tidy, Values, Lines, Each, ReadControl, ReadNetwork, ReadCircuits, ReadPadding, ReadBridges, ReadNodes,
         ReadSystem, ReadLogging, ReadRaw, SocksOf, Map, ShownControl, ShownSocks, NodesReadable, SocksReadable,
         BridgesReadable, Extract, Render;
    assert Lines(c) == Extract(Render(c)) by {
      LinesAreExtracted(c);
    }
    DirectoryLooked(c);
    ControlReads(c);
    ListenersRead(c);
    NetworkReads(c);
    CircuitReads(c);
    PaddingReads(c);
    BridgesRead(c);
    NodesRead(c);
    SystemReads(c);
    LoggingReads(c);
    RawOptionsRead(c);
  }

  lemma LinesAreExtracted(c: Config)
    ensures Lines(c) == Extract(Render(c))
  {
  }
}
