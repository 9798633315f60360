/** Rendering a configuration as torrc text and getting its option lines back (src/tor/torc/render.rs). */
module TorRender {
  import opened Wrappers
  import opened Decimal
  import opened Text
  import opened TorConfig

  /** The keyword of an option. */
  type Keyword = s: string | s != [] && s[0] != '#' && '\n' !in s && ' ' !in s witness "Log"

  /** The name of a section. */
  type Title = s: string | '\n' !in s

  // ---- The keywords and the names of the sections ----

  const COOKIE_AUTHENTICATION: Keyword := "CookieAuthentication"
  const HASHED_CONTROL_PASSWORD: Keyword := "HashedControlPassword"
  const CONTROL_PORT: Keyword := "ControlPort"
  const CONTROL_PORT_WRITE_TO_FILE: Keyword := "ControlPortWriteToFile"
  const OWNING_CONTROLLER_PROCESS: Keyword := "__OwningControllerProcess"
  const SOCKS_PORT: Keyword := "SocksPort"
  const CLIENT_USE_IPV4: Keyword := "ClientUseIPv4"
  const CLIENT_USE_IPV6: Keyword := "ClientUseIPv6"
  const MAX_CIRCUIT_DIRTINESS: Keyword := "MaxCircuitDirtiness"
  const NEW_CIRCUIT_PERIOD: Keyword := "NewCircuitPeriod"
  const CIRCUITS_AVAILABLE_TIMEOUT: Keyword := "CircuitsAvailableTimeout"
  const SOCKS_TIMEOUT: Keyword := "SocksTimeout"
  const CIRCUIT_BUILD_TIMEOUT: Keyword := "CircuitBuildTimeout"
  const LEARN_CIRCUIT_BUILD_TIMEOUT: Keyword := "LearnCircuitBuildTimeout"
  const CIRCUIT_STREAM_TIMEOUT: Keyword := "CircuitStreamTimeout"
  const MAX_CLIENT_CIRCUITS_PENDING: Keyword := "MaxClientCircuitsPending"
  const NUM_ENTRY_GUARDS: Keyword := "NumEntryGuards"
  const USE_ENTRY_GUARDS: Keyword := "UseEntryGuards"
  const CONNECTION_PADDING: Keyword := "ConnectionPadding"
  const REDUCED_CONNECTION_PADDING: Keyword := "ReducedConnectionPadding"
  const CIRCUIT_PADDING: Keyword := "CircuitPadding"
  const REDUCED_CIRCUIT_PADDING: Keyword := "ReducedCircuitPadding"
  const KEEPALIVE_PERIOD: Keyword := "KeepalivePeriod"
  const CLIENT_TRANSPORT_PLUGIN: Keyword := "ClientTransportPlugin"
  const BRIDGE: Keyword := "Bridge"
  const USE_BRIDGES: Keyword := "UseBridges"
  const EXIT_NODES: Keyword := "ExitNodes"
  const EXCLUDE_EXIT_NODES: Keyword := "ExcludeExitNodes"
  const STRICT_NODES: Keyword := "StrictNodes"
  const AVOID_DISK_WRITES: Keyword := "AvoidDiskWrites"
  const HARDWARE_ACCEL: Keyword := "HardwareAccel"
  const CONN_LIMIT: Keyword := "ConnLimit"
  const DISABLE_DEBUGGER_ATTACHMENT: Keyword := "DisableDebuggerAttachment"
  const LOG: Keyword := "Log"
  const SAFE_LOGGING: Keyword := "SafeLogging"
  const SYSLOG_IDENTITY_TAG: Keyword := "SyslogIdentityTag"
  const DIRECTORIES_SECTION: Title := "Directories"
  const DATA_DIRECTORY: Keyword := "DataDirectory"
  const CONTROL_INTERFACE_SECTION: Title := "Control interface"
  const SOCKS_LISTENERS_SECTION: Title := "SOCKS listeners"
  const ADDRESS_FAMILY_SECTION: Title := "Address family"
  const CIRCUITS_AND_TIMEOUTS_SECTION: Title := "Circuits and timeouts"
  const TRAFFIC_ANALYSIS_RESISTANCE_SECTION: Title := "Traffic analysis resistance"
  const BRIDGES_SECTION: Title := "Bridges"
  const NODE_SELECTION_SECTION: Title := "Node selection"
  const SYSTEM_SECTION: Title := "System"
  const LOGGING_SECTION: Title := "Logging"
  const RAW_SECTION: Title := "Raw"

  /** One option line with a keyword of torlane's own. */
  datatype Opt = Opt(keyword: Keyword, value: string)

  function OptText(o: Opt): string {
    o.keyword + " " + o.value
  }

  function RawText(r: RawOption): string {
    r.key + " " + r.value
  }

  function Map<T, U>(f: T -> U, items: seq<T>): (r: seq<U>)
    ensures |r| == |items|
  {
    seq(|items|, i requires 0 <= i < |items| => f(items[i]))
  }

  function OptTexts(options: seq<Opt>): (r: seq<string>)
    ensures |r| == |options|
  {
    Map(OptText, options)
  }

  datatype Section = Typed(name: Title, options: seq<Opt>) | Raw(name: Title, raw: seq<RawOption>)

  function SectionLines(s: Section): seq<string> {
    match s
    case Typed(_, options) => OptTexts(options)
    case Raw(_, raw) => Map(RawText, raw)
  }

  // ---- Values as text -----------------------------------------------------------------------

  function FlagText(b: bool): string {
    if b then "1" else "0"
  }

  function TristateText(t: Tristate): string {
    match t
    case Off => "0"
    case On => "1"
    case Default => "auto"
  }

  function AddrPortText(addr: Ip, port: PortSpec): string {
    match port
    case Num(n) => if addr.V6? then "[" + addr.text + "]:" + Numeral(n) else addr.text + ":" + Numeral(n)
    case Auto => addr.text + ":auto"
    case UnixPath(path) => "unix:" + path
  }

  function ListenText(l: ControlListen): string {
    match l
    case Tcp(addr, port) => AddrPortText(addr, port)
    case UnixSocket(path) => "unix:" + path
  }

  function SocksFlagText(f: SocksFlag): string {
    match f
    case NoIPv4Traffic => "NoIPv4Traffic"
    case IPv6Traffic => "IPv6Traffic"
    case PreferIPv6 => "PreferIPv6"
    case NoDNSRequest => "NoDNSRequest"
    case NoOnionTraffic => "NoOnionTraffic"
    case OnionTrafficOnly => "OnionTrafficOnly"
    case CacheDNS => "CacheDNS"
    case UseDNSCache => "UseDNSCache"
    case PreferSocksNoAuth => "PreferSOCKSNoAuth"
    case ExtendedErrors => "ExtendedErrors"
  }

  function IsolationText(i: Isolation): string {
    match i
    case IsolateClientAddr => "IsolateClientAddr"
    case NoIsolateClientAddr => "NoIsolateClientAddr"
    case IsolateSocksAuth => "IsolateSOCKSAuth"
    case NoIsolateSocksAuth => "NoIsolateSOCKSAuth"
    case IsolateClientProtocol => "IsolateClientProtocol"
    case IsolateDestPort => "IsolateDestPort"
    case IsolateDestAddr => "IsolateDestAddr"
    case KeepAliveIsolateSocksAuth => "KeepAliveIsolateSOCKSAuth"
    case SessionGroup(g) => "SessionGroup=" + if g < 0 then "-" + Numeral(-g) else Numeral(g)
  }

  function SeverityText(s: Severity): string {
    match s
    case Debug => "debug"
    case Info => "info"
    case Notice => "notice"
    case Warn => "warn"
    case Error => "err"
  }

  function LogDestText(d: LogDest): string {
    match d
    case Stdout => "stdout"
    case Stderr => "stderr"
    case Syslog => "syslog"
    case LogFile(path) => "file " + path
  }

  // ---- Option lines -------------------------------------------------------------------------

  /** `present`, one item at a time: the options that are there. */
  function Present(item: Option<Opt>, rest: seq<Opt>): seq<Opt> {
    if item.Some? then [item.value] + rest else rest
  }

  function FlagOpt(keyword: Keyword, b: Option<bool>): Option<Opt> {
    if b.Some? then Some(Opt(keyword, FlagText(b.value))) else None
  }

  /** Counts, and durations in whole seconds. */
  function NumberOpt(keyword: Keyword, n: Option<nat>): Option<Opt> {
    if n.Some? then Some(Opt(keyword, Numeral(n.value))) else None
  }

  function TextOpt(keyword: Keyword, s: Option<string>): Option<Opt> {
    if s.Some? then Some(Opt(keyword, s.value)) else None
  }

  function ListOpt(keyword: Keyword, values: seq<string>): Option<Opt> {
    if values != [] then Some(Opt(keyword, Join(values, ','))) else None
  }

  function AuthOpt(auth: ControlAuth): Opt {
    match auth
    case CookieAuth => Opt(COOKIE_AUTHENTICATION, "1")
    case HashedPasswordAuth(hash) => Opt(HASHED_CONTROL_PASSWORD, hash)
    case NoAuth => Opt(COOKIE_AUTHENTICATION, "0")
  }

  function ControlOptions(control: Option<ControlConfig>): seq<Opt> {
    if control.None? then []
    else
      [Opt(CONTROL_PORT, ListenText(control.value.listen)), AuthOpt(control.value.auth)]
      + Present(TextOpt(CONTROL_PORT_WRITE_TO_FILE, control.value.writePortToFile),
        Present(NumberOpt(OWNING_CONTROLLER_PROCESS, control.value.owningProcess), []))
  }

  function SocksOpt(s: SocksPort): Opt {
    Opt(SOCKS_PORT, Join([AddrPortText(s.addr, s.port)] + Map(SocksFlagText, s.flags)
                          + Map(IsolationText, s.isolation), ' '))
  }

  function NetworkOptions(n: NetworkConfig): seq<Opt> {
    Present(FlagOpt(CLIENT_USE_IPV4, n.useIPv4),
    Present(FlagOpt(CLIENT_USE_IPV6, n.useIPv6), []))
  }

  function CircuitOptions(c: CircuitConfig): seq<Opt> {
    Present(NumberOpt(MAX_CIRCUIT_DIRTINESS, c.maxCircuitDirtiness),
    Present(NumberOpt(NEW_CIRCUIT_PERIOD, c.newCircuitPeriod),
    Present(NumberOpt(CIRCUITS_AVAILABLE_TIMEOUT, c.circuitsAvailableTimeout),
    Present(NumberOpt(SOCKS_TIMEOUT, c.socksTimeout),
    Present(NumberOpt(CIRCUIT_BUILD_TIMEOUT, c.circuitBuildTimeout),
    Present(FlagOpt(LEARN_CIRCUIT_BUILD_TIMEOUT, c.learnCircuitBuildTimeout),
    Present(NumberOpt(CIRCUIT_STREAM_TIMEOUT, c.circuitStreamTimeout),
    Present(NumberOpt(MAX_CLIENT_CIRCUITS_PENDING, c.maxClientCircuitsPending),
    Present(NumberOpt(NUM_ENTRY_GUARDS, c.numEntryGuards),
    Present(FlagOpt(USE_ENTRY_GUARDS, c.useEntryGuards), []))))))))))
  }

  function TristateOpt(keyword: Keyword, t: Option<Tristate>): Option<Opt> {
    if t.Some? then Some(Opt(keyword, TristateText(t.value))) else None
  }

  function PaddingOptions(p: PaddingConfig): seq<Opt> {
    Present(TristateOpt(CONNECTION_PADDING, p.connectionPadding),
    Present(FlagOpt(REDUCED_CONNECTION_PADDING, p.reducedConnectionPadding),
    Present(FlagOpt(CIRCUIT_PADDING, p.circuitPadding),
    Present(FlagOpt(REDUCED_CIRCUIT_PADDING, p.reducedCircuitPadding),
    Present(NumberOpt(KEEPALIVE_PERIOD, p.keepalivePeriod), [])))))
  }

  function Spacing(args: seq<string>): string {
    if args == [] then [] else Spacing(args[..|args| - 1]) + " " + args[|args| - 1]
  }

  function PluginOpt(p: Plugin): Opt {
    Opt(CLIENT_TRANSPORT_PLUGIN, Join(p.names, ',') + " exec " + p.executable + Spacing(p.args))
  }

  function ArgText(a: Arg): string {
    a.key + "=" + a.value
  }

  function BridgeOpt(b: Bridge): Opt {
    Opt(BRIDGE, Join((if b.transport.Some? then [b.transport.value] else []) + [b.addr]
                       + (if b.fingerprint.Some? then [b.fingerprint.value] else [])
                       + Map(ArgText, b.args), ' '))
  }

  function BridgeOptions(b: BridgeConfig): seq<Opt> {
    [Opt(USE_BRIDGES, FlagText(b.useBridges))] + Map(PluginOpt, b.plugins) + Map(BridgeOpt, b.bridges)
  }

  function NodeOptions(n: NodeSelection): seq<Opt> {
    Present(ListOpt(EXIT_NODES, n.exitNodes),
    Present(ListOpt(EXCLUDE_EXIT_NODES, n.excludeExitNodes),
    Present(FlagOpt(STRICT_NODES, n.strictNodes), [])))
  }

  function SystemOptions(s: SystemConfig): seq<Opt> {
    Present(FlagOpt(AVOID_DISK_WRITES, s.avoidDiskWrites),
    Present(FlagOpt(HARDWARE_ACCEL, s.hardwareAccel),
    Present(NumberOpt(CONN_LIMIT, s.connLimit),
    Present(FlagOpt(DISABLE_DEBUGGER_ATTACHMENT, s.disableDebuggerAttachment), []))))
  }

  function LogOpt(l: LogLine): Opt {
    Opt(LOG, SeverityText(l.severity) + " " + LogDestText(l.destination))
  }

  function LoggingOptions(l: LoggingConfig): seq<Opt> {
    Map(LogOpt, l.logs)
    + Present(FlagOpt(SAFE_LOGGING, l.safeLogging),
      Present(TextOpt(SYSLOG_IDENTITY_TAG, l.syslogIdentityTag), []))
  }

  /** The sections with options of torlane's own keywords. */
  function TypedSections(c: Config): seq<Section> {
    [Typed(DIRECTORIES_SECTION, [Opt(DATA_DIRECTORY, c.dataDirectory)]),
     Typed(CONTROL_INTERFACE_SECTION, ControlOptions(c.control)),
     Typed(SOCKS_LISTENERS_SECTION, Map(SocksOpt, c.socks.listeners)),
     Typed(ADDRESS_FAMILY_SECTION, NetworkOptions(c.network)),
     Typed(CIRCUITS_AND_TIMEOUTS_SECTION, CircuitOptions(c.circuits)),
     Typed(TRAFFIC_ANALYSIS_RESISTANCE_SECTION, PaddingOptions(c.padding))]
    + (if c.bridges.Some? then [Typed(BRIDGES_SECTION, BridgeOptions(c.bridges.value))] else [])
    + [Typed(NODE_SELECTION_SECTION, NodeOptions(c.nodes)), Typed(SYSTEM_SECTION, SystemOptions(c.system)),
       Typed(LOGGING_SECTION, LoggingOptions(c.logging))]
  }

  function Sections(c: Config): seq<Section> {
    TypedSections(c) + [Raw(RAW_SECTION, c.rawOptions)]
  }

  // ---- Rendering ----------------------------------------------------------------------------

  function LinesText(lines: seq<string>): string {
    if lines == [] then [] else LinesText(lines[..|lines| - 1]) + lines[|lines| - 1] + "\n"
  }

  function Header(name: string): string {
    "# *** " + name + " ***\n"
  }

  /** The text so far with a section added; nothing is added for no lines. */
  function WithSection(out: string, name: string, lines: seq<string>): string {
    if lines == [] then out
    else out + (if out != [] then "\n" else "") + Header(name) + LinesText(lines)
  }

  function WithSections(out: string, sections: seq<Section>): string
    decreases |sections|
  {
    if sections == [] then out
    else WithSections(WithSection(out, sections[0].name, SectionLines(sections[0])), sections[1..])
  }

  function Render(c: Config): string {
    WithSections([], Sections(c))
  }

  method AppendSection(buffer: string, name: string, lines: seq<string>) returns (out: string)
    ensures out == WithSection(buffer, name, lines)
  {
    out := buffer;
    if lines == [] {
      return;
    }
    if out != [] {
      out := out + "\n";
    }
    out := out + Header(name);
    ghost var start := out;
    for i := 0 to |lines|
      invariant out == start + LinesText(lines[..i])
    {
      assert lines[..i + 1][..i] == lines[..i];
      out := out + lines[i];
      out := out + "\n";
    }
    assert lines[..|lines|] == lines;
  }

  method RenderSocksPort(s: SocksPort) returns (line: string)
    ensures line == OptText(SocksOpt(s))
  {
    var parts := ["SocksPort " + AddrPortText(s.addr, s.port)];
    parts := parts + Map(SocksFlagText, s.flags);
    parts := parts + Map(IsolationText, s.isolation);
    line := Join(parts, ' ');
    JoinHead("SocksPort ", [AddrPortText(s.addr, s.port)] + Map(SocksFlagText, s.flags)
             + Map(IsolationText, s.isolation), parts);
  }

  method RenderBridge(b: Bridge) returns (line: string)
    ensures line == OptText(BridgeOpt(b))
  {
    var parts := ["Bridge"];
    if b.transport.Some? {
      parts := parts + [b.transport.value];
    }
    parts := parts + [b.addr];
    if b.fingerprint.Some? {
      parts := parts + [b.fingerprint.value];
    }
    parts := parts + Map(ArgText, b.args);
    line := Join(parts, ' ');
    assert parts[1..] == (if b.transport.Some? then [b.transport.value] else []) + [b.addr]
                         + (if b.fingerprint.Some? then [b.fingerprint.value] else []) + Map(ArgText, b.args);
  }

  method RenderPlugin(p: Plugin) returns (line: string)
    ensures line == OptText(PluginOpt(p))
  {
    line := "ClientTransportPlugin " + Join(p.names, ',') + " exec " + p.executable;
    ghost var start := line;
    for k := 0 to |p.args|
      invariant line == start + Spacing(p.args[..k])
    {
      assert p.args[..k + 1][..k] == p.args[..k];
      line := line + [' '];
      line := line + p.args[k];
    }
    assert p.args[..|p.args|] == p.args;
  }

  method RenderBridges(b: BridgeConfig) returns (lines: seq<string>)
    ensures lines == OptTexts(BridgeOptions(b))
  {
    hide PluginOpt, BridgeOpt;
    lines := ["UseBridges " + FlagText(b.useBridges)];
    for i := 0 to |b.plugins|
      invariant |lines| == 1 + i && lines[0] == "UseBridges " + FlagText(b.useBridges)
      invariant forall k | 1 <= k < |lines| :: lines[k] == OptText(PluginOpt(b.plugins[k - 1]))
    {
      var line := RenderPlugin(b.plugins[i]);
      lines := lines + [line];
    }
    ghost var n := 1 + |b.plugins|;
    for i := 0 to |b.bridges|
      invariant |lines| == n + i && lines[0] == "UseBridges " + FlagText(b.useBridges)
      invariant forall k | 1 <= k < n :: lines[k] == OptText(PluginOpt(b.plugins[k - 1]))
      invariant forall k | n <= k < |lines| :: lines[k] == OptText(BridgeOpt(b.bridges[k - n]))
    {
      var line := RenderBridge(b.bridges[i]);
      lines := lines + [line];
    }
    assert "UseBridges " + FlagText(b.useBridges) == OptText(Opt(USE_BRIDGES, FlagText(b.useBridges)));
  }

  lemma JoinHead(head: string, parts: seq<string>, parts': seq<string>)
    requires parts != [] && |parts| == |parts'| && parts'[0] == head + parts[0] && parts'[1..] == parts[1..]
    ensures Join(parts', ' ') == head + Join(parts, ' ')
  {
  }

  method RenderConfig(c: Config) returns (out: string)
    ensures out == Render(c)
  {
    hide Sections, WithSection, SectionLines;
    out := [];
    var sections := Sections(c);
    for i := 0 to |sections|
      invariant WithSections(out, sections[i..]) == Render(c)
    {
      assert sections[i..][1..] == sections[i + 1..];
      out := AppendSection(out, sections[i].name, SectionLines(sections[i]));
    }
  }

  // ---- Getting the option lines back --------------------------------------------------------

  predicate IsOption(line: string) {
    line != [] && line[0] != '#'
  }

  function Kept(lines: seq<string>): seq<string> {
    if lines == [] then []
    else (if IsOption(lines[0]) then [lines[0]] else []) + Kept(lines[1..])
  }

  /** The lines of a torrc that are neither blank nor headers. */
  function Extract(text: string): seq<string> {
    Kept(Split(text, '\n'))
  }

  /** Every option line, in section order. */
  function AllTexts(sections: seq<Section>): seq<string> {
    if sections == [] then [] else SectionLines(sections[0]) + AllTexts(sections[1..])
  }

  predicate Clean(line: string) {
    IsOption(line) && '\n' !in line
  }

  lemma {:induction false} SplitTogether(a: string, b: string)
    ensures Split(a + "\n" + b, '\n') == Split(a, '\n') + Split(b, '\n')
    decreases |a|
  {
    hide Split;
    var i := IndexOf(a, '\n');
    if i == |a| {
      SplitFirst(a, b, '\n');
      SplitNone(a, '\n');
    } else {
      var head, rest := a[..i], a[i + 1..];
      assert a == head + "\n" + rest;
      SplitFirst(head, rest, '\n');
      SplitTogether(rest, b);
      assert a + "\n" + b == head + "\n" + (rest + "\n" + b);
      SplitFirst(head, rest + "\n" + b, '\n');
      assert [head] + Split(rest, '\n') + Split(b, '\n') == [head] + (Split(rest, '\n') + Split(b, '\n'));
    }
  }

  lemma {:induction false} KeptTogether(a: seq<string>, b: seq<string>)
    ensures Kept(a + b) == Kept(a) + Kept(b)
  {
    if a == [] {
      assert a + b == b;
    } else {
      KeptTogether(a[1..], b);
      KeptHead(a);
      KeptHead(a + b);
      hide Kept, IsOption;
      assert (a + b)[1..] == a[1..] + b && (a + b)[0] == a[0];
      InThree(if IsOption(a[0]) then [a[0]] else [], Kept(a[1..]), Kept(b));
    }
  }

  lemma KeptHead(lines: seq<string>)
    requires lines != []
    ensures Kept(lines) == (if IsOption(lines[0]) then [lines[0]] else []) + Kept(lines[1..])
  {
  }

  lemma InThree(a: seq<string>, b: seq<string>, c: seq<string>)
    ensures a + (b + c) == a + b + c
  {
  }

  lemma ExtractTogether(a: string, b: string)
    ensures Extract(a + "\n" + b) == Extract(a) + Extract(b)
  {
    SplitTogether(a, b);
    KeptTogether(Split(a, '\n'), Split(b, '\n'));
  }

  lemma LineExtracted(line: string)
    requires '\n' !in line
    ensures Extract(line) == Kept([line])
  {
    IndexOfIs(line, '\n', |line|);
  }

  /** What a reader takes each of these texts for: its option lines, one after the other. */
  function Read(texts: seq<string>): seq<string> {
    if texts == [] then [] else Read(texts[..|texts| - 1]) + Extract(texts[|texts| - 1])
  }

  /** Text that is empty or ends its last line. */
  predicate Ended(out: string) {
    out == [] || out[|out| - 1] == '\n'
  }

  lemma TextAdded(out: string, text: string)
    requires Ended(out)
    ensures Extract(out + text + "\n") == Extract(out) + Extract(text) && Ended(out + text + "\n")
  {
    hide Extract;
    NothingExtracted();
    ExtractTogether(out + text, []);
    assert out + text + "\n" + [] == out + text + "\n";
    if out == [] {
      assert out + text == text;
    } else {
      var body := out[..|out| - 1];
      ExtractTogether(body, text);
      ExtractTogether(body, []);
      assert out == body + "\n" + [] && out + text == body + "\n" + text;
    }
  }

  lemma NothingExtracted()
    ensures Extract([]) == []
  {
    LineExtracted([]);
  }

  lemma {:induction false} TextsAdded(out: string, texts: seq<string>)
    requires Ended(out)
    ensures Extract(out + LinesText(texts)) == Extract(out) + Read(texts) && Ended(out + LinesText(texts))
  {
    hide Extract, Ended;
    if texts == [] {
      assert out + LinesText(texts) == out;
    } else {
      var front, last := texts[..|texts| - 1], texts[|texts| - 1];
      TextsAdded(out, front);
      TextAdded(out + LinesText(front), last);
      assert out + LinesText(texts) == out + LinesText(front) + last + "\n";
    }
  }

  /** A blank line and a header add nothing. */
  lemma HeaderAdded(out: string, name: string)
    requires Ended(out) && '\n' !in name
    ensures var headed := out + (if out != [] then "\n" else "") + Header(name);
      Extract(headed) == Extract(out) && Ended(headed)
  {
    hide Extract, Ended;
    NothingExtracted();
    var spaced := out + if out != [] then "\n" else "";
    if out != [] {
      TextAdded(out, []);
      assert out + [] + "\n" == spaced;
    } else {
      assert spaced == out;
    }
    var line := "# *** " + name + " ***";
    TextAdded(spaced, line);
    LineExtracted(line);
    assert !IsOption(line);
    assert spaced + Header(name) == spaced + line + "\n";
  }

  lemma SectionAdded(out: string, name: string, texts: seq<string>)
    requires Ended(out) && '\n' !in name
    ensures Extract(WithSection(out, name, texts)) == Extract(out) + Read(texts)
    ensures Ended(WithSection(out, name, texts))
  {
    hide Extract, Ended, Header, LinesText;
    if texts != [] {
      HeaderAdded(out, name);
      TextsAdded(out + (if out != [] then "\n" else "") + Header(name), texts);
    }
  }

  lemma {:induction false} ReadTogether(a: seq<string>, b: seq<string>)
    ensures Read(a + b) == Read(a) + Read(b)
  {
    hide Extract;
    if b == [] {
      assert a + b == a;
    } else {
      ReadTogether(a, b[..|b| - 1]);
      assert (a + b)[..|a + b| - 1] == a + b[..|b| - 1];
    }
  }

  /**
   What a reader finds in rendered sections, whatever the options are: each option's own lines but
   blanks and comments, in section order. Headers and separators add nothing.
   */
  lemma {:induction false} SectionsAreRead(out: string, sections: seq<Section>)
    requires Ended(out)
    ensures Extract(WithSections(out, sections)) == Extract(out) + Read(AllTexts(sections))
    decreases |sections|
  {
    hide Extract, Ended, SectionLines, WithSection;
    if sections != [] {
      var s := sections[0];
      SectionAdded(out, s.name, SectionLines(s));
      SectionsAreRead(WithSection(out, s.name, SectionLines(s)), sections[1..]);
      ReadTogether(SectionLines(s), AllTexts(sections[1..]));
    }
  }

  lemma {:induction false} CleanAreRead(texts: seq<string>)
    requires forall t <- texts :: Clean(t)
    ensures Read(texts) == texts
  {
    if texts != [] {
      var front, last := texts[..|texts| - 1], texts[|texts| - 1];
      CleanAreRead(front);
      assert last in texts;
      LineExtracted(last);
      assert front + [last] == texts;
    }
  }

  lemma {:induction false} KeptAreOptions(lines: seq<string>)
    ensures forall l <- Kept(lines) :: IsOption(l) && l in lines
    ensures (forall l <- lines :: IsOption(l)) ==> Kept(lines) == lines
  {
    if lines != [] {
      KeptAreOptions(lines[1..]);
      assert lines == [lines[0]] + lines[1..];
      assert forall l <- lines[1..] :: l in lines;
      assert lines[0] in lines;
    }
  }

  lemma {:induction false} LinesOfSections(sections: seq<Section>)
    ensures (forall s <- sections :: forall l <- SectionLines(s) :: Clean(l))
       <==> forall l <- AllTexts(sections) :: Clean(l)
  {
    hide SectionLines, Clean;
    if sections != [] {
      LinesOfSections(sections[1..]);
      var lines := SectionLines(sections[0]);
      assert forall l <- AllTexts(sections) :: l in lines || l in AllTexts(sections[1..]);
      assert forall l <- lines :: l in AllTexts(sections);
      assert forall l <- AllTexts(sections[1..]) :: l in AllTexts(sections);
      assert forall s <- sections :: s == sections[0] || s in sections[1..];
      assert sections[0] in sections && forall s <- sections[1..] :: s in sections;
    }
  }

  lemma ExtractedIsClean(text: string)
    ensures forall l <- Extract(text) :: Clean(l)
  {
    JoinSplit(text, '\n');
    KeptAreOptions(Split(text, '\n'));
  }

  /**
   Dropping blank lines and headers from rendered sections gives back exactly the option lines in
   section order if and only if every option line is clean: not empty, one line, no `#` in front.
   */
  lemma SectionsComeBack(sections: seq<Section>)
    ensures Extract(WithSections([], sections)) == AllTexts(sections)
       <==> forall s <- sections :: forall l <- SectionLines(s) :: Clean(l)
  {
    hide SectionLines, WithSections, Extract;
    LinesOfSections(sections);
    ExtractedIsClean(WithSections([], sections));
    if forall s <- sections :: forall l <- SectionLines(s) :: Clean(l) {
      SectionsAreRead([], sections);
      NothingExtracted();
      CleanAreRead(AllTexts(sections));
      assert [] + AllTexts(sections) == AllTexts(sections);
    }
  }

  // ---- Whole configurations -----------------------------------------------------------------

  /** Typed options whose values are each one line. */
  predicate OneLineValues(s: Section) {
    s.Typed? ==> forall o <- s.options :: '\n' !in o.value
  }

  predicate LooksLikeComment(r: RawOption) {
    r.key[0] == '#'
  }

  /** A typed option is clean exactly when its value has no line break. */
  lemma TypedIsClean(o: Opt)
    ensures Clean(OptText(o)) <==> '\n' !in o.value
  {
    var text := OptText(o);
    assert text[0] == o.keyword[0];
    if '\n' in o.value {
      var i :| 0 <= i < |o.value| && o.value[i] == '\n';
      assert text[|o.keyword| + 1 + i] == '\n';
    }
  }

  /** A raw option is clean exactly when its key does not start a comment. */
  lemma RawIsClean(r: RawOption)
    ensures Clean(RawText(r)) <==> !LooksLikeComment(r)
  {
    assert RawText(r)[0] == r.key[0];
  }

  lemma TypedSectionIsClean(s: Section)
    requires s.Typed?
    ensures (forall l <- SectionLines(s) :: Clean(l)) <==> OneLineValues(s)
  {
    hide OptText, Clean;
    var lines := SectionLines(s);
    assert |lines| == |s.options|;
    forall i | 0 <= i < |lines|
      ensures lines[i] in lines && lines[i] == OptText(s.options[i])
      ensures Clean(lines[i]) <==> '\n' !in s.options[i].value
    {
      TypedIsClean(s.options[i]);
    }
  }

  lemma RawSectionIsClean(s: Section)
    requires s.Raw?
    ensures (forall l <- SectionLines(s) :: Clean(l)) <==> forall r <- s.raw :: !LooksLikeComment(r)
  {
    hide RawText, Clean, LooksLikeComment;
    var lines := SectionLines(s);
    assert |lines| == |s.raw|;
    forall i | 0 <= i < |lines|
      ensures lines[i] in lines && lines[i] == RawText(s.raw[i]) && (Clean(lines[i]) <==> !LooksLikeComment(s.raw[i]))
    {
      RawIsClean(s.raw[i]);
    }
  }

  /**
   A rendered configuration gives back exactly its option lines, section by section, if and only if
   no value of a typed option has a line break and no raw key starts with `#`; `TorOption::new`
   admits such a key.
   */
  lemma ConfigComesBack(c: Config)
    ensures Extract(Render(c)) == AllTexts(Sections(c))
       <==> (forall s <- TypedSections(c) :: OneLineValues(s)) && forall r <- c.rawOptions :: !LooksLikeComment(r)
  {
    hide Extract, WithSections, SectionLines, Clean, AllTexts, TypedSections, OneLineValues, LooksLikeComment;
    SectionsComeBack(Sections(c));
    var raw := Raw(RAW_SECTION, c.rawOptions);
    assert raw in Sections(c) && forall s <- TypedSections(c) :: s in Sections(c);
    RawSectionIsClean(raw);
    TypedOnly(c);
    forall s <- TypedSections(c)
      ensures (forall l <- SectionLines(s) :: Clean(l)) <==> OneLineValues(s)
    {
      TypedSectionIsClean(s);
    }
  }

  lemma TypedOnly(c: Config)
    ensures forall s <- TypedSections(c) :: s.Typed?
  {
    hide BridgeOptions, NodeOptions, SystemOptions, LoggingOptions, ControlOptions, SocksOpt, NetworkOptions,
         CircuitOptions, PaddingOptions;
  }

  /** A raw option that the builder admits and that is lost: its line reads as a comment. */
  lemma CommentedOptionIsLost(c: Config)
    requires RawPair("#x", "1") in c.rawOptions
    ensures NewRawOption("#x", "1") == Ok(RawPair("#x", "1"))
    ensures RawText(RawPair("#x", "1")) == "#x 1"
    ensures "#x 1" in AllTexts(Sections(c)) && "#x 1" !in Extract(Render(c))
  {
    hide Extract, Render, TypedSections;
    var raw := Raw(RAW_SECTION, c.rawOptions);
    var i :| 0 <= i < |c.rawOptions| && c.rawOptions[i] == RawPair("#x", "1");
    assert RawText(c.rawOptions[i]) == "#x 1";
    assert SectionLines(raw)[i] == "#x 1";
    assert raw in Sections(c);
    LineOfSection(Sections(c), raw, "#x 1");
    ExtractedIsClean(Render(c));
  }

  lemma {:induction false} LineOfSection(sections: seq<Section>, s: Section, line: string)
    requires s in sections && line in SectionLines(s)
    ensures line in AllTexts(sections)
  {
    hide SectionLines;
    if s != sections[0] {
      LineOfSection(sections[1..], s, line);
    }
  }

  /** A typed value with a line break: what follows the break is read as an option line of its own. */
  lemma BrokenValueIsOption(c: Config, a: string, b: string)
    requires c.logging.syslogIdentityTag == Some(a + "\n" + b) && Clean(b)
    ensures b in Extract(Render(c))
  {
    hide Extract, WithSections, SectionLines, AllTexts, Clean, TypedSections, LoggingOptions, Sections;
    var text := SYSLOG_IDENTITY_TAG + " " + (a + "\n" + b);
    TagIsOption(c);
    LineOfSection(Sections(c), Typed(LOGGING_SECTION, LoggingOptions(c.logging)), text);
    SectionsAreRead([], Sections(c));
    NothingExtracted();
    assert text == SYSLOG_IDENTITY_TAG + " " + a + "\n" + b;
    ExtractTogether(SYSLOG_IDENTITY_TAG + " " + a, b);
    CleanIsExtracted(b);
    ReadOf(AllTexts(Sections(c)), text, b);
  }

  lemma TagIsOption(c: Config)
    requires c.logging.syslogIdentityTag.Some?
    ensures Typed(LOGGING_SECTION, LoggingOptions(c.logging)) in Sections(c)
    ensures SYSLOG_IDENTITY_TAG + " " + c.logging.syslogIdentityTag.value
         in SectionLines(Typed(LOGGING_SECTION, LoggingOptions(c.logging)))
  {
    hide TypedSections, LoggingOptions, OptTexts, Sections;
    LoggingIsSection(c);
    TagIsLast(c.logging);
    LastOption(LoggingOptions(c.logging));
  }

  lemma LoggingIsSection(c: Config)
    ensures Typed(LOGGING_SECTION, LoggingOptions(c.logging)) in Sections(c)
  {
    hide BridgeOptions, NodeOptions, SystemOptions, LoggingOptions, ControlOptions, SocksOpt, NetworkOptions,
         CircuitOptions, PaddingOptions;
    assert TypedSections(c)[|TypedSections(c)| - 1] == Typed(LOGGING_SECTION, LoggingOptions(c.logging));
  }

  lemma TagIsLast(l: LoggingConfig)
    requires l.syslogIdentityTag.Some?
    ensures LoggingOptions(l) != []
    ensures LoggingOptions(l)[|LoggingOptions(l)| - 1] == Opt(SYSLOG_IDENTITY_TAG, l.syslogIdentityTag.value)
  {
    hide Map, FlagOpt;
  }

  lemma LastOption(options: seq<Opt>)
    requires options != []
    ensures OptText(options[|options| - 1]) in OptTexts(options)
  {
    assert OptTexts(options)[|options| - 1] == OptText(options[|options| - 1]);
  }

  lemma CleanIsExtracted(b: string)
    requires Clean(b)
    ensures Extract(b) == [b]
  {
    LineExtracted(b);
  }

  lemma {:induction false} ReadOf(texts: seq<string>, text: string, line: string)
    requires text in texts && line in Extract(text)
    ensures line in Read(texts)
  {
    hide Extract;
    if texts[|texts| - 1] != text {
      ReadOf(texts[..|texts| - 1], text, line);
    }
  }

  // ---- The layout of the text ---------------------------------------------------------------

  /** The rows of a section: its heading, its lines and a blank one; none for no lines. */
  function SectionRows(name: string, lines: seq<string>): seq<string> {
    if lines == [] then [] else ["# *** " + name + " ***"] + lines + [""]
  }

  function Rows(sections: seq<Section>): seq<string> {
    if sections == [] then [] else SectionRows(sections[0].name, SectionLines(sections[0])) + Rows(sections[1..])
  }

  lemma {:induction false} SplitLines(head: string, lines: seq<string>)
    requires '\n' !in head && forall l <- lines :: '\n' !in l
    ensures Split(head + "\n" + LinesText(lines), '\n') == [head] + lines + [""]
  {
    hide Split;
    if lines == [] {
      SplitFirst(head, [], '\n');
      SplitNone([], '\n');
    } else {
      var front, last := lines[..|lines| - 1], lines[|lines| - 1];
      assert last in lines;
      SplitLines(head, front);
      var text := head + "\n" + LinesText(front);
      assert head + "\n" + LinesText(lines) == text + last + "\n";
      EndedBy(text);
      SplitAfterEnd(text, last);
      assert [head] + front + [last] == [head] + lines;
    }
  }

  lemma EndedBy(text: string)
    requires Split(text, '\n') != [] && Split(text, '\n')[|Split(text, '\n')| - 1] == ""
    ensures text == [] || text[|text| - 1] == '\n'
    decreases |text|
  {
    var i := IndexOf(text, '\n');
    if i < |text| {
      var rest := text[i + 1..];
      assert Split(text, '\n') == [text[..i]] + Split(rest, '\n');
      EndedBy(rest);
      assert rest == [] ==> text[|text| - 1] == text[i];
      assert rest != [] ==> text[|text| - 1] == rest[|rest| - 1];
    }
  }

  /** A line after text that ends its last line takes the place of the empty piece at the end. */
  lemma SplitAfterEnd(text: string, line: string)
    requires text != [] && text[|text| - 1] == '\n' && '\n' !in line
    ensures Split(text + line + "\n", '\n')
         == Split(text, '\n')[..|Split(text, '\n')| - 1] + [line, ""]
  {
    hide Split;
    var body := text[..|text| - 1];
    assert text == body + "\n" + [];
    SplitTogether(body, []);
    SplitNone([], '\n');
    SplitFirst(line, [], '\n');
    SplitTogether(body, line + "\n");
    assert text + line + "\n" == body + "\n" + (line + "\n");
    assert line + "\n" + [] == line + "\n";
  }

  function Pieces(text: string): seq<string> {
    if text == [] then [] else Split(text, '\n')
  }

  lemma SectionRowsAdded(out: string, name: string, lines: seq<string>)
    requires Ended(out) && '\n' !in name && forall l <- lines :: '\n' !in l
    ensures Pieces(WithSection(out, name, lines)) == Pieces(out) + SectionRows(name, lines)
    ensures Ended(WithSection(out, name, lines))
  {
    hide Split, LinesText, Header;
    if lines != [] {
      HeadingIsOneLine(name);
      var head := "# *** " + name + " ***";
      var added := head + "\n" + LinesText(lines);
      HeaderText(name, LinesText(lines));
      SplitLines(head, lines);
      EndedBy(added);
      hide *;
      PiecesAdded(out, added);
      SectionText(out, name, lines, added);
      RowsOfSection(name, lines);
    }
  }

  lemma HeadingIsOneLine(name: string)
    requires '\n' !in name
    ensures '\n' !in "# *** " + name + " ***"
  {
  }

  lemma RowsOfSection(name: string, lines: seq<string>)
    requires lines != []
    ensures SectionRows(name, lines) == ["# *** " + name + " ***"] + lines + [""]
  {
  }

  lemma HeaderText(name: string, rest: string)
    ensures Header(name) + rest == "# *** " + name + " ***" + "\n" + rest
  {
    assert " ***\n" == " ***" + "\n";
  }

  lemma SectionText(out: string, name: string, lines: seq<string>, added: string)
    requires lines != [] && added == Header(name) + LinesText(lines)
    ensures WithSection(out, name, lines) == if out == [] then added else out + "\n" + added
  {
    hide Header, LinesText;
    if out == [] {
      assert [] + Header(name) + LinesText(lines) == added;
    } else {
      assert out + "\n" + Header(name) + LinesText(lines) == out + "\n" + added;
    }
  }

  lemma PiecesAdded(out: string, added: string)
    requires Ended(out) && added != [] && added[|added| - 1] == '\n'
    ensures var text := if out == [] then added else out + "\n" + added;
      Pieces(text) == Pieces(out) + Split(added, '\n') && Ended(text)
  {
    hide Split;
    if out != [] {
      SplitTogether(out, added);
      var text := out + "\n" + added;
      assert text[|text| - 1] == added[|added| - 1];
    }
  }

  lemma {:induction false} RowsAdded(out: string, sections: seq<Section>)
    requires Ended(out) && forall s <- sections :: forall l <- SectionLines(s) :: '\n' !in l
    ensures Pieces(WithSections(out, sections)) == Pieces(out) + Rows(sections)
    decreases |sections|
  {
    hide Pieces, SectionLines, WithSection, SectionRows, Ended;
    if sections != [] {
      var s := sections[0];
      assert s in sections;
      SectionRowsAdded(out, s.name, SectionLines(s));
      RowsAdded(WithSection(out, s.name, SectionLines(s)), sections[1..]);
    }
  }

  /**
   The whole text, row by row: for each section that has any line a heading with its name, its lines
   and a blank row, which after the last section is the end of the text.
   */
  lemma TextIsRows(sections: seq<Section>)
    requires forall s <- sections :: forall l <- SectionLines(s) :: '\n' !in l
    requires exists s <- sections :: SectionLines(s) != []
    ensures Split(WithSections([], sections), '\n') == Rows(sections)
  {
    hide SectionLines, WithSections, Rows, Split;
    RowsAdded([], sections);
    SomeRows(sections);
  }

  lemma {:induction false} SomeRows(sections: seq<Section>)
    requires exists s <- sections :: SectionLines(s) != []
    ensures Rows(sections) != []
  {
    hide SectionLines;
    var s :| s in sections && SectionLines(s) != [];
    if s != sections[0] {
      SomeRows(sections[1..]);
    }
  }

  /** The names of the sections, in order. */
  lemma SectionNames(c: Config)
    ensures var names := ["Directories", "Control interface", "SOCKS listeners", "Address family",
                          "Circuits and timeouts", "Traffic analysis resistance"]
                         + (if c.bridges.Some? then ["Bridges"] else [])
                         + ["Node selection", "System", "Logging", "Raw"];
      |Sections(c)| == |names| && forall i | 0 <= i < |names| :: Sections(c)[i].name == names[i]
  {
    hide BridgeOptions, NodeOptions, SystemOptions, LoggingOptions, ControlOptions, SocksOpt, NetworkOptions,
         CircuitOptions, PaddingOptions, Map;
  }
}
