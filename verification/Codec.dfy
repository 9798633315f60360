/**
 Control-port replies: the parser of src/tor/controller/codec.rs and the canonical printer of
 section 2.3 of the Tor control-spec, with dot transparency as in section 4.5.2 of RFC 5321.
 */
module Codec {
  import opened Wrappers
  import opened Decimal
  import opened Text

  datatype ControlLine =
    | Plain(text: string)
    | KeyValue(key: string, value: string)
    | Data(key: string, value: string)

  datatype ControlReply = ControlReply(code: nat, lines: seq<ControlLine>)

  datatype ProtocolError =
    | MalformedStatusLine | InvalidStatusCode | InvalidSeparator | StatusChanged
    | EofInReply | EofInData

  /** What parsing yields, and the input it leaves. */
  type Parsed<T> = (Result<T, ProtocolError>, string)

  const U16_MAX: nat := 65535

  // ---- Lines --------------------------------------------------------------------------------

  /** The length of the first line, its line feed included. */
  function LineLength(input: string): (n: nat)
    ensures n <= |input| && (input != [] ==> n > 0)
  {
    var i := IndexOf(input, '\n');
    if i < |input| then i + 1 else i
  }

  predicate IsLineEnd(c: char) {
    c == '\n' || c == '\r'
  }

  /** Every trailing carriage return and line feed is dropped. */
  function StripEnd(line: string): (r: string)
    ensures r <= line && (r == [] || !IsLineEnd(r[|r| - 1]))
  {
    if line != [] && IsLineEnd(line[|line| - 1]) then StripEnd(line[..|line| - 1]) else line
  }

  function FirstLine(input: string): Option<string> {
    if input == [] then None else Some(StripEnd(input[..LineLength(input)]))
  }

  function AfterLine(input: string): (r: string)
    ensures input != [] ==> |r| < |input|
    ensures input == [] ==> r == []
  {
    input[LineLength(input)..]
  }

  // ---- Status lines and payloads ------------------------------------------------------------

  datatype Status = Status(code: nat, separator: char, payload: string)

  function ParseStatusLine(line: string): Result<Status, ProtocolError> {
    if |line| < 4 then Err(MalformedStatusLine)
    else
      var code := ParseUnsigned(line[..3], U16_MAX);
      if code.None? then Err(InvalidStatusCode)
      else if line[3] != ' ' && line[3] != '-' && line[3] != '+' then Err(InvalidSeparator)
      else Ok(Status(code.value, line[3], line[4..]))
  }

  predicate IsKey(s: string) {
    s != [] && forall c <- s :: !IsWhitespace(c)
  }

  /** A payload is a key and a value when what precedes its first `=` is a key. */
  function ParsePayload(payload: string): ControlLine {
    var i := IndexOf(payload, '=');
    if i < |payload| && IsKey(payload[..i]) then KeyValue(payload[..i], payload[i + 1..])
    else Plain(payload)
  }

  function Unstuff(line: string): string {
    if StartsWith(line, "..") then "." + line[2..] else line
  }

  function DataKey(payload: string): string {
    if EndsWithChar(payload, '=') then payload[..|payload| - 1] else payload
  }

  // ---- Replies ------------------------------------------------------------------------------

  /** The body of a data block up to its terminating dot, after the lines already read. */
  function ReadData(data: seq<string>, input: string): (r: Parsed<seq<string>>)
    ensures r.0.Ok? ==> |r.1| < |input|
    decreases |input|
  {
    match FirstLine(input)
    case None => (Err(EofInData), input)
    case Some(line) =>
      if line == "." then (Ok(data), AfterLine(input))
      else ReadData(data + [Unstuff(line)], AfterLine(input))
  }

  function ConsumeLine(s: Status, input: string): (r: Parsed<ControlLine>)
    ensures r.0.Ok? ==> |r.1| <= |input|
  {
    if s.separator == '+' then
      var (data, rest) := ReadData([], input);
      match data
      case Err(e) => (Err(e), rest)
      case Ok(body) => (Ok(Data(DataKey(s.payload), Join(body, '\n'))), rest)
    else (Ok(ParsePayload(s.payload)), input)
  }

  /** The lines after the first, which must repeat its code, up to one with a space. */
  function ReadMore(code: nat, lines: seq<ControlLine>, input: string): Parsed<ControlReply>
    decreases |input|
  {
    match FirstLine(input)
    case None => (Err(EofInReply), input)
    case Some(line) =>
      var rest := AfterLine(input);
      match ParseStatusLine(line) {
        case Err(e) => (Err(e), rest)
        case Ok(status) =>
          if status.code != code then (Err(StatusChanged), rest)
          else
            var (consumed, rest') := ConsumeLine(status, rest);
            match consumed {
              case Err(e) => (Err(e), rest')
              case Ok(l) =>
                if status.separator == ' ' then (Ok(ControlReply(code, lines + [l])), rest')
                else ReadMore(code, lines + [l], rest')
            }
      }
  }

  /** One complete reply, or `None` at the end of the input. */
  function ReadReply(input: string): Parsed<Option<ControlReply>> {
    match FirstLine(input)
    case None => (Ok(None), input)
    case Some(line) =>
      var rest := AfterLine(input);
      match ParseStatusLine(line) {
        case Err(e) => (Err(e), rest)
        case Ok(status) =>
          var (consumed, rest') := ConsumeLine(status, rest);
          match consumed {
            case Err(e) => (Err(e), rest')
            case Ok(l) =>
              if status.separator == ' ' then (Ok(Some(ControlReply(status.code, [l]))), rest')
              else
                var (reply, rest'') := ReadMore(status.code, [l], rest');
                match reply {
                  case Err(e) => (Err(e), rest'')
                  case Ok(r) => (Ok(Some(r)), rest'')
                }
          }
      }
  }

  // ---- The canonical printer ----------------------------------------------------------------

  const CRLF: string := "\r\n"

  function StatusLine(code: nat, separator: char, payload: string): string {
    Padded(3, Numeral(code)) + [separator] + payload + CRLF
  }

  function Stuff(line: string): string {
    if StartsWith(line, ".") then "." + line else line
  }

  function PrintData(body: seq<string>): string {
    if body == [] then "." + CRLF else Stuff(body[0]) + CRLF + PrintData(body[1..])
  }

  function PrintLine(code: nat, separator: char, l: ControlLine): string {
    match l
    case Plain(text) => StatusLine(code, separator, text)
    case KeyValue(key, value) => StatusLine(code, separator, key + "=" + value)
    case Data(key, value) => StatusLine(code, '+', key + "=") + PrintData(Split(value, '\n'))
  }

  function PrintLines(code: nat, lines: seq<ControlLine>): string
    requires lines != []
  {
    if |lines| == 1 then PrintLine(code, ' ', lines[0])
    else PrintLine(code, '-', lines[0]) + PrintLines(code, lines[1..])
  }

  function PrintReply(r: ControlReply): string
    requires r.lines != []
  {
    PrintLines(r.code, r.lines)
  }

  // ---- Which replies there are --------------------------------------------------------------

  /** Text that survives as one line. */
  predicate OneLine(s: string) {
    '\n' !in s && !EndsWithChar(s, '\r')
  }

  predicate LineOk(l: ControlLine) {
    match l
    case Plain(text) =>
      OneLine(text) && !(IndexOf(text, '=') < |text| && IsKey(text[..IndexOf(text, '=')]))
    case KeyValue(key, value) => IsKey(key) && '=' !in key && OneLine(value)
    case Data(key, value) => '\n' !in key && forall p <- Split(value, '\n') :: !EndsWithChar(p, '\r')
  }

  /** A three-digit code, at least one line, no data block last, and every line as above. */
  predicate ReplyOk(r: ControlReply) {
    && r.code <= 999 && r.lines != [] && !r.lines[|r.lines| - 1].Data?
    && forall l <- r.lines :: LineOk(l)
  }
}
