/** Parsing undoes printing on a byte stream with any tail, and parses to nothing else. */
module Framing {
  import opened Wrappers
  import opened Decimal
  import opened Text
  import opened Codec

  // ---- One line -----------------------------------------------------------------------------

  lemma StripOne(text: string, c: char)
    requires IsLineEnd(c)
    ensures StripEnd(text + [c]) == StripEnd(text)
  {
    assert (text + [c])[..|text|] == text;
  }

  lemma StripCrlf(line: string)
    requires line == [] || !IsLineEnd(line[|line| - 1])
    ensures StripEnd(line + CRLF) == line
  {
    StripOne(line + "\r", '\n');
    StripOne(line, '\r');
    assert line + CRLF == line + "\r" + ['\n'];
  }

  lemma LineRead(line: string, tail: string)
    requires OneLine(line)
    ensures FirstLine(line + CRLF + tail) == Some(line) && AfterLine(line + CRLF + tail) == tail
  {
    var input := line + CRLF + tail;
    assert forall j | 0 <= j < |line| :: input[j] == line[j];
    IndexOfIs(input, '\n', |line| + 1);
    assert input[..LineLength(input)] == line + CRLF;
    if line != [] {
      assert line[|line| - 1] in line;
    }
    StripCrlf(line);
  }

  lemma StatusLineParses(code: nat, separator: char, payload: string)
    requires code <= 999 && (separator == ' ' || separator == '-' || separator == '+')
    ensures ParseStatusLine(Padded(3, Numeral(code)) + [separator] + payload) == Ok(Status(code, separator, payload))
  {
    var digits := Padded(3, Numeral(code));
    ThreeDigits(code);
    var line := digits + [separator] + payload;
    ParsePaddedNumeral(3, code, U16_MAX);
    assert line[..3] == digits && line[4..] == payload;
  }

  lemma ThreeDigits(code: nat)
    requires code <= 999
    ensures |Numeral(code)| <= 3
  {
    assert code / 10 <= 99 && code / 10 / 10 <= 9;
    if code >= 100 {
      assert |Numeral(code / 10 / 10)| == 1;
      assert |Numeral(code / 10)| == 2;
    } else if code >= 10 {
      assert |Numeral(code / 10)| == 1;
    }
  }

  lemma StatusLineReads(code: nat, separator: char, payload: string, tail: string)
    requires code <= 999 && (separator == ' ' || separator == '-' || separator == '+') && OneLine(payload)
    ensures var input := StatusLine(code, separator, payload) + tail;
      && FirstLine(input).Some? && AfterLine(input) == tail
      && ParseStatusLine(FirstLine(input).value) == Ok(Status(code, separator, payload))
  {
    var line := Padded(3, Numeral(code)) + [separator] + payload;
    assert '\n' !in Padded(3, Numeral(code)) by {
      assert AllDigits(Padded(3, Numeral(code)));
    }
    assert OneLine(line);
    assert StatusLine(code, separator, payload) + tail == line + CRLF + tail;
    LineRead(line, tail);
    StatusLineParses(code, separator, payload);
  }

  // ---- Data blocks --------------------------------------------------------------------------

  lemma StuffRoundTrip(line: string)
    requires OneLine(line)
    ensures OneLine(Stuff(line)) && Stuff(line) != "." && Unstuff(Stuff(line)) == line
  {
    if StartsWith(line, ".") {
      assert Stuff(line)[2..] == line[1..];
    }
  }

  lemma DotIsOneLine()
    ensures OneLine(".")
  {
  }

  lemma {:induction false} DataReads(data: seq<string>, body: seq<string>, tail: string)
    requires forall line <- body :: OneLine(line)
    ensures ReadData(data, PrintData(body) + tail) == (Ok(data + body), tail)
    decreases |body|
  {
    hide FirstLine, AfterLine, Stuff, Unstuff, OneLine;
    if body == [] {
      assert PrintData(body) + tail == "." + CRLF + tail;
      DotIsOneLine();
      LineRead(".", tail);
      assert data + body == data;
    } else {
      StuffRoundTrip(body[0]);
      var rest := PrintData(body[1..]) + tail;
      assert PrintData(body) + tail == Stuff(body[0]) + CRLF + rest;
      LineRead(Stuff(body[0]), rest);
      DataReads(data + [body[0]], body[1..], tail);
      assert data + [body[0]] + body[1..] == data + body;
    }
  }

  // ---- One line of a reply ------------------------------------------------------------------

  lemma KeyValueParses(key: string, value: string)
    requires IsKey(key) && '=' !in key
    ensures ParsePayload(key + "=" + value) == KeyValue(key, value)
  {
    var payload := key + "=" + value;
    assert forall j | 0 <= j < |key| :: payload[j] == key[j];
    IndexOfIs(payload, '=', |key|);
    assert payload[..|key|] == key && payload[|key| + 1..] == value;
  }

  lemma KeyIsOneLine(key: string)
    requires IsKey(key)
    ensures '\n' !in key && '\r' !in key
  {
  }

  predicate Separates(separator: char, l: ControlLine) {
    separator == '-' || (separator == ' ' && !l.Data?)
  }

  lemma LineReads(code: nat, separator: char, l: ControlLine, tail: string)
    requires code <= 999 && LineOk(l) && Separates(separator, l)
    ensures var input := PrintLine(code, separator, l) + tail;
      && FirstLine(input).Some?
      && var status := ParseStatusLine(FirstLine(input).value);
      && status.Ok? && status.value.code == code
      && status.value.separator == (if l.Data? then '+' else separator)
      && ConsumeLine(status.value, AfterLine(input)) == (Ok(l), tail)
  {
    hide FirstLine, AfterLine, ParseStatusLine, StatusLine;
    match l
    case Plain(text) => StatusLineReads(code, separator, text, tail);
    case KeyValue(key, value) =>
      PairIsOneLine(key, value);
      KeyValueParses(key, value);
      hide ParsePayload;
      StatusLineReads(code, separator, key + "=" + value, tail);
    case Data(key, value) => DataLineReads(code, separator, key, value, tail);
  }

  lemma PairIsOneLine(key: string, value: string)
    requires IsKey(key) && OneLine(value)
    ensures OneLine(key + "=" + value)
  {
    KeyIsOneLine(key);
  }

  lemma DataLineReads(code: nat, separator: char, key: string, value: string, tail: string)
    requires code <= 999 && LineOk(Data(key, value)) && Separates(separator, Data(key, value))
    ensures var input := PrintLine(code, separator, Data(key, value)) + tail;
      && FirstLine(input).Some?
      && var status := ParseStatusLine(FirstLine(input).value);
      && status.Ok? && status.value.code == code && status.value.separator == '+'
      && ConsumeLine(status.value, AfterLine(input)) == (Ok(Data(key, value)), tail)
  {
    hide FirstLine, AfterLine, ParseStatusLine, StatusLine, ReadData, PrintData, Split, Join;
    var body := Split(value, '\n');
    JoinSplit(value, '\n');
    assert PrintLine(code, separator, Data(key, value)) + tail
        == StatusLine(code, '+', key + "=") + (PrintData(body) + tail);
    StatusLineReads(code, '+', key + "=", PrintData(body) + tail);
    DataReads([], body, tail);
    assert [] + body == body;
    assert DataKey(key + "=") == key;
  }

  // ---- Whole replies ------------------------------------------------------------------------

  lemma {:induction false} MoreReads(code: nat, read: seq<ControlLine>, lines: seq<ControlLine>, tail: string)
    requires ReplyOk(ControlReply(code, lines))
    ensures ReadMore(code, read, PrintLines(code, lines) + tail) == (Ok(ControlReply(code, read + lines)), tail)
    decreases |lines|
  {
    hide FirstLine, AfterLine, ParseStatusLine, ConsumeLine, PrintLine, LineOk;
    if |lines| == 1 {
      LineReads(code, ' ', lines[0], tail);
      assert read + [lines[0]] == read + lines;
    } else {
      var rest := PrintLines(code, lines[1..]) + tail;
      assert PrintLines(code, lines) + tail == PrintLine(code, '-', lines[0]) + rest;
      LineReads(code, '-', lines[0], rest);
      assert ReplyOk(ControlReply(code, lines[1..]));
      MoreReads(code, read + [lines[0]], lines[1..], tail);
      assert read + [lines[0]] + lines[1..] == read + lines;
    }
  }

  /** `read_reply` on a printed reply followed by anything gives that reply and leaves exactly the rest. */
  lemma ReplyRoundTrip(r: ControlReply, tail: string)
    requires ReplyOk(r)
    ensures ReadReply(PrintReply(r) + tail) == (Ok(Some(r)), tail)
  {
    hide FirstLine, AfterLine, ParseStatusLine, ConsumeLine, PrintLine, LineOk, ReadMore;
    if |r.lines| == 1 {
      LineReads(r.code, ' ', r.lines[0], tail);
      assert [r.lines[0]] == r.lines;
    } else {
      var rest := PrintLines(r.code, r.lines[1..]) + tail;
      assert PrintReply(r) + tail == PrintLine(r.code, '-', r.lines[0]) + rest;
      LineReads(r.code, '-', r.lines[0], rest);
      assert ReplyOk(ControlReply(r.code, r.lines[1..]));
      MoreReads(r.code, [r.lines[0]], r.lines[1..], tail);
      assert [r.lines[0]] + r.lines[1..] == r.lines;
    }
  }

  // ---- Streams of replies -------------------------------------------------------------------

  predicate AllOk(rs: seq<ControlReply>) {
    forall i | 0 <= i < |rs| :: ReplyOk(rs[i])
  }

  function PrintAll(rs: seq<ControlReply>): string
    requires AllOk(rs)
  {
    if rs == [] then [] else PrintReply(rs[0]) + PrintAll(rs[1..])
  }

  /** Reading until the end of the input; what is left is the termination measure. */
  function ReadAll(input: string): Result<seq<ControlReply>, ProtocolError>
    decreases |input|
  {
    var (reply, rest) := ReadReply(input);
    match reply
    case Err(e) => Err(e)
    case Ok(None) => Ok([])
    case Ok(Some(r)) =>
      ReadConsumes(input);
      match ReadAll(rest)
      case Err(e) => Err(e)
      case Ok(rs) => Ok([r] + rs)
  }

  /** A reply always uses input up. */
  lemma {:induction false} ReadConsumes(input: string)
    ensures ReadReply(input).0.Ok? && ReadReply(input).0.value.Some? ==> |ReadReply(input).1| < |input|
  {
    if FirstLine(input).Some? {
      var status := ParseStatusLine(FirstLine(input).value);
      if status.Ok? {
        var (consumed, rest) := ConsumeLine(status.value, AfterLine(input));
        if consumed.Ok? && status.value.separator != ' ' {
          MoreConsumes(status.value.code, [consumed.value], rest);
        }
      }
    }
  }

  lemma {:induction false} MoreConsumes(code: nat, lines: seq<ControlLine>, input: string)
    ensures ReadMore(code, lines, input).0.Ok? ==> |ReadMore(code, lines, input).1| <= |input|
    decreases |input|
  {
    if FirstLine(input).Some? {
      var status := ParseStatusLine(FirstLine(input).value);
      if status.Ok? && status.value.code == code {
        var (consumed, rest) := ConsumeLine(status.value, AfterLine(input));
        if consumed.Ok? && status.value.separator != ' ' {
          MoreConsumes(code, lines + [consumed.value], rest);
        }
      }
    }
  }

  // ---- What is refused ----------------------------------------------------------------------

  /** Exactly which lines are status lines, and what each error says. */
  lemma StatusLineVerdict(line: string)
    ensures ParseStatusLine(line) == Err(MalformedStatusLine) <==> |line| < 4
    ensures var coded := |line| >= 4 && IsDigit(line[1]) && IsDigit(line[2]) && (IsDigit(line[0]) || line[0] == '+');
      && (ParseStatusLine(line) == Err(InvalidStatusCode) <==> |line| >= 4 && !coded)
      && (ParseStatusLine(line) == Err(InvalidSeparator) <==>
            coded && line[3] != ' ' && line[3] != '-' && line[3] != '+')
      && (coded && (line[3] == ' ' || line[3] == '-' || line[3] == '+') ==>
            && ParseStatusLine(line).Ok?
            && var s := ParseStatusLine(line).value;
            && s.separator == line[3] && s.payload == line[4..]
            && s.code == (if line[0] == '+' then 0 else 100 * (line[0] as int - '0' as int))
                         + 10 * (line[1] as int - '0' as int) + (line[2] as int - '0' as int))
  {
    if |line| >= 4 {
      CodeVerdict(line[..3]);
      hide ParseUnsigned;
    }
  }

  lemma CodeVerdict(s: string)
    requires |s| == 3
    ensures var coded := IsDigit(s[1]) && IsDigit(s[2]) && (IsDigit(s[0]) || s[0] == '+');
      && (ParseUnsigned(s, U16_MAX).Some? <==> coded)
      && (coded ==> ParseUnsigned(s, U16_MAX).value
                    == (if s[0] == '+' then 0 else 100 * (s[0] as int - '0' as int))
                       + 10 * (s[1] as int - '0' as int) + (s[2] as int - '0' as int))
  {
    if s[0] == '+' {
      assert s[1..] == [s[1], s[2]];
      if IsDigit(s[1]) && IsDigit(s[2]) {
        TwoDigits([s[1], s[2]]);
      }
    } else if AllDigits(s) {
      assert s[..2] == [s[0], s[1]];
      TwoDigits([s[0], s[1]]);
    }
  }

  lemma TwoDigits(s: string)
    requires |s| == 2 && AllDigits(s)
    ensures Value(s) == 10 * (s[0] as int - '0' as int) + (s[1] as int - '0' as int)
  {
    assert s[..1] == [s[0]] && s[..1][..0] == [];
    assert Value(s[..1]) == s[0] as int - '0' as int;
  }

  /** Lines as they come, ended by the dot. */
  function RawData(body: seq<string>): string {
    if body == [] then "." + CRLF else body[0] + CRLF + RawData(body[1..])
  }

  /** Only a line that starts with two dots loses one; every other line of a data block is kept. */
  lemma {:induction false} RawDataReads(data: seq<string>, body: seq<string>, tail: string)
    requires forall line <- body :: OneLine(line) && line != "."
    ensures var (got, rest) := ReadData(data, RawData(body) + tail);
      && rest == tail && got.Ok? && |got.value| == |data| + |body| && data <= got.value
      && forall i | 0 <= i < |body| ::
           got.value[|data| + i] == if ".." <= body[i] then body[i][1..] else body[i]
    decreases |body|
  {
    hide FirstLine, AfterLine, OneLine;
    var input := RawData(body) + tail;
    if body == [] {
      DotIsOneLine();
      assert input == "." + CRLF + tail;
      LineRead(".", tail);
    } else {
      var line := body[0];
      var rest := RawData(body[1..]) + tail;
      assert line in body;
      assert input == line + CRLF + rest;
      LineRead(line, rest);
      UnstuffedLine(line);
      RawDataReads(data + [Unstuff(line)], body[1..], tail);
    }
  }

  lemma UnstuffedLine(line: string)
    ensures Unstuff(line) == if ".." <= line then line[1..] else line
  {
    if ".." <= line {
      assert line[1] == '.' && line[1..] == "." + line[2..];
    }
  }

  /** A payload is a key and a value exactly when a `=` comes after one or more characters, none of them white. */
  lemma PayloadVerdict(payload: string, i: nat)
    requires i <= |payload| && (forall k | 0 <= k < i :: payload[k] != '=') && (i < |payload| ==> payload[i] == '=')
    ensures ParsePayload(payload)
         == if 0 < i < |payload| && forall k | 0 <= k < i :: !IsWhitespace(payload[k])
            then KeyValue(payload[..i], payload[i + 1..]) else Plain(payload)
  {
    hide IsWhitespace;
    IndexOfIs(payload, '=', i);
    assert forall k | 0 <= k < i :: payload[..i][k] == payload[k];
  }

  /** The key of a data block is its payload, but for one `=` at the end. */
  lemma DataKeyVerdict(payload: string)
    ensures DataKey(payload + "=") == payload
    ensures payload == [] || payload[|payload| - 1] != '=' ==> DataKey(payload) == payload
  {
  }

  /** Lines that announce another one of the same code. */
  function Continued(code: nat, lines: seq<ControlLine>): string {
    if lines == [] then [] else PrintLine(code, '-', lines[0]) + Continued(code, lines[1..])
  }

  lemma {:induction false} MoreMixed(code: nat, read: seq<ControlLine>, lines: seq<ControlLine>, code': nat,
                                     separator: char, l: ControlLine, tail: string)
    requires code <= 999 && code' <= 999 && code != code' && forall x <- lines :: LineOk(x)
    requires LineOk(l) && Separates(separator, l)
    ensures ReadMore(code, read, Continued(code, lines) + (PrintLine(code', separator, l) + tail)).0
         == Err(StatusChanged)
    decreases |lines|
  {
    hide FirstLine, AfterLine, ParseStatusLine, ConsumeLine, PrintLine, LineOk;
    var rest := PrintLine(code', separator, l) + tail;
    if lines == [] {
      assert Continued(code, lines) + rest == rest;
      LineReads(code', separator, l, tail);
    } else {
      assert lines[0] in lines;
      var more := Continued(code, lines[1..]) + rest;
      assert Continued(code, lines) + rest == PrintLine(code, '-', lines[0]) + more;
      LineReads(code, '-', lines[0], more);
      MoreMixed(code, read + [lines[0]], lines[1..], code', separator, l, tail);
    }
  }

  /** A line of another code is never taken into a reply, wherever it comes after the first. */
  lemma MixedCodes(code: nat, lines: seq<ControlLine>, code': nat, separator: char, l: ControlLine, tail: string)
    requires code <= 999 && code' <= 999 && code != code' && lines != [] && forall x <- lines :: LineOk(x)
    requires LineOk(l) && Separates(separator, l)
    ensures ReadReply(Continued(code, lines) + (PrintLine(code', separator, l) + tail)).0 == Err(StatusChanged)
  {
    hide FirstLine, AfterLine, ParseStatusLine, ConsumeLine, PrintLine, LineOk, ReadMore;
    var rest := Continued(code, lines[1..]) + (PrintLine(code', separator, l) + tail);
    assert lines[0] in lines;
    assert Continued(code, lines) + (PrintLine(code', separator, l) + tail) == PrintLine(code, '-', lines[0]) + rest;
    LineReads(code, '-', lines[0], rest);
    MoreMixed(code, [lines[0]], lines[1..], code', separator, l, tail);
  }

  // ---- Streams ------------------------------------------------------------------------------

  lemma NothingToRead()
    ensures ReadReply([]) == (Ok(None), [])
  {
  }

  /** Any concatenation of printed replies reads back as those replies, to the end of the input. */
  lemma {:induction false} StreamRoundTrip(rs: seq<ControlReply>)
    requires AllOk(rs)
    ensures ReadAll(PrintAll(rs)) == Ok(rs)
  {
    hide ReadReply, PrintReply, ReplyOk;
    if rs == [] {
      NothingToRead();
    } else {
      ReplyRoundTrip(rs[0], PrintAll(rs[1..]));
      StreamRoundTrip(rs[1..]);
      assert [rs[0]] + rs[1..] == rs;
    }
  }

  // ---- The parser yields nothing but printable replies --------------------------------------

  lemma FirstLineIsOneLine(input: string)
    requires FirstLine(input).Some?
    ensures OneLine(FirstLine(input).value) && input != []
  {
  }

  lemma StatusIsOneLine(line: string)
    requires OneLine(line) && ParseStatusLine(line).Ok?
    ensures OneLine(ParseStatusLine(line).value.payload) && ParseStatusLine(line).value.code <= 999
  {
    var payload := line[4..];
    if payload != [] {
      assert payload[|payload| - 1] == line[|line| - 1];
    }
    ShortNumbers(line[..3]);
  }

  lemma ShortNumbers(s: string)
    requires |s| == 3
    ensures ParseUnsigned(s, U16_MAX).Some? ==> ParseUnsigned(s, U16_MAX).value <= 999
  {
    var digits := if s[0] == '+' then s[1..] else s;
    if AllDigits(digits) {
      DigitsBound(digits);
    }
  }

  function Power10(n: nat): nat {
    if n == 0 then 1 else 10 * Power10(n - 1)
  }

  lemma {:induction false} DigitsBound(s: string)
    requires AllDigits(s)
    ensures Value(s) < Power10(|s|)
    ensures |s| <= 3 ==> Power10(|s|) <= 1000
  {
    if s != [] {
      DigitsBound(s[..|s| - 1]);
    }
    if |s| <= 3 {
      assert Power10(3) == 10 * Power10(2) == 100 * Power10(1) == 1000;
      assert Power10(2) == 100 && Power10(1) == 10;
    }
  }

  lemma {:induction false} DataIsOk(data: seq<string>, input: string)
    requires forall line <- data :: OneLine(line)
    ensures ReadData(data, input).0.Ok? ==> forall line <- ReadData(data, input).0.value :: OneLine(line)
    decreases |input|
  {
    if FirstLine(input).Some? {
      var line := FirstLine(input).value;
      FirstLineIsOneLine(input);
      if line != "." {
        assert OneLine(Unstuff(line));
        DataIsOk(data + [Unstuff(line)], AfterLine(input));
      }
    }
  }

  lemma PayloadIsOk(payload: string)
    requires OneLine(payload)
    ensures LineOk(ParsePayload(payload)) && !ParsePayload(payload).Data?
  {
    var i := IndexOf(payload, '=');
    if i < |payload| {
      var value := payload[i + 1..];
      if value != [] {
        assert value[|value| - 1] == payload[|payload| - 1];
      }
    }
  }

  lemma BlockIsOk(payload: string, input: string)
    requires OneLine(payload)
    ensures ReadData([], input).0.Ok? ==> LineOk(Data(DataKey(payload), Join(ReadData([], input).0.value, '\n')))
  {
    hide ReadData;
    DataIsOk([], input);
    if ReadData([], input).0.Ok? {
      BodyIsOk(ReadData([], input).0.value);
    }
  }

  lemma BodyIsOk(body: seq<string>)
    requires forall line <- body :: OneLine(line)
    ensures forall p <- Split(Join(body, '\n'), '\n') :: !EndsWithChar(p, '\r')
  {
    if body != [] {
      SplitJoin(body, '\n');
    }
  }

  lemma {:induction false} MoreIsOk(code: nat, lines: seq<ControlLine>, input: string)
    requires code <= 999 && lines != [] && forall l <- lines :: LineOk(l)
    ensures ReadMore(code, lines, input).0.Ok? ==> ReplyOk(ReadMore(code, lines, input).0.value)
    decreases |input|
  {
    hide LineOk, OneLine, ReadData, ParsePayload, FirstLine, AfterLine, ParseStatusLine, DataKey;
    if FirstLine(input).Some? {
      FirstLineIsOneLine(input);
      var status := ParseStatusLine(FirstLine(input).value);
      if status.Ok? && status.value.code == code {
        StatusIsOneLine(FirstLine(input).value);
        PayloadIsOk(status.value.payload);
        BlockIsOk(status.value.payload, AfterLine(input));
        var (consumed, rest) := ConsumeLine(status.value, AfterLine(input));
        if consumed.Ok? && status.value.separator != ' ' {
          MoreIsOk(code, lines + [consumed.value], rest);
        }
      }
    }
  }

  /** Whatever the parser accepts, from any input, is a reply the printer can print. */
  lemma ParsedIsOk(input: string)
    ensures var r := ReadReply(input).0; r.Ok? && r.value.Some? ==> ReplyOk(r.value.value)
  {
    hide LineOk, OneLine, ReadData, ReadMore, ParsePayload, FirstLine, AfterLine, ParseStatusLine, DataKey;
    if FirstLine(input).Some? {
      FirstLineIsOneLine(input);
      var status := ParseStatusLine(FirstLine(input).value);
      if status.Ok? {
        StatusIsOneLine(FirstLine(input).value);
        PayloadIsOk(status.value.payload);
        BlockIsOk(status.value.payload, AfterLine(input));
        var (consumed, rest) := ConsumeLine(status.value, AfterLine(input));
        if consumed.Ok? && status.value.separator != ' ' {
          MoreIsOk(status.value.code, [consumed.value], rest);
        }
      }
    }
  }

  /**
   The replies the parser can yield are exactly the well-formed ones, and printing a parsed reply
   and parsing again changes nothing.
   */
  lemma ParserImage(r: ControlReply)
    ensures ReplyOk(r) <==> exists input: string :: ReadReply(input).0 == Ok(Some(r))
  {
    if ReplyOk(r) {
      ReplyRoundTrip(r, "");
      assert ReadReply(PrintReply(r) + "").0 == Ok(Some(r));
    }
    forall input: string | ReadReply(input).0 == Ok(Some(r))
      ensures ReplyOk(r)
    {
      ParsedIsOk(input);
    }
  }
}
