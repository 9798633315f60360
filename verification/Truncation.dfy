/** What the parser makes of a reply whose connection ends before the reply does. */
module Truncation {
  import opened Wrappers
  import opened Decimal
  import opened Text
  import opened Codec
  import opened Framing

  lemma {:induction false} StripEndKeeps(head: string, rest: string)
    requires head != [] && !IsLineEnd(head[|head| - 1])
    ensures StripEnd(head + rest) == head + StripEnd(rest)
    decreases |rest|
  {
    if rest == [] {
      assert head + rest == head;
    } else if IsLineEnd(rest[|rest| - 1]) {
      assert (head + rest)[..|head + rest| - 1] == head + rest[..|rest| - 1];
      StripEndKeeps(head, rest[..|rest| - 1]);
    }
  }

  /** Input without a line feed is one last line. */
  lemma LastLine(input: string)
    requires input != [] && '\n' !in input
    ensures FirstLine(input) == Some(StripEnd(input)) && AfterLine(input) == []
  {
    IndexOfIs(input, '\n', |input|);
    assert input[..|input|] == input;
  }

  function Payload(l: ControlLine): string {
    match l
    case Plain(text) => text
    case KeyValue(key, value) => key + "=" + value
    case Data(key, value) => key + "="
  }

  /** The status line of a reply line. */
  function Head(code: nat, separator: char, l: ControlLine): string {
    StatusLine(code, if l.Data? then '+' else separator, Payload(l))
  }

  lemma PrintedLine(code: nat, separator: char, l: ControlLine)
    requires Separates(separator, l)
    ensures PrintLine(code, separator, l)
            == Head(code, separator, l) + if l.Data? then PrintData(Split(l.value, '\n')) else []
  {
  }

  /** The beginning of a status line, by what it is made of. */
  lemma StatusLineBegins(code: nat, separator: char, payload: string, n: nat)
    requires code <= 999 && n < |StatusLine(code, separator, payload)|
    ensures |Padded(3, Numeral(code))| == 3 && |StatusLine(code, separator, payload)| == |payload| + 6
    ensures StatusLine(code, separator, payload)[..n]
            == (Padded(3, Numeral(code)) + [separator] + payload + "\r")[..n]
    ensures n >= 4 ==> StatusLine(code, separator, payload)[..n]
                       == Padded(3, Numeral(code)) + [separator] + (payload + "\r")[..n - 4]
  {
    ThreeDigits(code);
  }

  /** A status line cut before its line feed: an error up to three characters, else a shorter payload. */
  lemma StatusLineCut(code: nat, separator: char, payload: string, n: nat)
    requires code <= 999 && OneLine(payload) && (separator == ' ' || separator == '-' || separator == '+')
    requires 0 < n < |StatusLine(code, separator, payload)|
    ensures var input := StatusLine(code, separator, payload)[..n];
      && |StatusLine(code, separator, payload)| == |payload| + 6
      && FirstLine(input).Some? && AfterLine(input) == []
      && ParseStatusLine(FirstLine(input).value)
         == if n < 4 then Err(MalformedStatusLine)
            else Ok(Status(code, separator, StripEnd((payload + "\r")[..n - 4])))
  {
    hide StatusLine, Padded, Numeral, FirstLine, AfterLine;
    var digits := Padded(3, Numeral(code));
    var input := StatusLine(code, separator, payload)[..n];
    StatusLineBegins(code, separator, payload, n);
    LastLine(input);
    if n >= 4 {
      hide ParseStatusLine;
      var rest := (payload + "\r")[..n - 4];
      StripEndKeeps(digits + [separator], rest);
      StatusLineParses(code, separator, StripEnd(rest));
    }
  }

  /** A data block cut anywhere does not end, or ends with nothing left. */
  lemma {:induction false} DataCut(data: seq<string>, body: seq<string>, n: nat)
    requires (forall line <- body :: OneLine(line)) && n < |PrintData(body)|
    ensures var r := ReadData(data, PrintData(body)[..n]); r.0.Err? || r.1 == []
    decreases |body|
  {
    hide Stuff, Unstuff, OneLine, FirstLine, AfterLine;
    var input := PrintData(body)[..n];
    if input != [] {
      var first := if body == [] then "." else Stuff(body[0]);
      assert OneLine(first) by {
        if body == [] {
          DotIsOneLine();
        } else {
          StuffRoundTrip(body[0]);
        }
      }
      if n < |first| + 2 {
        CutLine(first, n);
        assert input == (first + CRLF)[..n];
      } else {
        var rest := PrintData(body[1..])[..n - |first| - 2];
        assert input == first + CRLF + rest;
        LineRead(first, rest);
        StuffRoundTrip(body[0]);
        DataCut(data + [body[0]], body[1..], n - |first| - 2);
      }
    }
  }

  lemma CutLine(line: string, n: nat)
    requires OneLine(line) && 0 < n < |line| + 2
    ensures FirstLine((line + CRLF)[..n]).Some? && AfterLine((line + CRLF)[..n]) == []
  {
    var input := (line + CRLF)[..n];
    assert input == (line + "\r")[..n];
    LastLine(input);
  }

  lemma PayloadIsOneLine(l: ControlLine)
    requires LineOk(l)
    ensures OneLine(Payload(l))
  {
    if l.KeyValue? {
      KeyIsOneLine(l.key);
    }
  }

  /** A cut in any line but the last leaves the reply unfinished. */
  lemma EarlierLineCut(code: nat, read: seq<ControlLine>, l: ControlLine, n: nat)
    requires code <= 999 && LineOk(l) && n < |PrintLine(code, '-', l)|
    ensures ReadMore(code, read, PrintLine(code, '-', l)[..n]).0.Err?
    ensures n > 0 ==> var input := PrintLine(code, '-', l)[..n];
      && FirstLine(input).Some?
      && var status := ParseStatusLine(FirstLine(input).value);
      && (status.Ok? ==>
            && status.value.separator != ' ' && status.value.code == code
            && var consumed := ConsumeLine(status.value, AfterLine(input));
            consumed.0.Err? || consumed.1 == [])
  {
    hide LineOk, PrintLine, ParseStatusLine, PrintData;
    var head := Head(code, '-', l);
    PrintedLine(code, '-', l);
    PayloadIsOneLine(l);
    var input := PrintLine(code, '-', l)[..n];
    if 0 < n < |head| {
      assert input == head[..n];
      StatusLineCut(code, if l.Data? then '+' else '-', Payload(l), n);
    } else if n > 0 {
      DataLineCut(code, l, n);
    }
  }

  lemma DataLineCut(code: nat, l: ControlLine, n: nat)
    requires code <= 999 && LineOk(l) && l.Data?
    requires |Head(code, '-', l)| <= n < |PrintLine(code, '-', l)|
    ensures var input := PrintLine(code, '-', l)[..n];
      && FirstLine(input).Some?
      && var status := ParseStatusLine(FirstLine(input).value);
      && status.Ok? && status.value.separator == '+' && status.value.code == code
      && var consumed := ConsumeLine(status.value, AfterLine(input));
      consumed.0.Err? || consumed.1 == []
  {
    hide ParseStatusLine, FirstLine, AfterLine, PrintData, ReadData;
    var head := Head(code, '-', l);
    var body := Split(l.value, '\n');
    JoinSplit(l.value, '\n');
    PayloadIsOneLine(l);
    PrintedLine(code, '-', l);
    var rest := PrintData(body)[..n - |head|];
    assert PrintLine(code, '-', l)[..n] == head + rest;
    StatusLineReads(code, '+', Payload(l), rest);
    DataCut([], body, n - |head|);
  }

  /** Where the last line of a printed reply starts. */
  function LastStart(code: nat, lines: seq<ControlLine>): (n: nat)
    requires lines != []
    ensures n <= |PrintLines(code, lines)|
  {
    if |lines| == 1 then 0 else |PrintLine(code, '-', lines[0])| + LastStart(code, lines[1..])
  }

  lemma {:induction false} PrintedLength(code: nat, lines: seq<ControlLine>)
    requires code <= 999 && lines != [] && !lines[|lines| - 1].Data?
    ensures |PrintLines(code, lines)| == LastStart(code, lines) + |Payload(lines[|lines| - 1])| + 6
  {
    hide Numeral;
    if |lines| > 1 {
      PrintedLength(code, lines[1..]);
    } else {
      ThreeDigits(code);
    }
  }

  /** What the parser takes the last line for when the input ends `n` characters into it. */
  function CutPayload(l: ControlLine, n: nat): string
    requires 4 <= n < |Payload(l)| + 6
  {
    StripEnd((Payload(l) + "\r")[..n - 4])
  }

  lemma LastLineCut(code: nat, l: ControlLine, n: nat)
    requires code <= 999 && LineOk(l) && !l.Data? && n < |PrintLine(code, ' ', l)|
    ensures |PrintLine(code, ' ', l)| == |Payload(l)| + 6
    ensures var input := PrintLine(code, ' ', l)[..n];
      && (n == 0 ==> FirstLine(input).None?)
      && (n > 0 ==>
            && FirstLine(input).Some? && AfterLine(input) == []
            && ParseStatusLine(FirstLine(input).value)
               == if n < 4 then Err(MalformedStatusLine) else Ok(Status(code, ' ', CutPayload(l, n))))
  {
    hide ParseStatusLine, AfterLine, LineOk;
    PayloadIsOneLine(l);
    PrintedLine(code, ' ', l);
    ThreeDigits(code);
    if n > 0 {
      StatusLineCut(code, ' ', Payload(l), n);
    }
  }

  /** How a run of lines reads when the input ends inside it. */
  lemma {:induction false} MoreCut(code: nat, read: seq<ControlLine>, lines: seq<ControlLine>, n: nat)
    requires ReplyOk(ControlReply(code, lines)) && n < |PrintLines(code, lines)|
    ensures var m := n - LastStart(code, lines);
      var last := lines[|lines| - 1];
      && m < |Payload(last)| + 6
      && var (got, rest) := ReadMore(code, read, PrintLines(code, lines)[..n]);
      && (got.Ok? <==> m >= 4)
      && (m >= 4 ==>
            && rest == []
            && got.value == ControlReply(code, read + lines[..|lines| - 1] + [ParsePayload(CutPayload(last, m))]))
    decreases |lines|
  {
    hide FirstLine, AfterLine, ParseStatusLine, PrintLine, LineOk, StatusLine, ParsePayload, CutPayload, ReadData,
         DataKey;
    if |lines| == 1 {
      LastLineCut(code, lines[0], n);
      assert read + lines[..0] == read;
    } else {
      var first := PrintLine(code, '-', lines[0]);
      assert ReplyOk(ControlReply(code, lines[1..]));
      assert lines[1..][|lines| - 2] == lines[|lines| - 1];
      var start := LastStart(code, lines);
      if n < |first| {
        assert PrintLines(code, lines)[..n] == first[..n];
        EarlierLineCut(code, read, lines[0], n);
      } else {
        var rest := PrintLines(code, lines[1..])[..n - |first|];
        assert PrintLines(code, lines)[..n] == first + rest;
        LineReads(code, '-', lines[0], rest);
        MoreCut(code, read + [lines[0]], lines[1..], n - |first|);
        assert read + [lines[0]] + lines[1..][..|lines| - 2] == read + lines[..|lines| - 1];
      }
    }
  }

  /** Reading a reply is reading its lines, the first one fixing the code. */
  lemma ReplyIsMore(code: nat, input: string)
    requires FirstLine(input).Some?
    requires ParseStatusLine(FirstLine(input).value).Ok? ==> ParseStatusLine(FirstLine(input).value).value.code == code
    ensures var (got, rest) := ReadReply(input);
      var (more, rest') := ReadMore(code, [], input);
      rest == rest' && got == if more.Ok? then Ok(Some(more.value)) else Err(more.error)
  {
    hide ParseStatusLine, FirstLine, AfterLine, ConsumeLine;
    var status := ParseStatusLine(FirstLine(input).value);
    if status.Ok? {
      var consumed := ConsumeLine(status.value, AfterLine(input)).0;
      assert consumed.Ok? ==> [] + [consumed.value] == [consumed.value];
    }
  }

  lemma FirstCode(r: ControlReply, n: nat)
    requires ReplyOk(r) && 0 < n < |PrintReply(r)|
    ensures var input := PrintReply(r)[..n];
      && FirstLine(input).Some?
      && (ParseStatusLine(FirstLine(input).value).Ok? ==>
            ParseStatusLine(FirstLine(input).value).value.code == r.code)
  {
    hide LineOk, PrintLine, ParseStatusLine, FirstLine, AfterLine, ConsumeLine, CutPayload;
    if |r.lines| == 1 {
      LastLineCut(r.code, r.lines[0], n);
    } else {
      var first := PrintLine(r.code, '-', r.lines[0]);
      if n < |first| {
        assert PrintReply(r)[..n] == first[..n];
        EarlierLineCut(r.code, [], r.lines[0], n);
      } else {
        var rest := PrintLines(r.code, r.lines[1..])[..n - |first|];
        assert PrintReply(r)[..n] == first + rest;
        LineReads(r.code, '-', r.lines[0], rest);
      }
    }
  }

  lemma CompleteCut(l: ControlLine, n: nat)
    requires LineOk(l) && !l.Data? && |Payload(l)| + 4 <= n < |Payload(l)| + 6
    ensures CutPayload(l, n) == Payload(l)
  {
    var payload := Payload(l);
    PayloadIsOneLine(l);
    hide Payload, LineOk;
    assert payload != [] ==> payload[|payload| - 1] in payload;
    if n == |payload| + 4 {
      assert (payload + "\r")[..n - 4] == payload;
    } else {
      assert (payload + "\r")[..n - 4] == payload + "\r";
      StripOne(payload, '\r');
    }
  }

  lemma PayloadParses(l: ControlLine)
    requires LineOk(l) && !l.Data?
    ensures ParsePayload(Payload(l)) == l
  {
    if l.KeyValue? {
      KeyValueParses(l.key, l.value);
    }
  }

  /** A cut last line is the right line exactly when its payload is complete. */
  lemma CutLineIsRight(l: ControlLine, n: nat)
    requires LineOk(l) && !l.Data? && 4 <= n < |Payload(l)| + 6
    ensures ParsePayload(CutPayload(l, n)) == l <==> n >= |Payload(l)| + 4
  {
    assert |CutPayload(l, n)| <= n - 4;
    hide ParsePayload, CutPayload, Payload, LineOk;
    if n >= |Payload(l)| + 4 {
      CompleteCut(l, n);
      PayloadParses(l);
    }
  }

  /**
   A reply cut short by the end of the input is taken for a reply exactly when the cut comes at
   least four characters into its last line; that reply then has the payload as far as it came.
   It is the right reply exactly when nothing but the line's end is missing.
   */
  lemma TruncatedReply(r: ControlReply, n: nat)
    requires ReplyOk(r) && n < |PrintReply(r)|
    ensures var m := n - LastStart(r.code, r.lines);
      var last := r.lines[|r.lines| - 1];
      && m < |Payload(last)| + 6
      && var (got, rest) := ReadReply(PrintReply(r)[..n]);
      && (n == 0 ==> got == Ok(None))
      && (got.Ok? && got.value.Some? <==> m >= 4)
      && (m >= 4 ==>
            && rest == []
            && got.value.value
               == ControlReply(r.code, r.lines[..|r.lines| - 1] + [ParsePayload(CutPayload(last, m))]))
      && (got == Ok(Some(r)) <==> m >= |Payload(last)| + 4)
  {
    hide LineOk, ReadMore, ReadReply, PrintLines, ParseStatusLine, FirstLine, AfterLine, ParsePayload, CutPayload;
    hide Payload, LastStart;
    var last := r.lines[|r.lines| - 1];
    var front := r.lines[..|r.lines| - 1];
    var m := n - LastStart(r.code, r.lines);
    MoreCut(r.code, [], r.lines, n);
    assert r.lines == front + [last] && [] + front == front;
    if n == 0 {
      NothingToRead();
    } else {
      FirstCode(r, n);
      ReplyIsMore(r.code, PrintReply(r)[..n]);
    }
    if m >= 4 {
      CutLineIsRight(last, m);
    }
  }
}
