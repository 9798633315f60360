/** The reply reader as an object over a byte stream, with the loops of src/tor/controller/codec.rs. */
module Reader {
  import opened Wrappers
  import opened Text
  import opened Codec

  class ReplyReader {
    /** The input not read yet. */
    var rest: string

    constructor (input: string)
      ensures rest == input
    {
      rest := input;
    }

    method ReadProtocolLine() returns (line: Option<string>)
      modifies this
      ensures line == FirstLine(old(rest)) && rest == AfterLine(old(rest))
    {
      var n := LineLength(rest);
      if n == 0 {
        return None;
      }
      var text := rest[..n];
      rest := rest[n..];
      ghost var whole := text;
      while text != [] && IsLineEnd(text[|text| - 1])
        invariant StripEnd(text) == StripEnd(whole)
        decreases |text|
      {
        text := text[..|text| - 1];
      }
      return Some(text);
    }

    method ConsumeStatus(s: Status) returns (r: Result<ControlLine, ProtocolError>)
      modifies this
      ensures (r, rest) == ConsumeLine(s, old(rest))
    {
      if s.separator == '+' {
        var key := DataKey(s.payload);
        var data: seq<string> := [];
        while true
          invariant ReadData(data, rest) == ReadData([], old(rest))
          decreases |rest|
        {
          var line := ReadProtocolLine();
          if line.None? {
            return Err(EofInData);
          }
          if line.value == "." {
            break;
          }
          data := data + [Unstuff(line.value)];
        }
        r := Ok(Data(key, Join(data, '\n')));
      } else {
        r := Ok(ParsePayload(s.payload));
      }
    }

    method ReadWholeReply() returns (r: Result<Option<ControlReply>, ProtocolError>)
      modifies this
      ensures (r, rest) == ReadReply(old(rest))
    {
      var first := ReadProtocolLine();
      if first.None? {
        return Ok(None);
      }
      var status := ParseStatusLine(first.value);
      if status.Err? {
        return Err(status.error);
      }
      var code := status.value.code;
      var consumed := ConsumeStatus(status.value);
      if consumed.Err? {
        return Err(consumed.error);
      }
      var lines := [consumed.value];
      if status.value.separator == ' ' {
        return Ok(Some(ControlReply(code, lines)));
      }
      ghost var mark := rest;
      while true
        invariant ReadMore(code, lines, rest) == ReadMore(code, [consumed.value], mark)
        decreases |rest|
      {
        var line := ReadProtocolLine();
        if line.None? {
          return Err(EofInReply);
        }
        var next := ParseStatusLine(line.value);
        if next.Err? {
          return Err(next.error);
        }
        if next.value.code != code {
          return Err(StatusChanged);
        }
        var l := ConsumeStatus(next.value);
        if l.Err? {
          return Err(l.error);
        }
        lines := lines + [l.value];
        if next.value.separator == ' ' {
          break;
        }
      }
      return Ok(Some(ControlReply(code, lines)));
    }
  }
}
