/** Hexadecimal text: the encoders of lane passwords and control cookies, and the decoder. */
module Hex {
  import opened Wrappers

  newtype byte = x: int | 0 <= x < 256

  datatype Case = Lower | Upper

  /** Entry `d` of the sixteen-character alphabet. */
  function Nibble(c: Case, d: int): char
    requires 0 <= d < 16
  {
    if d < 10 then ('0' as int + d) as char
    else if c.Lower? then ('a' as int + d - 10) as char
    else ('A' as int + d - 10) as char
  }

  function Encode(c: Case, bytes: seq<byte>): (s: string)
    ensures |s| == 2 * |bytes|
  {
    if bytes == [] then []
    else
      var b := bytes[|bytes| - 1] as int;
      Encode(c, bytes[..|bytes| - 1]) + [Nibble(c, b / 16), Nibble(c, b % 16)]
  }

  function DigitValue(c: char): (v: Option<int>)
    ensures v.Some? ==> 0 <= v.value < 16
  {
    if '0' <= c <= '9' then Some(c as int - '0' as int)
    else if 'a' <= c <= 'f' then Some(c as int - 'a' as int + 10)
    else if 'A' <= c <= 'F' then Some(c as int - 'A' as int + 10)
    else None
  }

  function ByteOf(high: int, low: int): byte
    requires 0 <= high < 16 && 0 <= low < 16
  {
    (high * 16 + low) as byte
  }

  /** Both digit cases are accepted; an odd length or any other character is an error. */
  function Decode(s: string): Option<seq<byte>> {
    if |s| % 2 != 0 then None
    else if s == [] then Some([])
    else
      var high := DigitValue(s[|s| - 2]);
      var low := DigitValue(s[|s| - 1]);
      var front := Decode(s[..|s| - 2]);
      if high.Some? && low.Some? && front.Some?
      then Some(front.value + [ByteOf(high.value, low.value)])
      else None
  }

  /** The output buffer grows by the two digits of each byte in turn. */
  method EncodeHex(c: Case, bytes: seq<byte>) returns (output: string)
    ensures output == Encode(c, bytes)
  {
    output := [];
    for i := 0 to |bytes|
      invariant output == Encode(c, bytes[..i])
    {
      assert bytes[..i + 1][..i] == bytes[..i];
      output := output + [Nibble(c, bytes[i] as int / 16)];
      output := output + [Nibble(c, bytes[i] as int % 16)];
    }
    assert bytes[..|bytes|] == bytes;
  }

  lemma DecodeTwo(s: string, high: char, low: char)
    requires Decode(s).Some? && DigitValue(high).Some? && DigitValue(low).Some?
    ensures Decode(s + [high, low]) == Some(Decode(s).value + [ByteOf(DigitValue(high).value, DigitValue(low).value)])
  {
    hide DigitValue, ByteOf;
    var t := s + [high, low];
    assert t[..|t| - 2] == s && t[|t| - 2] == high && t[|t| - 1] == low;
  }

  lemma DigitOfNibble(c: Case, d: int)
    requires 0 <= d < 16
    ensures DigitValue(Nibble(c, d)) == Some(d)
  {
  }

  lemma HalvesOfByte(b: byte)
    ensures ByteOf(b as int / 16, b as int % 16) == b
  {
  }

  lemma NothingDecodes()
    ensures Decode([]) == Some([])
  {
  }

  /** Decoding undoes encoding, in either case. */
  lemma {:induction false} DecodeEncode(c: Case, bytes: seq<byte>)
    ensures Decode(Encode(c, bytes)) == Some(bytes)
  {
    hide Nibble, DigitValue, ByteOf, Decode;
    if bytes != [] {
      var front := bytes[..|bytes| - 1];
      var b := bytes[|bytes| - 1] as int;
      DecodeEncode(c, front);
      DigitOfNibble(c, b / 16);
      DigitOfNibble(c, b % 16);
      DecodeTwo(Encode(c, front), Nibble(c, b / 16), Nibble(c, b % 16));
      HalvesOfByte(bytes[|bytes| - 1]);
      assert front + [bytes[|bytes| - 1]] == bytes;
    } else {
      NothingDecodes();
    }
  }

  /** Encoded text is hexadecimal digits only, so it needs no quoting anywhere. */
  lemma {:induction false} EncodedIsHex(c: Case, bytes: seq<byte>)
    ensures forall i | 0 <= i < |Encode(c, bytes)| :: DigitValue(Encode(c, bytes)[i]).Some?
  {
    if bytes != [] {
      EncodedIsHex(c, bytes[..|bytes| - 1]);
    }
  }

  const LOWER_DIGITS := "0123456789abcdef"
  const UPPER_DIGITS := "0123456789ABCDEF"

  lemma NibbleIsDigit(c: Case, d: int)
    requires 0 <= d < 16
    ensures Nibble(c, d) == if c.Lower? then LOWER_DIGITS[d] else UPPER_DIGITS[d]
  {
  }

  /** Each byte gives two entries of the alphabet, the high half first. */
  lemma {:induction false} EncodedDigits(c: Case, bytes: seq<byte>, i: nat)
    requires i < |bytes|
    ensures var digits := if c.Lower? then LOWER_DIGITS else UPPER_DIGITS;
      && Encode(c, bytes)[2 * i] == digits[bytes[i] as int / 16]
      && Encode(c, bytes)[2 * i + 1] == digits[bytes[i] as int % 16]
  {
    hide Nibble;
    if i + 1 < |bytes| {
      EncodedDigits(c, bytes[..|bytes| - 1], i);
    } else {
      NibbleIsDigit(c, bytes[i] as int / 16);
      NibbleIsDigit(c, bytes[i] as int % 16);
    }
  }

  lemma {:induction false} LowerHasNoCapitals(bytes: seq<byte>)
    ensures forall c <- Encode(Lower, bytes) :: !('A' <= c <= 'Z')
  {
    if bytes != [] {
      LowerHasNoCapitals(bytes[..|bytes| - 1]);
    }
  }
}
