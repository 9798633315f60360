/** Decimal numerals as Rust's formatter writes them and its parser reads them. */
module Decimal {
  import opened Wrappers

  predicate IsDigit(c: char) {
    '0' <= c <= '9'
  }

  predicate AllDigits(s: string) {
    forall i | 0 <= i < |s| :: IsDigit(s[i])
  }

  function Digit(d: nat): (c: char)
    requires d < 10
    ensures IsDigit(c) && c as int - '0' as int == d
  {
    ('0' as int + d) as char
  }

  /** The shortest numeral of `n`. */
  function Numeral(n: nat): (s: string)
    ensures s != [] && AllDigits(s)
  {
    if n < 10 then [Digit(n)] else Numeral(n / 10) + [Digit(n % 10)]
  }

  /** `{:0width}`: zeros on the left up to `width`, never truncated. */
  function Padded(width: nat, s: string): (r: string)
    ensures |s| <= |r| && |r| == if |s| < width then width else |s|
    ensures AllDigits(s) ==> AllDigits(r)
    decreases width - |s|
  {
    if |s| >= width then s else Padded(width, "0" + s)
  }

  /** What a numeral denotes; leading zeros do not matter. */
  function Value(s: string): nat
    requires AllDigits(s)
  {
    if s == [] then 0
    else 10 * Value(s[..|s| - 1]) + (s[|s| - 1] as int - '0' as int)
  }

  /** `str::parse` for an unsigned type: an optional `+`, then digits, at most `max`. */
  function ParseUnsigned(s: string, max: nat): Option<nat> {
    var digits := if s != [] && s[0] == '+' then s[1..] else s;
    if digits != [] && AllDigits(digits) && Value(digits) <= max then Some(Value(digits)) else None
  }

  lemma {:induction false} ValueOfNumeral(n: nat)
    ensures Value(Numeral(n)) == n
  {
    if n >= 10 {
      var s := Numeral(n);
      assert s[..|s| - 1] == Numeral(n / 10);
      ValueOfNumeral(n / 10);
    }
  }

  lemma {:induction false} LeadingZero(s: string)
    requires AllDigits(s)
    ensures Value("0" + s) == Value(s)
  {
    if s != [] {
      assert ("0" + s)[..|s|] == "0" + s[..|s| - 1];
      LeadingZero(s[..|s| - 1]);
    } else {
      assert "0"[..0] == [];
    }
  }

  lemma {:induction false} ValueOfPadded(width: nat, s: string)
    requires AllDigits(s)
    ensures Value(Padded(width, s)) == Value(s)
    decreases width - |s|
  {
    if |s| < width {
      ValueOfPadded(width, "0" + s);
      LeadingZero(s);
    }
  }

  /** Printing a number with any padding and parsing it back gives the number. */
  lemma ParsePaddedNumeral(width: nat, n: nat, max: nat)
    requires n <= max
    ensures ParseUnsigned(Padded(width, Numeral(n)), max) == Some(n)
  {
    ValueOfNumeral(n);
    ValueOfPadded(width, Numeral(n));
    var s := Padded(width, Numeral(n));
    assert AllDigits(s) && s[0] != '+';
  }

  /** No digit string of the same value is shorter. */
  lemma {:induction false} NumeralIsShortest(n: nat, s: string)
    requires s != [] && AllDigits(s) && Value(s) == n
    ensures |Numeral(n)| <= |s|
  {
    if n >= 10 {
      var front := s[..|s| - 1];
      assert Value(front) == n / 10;
      NumeralIsShortest(n / 10, front);
    }
  }
}
