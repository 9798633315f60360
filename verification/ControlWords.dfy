/** The quoted-word tokenizer of the control client and its printer (src/tor/controller/client.rs:242-274). */
module ControlWords {
  import opened Wrappers
  import opened Text

  /** The tokenizer's loop: characters to come, words finished, the word under way, inside quotes or not. */
  function Scan(chars: string, words: seq<string>, current: string, quoted: bool): seq<string>
    decreases |chars|
  {
    if chars == [] then (if current == [] then words else words + [current])
    else if chars[0] == '"' then Scan(chars[1..], words, current, !quoted)
    else if chars[0] == '\\' && quoted then
      if |chars| > 1 then Scan(chars[2..], words, current + [chars[1]], quoted)
      else Scan([], words, current, quoted)
    else if IsWhitespace(chars[0]) && !quoted then
      Scan(chars[1..], if current == [] then words else words + [current], [], quoted)
    else Scan(chars[1..], words, current + [chars[0]], quoted)
  }

  function Words(input: string): seq<string> {
    Scan(Trim(input), [], [], false)
  }

  method ControlWordsOf(input: string) returns (words: seq<string>)
    ensures words == Words(input)
  {
    words := [];
    var current: string := [];
    var quoted := false;
    var chars := Trim(input);
    var i := 0;
    while i < |chars|
      invariant i <= |chars|
      invariant Scan(chars[i..], words, current, quoted) == Words(input)
      decreases |chars| - i
    {
      var c := chars[i];
      assert chars[i..][1..] == chars[i + 1..];
      i := i + 1;
      if c == '"' {
        quoted := !quoted;
      } else if c == '\\' && quoted {
        if i < |chars| {
          assert chars[i - 1..][2..] == chars[i + 1..];
          current := current + [chars[i]];
          i := i + 1;
        }
      } else if IsWhitespace(c) && !quoted {
        if current != [] {
          words := words + [current];
          current := [];
        }
      } else {
        current := current + [c];
      }
    }
    if current != [] {
      words := words + [current];
    }
  }

  /** `strip_prefix(name)` and then `strip_prefix('=')`. */
  function FieldOf(word: string, name: string): Option<string> {
    if StartsWith(word, name + "=") then Some(word[|name| + 1..]) else None
  }

  /** The value of the first word of the form `name=value`. */
  function Field(words: seq<string>, name: string): Option<string> {
    if words == [] then None
    else if FieldOf(words[0], name).Some? then FieldOf(words[0], name)
    else Field(words[1..], name)
  }

  // ---- The printer --------------------------------------------------------------------------

  function Escape(s: string): string {
    if s == [] then []
    else (if s[0] == '"' || s[0] == '\\' then ['\\', s[0]] else [s[0]]) + Escape(s[1..])
  }

  /** A QuotedString (section 2.1.1 of the Tor control-spec). */
  function Quote(s: string): string {
    "\"" + Escape(s) + "\""
  }

  function Spaced(texts: seq<string>): string {
    Join(texts, ' ')
  }

  // ---- What a piece of text denotes ---------------------------------------------------------

  /** Outside quotes, scanning `text` adds exactly `word` to the word under way. */
  ghost predicate Denotes(text: string, word: string) {
    forall words: seq<string>, current: string, rest: string ::
      Scan(text + rest, words, current, false) == Scan(rest, words, current + word, false)
  }

  /** Characters that stand for themselves outside quotes. */
  predicate Bare(s: string) {
    forall c <- s :: c != '"' && !IsWhitespace(c)
  }

  lemma {:induction false} ScanBare(s: string, words: seq<string>, current: string, rest: string)
    requires Bare(s)
    ensures Scan(s + rest, words, current, false) == Scan(rest, words, current + s, false)
    decreases |s|
  {
    if s == [] {
      assert s + rest == rest && current + s == current;
    } else {
      assert (s + rest)[1..] == s[1..] + rest;
      assert s[0] in s;
      ScanBare(s[1..], words, current + [s[0]], rest);
      assert current + [s[0]] + s[1..] == current + s;
    }
  }

  lemma BareDenotesItself(s: string)
    requires Bare(s)
    ensures Denotes(s, s)
  {
    forall words: seq<string>, current: string, rest: string
      ensures Scan(s + rest, words, current, false) == Scan(rest, words, current + s, false)
    {
      ScanBare(s, words, current, rest);
    }
  }

  lemma {:induction false} ScanEscaped(s: string, words: seq<string>, current: string, rest: string)
    ensures Scan(Escape(s) + "\"" + rest, words, current, true) == Scan(rest, words, current + s, false)
    decreases |s|
  {
    var chars := Escape(s) + "\"" + rest;
    if s == [] {
      assert chars[1..] == rest && current + s == current;
    } else {
      ScanEscaped(s[1..], words, current + [s[0]], rest);
      assert current + [s[0]] + s[1..] == current + s;
      var tail := Escape(s[1..]) + "\"" + rest;
      if s[0] == '"' || s[0] == '\\' {
        assert chars == ['\\', s[0]] + tail;
      } else {
        assert chars == [s[0]] + tail;
      }
    }
  }

  lemma QuoteDenotes(s: string)
    ensures Denotes(Quote(s), s)
  {
    forall words: seq<string>, current: string, rest: string
      ensures Scan(Quote(s) + rest, words, current, false) == Scan(rest, words, current + s, false)
    {
      assert (Quote(s) + rest)[1..] == Escape(s) + "\"" + rest;
      ScanEscaped(s, words, current, rest);
    }
  }

  lemma DenotesTogether(text: string, word: string, text': string, word': string)
    requires Denotes(text, word) && Denotes(text', word')
    ensures Denotes(text + text', word + word')
  {
    forall words: seq<string>, current: string, rest: string
      ensures Scan(text + text' + rest, words, current, false) == Scan(rest, words, current + (word + word'), false)
    {
      assert text + text' + rest == text + (text' + rest);
      assert current + (word + word') == current + word + word';
    }
  }

  /** The words of a list that are not empty. */
  function NonEmpty(words: seq<string>): (r: seq<string>)
    ensures |r| <= |words|
  {
    if words == [] then []
    else if words[0] == [] then NonEmpty(words[1..])
    else [words[0]] + NonEmpty(words[1..])
  }

  lemma {:induction false} NothingDropped(words: seq<string>)
    ensures NonEmpty(words) == words <==> forall w <- words :: w != []
  {
    if words != [] {
      NothingDropped(words[1..]);
      assert words == [words[0]] + words[1..];
      assert words[0] != [] ==> NonEmpty(words)[1..] == NonEmpty(words[1..]);
      assert words[0] in words;
      assert forall w <- words :: w == words[0] || w in words[1..];
      assert forall w <- words[1..] :: w in words;
    }
  }

  ghost predicate AllDenote(texts: seq<string>, words: seq<string>) {
    |texts| == |words| && forall i | 0 <= i < |texts| :: Denotes(texts[i], words[i])
  }

  lemma {:induction false} ScanSpaced(texts: seq<string>, words: seq<string>, before: seq<string>)
    requires AllDenote(texts, words)
    ensures Scan(Spaced(texts), before, [], false) == before + NonEmpty(words)
    decreases |texts|
  {
    if texts == [] {
    } else if |texts| == 1 {
      assert texts[0] + [] == texts[0] && [] + words[0] == words[0];
      assert Scan(texts[0] + [], before, [], false) == Scan([], before, [] + words[0], false);
      assert NonEmpty(words[1..]) == [];
    } else {
      var rest := " " + Spaced(texts[1..]);
      assert Spaced(texts) == texts[0] + rest;
      assert Scan(texts[0] + rest, before, [], false) == Scan(rest, before, [] + words[0], false);
      assert rest[1..] == Spaced(texts[1..]);
      ScanSpaced(texts[1..], words[1..], if words[0] == [] then before else before + [words[0]]);
    }
  }

  ghost predicate Tight(text: string) {
    text != [] && !IsWhitespace(text[0]) && !IsWhitespace(text[|text| - 1])
  }

  lemma {:induction false} SpacedIsTight(texts: seq<string>)
    requires texts != [] && forall t <- texts :: Tight(t)
    ensures Tight(Spaced(texts))
  {
    assert Tight(texts[0]);
    if |texts| > 1 {
      SpacedIsTight(texts[1..]);
    }
  }

  /** Texts denoting words, joined by spaces, tokenize to those words but the empty ones. */
  lemma SpacedDenotes(texts: seq<string>, words: seq<string>)
    requires AllDenote(texts, words) && forall t <- texts :: Tight(t)
    ensures Words(Spaced(texts)) == NonEmpty(words)
  {
    if texts != [] {
      SpacedIsTight(texts);
    }
    ScanSpaced(texts, words, []);
  }

  // ---- Any whitespace between words ---------------------------------------------------------

  predicate AllWhite(s: string) {
    forall c <- s :: IsWhitespace(c)
  }

  /** Texts with something between each two of them. */
  function Between(texts: seq<string>, gaps: seq<string>): string
    requires |texts| == |gaps| + 1
  {
    if |texts| == 1 then texts[0] else texts[0] + gaps[0] + Between(texts[1..], gaps[1..])
  }

  lemma {:induction false} ScanWhite(gap: string, rest: string, words: seq<string>, current: string)
    requires AllWhite(gap) && gap != []
    ensures Scan(gap + rest, words, current, false)
         == Scan(rest, if current == [] then words else words + [current], [], false)
    decreases |gap|
  {
    assert gap[0] in gap && gap[0] != '"' && gap[0] != '\\';
    assert (gap + rest)[1..] == gap[1..] + rest;
    if |gap| > 1 {
      ScanWhite(gap[1..], rest, if current == [] then words else words + [current], []);
    } else {
      assert gap[1..] + rest == rest;
    }
  }

  lemma {:induction false} ScanBetween(texts: seq<string>, words: seq<string>, gaps: seq<string>, before: seq<string>)
    requires AllDenote(texts, words) && |texts| == |gaps| + 1 && forall g <- gaps :: AllWhite(g) && g != []
    ensures Scan(Between(texts, gaps), before, [], false) == before + NonEmpty(words)
    decreases |texts|
  {
    hide Scan, IsWhitespace;
    var before' := if words[0] == [] then before else before + [words[0]];
    assert [] + words[0] == words[0];
    if |texts| == 1 {
      assert texts[0] + [] == texts[0];
      assert Scan(texts[0] + [], before, [], false) == Scan([], before, [] + words[0], false);
      ScanNothing(before, words[0]);
      assert NonEmpty(words[1..]) == [];
    } else {
      var more := Between(texts[1..], gaps[1..]);
      assert gaps[0] in gaps;
      assert Between(texts, gaps) == texts[0] + (gaps[0] + more);
      assert Scan(texts[0] + (gaps[0] + more), before, [], false) == Scan(gaps[0] + more, before, [] + words[0], false);
      ScanWhite(gaps[0], more, before, words[0]);
      ScanBetween(texts[1..], words[1..], gaps[1..], before');
    }
  }

  lemma ScanNothing(words: seq<string>, current: string)
    ensures Scan([], words, current, false) == if current == [] then words else words + [current]
  {
  }

  lemma {:induction false} BetweenIsTight(texts: seq<string>, gaps: seq<string>)
    requires |texts| == |gaps| + 1 && forall t <- texts :: Tight(t)
    ensures Tight(Between(texts, gaps))
  {
    hide IsWhitespace;
    assert Tight(texts[0]);
    if |texts| > 1 {
      BetweenIsTight(texts[1..], gaps[1..]);
    }
  }

  lemma {:induction false} TrimFront(white: string, rest: string)
    requires AllWhite(white)
    ensures TrimStart(white + rest) == TrimStart(rest)
  {
    hide IsWhitespace;
    if white == [] {
      assert white + rest == rest;
    } else {
      assert white[0] in white && (white + rest)[1..] == white[1..] + rest;
      TrimFront(white[1..], rest);
    }
  }

  lemma {:induction false} TrimBack(rest: string, white: string)
    requires AllWhite(white)
    ensures TrimEnd(rest + white) == TrimEnd(rest)
  {
    hide IsWhitespace;
    if white == [] {
      assert rest + white == rest;
    } else {
      var last := white[|white| - 1];
      assert last in white && (rest + white)[..|rest + white| - 1] == rest + white[..|white| - 1];
      TrimBack(rest, white[..|white| - 1]);
    }
  }

  /** Words are told apart by whitespace of any kind and length, which may also stand around them. */
  lemma WordsAmongWhitespace(before: string, texts: seq<string>, gaps: seq<string>, after: string, words: seq<string>)
    requires AllDenote(texts, words) && |texts| == |gaps| + 1 && forall t <- texts :: Tight(t)
    requires AllWhite(before) && AllWhite(after) && forall g <- gaps :: AllWhite(g) && g != []
    ensures Words(before + Between(texts, gaps) + after) == NonEmpty(words)
  {
    hide IsWhitespace;
    var core := Between(texts, gaps);
    BetweenIsTight(texts, gaps);
    assert before + core + after == before + (core + after);
    TrimFront(before, core + after);
    assert TrimStart(core + after) == core + after by {
      assert (core + after)[0] == core[0];
    }
    TrimBack(core, after);
    ScanBetween(texts, words, gaps, []);
  }

  /** Words without quotes, whatever whitespace is among them, come back; a backslash is a letter. */
  lemma BareWords(before: string, words: seq<string>, gaps: seq<string>, after: string)
    requires |words| == |gaps| + 1 && forall w <- words :: w != [] && forall c <- w :: c != '"' && !IsWhitespace(c)
    requires AllWhite(before) && AllWhite(after) && forall g <- gaps :: AllWhite(g) && g != []
    ensures Words(before + Between(words, gaps) + after) == words
  {
    hide Words, Scan, IsWhitespace, AllWhite;
    forall i | 0 <= i < |words|
      ensures Denotes(words[i], words[i]) && Tight(words[i])
    {
      assert words[i] in words;
      BareDenotesItself(words[i]);
      assert words[i][0] in words[i] && words[i][|words[i]| - 1] in words[i];
    }
    WordsAmongWhitespace(before, words, gaps, after, words);
    NothingDropped(words);
  }

  // ---- The round trips ----------------------------------------------------------------------

  function Quoted(words: seq<string>): (r: seq<string>)
    ensures |r| == |words|
  {
    seq(|words|, i requires 0 <= i < |words| => Quote(words[i]))
  }

  /**
   Quoting any list of words and tokenizing gives back its non-empty words; so it gives back the
   list exactly when no word is empty.
   */
  lemma QuotedWordsRoundTrip(words: seq<string>)
    ensures Words(Spaced(Quoted(words))) == NonEmpty(words)
    ensures Words(Spaced(Quoted(words))) == words <==> forall w <- words :: w != []
  {
    forall i | 0 <= i < |words|
      ensures Denotes(Quoted(words)[i], words[i])
    {
      QuoteDenotes(words[i]);
    }
    SpacedDenotes(Quoted(words), words);
    NothingDropped(words);
  }

  datatype Pair = Pair(name: string, value: string)

  /** `NAME="value"`. */
  function PairText(p: Pair): string {
    p.name + "=" + Quote(p.value)
  }

  function PairWord(p: Pair): string {
    p.name + "=" + p.value
  }

  predicate NameOk(name: string) {
    Bare(name) && '=' !in name
  }

  lemma PairDenotes(p: Pair)
    requires NameOk(p.name)
    ensures Denotes(PairText(p), PairWord(p)) && Tight(PairText(p))
  {
    BareDenotesItself(p.name + "=");
    QuoteDenotes(p.value);
    DenotesTogether(p.name + "=", p.name + "=", Quote(p.value), p.value);
    if p.name != [] {
      assert p.name[0] in p.name;
    }
  }

  function PairTexts(pairs: seq<Pair>): (r: seq<string>)
    ensures |r| == |pairs|
  {
    seq(|pairs|, i requires 0 <= i < |pairs| => PairText(pairs[i]))
  }

  function PairWords(pairs: seq<Pair>): (r: seq<string>)
    ensures |r| == |pairs|
  {
    seq(|pairs|, i requires 0 <= i < |pairs| => PairWord(pairs[i]))
  }

  /** The value of the first pair with that name. */
  function Lookup(pairs: seq<Pair>, name: string): Option<string> {
    if pairs == [] then None
    else if pairs[0].name == name then Some(pairs[0].value)
    else Lookup(pairs[1..], name)
  }

  /** Two names without `=`, each followed by `=` at the start of one word, are the same. */
  lemma SamePrefix(word: string, a: string, b: string)
    requires '=' !in a && '=' !in b && a + "=" <= word
    ensures b + "=" <= word ==> a == b
  {
    if b + "=" <= word {
      assert (a + "=")[|a|] == word[|a|] == '=' && (b + "=")[|b|] == word[|b|] == '=';
      assert forall j | 0 <= j < |a| :: word[j] == (a + "=")[j] == a[j];
      assert forall j | 0 <= j < |b| :: word[j] == (b + "=")[j] == b[j];
      assert |a| == |b|;
    }
  }

  lemma FieldOfPair(p: Pair, name: string)
    requires '=' !in p.name && '=' !in name
    ensures FieldOf(PairWord(p), name) == if p.name == name then Some(p.value) else None
  {
    var word := PairWord(p);
    if p.name == name {
      assert word[|name| + 1..] == p.value;
    } else {
      SamePrefix(word, p.name, name);
    }
  }

  lemma {:induction false} FieldIsLookup(pairs: seq<Pair>, name: string)
    requires '=' !in name && forall p <- pairs :: '=' !in p.name
    ensures Field(PairWords(pairs), name) == Lookup(pairs, name)
  {
    if pairs != [] {
      FieldOfPair(pairs[0], name);
      FieldIsLookup(pairs[1..], name);
      assert PairWords(pairs)[1..] == PairWords(pairs[1..]);
    }
  }

  /**
   In a printed list of `NAME="value"` pairs, `field` finds the first value of the name, also when
   the value is empty and when one name is a prefix of another.
   */
  lemma FieldFindsFirst(pairs: seq<Pair>, name: string)
    requires '=' !in name && forall p <- pairs :: NameOk(p.name)
    ensures Field(Words(Spaced(PairTexts(pairs))), name) == Lookup(pairs, name)
  {
    forall i | 0 <= i < |pairs|
      ensures Denotes(PairTexts(pairs)[i], PairWords(pairs)[i]) && Tight(PairTexts(pairs)[i])
    {
      assert pairs[i] in pairs;
      PairDenotes(pairs[i]);
    }
    SpacedDenotes(PairTexts(pairs), PairWords(pairs));
    NothingDropped(PairWords(pairs));
    FieldIsLookup(pairs, name);
  }
}
