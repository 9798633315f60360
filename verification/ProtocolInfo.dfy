/** PROTOCOLINFO (section 3.21 of the Tor control-spec) from the bytes of a reply to the parsed record. */
module ProtocolInfo {
  import opened Wrappers
  import opened Text
  import opened Codec
  import opened Framing
  import opened ControlWords

  datatype AuthMethod = SafeCookie | Cookie | HashedPassword | Null | Unknown(name: string)

  datatype Info = Info(methods: seq<AuthMethod>, cookieFile: Option<string>, torVersion: Option<string>)

  function ParseMethod(value: string): AuthMethod {
    if value == "SAFECOOKIE" then SafeCookie
    else if value == "COOKIE" then Cookie
    else if value == "HASHEDPASSWORD" then HashedPassword
    else if value == "NULL" then Null
    else Unknown(value)
  }

  function MethodName(m: AuthMethod): string {
    match m
    case SafeCookie => "SAFECOOKIE"
    case Cookie => "COOKIE"
    case HashedPassword => "HASHEDPASSWORD"
    case Null => "NULL"
    case Unknown(name) => name
  }

  /** No two names parse to the same method. */
  lemma MethodNameInverts(value: string)
    ensures MethodName(ParseMethod(value)) == value
  {
  }

  /** The four names are the four methods; any other is kept as it is. */
  predicate Means(m: AuthMethod, name: string) {
    && (m == SafeCookie <==> name == "SAFECOOKIE")
    && (m == Cookie <==> name == "COOKIE")
    && (m == HashedPassword <==> name == "HASHEDPASSWORD")
    && (m == Null <==> name == "NULL")
    && (m.Unknown? ==> m.name == name)
  }

  ghost predicate AllMean(methods: seq<AuthMethod>, names: seq<string>) {
    |methods| == |names| && forall i | 0 <= i < |names| :: Means(methods[i], names[i])
  }

  lemma MethodMeans(name: string)
    ensures Means(ParseMethod(name), name)
  {
    assert "SAFECOOKIE"[0] == 'S' && "COOKIE"[0] == 'C' && "HASHEDPASSWORD"[0] == 'H' && "NULL"[0] == 'N';
  }

  lemma MethodsMean(names: seq<string>)
    ensures AllMean(ParseMethods(names), names)
  {
    hide Means, ParseMethod;
    forall i | 0 <= i < |names|
      ensures Means(ParseMethods(names)[i], names[i])
    {
      MethodMeans(names[i]);
    }
  }

  function ParseMethods(values: seq<string>): (r: seq<AuthMethod>)
    ensures |r| == |values|
  {
    seq(|values|, i requires 0 <= i < |values| => ParseMethod(values[i]))
  }

  // ---- The parser ---------------------------------------------------------------------------

  function AbsorbAuth(info: Info, words: seq<string>): Info {
    var methods := Field(words, "METHODS");
    Info(if methods.Some? then ParseMethods(Split(methods.value, ',')) else info.methods,
         Field(words, "COOKIEFILE"), info.torVersion)
  }

  /** The effect of one line of the reply. */
  function Absorb(info: Info, l: ControlLine): Info {
    if !l.Plain? then info
    else
      var words := Words(l.text);
      if words == [] then info
      else if words[0] == "AUTH" then AbsorbAuth(info, words)
      else if words[0] == "VERSION" then info.(torVersion := Field(words, "Tor"))
      else info
  }

  function AbsorbAll(info: Info, lines: seq<ControlLine>): Info
    decreases |lines|
  {
    if lines == [] then info else AbsorbAll(Absorb(info, lines[0]), lines[1..])
  }

  const BLANK := Info([], None, None)

  /** `None` stands for the error "did not contain AUTH methods". */
  function InfoOf(r: ControlReply): Option<Info> {
    var info := AbsorbAll(BLANK, r.lines);
    if info.methods == [] then None else Some(info)
  }

  method ParseProtocolInfo(r: ControlReply) returns (info: Option<Info>)
    ensures info == InfoOf(r)
  {
    var authMethods: seq<AuthMethod> := [];
    var cookieFile: Option<string> := None;
    var torVersion: Option<string> := None;
    for i := 0 to |r.lines|
      invariant AbsorbAll(Info(authMethods, cookieFile, torVersion), r.lines[i..]) == AbsorbAll(BLANK, r.lines)
    {
      assert r.lines[i..][1..] == r.lines[i + 1..];
      var l := r.lines[i];
      if !l.Plain? {
        continue;
      }
      var words := ControlWordsOf(l.text);
      if words != [] && words[0] == "AUTH" {
        var methods := Field(words, "METHODS");
        if methods.Some? {
          authMethods := ParseMethods(Split(methods.value, ','));
        }
        cookieFile := Field(words, "COOKIEFILE");
      } else if words != [] && words[0] == "VERSION" {
        torVersion := Field(words, "Tor");
      }
    }
    if authMethods == [] {
      return None;
    }
    return Some(Info(authMethods, cookieFile, torVersion));
  }

  // ---- What the record is of any reply ------------------------------------------------------

  /** The words of the last line of text that begins with that word. */
  function LastWords(lines: seq<ControlLine>, first: string): Option<seq<string>> {
    if lines == [] then None
    else
      var l := lines[|lines| - 1];
      if l.Plain? && Words(l.text) != [] && Words(l.text)[0] == first then Some(Words(l.text))
      else LastWords(lines[..|lines| - 1], first)
  }

  /** The METHODS of the last AUTH line that has any. */
  function LastMethods(lines: seq<ControlLine>): Option<string> {
    if lines == [] then None
    else
      var l := lines[|lines| - 1];
      if l.Plain? && Words(l.text) != [] && Words(l.text)[0] == "AUTH" && Field(Words(l.text), "METHODS").Some?
      then Field(Words(l.text), "METHODS")
      else LastMethods(lines[..|lines| - 1])
  }

  lemma {:induction false} AbsorbLast(info: Info, lines: seq<ControlLine>)
    requires lines != []
    ensures AbsorbAll(info, lines) == Absorb(AbsorbAll(info, lines[..|lines| - 1]), lines[|lines| - 1])
    decreases |lines|
  {
    hide Absorb;
    if |lines| > 1 {
      AbsorbLast(Absorb(info, lines[0]), lines[1..]);
      assert lines[1..][..|lines| - 2] == lines[..|lines| - 1][1..];
    }
  }

  lemma {:induction false} AbsorbedAll(lines: seq<ControlLine>)
    ensures var info := AbsorbAll(BLANK, lines);
      && (LastMethods(lines).None? ==> info.methods == [])
      && (LastMethods(lines).Some? ==> AllMean(info.methods, Split(LastMethods(lines).value, ',')))
      && info.cookieFile == (match LastWords(lines, "AUTH") case None => None case Some(w) => Field(w, "COOKIEFILE"))
      && info.torVersion == (match LastWords(lines, "VERSION") case None => None case Some(w) => Field(w, "Tor"))
    decreases |lines|
  {
    hide AbsorbAll, Words, Field, Split, AllMean, ParseMethods;
    if lines == [] {
      NothingAbsorbed();
    } else {
      AbsorbedAll(lines[..|lines| - 1]);
      AbsorbLast(BLANK, lines);
      var l := lines[|lines| - 1];
      assert "AUTH"[0] == 'A' && "VERSION"[0] == 'V';
      if l.Plain? && Words(l.text) != [] && Field(Words(l.text), "METHODS").Some? {
        MethodsMean(Split(Field(Words(l.text), "METHODS").value, ','));
      }
    }
  }

  lemma NothingAbsorbed()
    ensures AbsorbAll(BLANK, []) == Info([], None, None)
  {
  }

  /**
   The record of any reply: the methods named by the last AUTH line that names any, the cookie file of
   the last AUTH line and the version of the last VERSION line; and no record without methods.
   */
  lemma InfoOfAnyReply(r: ControlReply)
    ensures InfoOf(r).None? <==> LastMethods(r.lines).None?
    ensures InfoOf(r).Some? ==>
              && var info := InfoOf(r).value;
              && AllMean(info.methods, Split(LastMethods(r.lines).value, ','))
              && info.cookieFile
                 == (match LastWords(r.lines, "AUTH") case None => None case Some(w) => Field(w, "COOKIEFILE"))
              && info.torVersion
                 == (match LastWords(r.lines, "VERSION") case None => None case Some(w) => Field(w, "Tor"))
  {
    hide AbsorbAll, Words, Field, Split, Means;
    AbsorbedAll(r.lines);
  }

  // ---- Which lines matter -------------------------------------------------------------------

  predicate IsRelevant(l: ControlLine) {
    l.Plain? && Words(l.text) != [] && (Words(l.text)[0] == "AUTH" || Words(l.text)[0] == "VERSION")
  }

  function Relevant(lines: seq<ControlLine>): seq<ControlLine> {
    if lines == [] then []
    else if IsRelevant(lines[0]) then [lines[0]] + Relevant(lines[1..])
    else Relevant(lines[1..])
  }

  /** Only AUTH and VERSION lines matter, wherever the others stand. */
  lemma {:induction false} OthersAreIgnored(info: Info, lines: seq<ControlLine>)
    ensures AbsorbAll(info, lines) == AbsorbAll(info, Relevant(lines))
    decreases |lines|
  {
    if lines != [] {
      OthersAreIgnored(Absorb(info, lines[0]), lines[1..]);
    }
  }

  predicate GivesMethods(l: ControlLine) {
    l.Plain? && Words(l.text) != [] && Words(l.text)[0] == "AUTH" && Field(Words(l.text), "METHODS").Some?
  }

  lemma {:induction false} MethodsComeFromAuth(info: Info, lines: seq<ControlLine>)
    ensures AbsorbAll(info, lines).methods == [] <==> info.methods == [] && forall l <- lines :: !GivesMethods(l)
    decreases |lines|
  {
    if lines != [] {
      MethodsComeFromAuth(Absorb(info, lines[0]), lines[1..]);
      assert lines[0] in lines;
      assert forall l <- lines :: l == lines[0] || l in lines[1..];
      assert forall l <- lines[1..] :: l in lines;
    }
  }

  /** Parsing fails exactly when no AUTH line has a METHODS field. */
  lemma InfoNeedsMethods(r: ControlReply)
    ensures InfoOf(r).None? <==> forall l <- r.lines :: !GivesMethods(l)
  {
    MethodsComeFromAuth(BLANK, r.lines);
  }

  // ---- The printer --------------------------------------------------------------------------

  /** What a reply announces: the names of the methods, the cookie file and the version of Tor. */
  datatype Announced = Announced(names: seq<string>, cookieFile: Option<string>, torVersion: Option<string>)

  function Parsed(a: Announced): Info {
    Info(ParseMethods(a.names), a.cookieFile, a.torVersion)
  }

  /** The record says what was announced, name by name. */
  ghost predicate Records(info: Info, a: Announced) {
    AllMean(info.methods, a.names) && info.cookieFile == a.cookieFile && info.torVersion == a.torVersion
  }

  function MethodsText(names: seq<string>): string {
    "METHODS=" + Join(names, ',')
  }

  function AuthTexts(a: Announced): seq<string> {
    ["AUTH", MethodsText(a.names)]
    + if a.cookieFile.Some? then [PairText(Pair("COOKIEFILE", a.cookieFile.value))] else []
  }

  function VersionTexts(version: string): seq<string> {
    ["VERSION", PairText(Pair("Tor", version))]
  }

  /** The AUTH line and, when there is a version, the VERSION line. */
  function InfoLines(a: Announced): seq<ControlLine> {
    [Plain(Spaced(AuthTexts(a)))]
    + if a.torVersion.Some? then [Plain(Spaced(VersionTexts(a.torVersion.value)))] else []
  }

  function InfoReply(a: Announced): ControlReply {
    ControlReply(250, [Plain("PROTOCOLINFO 1")] + InfoLines(a) + [Plain("OK")])
  }

  predicate NamesOk(names: seq<string>) {
    names != [] && forall n <- names :: Bare(n) && ',' !in n
  }

  predicate AnnouncedOk(a: Announced) {
    && NamesOk(a.names)
    && (a.cookieFile.Some? ==> '\n' !in a.cookieFile.value)
    && (a.torVersion.Some? ==> '\n' !in a.torVersion.value)
  }

  // ---- What the printed lines tokenize to ---------------------------------------------------

  lemma {:induction false} JoinIsBare(names: seq<string>)
    requires forall n <- names :: Bare(n)
    ensures Bare(Join(names, ','))
  {
    if |names| > 1 {
      JoinIsBare(names[1..]);
      assert names[0] in names;
    }
  }

  lemma MethodsTextIsBare(names: seq<string>)
    requires NamesOk(names)
    ensures Bare(MethodsText(names))
  {
    hide Join;
    JoinIsBare(names);
  }

  lemma KeywordsAreBare()
    ensures Bare("AUTH") && Bare("VERSION") && NameOk("COOKIEFILE") && NameOk("Tor")
  {
  }

  lemma BareIsTight(s: string)
    requires Bare(s) && s != []
    ensures Denotes(s, s) && Tight(s)
  {
    BareDenotesItself(s);
    assert s[0] in s && s[|s| - 1] in s;
  }

  function AuthWords(a: Announced): seq<string> {
    ["AUTH", MethodsText(a.names)]
    + if a.cookieFile.Some? then [PairWord(Pair("COOKIEFILE", a.cookieFile.value))] else []
  }

  lemma AuthTokens(a: Announced)
    requires NamesOk(a.names)
    ensures Words(Spaced(AuthTexts(a))) == AuthWords(a)
  {
    hide Denotes, Words, Tight, Bare, NameOk, PairText, PairWord, NonEmpty, Spaced;
    KeywordsAreBare();
    MethodsTextIsBare(a.names);
    BareIsTight("AUTH");
    BareIsTight(MethodsText(a.names));
    if a.cookieFile.Some? {
      PairDenotes(Pair("COOKIEFILE", a.cookieFile.value));
      PairWordIsSome(Pair("COOKIEFILE", a.cookieFile.value));
    }
    SpacedDenotes(AuthTexts(a), AuthWords(a));
    NothingDropped(AuthWords(a));
  }

  lemma PairWordIsSome(p: Pair)
    ensures PairWord(p) != []
  {
  }

  lemma VersionTokens(version: string)
    ensures Words(Spaced(VersionTexts(version))) == ["VERSION", PairWord(Pair("Tor", version))]
  {
    hide Denotes, Words, Tight, Bare, NameOk, NonEmpty, Spaced;
    KeywordsAreBare();
    BareIsTight("VERSION");
    PairDenotes(Pair("Tor", version));
    SpacedDenotes(VersionTexts(version), ["VERSION", PairWord(Pair("Tor", version))]);
    NothingDropped(["VERSION", PairWord(Pair("Tor", version))]);
  }

  lemma {:induction false} FieldAt(words: seq<string>, i: nat, name: string)
    requires i < |words| && FieldOf(words[i], name).Some?
    requires forall j | 0 <= j < i :: FieldOf(words[j], name).None?
    ensures Field(words, name) == FieldOf(words[i], name)
  {
    if i > 0 {
      FieldAt(words[1..], i - 1, name);
    }
  }

  lemma {:induction false} FieldMissing(words: seq<string>, name: string)
    requires forall j | 0 <= j < |words| :: FieldOf(words[j], name).None?
    ensures Field(words, name) == None
  {
    if words != [] {
      FieldMissing(words[1..], name);
    }
  }

  lemma AuthFields(a: Announced)
    ensures Field(AuthWords(a), "METHODS") == Some(Join(a.names, ','))
    ensures Field(AuthWords(a), "COOKIEFILE") == a.cookieFile
  {
    hide Join;
    var words := AuthWords(a);
    assert FieldOf(words[0], "METHODS").None? && FieldOf(words[0], "COOKIEFILE").None?;
    assert MethodsText(a.names)[|"METHODS"| + 1..] == Join(a.names, ',');
    FieldAt(words, 1, "METHODS");
    assert MethodsText(a.names)[0] == 'M' && "COOKIEFILE="[0] == 'C';
    assert FieldOf(words[1], "COOKIEFILE").None?;
    if a.cookieFile.Some? {
      FieldOfPair(Pair("COOKIEFILE", a.cookieFile.value), "COOKIEFILE");
      FieldAt(words, 2, "COOKIEFILE");
    } else {
      FieldMissing(words, "COOKIEFILE");
    }
  }

  lemma VersionField(version: string)
    ensures Field(["VERSION", PairWord(Pair("Tor", version))], "Tor") == Some(version)
  {
    var words := ["VERSION", PairWord(Pair("Tor", version))];
    FieldOfPair(Pair("Tor", version), "Tor");
    assert "VERSION"[0] == 'V' && "Tor="[0] == 'T';
    FieldAt(words, 1, "Tor");
  }

  lemma InfoLinesAbsorbed(a: Announced)
    requires NamesOk(a.names)
    ensures AbsorbAll(BLANK, InfoLines(a)) == Parsed(a)
  {
    hide Field, Words, Spaced, Split, Join;
    AuthTokens(a);
    AuthFields(a);
    SplitJoin(a.names, ',');
    var lines := InfoLines(a);
    if a.torVersion.Some? {
      VersionTokens(a.torVersion.value);
      VersionField(a.torVersion.value);
      var version := Plain(Spaced(VersionTexts(a.torVersion.value)));
      assert lines[1..] == [version];
      assert AbsorbAll(Absorb(BLANK, lines[0]), [version]) == Absorb(Absorb(BLANK, lines[0]), version);
    } else {
      assert lines[1..] == [];
    }
  }

  /**
   Any reply whose AUTH and VERSION lines announce `a`, among whatever other lines, once printed,
   read back from the stream and parsed gives the announced record and leaves exactly the tail.
   */
  lemma InfoRoundTrip(a: Announced, r: ControlReply, tail: string)
    requires NamesOk(a.names) && ReplyOk(r) && Relevant(r.lines) == InfoLines(a)
    ensures ReadReply(PrintReply(r) + tail) == (Ok(Some(r)), tail)
    ensures InfoOf(r).Some? && Records(InfoOf(r).value, a)
  {
    hide ReadReply, PrintReply, ReplyOk, Means, ParseMethod;
    MethodsMean(a.names);
    ReplyRoundTrip(r, tail);
    OthersAreIgnored(BLANK, r.lines);
    InfoLinesAbsorbed(a);
  }

  // ---- The canonical reply ------------------------------------------------------------------

  lemma {:induction false} EscapeKeepsLine(s: string)
    requires '\n' !in s
    ensures '\n' !in Escape(s)
  {
    if s != [] {
      EscapeKeepsLine(s[1..]);
    }
  }

  lemma {:induction false} SpacedIsOneLine(texts: seq<string>)
    requires forall t <- texts :: '\n' !in t && Tight(t)
    ensures '\n' !in Spaced(texts)
    ensures texts != [] ==> Tight(Spaced(texts))
  {
    if |texts| == 1 {
      assert texts[0] in texts;
    } else if texts != [] {
      assert texts[0] in texts;
      SpacedIsOneLine(texts[1..]);
    }
  }

  /** A line whose first `=` comes after a space is not a key and a value. */
  lemma SpacedIsPlain(first: string, rest: string)
    requires '=' !in first && '\n' !in first + " " + rest && Tight(first + " " + rest)
    ensures LineOk(Plain(first + " " + rest))
  {
    var text := first + " " + rest;
    var i := IndexOf(text, '=');
    assert text[|first|] == ' ';
    assert forall j | 0 <= j < |first| :: text[j] == first[j];
    if i < |text| {
      assert i > |first|;
      assert text[..i][|first|] == ' ' && ' ' in text[..i];
      assert !IsKey(text[..i]);
    }
  }

  lemma BareIsOneLine(s: string)
    requires Bare(s)
    ensures '\n' !in s
  {
  }

  lemma QuotedPairIsOneLine(p: Pair)
    requires NameOk(p.name) && '\n' !in p.value
    ensures '\n' !in PairText(p) && Tight(PairText(p))
  {
    hide Denotes;
    BareIsOneLine(p.name);
    EscapeKeepsLine(p.value);
    PairDenotes(p);
  }

  lemma AuthTextsAreOneLine(a: Announced)
    requires AnnouncedOk(a)
    ensures forall t <- AuthTexts(a) :: '\n' !in t && Tight(t)
  {
    hide Denotes, Tight, Bare, NameOk, PairText;
    KeywordsAreBare();
    MethodsTextIsBare(a.names);
    BareIsTight("AUTH");
    BareIsTight(MethodsText(a.names));
    BareIsOneLine("AUTH");
    BareIsOneLine(MethodsText(a.names));
    if a.cookieFile.Some? {
      QuotedPairIsOneLine(Pair("COOKIEFILE", a.cookieFile.value));
    }
  }

  lemma AuthLineOk(a: Announced)
    requires AnnouncedOk(a)
    ensures LineOk(Plain(Spaced(AuthTexts(a))))
  {
    hide LineOk, Join, Tight, MethodsText, PairText;
    var texts := AuthTexts(a);
    AuthTextsAreOneLine(a);
    SpacedIsOneLine(texts);
    SpacedStarts(texts);
    SpacedIsPlain("AUTH", Spaced(texts[1..]));
  }

  lemma SpacedStarts(texts: seq<string>)
    requires |texts| > 1
    ensures Spaced(texts) == texts[0] + " " + Spaced(texts[1..])
  {
  }

  lemma VersionLineOk(version: string)
    requires '\n' !in version
    ensures LineOk(Plain(Spaced(VersionTexts(version))))
  {
    hide LineOk, Denotes, Tight, Bare, NameOk, PairText, Join;
    KeywordsAreBare();
    var texts := VersionTexts(version);
    BareIsTight("VERSION");
    BareIsOneLine("VERSION");
    QuotedPairIsOneLine(Pair("Tor", version));
    SpacedIsOneLine(texts);
    SpacedStarts(texts);
    SpacedIsPlain("VERSION", Spaced(texts[1..]));
  }

  lemma OtherLines()
    ensures Words("PROTOCOLINFO 1") == ["PROTOCOLINFO", "1"] && Words("OK") == ["OK"]
  {
    BareIsTight("PROTOCOLINFO");
    BareIsTight("1");
    BareIsTight("OK");
    var texts := ["PROTOCOLINFO", "1"];
    assert Spaced(texts) == "PROTOCOLINFO 1" && Spaced(["OK"]) == "OK";
    SpacedDenotes(texts, texts);
    SpacedDenotes(["OK"], ["OK"]);
    NothingDropped(texts);
    NothingDropped(["OK"]);
  }

  lemma CanonicalReplyOk(a: Announced)
    requires AnnouncedOk(a)
    ensures ReplyOk(InfoReply(a)) && Relevant(InfoReply(a).lines) == InfoLines(a)
  {
    hide Words, Spaced, LineOk;
    OtherLines();
    AuthLineOk(a);
    AuthTokens(a);
    var lines := InfoReply(a).lines;
    assert LineOk(Plain("PROTOCOLINFO 1")) && LineOk(Plain("OK")) by {
      ShortLinesOk();
    }
    if a.torVersion.Some? {
      VersionLineOk(a.torVersion.value);
      VersionTokens(a.torVersion.value);
    }
    RelevantOf(lines, InfoLines(a));
  }

  lemma NoEqualsIsPlain(text: string)
    requires '=' !in text && OneLine(text)
    ensures LineOk(Plain(text))
  {
  }

  lemma ShortLinesOk()
    ensures LineOk(Plain("PROTOCOLINFO 1")) && LineOk(Plain("OK"))
  {
    hide LineOk;
    NoEqualsIsPlain("PROTOCOLINFO 1");
    NoEqualsIsPlain("OK");
  }

  lemma {:induction false} AllRelevant(lines: seq<ControlLine>, last: ControlLine)
    requires (forall l <- lines :: IsRelevant(l)) && !IsRelevant(last)
    ensures Relevant(lines + [last]) == lines
  {
    if lines == [] {
      assert [last][1..] == [];
    } else {
      AllRelevant(lines[1..], last);
      assert (lines + [last])[1..] == lines[1..] + [last];
    }
  }

  lemma RelevantOf(lines: seq<ControlLine>, middle: seq<ControlLine>)
    requires |lines| >= 2 && lines == [lines[0]] + middle + [lines[|lines| - 1]]
    requires (forall l <- middle :: IsRelevant(l)) && !IsRelevant(lines[0]) && !IsRelevant(lines[|lines| - 1])
    ensures Relevant(lines) == middle
  {
    AllRelevant(middle, lines[|lines| - 1]);
    assert lines[1..] == middle + [lines[|lines| - 1]];
  }

  /**
   Announcing any method names free of commas, whitespace and quotes, with any one-line cookie
   path and version, comes back as the same record.
   */
  lemma CanonicalInfoRoundTrip(a: Announced, tail: string)
    requires AnnouncedOk(a)
    ensures ReplyOk(InfoReply(a))
    ensures ReadReply(PrintReply(InfoReply(a)) + tail) == (Ok(Some(InfoReply(a))), tail)
    ensures InfoOf(InfoReply(a)).Some? && Records(InfoOf(InfoReply(a)).value, a)
  {
    CanonicalReplyOk(a);
    InfoRoundTrip(a, InfoReply(a), tail);
  }
}
