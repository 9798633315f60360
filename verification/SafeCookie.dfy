/**
 SAFECOOKIE authentication (section 3.24 of the Tor control-spec): the challenge parser, the order
 of the exchange, and a server that follows the specification. HMAC-SHA256 is any function to 32 bytes.
 */
module SafeCookie {
  import opened Wrappers
  import opened Text
  import opened Hex
  import opened Codec
  import opened ControlWords
  import opened ProtocolInfo
  import opened Framing

  type Mac = (string, seq<byte>) -> seq<byte>

  const SERVER_HASH_KEY := "Tor safe cookie authentication server-to-controller hash"
  const CLIENT_HASH_KEY := "Tor safe cookie authentication controller-to-server hash"
  const SECRET_LEN: nat := 32

  datatype AuthError =
    | InvalidCookieLength(length: nat)
    | CommandFailed(code: nat)
    | MissingChallengeField(name: string)
    | InvalidHex(name: string)
    | InvalidServerHash

  datatype Challenge = Challenge(hash: seq<byte>, nonce: seq<byte>)

  // ---- The challenge ------------------------------------------------------------------------

  /** The words of the first line that is an AUTHCHALLENGE. */
  function ChallengeWords(lines: seq<ControlLine>): Option<seq<string>> {
    if lines == [] then None
    else if lines[0].Plain? && StartsWith(lines[0].text, "AUTHCHALLENGE ") then Some(Words(lines[0].text))
    else ChallengeWords(lines[1..])
  }

  function Secret(words: seq<string>, name: string): Result<seq<byte>, AuthError> {
    var text := Field(words, name);
    if text.None? then Err(MissingChallengeField(name))
    else
      var bytes := Decode(text.value);
      if bytes.None? then Err(InvalidHex(name)) else Ok(bytes.value)
  }

  function ParseChallenge(lines: seq<ControlLine>): Result<Challenge, AuthError> {
    match ChallengeWords(lines)
    case None => Err(MissingChallengeField("AUTHCHALLENGE"))
    case Some(words) =>
      if Field(words, "SERVERHASH").None? then Err(MissingChallengeField("SERVERHASH"))
      else if Field(words, "SERVERNONCE").None? then Err(MissingChallengeField("SERVERNONCE"))
      else
        var hash :- Secret(words, "SERVERHASH");
        var nonce :- Secret(words, "SERVERNONCE");
        if |hash| != SECRET_LEN then Err(InvalidHex("SERVERHASH"))
        else if |nonce| != SECRET_LEN then Err(InvalidHex("SERVERNONCE"))
        else Ok(Challenge(hash, nonce))
  }

  // ---- The exchange -------------------------------------------------------------------------

  /** A server answers the last of the commands it has received. */
  type Server = seq<string> -> ControlReply

  /** What the client sent, and how it ended. */
  datatype Exchange = Exchange(sent: seq<string>, result: Result<(), AuthError>)

  function ChallengeCommand(nonce: seq<byte>): string {
    "AUTHCHALLENGE SAFECOOKIE " + Encode(Upper, nonce)
  }

  function ProofCommand(proof: seq<byte>): string {
    "AUTHENTICATE " + Encode(Upper, proof)
  }

  function Transcript(cookie: seq<byte>, clientNonce: seq<byte>, serverNonce: seq<byte>): seq<byte> {
    cookie + clientNonce + serverNonce
  }

  /** The client, given the bytes of the cookie file and its random nonce. */
  function Authenticate(mac: Mac, cookie: seq<byte>, nonce: seq<byte>, server: Server): Exchange {
    if |cookie| != SECRET_LEN then Exchange([], Err(InvalidCookieLength(|cookie|)))
    else
      var first := [ChallengeCommand(nonce)];
      var reply := server(first);
      if reply.code != 250 then Exchange(first, Err(CommandFailed(reply.code)))
      else
        match ParseChallenge(reply.lines)
        case Err(e) => Exchange(first, Err(e))
        case Ok(challenge) =>
          var transcript := Transcript(cookie, nonce, challenge.nonce);
          if challenge.hash != mac(SERVER_HASH_KEY, transcript) then Exchange(first, Err(InvalidServerHash))
          else
            var both := first + [ProofCommand(mac(CLIENT_HASH_KEY, transcript))];
            var verdict := server(both);
            Exchange(both, if verdict.code == 250 then Ok(()) else Err(CommandFailed(verdict.code)))
  }

  // ---- A server that follows the specification ----------------------------------------------

  function ChallengeTexts(c: Challenge): seq<string> {
    ["AUTHCHALLENGE", "SERVERHASH=" + Encode(Upper, c.hash), "SERVERNONCE=" + Encode(Upper, c.nonce)]
  }

  function ChallengeReply(c: Challenge): ControlReply {
    ControlReply(250, [Plain(Spaced(ChallengeTexts(c)))])
  }

  const REFUSED := ControlReply(515, [Plain("Authentication failed")])

  /** The nonce of an AUTHCHALLENGE command. */
  function NonceOf(command: string): Option<seq<byte>> {
    if StartsWith(command, "AUTHCHALLENGE SAFECOOKIE ") then Decode(command[|"AUTHCHALLENGE SAFECOOKIE "|..])
    else None
  }

  function ProofOf(command: string): Option<seq<byte>> {
    if StartsWith(command, "AUTHENTICATE ") then Decode(command[|"AUTHENTICATE "|..]) else None
  }

  /** A server that holds `cookie` and chose `nonce`. */
  function Honest(mac: Mac, cookie: seq<byte>, nonce: seq<byte>): Server {
    (sent: seq<string>) =>
      if |sent| == 0 || NonceOf(sent[0]).None? then REFUSED
      else
        var transcript := Transcript(cookie, NonceOf(sent[0]).value, nonce);
        if |sent| == 1 then ChallengeReply(Challenge(mac(SERVER_HASH_KEY, transcript), nonce))
        else if ProofOf(sent[1]) == Some(mac(CLIENT_HASH_KEY, transcript)) then ControlReply(250, [Plain("OK")])
        else REFUSED
  }

  // ---- Round trips --------------------------------------------------------------------------

  lemma HexIsBare(bytes: seq<byte>)
    ensures Bare(Encode(Upper, bytes))
  {
    EncodedIsHex(Upper, bytes);
    forall c <- Encode(Upper, bytes)
      ensures c != '"' && !IsWhitespace(c)
    {
      assert DigitValue(c).Some?;
    }
  }

  lemma SecretTextIsBare(prefix: string, bytes: seq<byte>)
    requires Bare(prefix)
    ensures Bare(prefix + Encode(Upper, bytes))
  {
    HexIsBare(bytes);
  }

  lemma KeysAreBare()
    ensures Bare("AUTHCHALLENGE") && Bare("SERVERHASH=") && Bare("SERVERNONCE=")
  {
  }

  lemma ChallengeTokens(c: Challenge)
    ensures Words(Spaced(ChallengeTexts(c))) == ChallengeTexts(c)
  {
    hide Denotes, Words, Tight, Bare, NonEmpty, Spaced, Encode;
    KeysAreBare();
    SecretTextIsBare("SERVERHASH=", c.hash);
    SecretTextIsBare("SERVERNONCE=", c.nonce);
    var texts := ChallengeTexts(c);
    BareIsTight(texts[0]);
    BareIsTight(texts[1]);
    BareIsTight(texts[2]);
    SpacedDenotes(texts, texts);
    NothingDropped(texts);
  }

  lemma ChallengeFields(c: Challenge)
    ensures Field(ChallengeTexts(c), "SERVERHASH") == Some(Encode(Upper, c.hash))
    ensures Field(ChallengeTexts(c), "SERVERNONCE") == Some(Encode(Upper, c.nonce))
  {
    hide Encode, Field;
    var texts := ChallengeTexts(c);
    var hash := Encode(Upper, c.hash);
    var nonce := Encode(Upper, c.nonce);
    assert "AUTHCHALLENGE"[0] == 'A' && "SERVERHASH="[0] == 'S' && "SERVERNONCE="[0] == 'S';
    assert FieldOf(texts[0], "SERVERHASH").None? && FieldOf(texts[0], "SERVERNONCE").None?;
    assert texts[1][|"SERVERHASH"| + 1..] == hash;
    FieldAt(texts, 1, "SERVERHASH");
    assert texts[1][6] == 'H' && "SERVERNONCE="[6] == 'N';
    assert FieldOf(texts[1], "SERVERNONCE").None?;
    assert texts[2][|"SERVERNONCE"| + 1..] == nonce;
    FieldAt(texts, 2, "SERVERNONCE");
  }

  /** A printed challenge of two 32-byte values parses back to the two values. */
  lemma ChallengeRoundTrip(c: Challenge)
    requires |c.hash| == SECRET_LEN && |c.nonce| == SECRET_LEN
    ensures ParseChallenge(ChallengeReply(c).lines) == Ok(c)
  {
    hide Field, Words, Encode, Decode, ChallengeTexts;
    ChallengeTokens(c);
    ChallengeFields(c);
    DecodeEncode(Upper, c.hash);
    DecodeEncode(Upper, c.nonce);
    assert StartsWith(Spaced(ChallengeTexts(c)), "AUTHCHALLENGE ") by {
      ChallengeStarts(c);
    }
  }

  lemma ChallengeStarts(c: Challenge)
    ensures StartsWith(Spaced(ChallengeTexts(c)), "AUTHCHALLENGE ")
  {
    hide Encode;
    SpacedStarts(ChallengeTexts(c));
    var rest := Spaced(ChallengeTexts(c)[1..]);
    assert "AUTHCHALLENGE" + " " + rest == "AUTHCHALLENGE " + rest;
  }

  lemma CommandsRead(nonce: seq<byte>, proof: seq<byte>)
    ensures NonceOf(ChallengeCommand(nonce)) == Some(nonce)
    ensures ProofOf(ProofCommand(proof)) == Some(proof)
  {
    DecodeEncode(Upper, nonce);
    DecodeEncode(Upper, proof);
    assert ChallengeCommand(nonce)[|"AUTHCHALLENGE SAFECOOKIE "|..] == Encode(Upper, nonce);
    assert ProofCommand(proof)[|"AUTHENTICATE "|..] == Encode(Upper, proof);
  }

  // ---- What the exchange guarantees ---------------------------------------------------------

  /**
   Against a server that follows the specification the exchange succeeds exactly when both sides
   compute the same server hash and the same client hash; so it always does with the same cookie.
   */
  lemma ExchangeAgrees(mac: Mac, cookie: seq<byte>, cookie': seq<byte>, nonce: seq<byte>, nonce': seq<byte>)
    requires |cookie| == SECRET_LEN && |nonce'| == SECRET_LEN
    requires forall key, m :: |mac(key, m)| == SECRET_LEN
    ensures var e := Authenticate(mac, cookie, nonce, Honest(mac, cookie', nonce'));
      var mine := Transcript(cookie, nonce, nonce');
      var theirs := Transcript(cookie', nonce, nonce');
      && (|e.sent| == 2 <==> mac(SERVER_HASH_KEY, mine) == mac(SERVER_HASH_KEY, theirs))
      && (e.result.Ok? <==>
            && mac(SERVER_HASH_KEY, mine) == mac(SERVER_HASH_KEY, theirs)
            && mac(CLIENT_HASH_KEY, mine) == mac(CLIENT_HASH_KEY, theirs))
      && (cookie == cookie' ==> e.result == Ok(()))
  {
    hide NonceOf, ProofOf, ParseChallenge, ChallengeReply, ChallengeCommand, ProofCommand, Transcript;
    var server := Honest(mac, cookie', nonce');
    var theirs := Transcript(cookie', nonce, nonce');
    var mine := Transcript(cookie, nonce, nonce');
    CommandsRead(nonce, mac(CLIENT_HASH_KEY, mine));
    var challenge := Challenge(mac(SERVER_HASH_KEY, theirs), nonce');
    ChallengeRoundTrip(challenge);
    var first := [ChallengeCommand(nonce)];
    assert server(first) == ChallengeReply(challenge);
    assert ChallengeReply(challenge).code == 250 by {
      ReplyIsSuccess(challenge);
    }
    var both := first + [ProofCommand(mac(CLIENT_HASH_KEY, mine))];
    assert both[0] == first[0] && both[1] == ProofCommand(mac(CLIENT_HASH_KEY, mine));
    assert server(both).code == 250 <==> mac(CLIENT_HASH_KEY, mine) == mac(CLIENT_HASH_KEY, theirs);
  }

  lemma ReplyIsSuccess(c: Challenge)
    ensures ChallengeReply(c).code == 250
  {
  }

  // ---- Against any server -------------------------------------------------------------------

  /**
   What the client sends and how it ends, whoever answers: it checks the server's hash and makes its
   own over the cookie, its own nonce and the server's, in this order.
   */
  lemma ExchangeWithAnyone(mac: Mac, cookie: seq<byte>, nonce: seq<byte>, server: Server)
    ensures var e := Authenticate(mac, cookie, nonce, server);
      if |cookie| != 32 then e == Exchange([], Err(InvalidCookieLength(|cookie|)))
      else
        var first := "AUTHCHALLENGE SAFECOOKIE " + Encode(Upper, nonce);
        var reply := server([first]);
        if reply.code != 250 then e == Exchange([first], Err(CommandFailed(reply.code)))
        else
          match ParseChallenge(reply.lines)
          case Err(error) => e == Exchange([first], Err(error))
          case Ok(Challenge(h, m)) =>
            if h != mac("Tor safe cookie authentication server-to-controller hash", cookie + nonce + m)
            then e == Exchange([first], Err(InvalidServerHash))
            else
              var proof := mac("Tor safe cookie authentication controller-to-server hash", cookie + nonce + m);
              var second := "AUTHENTICATE " + Encode(Upper, proof);
              var verdict := server([first, second]);
              && e.sent == [first, second]
              && e.result == if verdict.code == 250 then Ok(()) else Err(CommandFailed(verdict.code))
  {
    hide ParseChallenge, Encode;
    assert forall first: string, second: string :: [first] + [second] == [first, second];
  }

  /** The first line of a reply that is a challenge. */
  ghost predicate FirstChallenge(lines: seq<ControlLine>, i: nat) {
    && i < |lines| && lines[i].Plain? && "AUTHCHALLENGE " <= lines[i].text
    && forall k | 0 <= k < i && lines[k].Plain? :: !("AUTHCHALLENGE " <= lines[k].text)
  }

  lemma {:induction false} ChallengeWordsAt(lines: seq<ControlLine>, i: nat)
    requires FirstChallenge(lines, i)
    ensures ChallengeWords(lines) == Some(Words(lines[i].text))
  {
    if i > 0 {
      ChallengeWordsAt(lines[1..], i - 1);
    }
  }

  lemma {:induction false} NoChallengeWords(lines: seq<ControlLine>)
    ensures ChallengeWords(lines).None?
       <==> forall k | 0 <= k < |lines| && lines[k].Plain? :: !("AUTHCHALLENGE " <= lines[k].text)
  {
    if lines != [] {
      NoChallengeWords(lines[1..]);
      assert forall k | 0 < k < |lines| :: lines[k] == lines[1..][k - 1];
    }
  }

  /** A reply without a challenge line is refused, and nothing else is refused for that. */
  lemma NoChallenge(lines: seq<ControlLine>)
    ensures ParseChallenge(lines) == Err(MissingChallengeField("AUTHCHALLENGE"))
       <==> forall k | 0 <= k < |lines| && lines[k].Plain? :: !("AUTHCHALLENGE " <= lines[k].text)
  {
    hide Words, Field, Decode;
    NoChallengeWords(lines);
    assert "AUTHCHALLENGE"[0] == 'A' && "SERVERHASH"[0] == 'S' && "SERVERNONCE"[0] == 'S';
  }

  /** A challenge is accepted exactly when both fields of its first line are 32 bytes in hexadecimal. */
  lemma ChallengeAccepted(lines: seq<ControlLine>, i: nat)
    requires FirstChallenge(lines, i)
    ensures var words := Words(lines[i].text);
      var h, n := Field(words, "SERVERHASH"), Field(words, "SERVERNONCE");
      && (ParseChallenge(lines).Ok? <==>
            && h.Some? && n.Some? && Decode(h.value).Some? && Decode(n.value).Some?
            && |Decode(h.value).value| == 32 && |Decode(n.value).value| == 32)
      && (ParseChallenge(lines).Ok? ==>
            ParseChallenge(lines).value == Challenge(Decode(h.value).value, Decode(n.value).value))
      && (h.None? ==> ParseChallenge(lines) == Err(MissingChallengeField("SERVERHASH")))
      && (h.Some? && n.None? ==> ParseChallenge(lines) == Err(MissingChallengeField("SERVERNONCE")))
      && (h.Some? && n.Some? && Decode(h.value).None? ==> ParseChallenge(lines) == Err(InvalidHex("SERVERHASH")))
  {
    hide Words, Field, Decode;
    ChallengeWordsAt(lines, i);
  }

  // ---- Over the wire ------------------------------------------------------------------------

  lemma ChallengeReplyOk(c: Challenge)
    ensures ReplyOk(ChallengeReply(c))
  {
    hide LineOk, Join, Tight, Bare, Encode;
    var texts := ChallengeTexts(c);
    KeysAreBare();
    SecretTextIsBare("SERVERHASH=", c.hash);
    SecretTextIsBare("SERVERNONCE=", c.nonce);
    forall t <- texts
      ensures '\n' !in t && Tight(t)
    {
      BareIsOneLine(t);
      BareIsTight(t);
    }
    SpacedIsOneLine(texts);
    SpacedStarts(texts);
    SpacedIsPlain("AUTHCHALLENGE", Spaced(texts[1..]));
  }

  lemma RefusalIsOk()
    ensures ReplyOk(REFUSED) && ReplyOk(ControlReply(250, [Plain("OK")]))
  {
    hide LineOk;
    ShortLinesOk();
    RefusalLine();
  }

  lemma RefusalLine()
    ensures LineOk(Plain("Authentication failed"))
  {
    hide LineOk, OneLine;
    var text := "Authentication failed";
    assert '=' !in text by {
      hide *;
    }
    assert OneLine(text) by {
      RefusalIsOneLine();
    }
    NoEqualsIsPlain(text);
  }

  lemma RefusalIsOneLine()
    ensures OneLine("Authentication failed")
  {
    var text := "Authentication failed";
    assert text[|text| - 1] == 'd';
    assert '\n' !in text by {
      hide *;
    }
  }

  /**
   Whatever the client has sent, the printed answer of a server that follows the specification reads
   back from the stream as that answer, and leaves what follows it: so the exchange above runs over
   the bytes as it does over the replies.
   */
  lemma HonestRepliesRead(mac: Mac, cookie: seq<byte>, nonce: seq<byte>, sent: seq<string>, tail: string)
    ensures var reply := Honest(mac, cookie, nonce)(sent);
      ReplyOk(reply) && ReadReply(PrintReply(reply) + tail) == (Ok(Some(reply)), tail)
  {
    hide ReadReply, PrintReply, ReplyOk, ChallengeReply, NonceOf, ProofOf, Transcript;
    var reply := Honest(mac, cookie, nonce)(sent);
    RefusalIsOk();
    if |sent| == 1 && NonceOf(sent[0]).Some? {
      ChallengeReplyOk(Challenge(mac(SERVER_HASH_KEY, Transcript(cookie, NonceOf(sent[0]).value, nonce)), nonce));
    }
    assert ReplyOk(reply);
    ReplyRoundTrip(reply, tail);
  }

  /** A challenge of two 32-byte values, printed, read from the stream and parsed, gives the two values. */
  lemma ChallengeOverWire(c: Challenge, tail: string)
    requires |c.hash| == SECRET_LEN && |c.nonce| == SECRET_LEN
    ensures ReplyOk(ChallengeReply(c))
    ensures exists reply: ControlReply :: ReadReply(PrintReply(ChallengeReply(c)) + tail) == (Ok(Some(reply)), tail)
                         && ParseChallenge(reply.lines) == Ok(c)
  {
    hide ReadReply, PrintReply, ReplyOk, ChallengeReply, ParseChallenge;
    ChallengeReplyOk(c);
    ReplyRoundTrip(ChallengeReply(c), tail);
    ChallengeRoundTrip(c);
  }
}
