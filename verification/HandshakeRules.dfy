/**
 The rules of the handshake without the parsers: which requests are upgraded,
 which are answered with an error, and which replies open the client, in terms
 of the headers and words that stand in the texts.
 */
module HandshakeRules {
  import opened Bytes
  import opened Base64
  import opened Http
  import opened Handshake
  import opened HandshakeAgreement
  import opened Options

  /** The character is the small letter `l` or its capital. */
  predicate IsLetter(c: char, l: char)
  {
    c == l || c as int + ('a' as int - 'A' as int) == l as int
  }

  predicate SpelledAt(v: string, word: string, k: nat)
  {
    k + |word| <= |v| && forall i | 0 <= i < |word| :: IsLetter(v[k + i], word[i])
  }

  /** The word stands somewhere in the value, in whatever case. */
  ghost predicate Mentions(v: string, word: string)
  {
    exists k: nat :: SpelledAt(v, word, k)
  }

  predicate Spells(v: string, word: string)
  {
    |v| == |word| && SpelledAt(v, word, 0)
  }

  predicate SmallLetters(word: string)
  {
    forall i | 0 <= i < |word| :: 'a' <= word[i] <= 'z'
  }

  lemma LowerLetter(c: char, l: char)
    requires 'a' <= l <= 'z'
    ensures LowerChar(c) == l <==> IsLetter(c, l)
  {
  }

  lemma SpelledIff(v: string, word: string, k: nat)
    requires SmallLetters(word)
    ensures Occurs(Lower(v), word, k) <==> SpelledAt(v, word, k)
  {
    if k + |word| <= |v| {
      var part := Lower(v)[k..k + |word|];
      forall i | 0 <= i < |word|
        ensures part[i] == word[i] <==> IsLetter(v[k + i], word[i])
      {
        LowerLetter(v[k + i], word[i]);
      }
    }
  }

  lemma {:induction false} MentionsIff(v: string, word: string)
    requires SmallLetters(word)
    ensures Find(Lower(v), word, 0).Some? <==> Mentions(v, word)
  {
    forall k: nat
      ensures Occurs(Lower(v), word, k) <==> SpelledAt(v, word, k)
    {
      SpelledIff(v, word, k);
    }
  }

  lemma SpellsIff(v: string, word: string)
    requires SmallLetters(word)
    ensures Lower(v) == word <==> Spells(v, word)
  {
    SpelledIff(v, word, 0);
    assert |v| == |word| ==> Lower(v)[0..|word|] == Lower(v);
  }

  /** The white space that is trimmed around a value. */
  lemma WhiteSpace(c: char)
    ensures IsSpace(c) <==> c == ' ' || c == '\t' || c == '\n' || c == 11 as char || c == 12 as char || c == '\r'
  {
  }

  // -------------------------------------------------------------- the server

  ghost predicate HeaderMentions(text: string, name: string, word: string)
  {
    exists v :: IsHeader(text, name, v) && Mentions(v, word)
  }

  /** No origin is named, or a local one. */
  ghost predicate OriginAllowed(request: string, localOrigin: string -> bool)
  {
    exists v :: IsHeader(request, "Origin: ", v) && (v == "" || localOrigin(v))
  }

  /** The line of the first "GET" ends with the version. */
  ghost predicate NamesVersion(request: string, version: string)
  {
    exists pos: nat :: IsFirst(request, "GET", 0, pos) && IsThirdWord(request, pos, version)
  }

  /** A request that the server looks at: it has a method and an allowed origin, and the callback validates it. */
  ghost predicate Considered(request: string, localOrigin: string -> bool, validated: bool)
  {
    !Absent(request, "GET", 0) && OriginAllowed(request, localOrigin) && validated
  }

  /** What section 4.2.1 of RFC 6455 asks for that the server checks. */
  ghost predicate WellFormed(request: string)
  {
    && HeaderMentions(request, "Connection: ", "upgrade")
    && HeaderMentions(request, "Upgrade: ", "websocket")
    && NamesVersion(request, "HTTP/1.1")
  }

  lemma {:induction false} HeaderMentionsIff(text: string, name: string, word: string)
    requires SmallLetters(word)
    ensures HeaderMentions(text, name, word) <==> Find(Lower(DecodeHeader(text, name)), word, 0).Some?
  {
    hide DecodeHeader, Find, IsHeader, Mentions;
    var w := DecodeHeader(text, name);
    MentionsIff(w, word);
    if v :| IsHeader(text, name, v) && Mentions(v, word) {
      HeaderUnique(text, name, v);
    }
  }

  lemma OriginAllowedIff(request: string, localOrigin: string -> bool)
    ensures OriginAllowed(request, localOrigin) <==> OriginIsSafe(localOrigin, DecodeHeader(request, ORIGIN))
  {
    hide DecodeHeader, Find, IsHeader;
    if v :| IsHeader(request, "Origin: ", v) && (v == "" || localOrigin(v)) {
      HeaderUnique(request, ORIGIN, v);
    }
  }

  lemma {:induction false} NamesVersionIff(request: string, version: string)
    ensures NamesVersion(request, version) <==>
              Find(request, GET, 0).Some? && RequestVersion(request, Find(request, GET, 0).value) == version
  {
    hide RequestVersion, IsThirdWord;
    if pos: nat :| IsFirst(request, "GET", 0, pos) && IsThirdWord(request, pos, version) {
      FirstOccurrence(request, GET, 0, pos);
      ThirdWordUnique(request, pos, version);
    }
    var found := Find(request, GET, 0);
    if found.Some? {
      assert IsFirst(request, "GET", 0, found.value);
    }
  }

  /**
   A request is upgraded exactly if it is considered and well formed, for the
   key of its header; it is answered with an error exactly if it is considered
   and not well formed; every other request is dropped.
   */
  lemma AnswerIff(request: string, localOrigin: string -> bool, validated: bool)
    ensures var a := ServerAnswer(request, localOrigin, validated);
            && (a.Upgraded? <==> Considered(request, localOrigin, validated) && WellFormed(request))
            && (a.Upgraded? ==> IsHeader(request, "Sec-WebSocket-Key: ", a.key))
            && (a.BadRequest? <==> Considered(request, localOrigin, validated) && !WellFormed(request))
  {
    HeaderMentionsIff(request, CONNECTION, "upgrade");
    HeaderMentionsIff(request, UPGRADE, "websocket");
    NamesVersionIff(request, "HTTP/1.1");
    OriginAllowedIff(request, localOrigin);
    assert Find(request, GET, 0).None? <==> Absent(request, "GET", 0);
    hide Find, DecodeHeader, RequestVersion, HeaderMentions, NamesVersion, OriginAllowed, Absent;
  }

  /** The calls around the texts decide no more than whether the answer gets out. */
  lemma OutcomeIff(calls: Calls, localOrigin: string -> bool, validated: bool)
    ensures var o := ServerOutcome(calls, localOrigin, validated);
            && (o.Upgraded? <==>
                  && calls.received.Some? && calls.encodes
                  && Considered(calls.received.value, localOrigin, validated) && WellFormed(calls.received.value))
            && (o.Upgraded? ==> IsHeader(calls.received.value, "Sec-WebSocket-Key: ", o.key))
            && (o.BadRequest? <==>
                  && calls.received.Some?
                  && Considered(calls.received.value, localOrigin, validated) && !WellFormed(calls.received.value))
  {
    hide ServerAnswer, Considered, WellFormed, IsHeader;
    if calls.received.Some? {
      AnswerIff(calls.received.value, localOrigin, validated);
    }
  }

  function BeforeVersion(): string
  {
    RequestLine() + EOL + CONNECTION + "Upgrade" + EOL + PragmaLine() + CacheLine() + UPGRADE + "websocket" + EOL
  }

  lemma VersionHeader(name: string)
    requires name == "Sec-WebSocket-Version: "
    ensures 'V' !in BeforeVersion() && 'V' !in name[..14] && name[14] == 'V' && '\r' !in name
    ensures VersionLine() == name + "13" + EOL
  {
    assert 'V' !in RequestLine();
    assert 'V' !in PragmaLine();
    assert 'V' !in CacheLine();
    hide RequestLine, PragmaLine, CacheLine;
  }

  lemma RequestAroundVersion(key: string, name: string)
    requires VersionLine() == name + "13" + EOL
    ensures Request(key) == BeforeVersion() + name + "13" + EOL
                            + (EncodingLine() + SEC_WEBSOCKET_KEY + key + EOL + ExtensionLine() + EOL)
  {
    hide RequestLine, PragmaLine, CacheLine, VersionLine, EncodingLine, ExtensionLine;
  }

  /** The request of a client names the protocol version of RFC 6455. */
  lemma RequestNamesVersion(key: string)
    ensures DecodeHeader(Request(key), "Sec-WebSocket-Version: ") == "13"
  {
    var name := "Sec-WebSocket-Version: ";
    VersionHeader(name);
    RequestAroundVersion(key, name);
    hide BeforeVersion, VersionLine, EncodingLine, ExtensionLine, DecodeHeader, Request;
    var post := EncodingLine() + SEC_WEBSOCKET_KEY + key + EOL + ExtensionLine() + EOL;
    HeaderByAnchor(BeforeVersion(), name, "13", post, 14);
  }

  // -------------------------------------------------------------- the client

  ghost predicate HeaderSpells(text: string, name: string, word: string)
  {
    exists v :: IsHeader(text, name, v) && Spells(v, word)
  }

  /** The word behind the version of the first "HTTP" is the status. */
  ghost predicate HasStatus(text: string, status: string)
  {
    exists start: nat, version ::
      && IsFirst(text, "HTTP", 0, start) && IsFirstWord(text, start, version)
      && IsWordAfter(text, start + |version|, status)
  }

  ghost predicate HasAccept(text: string, accept: string)
  {
    exists v :: IsHeader(text, "Sec-WebSocket-Accept: ", v) && Trimmed(v, accept)
  }

  lemma HeaderSpellsIff(text: string, name: string, word: string)
    requires SmallLetters(word)
    ensures HeaderSpells(text, name, word) <==> Lower(DecodeHeader(text, name)) == word
  {
    hide DecodeHeader, Find, IsHeader, Spells;
    SpellsIff(DecodeHeader(text, name), word);
    if v :| IsHeader(text, name, v) && Spells(v, word) {
      HeaderUnique(text, name, v);
    }
  }

  lemma {:induction false} HasStatusIff(text: string, status: string)
    ensures HasStatus(text, status) <==>
              && Find(text, HTTP, 0).Some?
              && var start := Find(text, HTTP, 0).value; Status(text, start + |ResponseVersion(text, start)|) == status
  {
    hide ResponseVersion, Status, IsFirstWord, IsWordAfter;
    if start: nat, version :| && IsFirst(text, "HTTP", 0, start) && IsFirstWord(text, start, version)
                              && IsWordAfter(text, start + |version|, status) {
      FirstOccurrence(text, HTTP, 0, start);
      FirstWordUnique(text, start, version);
      WordAfterUnique(text, start + |version|, status);
    }
    var found := Find(text, HTTP, 0);
    if found.Some? {
      var start := found.value;
      assert IsFirst(text, "HTTP", 0, start);
      var version := ResponseVersion(text, start);
      assert IsFirstWord(text, start, version)
             && IsWordAfter(text, start + |version|, Status(text, start + |version|));
    }
  }

  lemma HasAcceptIff(text: string, accept: string)
    ensures HasAccept(text, accept) <==> Trimmed(DecodeHeader(text, SEC_WEBSOCKET_ACCEPT), accept)
  {
    hide DecodeHeader, Find, IsHeader, Trimmed;
    if v :| IsHeader(text, "Sec-WebSocket-Accept: ", v) && Trimmed(v, accept) {
      HeaderUnique(text, SEC_WEBSOCKET_ACCEPT, v);
    }
  }

  /** The accept value is made with the identifier that section 1.3 of RFC 6455 fixes. */
  lemma AcceptValue(sha1: string -> Octets, key: string)
    ensures EncodeKey(sha1, key) == Text(Encoded(sha1(key + "258EAFA5-E914-47DA-95CA-C5AB0DC85B11")))
  {
  }

  /** The client accepts exactly the replies that section 4.1 of RFC 6455 asks it to accept. */
  lemma AcceptsIff(sha1: string -> Octets, key: string, text: string)
    ensures ClientAccepts(sha1, key, text) <==>
              && HasStatus(text, "101")
              && HeaderSpells(text, "Upgrade: ", "websocket") && HeaderSpells(text, "Connection: ", "upgrade")
              && HasAccept(text, EncodeKey(sha1, key))
  {
    hide Find, DecodeHeader, Status, ResponseVersion, HasStatus, HeaderSpells, HasAccept, EncodeKey, Trimmed, Lower;
    assert UPGRADE == "Upgrade: " && CONNECTION == "Connection: ";
    HasStatusIff(text, "101");
    HeaderSpellsIff(text, "Upgrade: ", "websocket");
    HeaderSpellsIff(text, "Connection: ", "upgrade");
    HasAcceptIff(text, EncodeKey(sha1, key));
  }
}
