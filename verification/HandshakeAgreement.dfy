/**
 The two sides of the handshake and their agreement: a client's request is
 upgraded for exactly the key in it, and a reply is accepted by exactly the
 clients whose key has the same digest.
 */
module HandshakeAgreement {
  import opened Bytes
  import opened Base64
  import opened Http
  import opened Handshake
  import opened Options

  // -------------------------------------------------------------- the server

  /** `ValidateHandShakeMessage` */
  predicate ValidHandShake(version: string, connection: string, upgrade: string)
  {
    && Find(Lower(connection), "upgrade", 0).Some?
    && Find(Lower(upgrade), "websocket", 0).Some?
    && version == "HTTP/1.1"
  }

  /** What the server does with a request. */
  datatype Answer = Dropped | BadRequest | Upgraded(key: string)

  function ServerAnswer(request: string, localOrigin: string -> bool, validated: bool): Answer
  {
    match Find(request, GET, 0)
    case None => Dropped
    case Some(pos) =>
      if !OriginIsSafe(localOrigin, DecodeHeader(request, ORIGIN)) || !validated then Dropped
      else if ValidHandShake(RequestVersion(request, pos), DecodeHeader(request, CONNECTION),
                             DecodeHeader(request, UPGRADE))
      then Upgraded(DecodeHeader(request, SEC_WEBSOCKET_KEY))
      else BadRequest
  }

  /** How the calls around the texts end: the `recv` of the request, the key encoder, the `send` of the reply. */
  datatype Calls = Calls(received: Option<string>, encodes: bool, sends: bool)

  /** What the server does when the calls around the texts may fail. */
  function ServerOutcome(calls: Calls, localOrigin: string -> bool, validated: bool): Answer
  {
    if calls.received.None? then Dropped
    else
      match ServerAnswer(calls.received.value, localOrigin, validated)
      case Upgraded(key) => if calls.encodes then Upgraded(key) else Dropped
      case other => other
  }

  /**
   `WebSocketServer::HttpHandShake`: the text handed to `send` and whether the
   connection goes on.  A request is received with one call, which fails, finds
   the end of the stream or delivers a text; `validated` is the answer of the
   validate callback.
   */
  method HttpHandShake(calls: Calls, sha1: string -> Octets, localOrigin: string -> bool, validated: bool)
      returns (ok: bool, sent: Option<string>)
    requires IsSha1(sha1)
    ensures match ServerOutcome(calls, localOrigin, validated)
            case Dropped => !ok && sent == None
            case BadRequest => !ok && sent == Some(BAD_REQUEST_RESPONSE)
            case Upgraded(key) => ok == calls.sends && sent == Some(Reply(EncodeKey(sha1, key)))
  {
    hide DecodeHeader, RequestVersion, Reply, EncodeKey, Find, IsHeader, IsThirdWord;
    if calls.received.None? || calls.received.value == "" {
      NothingReceived(localOrigin, validated);
      return false, None;
    }
    var msgBuf := calls.received.value;
    var req := new HttpRequest();
    var decoded := req.Decode(msgBuf, localOrigin);
    if !Absent(msgBuf, GET, 0) {
      ParsedRequest(msgBuf, req.version, req.connection, req.upgrade, req.secWebSocketKey, req.origin);
    } else {
      assert Find(msgBuf, GET, 0).None?;
    }
    if !decoded || !validated {
      return false, None;
    }
    var upgradeHeaderValue := ToLowerCase(req.upgrade);
    var connectionValue := ToLowerCase(req.connection);
    if Find(connectionValue, "upgrade", 0).Some? && Find(upgradeHeaderValue, "websocket", 0).Some?
       && req.version == "HTTP/1.1" {
      if !calls.encodes {
        return false, None;
      }
      EncodeKeyShape(sha1, req.secWebSocketKey);
      var requestBuilder := new ProtocolUpgradeBuilder(EncodeKey(sha1, req.secWebSocketKey));
      return calls.sends, Some(requestBuilder.upgradeBuffer[..MESSAGE_LENGTH]);
    }
    return false, Some(BAD_REQUEST_RESPONSE);
  }

  lemma NothingReceived(localOrigin: string -> bool, validated: bool)
    ensures ServerAnswer("", localOrigin, validated) == Dropped
  {
  }

  lemma {:induction false} ParsedRequest(request: string, version: string, connection: string,
                                         upgrade: string, key: string, origin: string)
    requires exists pos :: IsFirst(request, GET, 0, pos) && IsThirdWord(request, pos, version)
    requires IsHeader(request, CONNECTION, connection) && IsHeader(request, UPGRADE, upgrade)
    requires IsHeader(request, SEC_WEBSOCKET_KEY, key) && IsHeader(request, ORIGIN, origin)
    ensures Find(request, GET, 0).Some? && version == RequestVersion(request, Find(request, GET, 0).value)
    ensures connection == DecodeHeader(request, CONNECTION) && upgrade == DecodeHeader(request, UPGRADE)
    ensures key == DecodeHeader(request, SEC_WEBSOCKET_KEY) && origin == DecodeHeader(request, ORIGIN)
  {
    hide DecodeHeader, RequestVersion, Find, IsHeader, IsThirdWord;
    var pos :| IsFirst(request, GET, 0, pos) && IsThirdWord(request, pos, version);
    FirstOccurrence(request, GET, 0, pos);
    ThirdWordUnique(request, pos, version);
    HeaderUnique(request, CONNECTION, connection);
    HeaderUnique(request, UPGRADE, upgrade);
    HeaderUnique(request, SEC_WEBSOCKET_KEY, key);
    HeaderUnique(request, ORIGIN, origin);
  }

  // -------------------------------------------------------------- the client

  lemma TrimmedUnique(s: string, r: string, r': string)
    requires Trimmed(s, r) && Trimmed(s, r')
    ensures r == r'
  {
    var l, t :| AllSpace(l) && AllSpace(t) && s == l + r + t;
    var l', t' :| AllSpace(l') && AllSpace(t') && s == l' + r' + t';
    TrimmedBounds(s, l, r, t, l', r', t');
    TrimmedBounds(s, l', r', t', l, r, t);
    assert r == s[|l|..|l| + |r|] && r' == s[|l'|..|l'| + |r'|];
  }

  /** A non-empty trimming begins no later and ends no earlier than any other. */
  lemma TrimmedBounds(s: string, l: string, r: string, t: string, l': string, r': string, t': string)
    requires AllSpace(l) && AllSpace(t) && AllSpace(l') && AllSpace(t')
    requires s == l + r + t == l' + r' + t'
    requires r != "" ==> !IsSpace(r[0]) && !IsSpace(r[|r| - 1])
    ensures r != "" ==> |l'| <= |l| && |t'| <= |t|
    ensures r != "" ==> r' != ""
  {
    if r != "" {
      assert s[|l|] == r[0] && s[|l| + |r| - 1] == r[|r| - 1];
      assert forall i | 0 <= i < |l'| :: s[i] == l'[i];
      assert forall i | 0 <= i < |t'| :: s[|s| - |t'| + i] == t'[i];
    }
  }

  /** What `ValidateServerHandShake` asks of the parsed reply. */
  ghost predicate ValidReply(sha1: string -> Octets, key: string, status: string, connection: string,
                             upgrade: string, accept: string)
  {
    && status == "101" && Lower(upgrade) == "websocket" && Lower(connection) == "upgrade"
    && Trimmed(accept, EncodeKey(sha1, key))
  }

  /** `encodes` tells whether the expected accept value could be computed. */
  method ValidateServerHandShake(response: HttpResponse, secWebSocketKey: string, sha1: string -> Octets, encodes: bool)
      returns (ok: bool)
    requires IsSha1(sha1)
    modifies response
    ensures ok <==> encodes && old(ValidReply(sha1, secWebSocketKey, response.status, response.connection,
                                              response.upgrade, response.secWebSocketAccept))
  {
    hide EncodeKey, Trimmed;
    if response.status != "101" {
      return false;
    }
    response.upgrade := ToLowerCase(response.upgrade);
    if response.upgrade != "websocket" {
      return false;
    }
    response.connection := ToLowerCase(response.connection);
    if response.connection != "upgrade" {
      return false;
    }
    if !encodes {
      return false;
    }
    var expected := EncodeKey(sha1, secWebSocketKey);
    EncodeKeyShape(sha1, secWebSocketKey);
    ghost var received := response.secWebSocketAccept;
    response.secWebSocketAccept := Trim(response.secWebSocketAccept);
    if Trimmed(received, expected) {
      TrimmedUnique(received, expected, response.secWebSocketAccept);
    }
    ok := |response.secWebSocketAccept| == ENCODED_KEY_LEN && response.secWebSocketAccept == expected;
  }

  ghost predicate ClientAccepts(sha1: string -> Octets, key: string, text: string)
  {
    Find(text, HTTP, 0).Some? &&
    var start := Find(text, HTTP, 0).value;
    ValidReply(sha1, key, Status(text, start + |ResponseVersion(text, start)|), DecodeHeader(text, CONNECTION),
               DecodeHeader(text, UPGRADE), DecodeHeader(text, SEC_WEBSOCKET_ACCEPT))
  }

  lemma {:induction false} ParsedReply(text: string, version: string, status: string, connection: string,
                                       upgrade: string, accept: string)
    requires exists start: nat :: IsFirst(text, HTTP, 0, start) && IsFirstWord(text, start, version)
                                  && IsWordAfter(text, start + |version|, status)
    requires IsHeader(text, CONNECTION, connection) && IsHeader(text, UPGRADE, upgrade)
    requires IsHeader(text, SEC_WEBSOCKET_ACCEPT, accept)
    ensures Find(text, HTTP, 0).Some?
    ensures var start := Find(text, HTTP, 0).value; status == Status(text, start + |ResponseVersion(text, start)|)
    ensures connection == DecodeHeader(text, CONNECTION) && upgrade == DecodeHeader(text, UPGRADE)
    ensures accept == DecodeHeader(text, SEC_WEBSOCKET_ACCEPT)
  {
    hide DecodeHeader, Status, ResponseVersion, Find, IsHeader, IsFirstWord, IsWordAfter;
    var start: nat :| IsFirst(text, HTTP, 0, start) && IsFirstWord(text, start, version)
                      && IsWordAfter(text, start + |version|, status);
    FirstOccurrence(text, HTTP, 0, start);
    FirstWordUnique(text, start, version);
    WordAfterUnique(text, start + |version|, status);
    HeaderUnique(text, CONNECTION, connection);
    HeaderUnique(text, UPGRADE, upgrade);
    HeaderUnique(text, SEC_WEBSOCKET_ACCEPT, accept);
  }

  datatype ClientState = CONNECTING | OPEN | CLOSING | CLOSED

  class WebSocketClient {
    var state: ClientState
    var secWebSocketKey: string

    constructor ()
      ensures state == CLOSED && secWebSocketKey == ""
    {
      state, secWebSocketKey := CLOSED, "";
    }

    /** From CONNECTING the socket is closed, through CLOSING. */
    method CloseOnInitFailure()
      requires state == CONNECTING
      modifies `state
      ensures state == CLOSED
    {
      state := CLOSING;
      state := CLOSED;
    }

    /** The request for a fresh key; `nonce` is missing when no random bytes could be drawn. */
    method ClientSendWSUpgradeReq(nonce: Option<Octets>, sends: bool) returns (ok: bool, sent: Option<string>)
      requires nonce.Some? ==> |nonce.value| == 16
      modifies this
      ensures old(state) != CONNECTING ==> unchanged(this) && sent == None && (ok <==> state == OPEN)
      ensures old(state) == CONNECTING && nonce.None? ==> !ok && sent == None && unchanged(this)
      ensures old(state) == CONNECTING && nonce.Some? ==>
                && secWebSocketKey == Text(Encoded(nonce.value)) && sent == Some(Request(secWebSocketKey))
                && ok == sends && state == if sends then CONNECTING else CLOSED
    {
      hide Request, Encoded;
      if state == CLOSING || state == CLOSED {
        return false, None;
      }
      if state == OPEN {
        return true, None;
      }
      if nonce.None? {
        return false, None;
      }
      secWebSocketKey := Text(Encoded(nonce.value));
      var upgradeReq := Request(secWebSocketKey);
      if !sends {
        CloseOnInitFailure();
        return false, Some(upgradeReq);
      }
      return true, Some(upgradeReq);
    }

    /** A reply is received with one call; the connection opens exactly for a reply that the client accepts. */
    method ClientRecvWSUpgradeRsp(received: Option<string>, sha1: string -> Octets, encodes: bool) returns (ok: bool)
      requires IsSha1(sha1)
      modifies `state
      ensures old(state) != CONNECTING ==> state == old(state) && (ok <==> state == OPEN)
      ensures old(state) == CONNECTING ==>
                && (ok <==> received.Some? && encodes && ClientAccepts(sha1, secWebSocketKey, received.value))
                && state == if ok then OPEN else CLOSED
    {
      hide DecodeHeader, Status, ResponseVersion, Find, ValidReply, IsHeader, IsFirstWord, IsWordAfter;
      if state == CLOSING || state == CLOSED {
        return false;
      }
      if state == OPEN {
        return true;
      }
      if received.None? || received.value == "" {
        NothingAccepted(sha1, secWebSocketKey);
        CloseOnInitFailure();
        return false;
      }
      var response := new HttpResponse();
      ok := response.Decode(received.value);
      if ok {
        ParsedReply(received.value, response.version, response.status, response.connection, response.upgrade,
                    response.secWebSocketAccept);
        ok := ValidateServerHandShake(response, secWebSocketKey, sha1, encodes);
      } else {
        assert Find(received.value, HTTP, 0).None?;
      }
      if !ok {
        CloseOnInitFailure();
        return false;
      }
      state := OPEN;
    }
  }

  lemma NothingAccepted(sha1: string -> Octets, key: string)
    ensures !ClientAccepts(sha1, key, "")
  {
  }

  // ------------------------------------------------------- the request parses

  /** "Upgrade: " is not found at the value of the connection line, where a line end follows. */
  lemma {:induction false} FindUpgrade(a: string, b: string, post: string)
    requires 'U' !in a && 'U' !in b
    ensures Find(a + "Upgrade" + EOL + b + UPGRADE + post, UPGRADE, 0) == Some(|a| + 9 + |b|)
  {
    var v := "Upgrade" + EOL;
    var s := a + v + b + UPGRADE + post;
    var k := |a| + 9 + |b|;
    assert s == a + "Upgrade" + EOL + b + UPGRADE + post;
    OccursAt(a + v + b, UPGRADE, post);
    forall j | 0 <= j < k
      ensures !Occurs(s, UPGRADE, j)
    {
      if j == |a| {
        assert s[j + 7] == v[7] == '\r';
        Differs(s, UPGRADE, j, 7);
      } else {
        assert s[j] == if j < |a| then a[j] else if j < |a| + 9 then v[j - |a|] else b[j - |a| - 9];
        Differs(s, UPGRADE, j, 0);
      }
    }
    FirstOccurrence(s, UPGRADE, 0, k);
  }

  // The characters that anchor the header names do not occur in the other lines.

  lemma RequestLineLacks()
    ensures 'C' !in RequestLine() && 'U' !in RequestLine() && 'K' !in RequestLine() && 'O' !in RequestLine()
  {
  }

  lemma SwitchingProtocolsLacks()
    ensures 'C' !in SwitchingProtocols() && 'U' !in SwitchingProtocols() && 'A' !in SwitchingProtocols()
  {
  }

  lemma PragmaLineLacks()
    ensures 'U' !in PragmaLine() && 'K' !in PragmaLine() && 'O' !in PragmaLine()
  {
  }

  lemma CacheLineLacks()
    ensures 'U' !in CacheLine() && 'K' !in CacheLine() && 'O' !in CacheLine()
  {
  }

  lemma VersionLineLacks()
    ensures 'K' !in VersionLine() && 'O' !in VersionLine()
  {
  }

  lemma EncodingLineLacks()
    ensures 'K' !in EncodingLine() && 'O' !in EncodingLine()
  {
  }

  lemma ExtensionLineLacks()
    ensures 'O' !in ExtensionLine()
  {
  }

  lemma HeaderNames()
    ensures 'U' !in CONNECTION && 'K' !in CONNECTION && 'O' !in CONNECTION && 'A' !in CONNECTION
    ensures 'K' !in UPGRADE && 'O' !in UPGRADE && 'A' !in UPGRADE
    ensures 'O' !in SEC_WEBSOCKET_KEY
    ensures 'K' !in SEC_WEBSOCKET_KEY[..14] && SEC_WEBSOCKET_KEY[14] == 'K'
    ensures 'A' !in SEC_WEBSOCKET_ACCEPT[..14] && SEC_WEBSOCKET_ACCEPT[14] == 'A'
  {
  }

  lemma HeaderByAnchor(pre: string, name: string, value: string, post: string, a: nat)
    requires '\r' !in name && '\r' !in value
    requires a < |name| && name[a] !in pre && name[a] !in name[..a]
    ensures DecodeHeader(pre + name + value + EOL + post, name) == value
  {
    FindByAnchor(pre, name, value + EOL + post, a);
    assert pre + name + (value + EOL + post) == pre + name + value + EOL + post;
    HeaderValue(pre, name, value, post);
  }

  lemma UpgradeHeader(a: string, b: string, post: string)
    requires 'U' !in a && 'U' !in b
    ensures DecodeHeader(a + "Upgrade" + EOL + b + UPGRADE + "websocket" + EOL + post, UPGRADE) == "websocket"
  {
    hide DecodeHeader;
    FindUpgrade(a, b, "websocket" + EOL + post);
    var pre := a + "Upgrade" + EOL + b;
    assert pre + UPGRADE + ("websocket" + EOL + post) == pre + UPGRADE + "websocket" + EOL + post;
    HeaderValue(pre, UPGRADE, "websocket", post);
  }

  lemma RequestConnection(key: string)
    ensures DecodeHeader(Request(key), CONNECTION) == "Upgrade"
  {
    RequestLineLacks();
    hide RequestLine, PragmaLine, CacheLine, VersionLine, EncodingLine, ExtensionLine, DecodeHeader;
    var post := PragmaLine() + CacheLine() + UPGRADE + "websocket" + EOL + VersionLine() + EncodingLine()
                + SEC_WEBSOCKET_KEY + key + EOL + ExtensionLine() + EOL;
    assert Request(key) == RequestLine() + EOL + CONNECTION + "Upgrade" + EOL + post;
    HeaderByAnchor(RequestLine() + EOL, CONNECTION, "Upgrade", post, 0);
  }

  lemma RequestUpgrade(key: string)
    ensures DecodeHeader(Request(key), UPGRADE) == "websocket"
  {
    RequestLineLacks();
    PragmaLineLacks();
    CacheLineLacks();
    HeaderNames();
    hide RequestLine, PragmaLine, CacheLine, VersionLine, EncodingLine, ExtensionLine, DecodeHeader;
    var a, b := RequestLine() + EOL + CONNECTION, PragmaLine() + CacheLine();
    var post := VersionLine() + EncodingLine() + SEC_WEBSOCKET_KEY + key + EOL + ExtensionLine() + EOL;
    assert Request(key) == a + "Upgrade" + EOL + b + UPGRADE + "websocket" + EOL + post;
    UpgradeHeader(a, b, post);
  }

  /** Everything before the name of the key header. */
  function BeforeKey(): string
  {
    RequestLine() + EOL + CONNECTION + "Upgrade" + EOL + PragmaLine() + CacheLine() + UPGRADE + "websocket" + EOL
    + VersionLine() + EncodingLine()
  }

  lemma BeforeKeyLacks()
    ensures 'K' !in BeforeKey() && 'O' !in BeforeKey()
  {
    RequestLineLacks();
    PragmaLineLacks();
    CacheLineLacks();
    VersionLineLacks();
    EncodingLineLacks();
    HeaderNames();
    hide RequestLine, PragmaLine, CacheLine, VersionLine, EncodingLine;
  }

  lemma RequestKey(key: string)
    requires IsToken(key)
    ensures DecodeHeader(Request(key), SEC_WEBSOCKET_KEY) == key
  {
    BeforeKeyLacks();
    HeaderNames();
    hide BeforeKey, ExtensionLine, DecodeHeader;
    var post := ExtensionLine() + EOL;
    RequestAroundKey(key);
    assert BeforeKey() + SEC_WEBSOCKET_KEY + key + (EOL + post) == BeforeKey() + SEC_WEBSOCKET_KEY + key + EOL + post;
    HeaderByAnchor(BeforeKey(), SEC_WEBSOCKET_KEY, key, post, 14);
  }

  lemma RequestAroundKey(key: string)
    ensures Request(key) == BeforeKey() + SEC_WEBSOCKET_KEY + key + (EOL + (ExtensionLine() + EOL))
  {
    hide RequestLine, PragmaLine, CacheLine, VersionLine, EncodingLine, ExtensionLine;
  }

  /** An `Origin` header could only begin inside the key, and it cannot end there or go beyond it. */
  lemma NoOrigin(a: string, key: string, c: string)
    requires 'O' !in a && 'O' !in c && IsToken(key) && c != "" && c[0] == '\r'
    ensures DecodeHeader(a + key + c, ORIGIN) == ""
  {
    var s, q := a + key + c, |a| + |key|;
    forall j: nat
      ensures !Occurs(s, ORIGIN, j)
    {
      if |a| <= j < q && j + 7 < q {
        assert s[j + 7] == key[j + 7 - |a|];
        Differs(s, ORIGIN, j, 7);
      } else if |a| <= j < q {
        assert s[q] == c[0];
        Differs(s, ORIGIN, j, q - j);
      } else {
        assert j < |s| ==> s[j] == if j < |a| then a[j] else c[j - q];
        Differs(s, ORIGIN, j, 0);
      }
    }
  }

  lemma RequestOrigin(key: string)
    requires IsToken(key)
    ensures DecodeHeader(Request(key), ORIGIN) == ""
  {
    BeforeKeyLacks();
    ExtensionLineLacks();
    HeaderNames();
    hide BeforeKey, ExtensionLine, DecodeHeader;
    RequestAroundKey(key);
    NoOrigin(BeforeKey() + SEC_WEBSOCKET_KEY, key, EOL + (ExtensionLine() + EOL));
  }

  lemma RequestLineWords()
    ensures var l := RequestLine();
            && |l| == 14 && l[..3] == GET && l[3] == ' ' && l[5] == ' ' && l[6..] == "HTTP/1.1" && '\r' !in l
            && l[0] != ' ' && l[1] != ' ' && l[2] != ' ' && l[4] != ' '
  {
  }

  /** The request line gives the version, whatever follows. */
  lemma RequestLineVersion(rest: string)
    ensures var s := RequestLine() + EOL + rest;
            Find(s, GET, 0) == Some(0) && RequestVersion(s, 0) == "HTTP/1.1"
  {
    RequestLineWords();
    hide RequestLine, Find;
    var l := RequestLine();
    var s := l + EOL + rest;
    assert forall j | 0 <= j < 14 :: s[j] == l[j];
    assert s[0..3] == l[..3];
    FirstOccurrence(s, GET, 0, 0);
    assert s[14..16] == EOL;
    assert s[0..14] == l;
    FindEol(s, 0, 14);
    FindSpace(s, 0, 3);
    FindSpace(s, 4, 5);
    assert s[6..14] == l[6..];
  }

  lemma {:induction false} FindSpace(s: string, from: nat, k: nat)
    requires from <= k < |s| && s[k] == ' ' && forall j | from <= j < k :: s[j] != ' '
    ensures Find(s, " ", from) == Some(k)
  {
    assert Occurs(s, " ", k);
    forall j | from <= j < k
      ensures !Occurs(s, " ", j)
    {
      Differs(s, " ", j, 0);
    }
    FirstOccurrence(s, " ", from, k);
  }

  // --------------------------------------------------------- the reply parses

  lemma ReplyConnection(accept: string)
    ensures DecodeHeader(Reply(accept), CONNECTION) == "Upgrade"
  {
    SwitchingProtocolsLacks();
    hide SwitchingProtocols, DecodeHeader;
    var post := UPGRADE + "websocket" + EOL + SEC_WEBSOCKET_ACCEPT + accept + EOL + EOL;
    assert Reply(accept) == SwitchingProtocols() + EOL + CONNECTION + "Upgrade" + EOL + post;
    HeaderByAnchor(SwitchingProtocols() + EOL, CONNECTION, "Upgrade", post, 0);
  }

  lemma ReplyUpgrade(accept: string)
    ensures DecodeHeader(Reply(accept), UPGRADE) == "websocket"
  {
    SwitchingProtocolsLacks();
    HeaderNames();
    hide SwitchingProtocols, DecodeHeader;
    var a := SwitchingProtocols() + EOL + CONNECTION;
    var post := SEC_WEBSOCKET_ACCEPT + accept + EOL + EOL;
    assert Reply(accept) == a + "Upgrade" + EOL + "" + UPGRADE + "websocket" + EOL + post;
    UpgradeHeader(a, "", post);
  }

  lemma ReplyAccept(accept: string)
    requires IsToken(accept)
    ensures DecodeHeader(Reply(accept), SEC_WEBSOCKET_ACCEPT) == accept
  {
    SwitchingProtocolsLacks();
    HeaderNames();
    hide SwitchingProtocols, DecodeHeader;
    var pre := SwitchingProtocols() + EOL + CONNECTION + "Upgrade" + EOL + UPGRADE + "websocket" + EOL;
    HeaderByAnchor(pre, SEC_WEBSOCKET_ACCEPT, accept, EOL, 14);
  }

  /** The status line gives the version and the status, whatever follows. */
  lemma StatusLine(rest: string)
    ensures var s := SwitchingProtocols() + rest;
            Find(s, HTTP, 0) == Some(0) && ResponseVersion(s, 0) == "HTTP/1.1" && Status(s, 8) == "101"
  {
    var s := SwitchingProtocols() + rest;
    assert s[..12] == "HTTP/1.1 101" && s[12] == ' ';
    assert s[..12][8] == ' ' && s[..12][9] == '1';
    StatusOf(s, "HTTP/1.1 101");
  }

  lemma {:induction false} StatusOf(s: string, head: string)
    requires |head| == 12 && head[..8] == "HTTP/1.1" && head[8] == ' ' && ' ' !in head[9..]
    requires |s| > 12 && s[..12] == head && s[12] == ' '
    ensures Find(s, HTTP, 0) == Some(0) && ResponseVersion(s, 0) == "HTTP/1.1" && Status(s, 8) == head[9..]
  {
    assert forall j | 0 <= j < 12 :: s[j] == head[j];
    assert forall j | 0 <= j < 8 :: head[j] == head[..8][j];
    assert forall j | 9 <= j < 12 :: head[j] == head[9..][j - 9];
    assert s[0..4] == HTTP;
    FindSpace(s, 0, 8);
    FindSpace(s, 9, 12);
    assert s[0..8] == "HTTP/1.1";
    assert s[9..12] == head[9..];
  }

  lemma ReplyStatus(accept: string)
    ensures Find(Reply(accept), HTTP, 0) == Some(0)
    ensures ResponseVersion(Reply(accept), 0) == "HTTP/1.1" && Status(Reply(accept), 8) == "101"
  {
    hide SwitchingProtocols, Status, ResponseVersion, Find;
    var rest := EOL + CONNECTION + "Upgrade" + EOL + UPGRADE + "websocket" + EOL
                + SEC_WEBSOCKET_ACCEPT + accept + EOL + EOL;
    assert Reply(accept) == SwitchingProtocols() + rest;
    StatusLine(rest);
  }

  // -------------------------------------------------------------- agreement

  lemma RequestLength(key: string)
    requires |key| == KEY_LENGTH
    ensures |Request(key)| <= HTTP_HANDSHAKE_MAX_LEN
  {
  }

  /** A client's request for any key made of base64 characters is upgraded for exactly that key. */
  lemma RequestIsUpgraded(key: string, localOrigin: string -> bool)
    requires IsToken(key)
    ensures ServerAnswer(Request(key), localOrigin, true) == Upgraded(key)
  {
    RequestConnection(key);
    RequestUpgrade(key);
    RequestKey(key);
    RequestOrigin(key);
    RequestStart(key);
    LowerValues();
    hide Request, RequestVersion, DecodeHeader, Find;
  }

  lemma RequestStart(key: string)
    ensures Find(Request(key), GET, 0) == Some(0) && RequestVersion(Request(key), 0) == "HTTP/1.1"
  {
    hide RequestLine, PragmaLine, CacheLine, VersionLine, EncodingLine, ExtensionLine, Find, RequestVersion;
    var rest := CONNECTION + "Upgrade" + EOL + PragmaLine() + CacheLine() + UPGRADE + "websocket" + EOL
                + VersionLine() + EncodingLine() + SEC_WEBSOCKET_KEY + key + EOL + ExtensionLine() + EOL;
    assert Request(key) == RequestLine() + EOL + rest;
    RequestLineVersion(rest);
  }

  lemma LowerValues()
    ensures Lower("Upgrade") == "upgrade" && Lower("websocket") == "websocket"
    ensures Find(Lower("Upgrade"), "upgrade", 0).Some? && Find(Lower("websocket"), "websocket", 0).Some?
  {
    assert Occurs("upgrade", "upgrade", 0);
    assert Occurs("websocket", "websocket", 0);
  }

  /** A reply made for key `k'` is accepted by a client with key `k` exactly when the digests of both keys agree. */
  lemma ReplyIsAccepted(sha1: string -> Octets, k: string, k': string)
    requires IsSha1(sha1)
    ensures ClientAccepts(sha1, k, Reply(EncodeKey(sha1, k'))) <==>
              sha1(k + WEB_SOCKET_GUID) == sha1(k' + WEB_SOCKET_GUID)
  {
    var accept := EncodeKey(sha1, k');
    EncodeKeyShape(sha1, k');
    ReplyStatus(accept);
    ReplyConnection(accept);
    ReplyUpgrade(accept);
    ReplyAccept(accept);
    LowerValues();
    EncodeKeyAgrees(sha1, k, k');
    TokenTrimmed(accept, EncodeKey(sha1, k));
    hide Reply, Status, ResponseVersion, DecodeHeader, Find, EncodeKey, Trimmed;
  }

  lemma TokenTrimmed(s: string, r: string)
    requires IsToken(s)
    ensures Trimmed(s, r) <==> r == s
  {
    assert AllSpace("") && s == "" + s + "";
    if Trimmed(s, r) {
      TrimmedSolid(s, r);
    }
  }

  /** The handshake of a client with its own server succeeds for every key that the client can draw. */
  lemma {:induction false} HandshakeSucceeds(nonce: Octets, sha1: string -> Octets, localOrigin: string -> bool)
    requires |nonce| == 16 && IsSha1(sha1)
    ensures var key := Text(Encoded(nonce));
            && |key| == KEY_LENGTH && |Request(key)| <= HTTP_HANDSHAKE_MAX_LEN
            && ServerAnswer(Request(key), localOrigin, true) == Upgraded(key)
            && ClientAccepts(sha1, key, Reply(EncodeKey(sha1, key)))
  {
    hide Encoded, Request, Reply, ServerAnswer, ClientAccepts, EncodeKey;
    var key := Text(Encoded(nonce));
    EncodedLength(nonce);
    EncodedIsToken(nonce);
    RequestLength(key);
    RequestIsUpgraded(key, localOrigin);
    ReplyIsAccepted(sha1, key, key);
  }

  lemma {:induction false} BadRequestHead(s: string, head: string)
    requires head == "HTTP/1.1 400" && |s| > 12 && s[..12] == head && s[12] == ' '
    ensures Find(s, HTTP, 0) == Some(0) && ResponseVersion(s, 0) == "HTTP/1.1" && Status(s, 8) == "400"
  {
    assert head[..8] == "HTTP/1.1" && head[9..] == "400";
    StatusOf(s, head);
  }

  /** No client accepts the reply to an invalid request. */
  lemma BadRequestIsRejected(sha1: string -> Octets, key: string)
    ensures !ClientAccepts(sha1, key, BAD_REQUEST_RESPONSE)
  {
    hide Find, Status, ResponseVersion, DecodeHeader;
    var s := BAD_REQUEST_RESPONSE;
    assert s[..12] == "HTTP/1.1 400" && s[12] == ' ';
    BadRequestHead(s, "HTTP/1.1 400");
  }
}
