/**
 The parsers of the opening handshake (websocket/http.cpp) and the string
 helpers they are used with.  A position that `std::string::find` may not find
 is an `Option`.
 */
module Http {
  import opened Options

  const EOL := "\r\n"
  const GET := "GET"
  const HTTP := "HTTP"
  const CONNECTION := "Connection: "
  const UPGRADE := "Upgrade: "
  const ORIGIN := "Origin: "
  const SEC_WEBSOCKET_ACCEPT := "Sec-WebSocket-Accept: "
  const SEC_WEBSOCKET_KEY := "Sec-WebSocket-Key: "

  // --------------------------------------------------------------- searching

  predicate Occurs(s: string, p: string, k: nat)
  {
    k + |p| <= |s| && s[k..k + |p|] == p
  }

  /** `s.find(p, from)`: the first occurrence at or after `from`. */
  function Find(s: string, p: string, from: nat): (r: Option<nat>)
    ensures r.Some? ==> from <= r.value && Occurs(s, p, r.value)
    ensures r.Some? ==> forall j | from <= j < r.value :: !Occurs(s, p, j)
    ensures r.None? ==> forall j | from <= j :: !Occurs(s, p, j)
    decreases |s| - from
  {
    if from > |s| then None
    else if Occurs(s, p, from) then Some(from)
    else Find(s, p, from + 1)
  }

  /** `s.find_first_not_of(c, from)` */
  function FindNot(s: string, c: char, from: nat): (r: Option<nat>)
    ensures r.Some? ==> from <= r.value < |s| && s[r.value] != c
    ensures r.Some? ==> forall j | from <= j < r.value :: s[j] == c
    ensures r.None? ==> forall j | from <= j < |s| :: s[j] == c
    decreases |s| - from
  {
    if from >= |s| then None
    else if s[from] != c then Some(from)
    else FindNot(s, c, from + 1)
  }

  // ------------------------------------------------- what a parser shall find

  /** `k` is the first place at or after `from` where `p` occurs. */
  ghost predicate IsFirst(s: string, p: string, from: nat, k: nat)
  {
    from <= k && Occurs(s, p, k) && forall j | from <= j < k :: !Occurs(s, p, j)
  }

  ghost predicate Absent(s: string, p: string, from: nat)
  {
    forall j | from <= j :: !Occurs(s, p, j)
  }

  /** The line that `from` is in ends at `e`: at the next line end, or with the text. */
  ghost predicate LineEnds(s: string, from: nat, e: nat)
  {
    IsFirst(s, EOL, from, e) || (Absent(s, EOL, from) && e == |s|)
  }

  function Between(s: string, a: nat, b: nat): string
  {
    if a < b <= |s| then s[a..b] else ""
  }

  ghost predicate HeaderAt(text: string, name: string, k: nat, e: nat)
  {
    IsFirst(text, name, 0, k) && LineEnds(text, k, e)
  }

  /** `v` stands between the first `name` of the text and the end of its line; without `name` it is empty. */
  ghost predicate IsHeader(text: string, name: string, v: string)
  {
    if Absent(text, name, 0) then v == ""
    else exists k: nat, e: nat :: HeaderAt(text, name, k, e) && v == Between(text, k + |name|, e)
  }

  ghost predicate SecondSpace(text: string, start: nat, a: nat, b: nat)
  {
    IsFirst(text, " ", start, a) && IsFirst(text, " ", a + 1, b)
  }

  /** `v` stands between the second space behind `start` and the end of the line of `start`. */
  ghost predicate IsThirdWord(text: string, start: nat, v: string)
  {
    if forall a, b :: !SecondSpace(text, start, a, b) then v == ""
    else exists a: nat, b: nat, e: nat ::
      SecondSpace(text, start, a, b) && LineEnds(text, start, e) && v == Between(text, b + 1, e)
  }

  /** `v` stands between `start` and the next space. */
  ghost predicate IsFirstWord(text: string, start: nat, v: string)
  {
    if Absent(text, " ", start) then v == ""
    else exists e: nat :: IsFirst(text, " ", start, e) && v == Between(text, start, e)
  }

  /** From `at` on there are spaces up to `a`; the word at `a` ends at `e` with a space or, without one, a line end. */
  ghost predicate WordAfter(text: string, at: nat, a: nat, e: nat)
  {
    && at < a < |text| && text[a] != ' ' && (forall j | at <= j < a :: text[j] == ' ')
    && (IsFirst(text, " ", a, e) || (Absent(text, " ", a) && IsFirst(text, EOL, a, e)))
  }

  /** `v` is the word behind the spaces at `at`. */
  ghost predicate IsWordAfter(text: string, at: nat, v: string)
  {
    if forall a, e :: !WordAfter(text, at, a, e) then v == ""
    else exists a, e :: WordAfter(text, at, a, e) && v == Between(text, a, e)
  }

  // ----------------------------------------------------------------- parsing

  function DecodeHeader(headersText: string, headerName: string): (v: string)
    ensures IsHeader(headersText, headerName, v)
  {
    match Find(headersText, headerName, 0)
    case None => ""
    case Some(startPos) =>
      var endOfLinePos := Find(headersText, EOL, startPos);
      var e := if endOfLinePos.Some? then endOfLinePos.value else |headersText|;
      assert HeaderAt(headersText, headerName, startPos, e);
      Between(headersText, startPos + |headerName|, e)
  }

  /** `HttpRequest::DecodeVersion` */
  function RequestVersion(request: string, methodStartPos: nat): (v: string)
    ensures IsThirdWord(request, methodStartPos, v)
  {
    if methodStartPos >= |request| then ""
    else
      var endOfLinePos := Find(request, EOL, methodStartPos);
      match Find(request, " ", methodStartPos)
      case None => ""
      case Some(first) =>
        match Find(request, " ", first + 1)
        case None => ""
        case Some(second) =>
          var e := if endOfLinePos.Some? then endOfLinePos.value else |request|;
          assert SecondSpace(request, methodStartPos, first, second) && LineEnds(request, methodStartPos, e);
          Between(request, second + 1, e)
  }

  /** `HttpResponse::DecodeVersion` */
  function ResponseVersion(response: string, versionStartPos: nat): (v: string)
    ensures IsFirstWord(response, versionStartPos, v)
  {
    if versionStartPos >= |response| then ""
    else
      match Find(response, " ", versionStartPos)
      case None => ""
      case Some(end) =>
        assert IsFirst(response, " ", versionStartPos, end);
        response[versionStartPos..end]
  }

  /** `HttpResponse::DecodeStatus` */
  function Status(response: string, versionEndPos: nat): (v: string)
    ensures IsWordAfter(response, versionEndPos, v)
  {
    if versionEndPos >= |response| || response[versionEndPos] != ' ' then ""
    else
      match FindNot(response, ' ', versionEndPos)
      case None => ""
      case Some(start) =>
        var space := Find(response, " ", start);
        match (if space.None? then Find(response, EOL, start) else space)
        case None => ""
        case Some(end) =>
          assert WordAfter(response, versionEndPos, start, end);
          response[start..end]
  }

  // The four descriptions leave one value each.

  lemma FirstUnique(s: string, p: string, from: nat, k: nat, k': nat)
    requires IsFirst(s, p, from, k) && IsFirst(s, p, from, k')
    ensures k == k'
  {
  }

  lemma LineEndUnique(s: string, from: nat, e: nat, e': nat)
    requires LineEnds(s, from, e) && LineEnds(s, from, e')
    ensures e == e'
  {
  }

  lemma HeaderUnique(text: string, name: string, v: string)
    requires IsHeader(text, name, v)
    ensures v == DecodeHeader(text, name)
  {
    hide DecodeHeader, Find, IsFirst, LineEnds, Between;
    var w := DecodeHeader(text, name);
    if !Absent(text, name, 0) {
      var k: nat, e: nat :| HeaderAt(text, name, k, e) && v == Between(text, k + |name|, e);
      var k': nat, e': nat :| HeaderAt(text, name, k', e') && w == Between(text, k' + |name|, e');
      FirstUnique(text, name, 0, k, k');
      LineEndUnique(text, k, e, e');
    }
  }

  lemma ThirdWordUnique(text: string, start: nat, v: string)
    requires IsThirdWord(text, start, v)
    ensures v == RequestVersion(text, start)
  {
    hide RequestVersion, Find, IsFirst, LineEnds, Between;
    var w := RequestVersion(text, start);
    if exists a, b :: SecondSpace(text, start, a, b) {
      var a: nat, b: nat, e: nat :|
        SecondSpace(text, start, a, b) && LineEnds(text, start, e) && v == Between(text, b + 1, e);
      var a': nat, b': nat, e': nat :|
        SecondSpace(text, start, a', b') && LineEnds(text, start, e') && w == Between(text, b' + 1, e');
      FirstUnique(text, " ", start, a, a');
      FirstUnique(text, " ", a + 1, b, b');
      LineEndUnique(text, start, e, e');
    }
  }

  lemma FirstWordUnique(text: string, start: nat, v: string)
    requires IsFirstWord(text, start, v)
    ensures v == ResponseVersion(text, start)
  {
    hide ResponseVersion, Find, Between;
    var w := ResponseVersion(text, start);
    if !Absent(text, " ", start) {
      var e :| IsFirst(text, " ", start, e) && v == Between(text, start, e);
      var e' :| IsFirst(text, " ", start, e') && w == Between(text, start, e');
      FirstUnique(text, " ", start, e, e');
    }
  }

  lemma WordAfterUnique(text: string, at: nat, v: string)
    requires IsWordAfter(text, at, v)
    ensures v == Status(text, at)
  {
    hide Status, Find, FindNot, Between;
    var w := Status(text, at);
    if exists a, e :: WordAfter(text, at, a, e) {
      var a, e :| WordAfter(text, at, a, e) && v == Between(text, a, e);
      var a', e' :| WordAfter(text, at, a', e') && w == Between(text, a', e');
      assert a == a';
      assert e == e';
    }
  }

  /** `ValidateHttpRequestOrigin`, with the two regular expressions as an unknown test. */
  predicate OriginIsSafe(localOrigin: string -> bool, origin: string)
  {
    origin == "" || localOrigin(origin)
  }

  class HttpRequest {
    var version: string
    var connection: string
    var upgrade: string
    var secWebSocketKey: string
    var origin: string

    constructor ()
    {
      version, connection, upgrade, secWebSocketKey, origin := "", "", "", "", "";
    }

    method Decode(request: string, localOrigin: string -> bool) returns (ok: bool)
      modifies this
      ensures Absent(request, GET, 0) ==> !ok && unchanged(this)
      ensures !Absent(request, GET, 0) ==>
                && (exists pos :: IsFirst(request, GET, 0, pos) && IsThirdWord(request, pos, version))
                && IsHeader(request, CONNECTION, connection)
                && IsHeader(request, UPGRADE, upgrade)
                && IsHeader(request, SEC_WEBSOCKET_KEY, secWebSocketKey)
                && IsHeader(request, ORIGIN, origin)
                && ok == OriginIsSafe(localOrigin, origin)
    {
      hide IsHeader, IsThirdWord, RequestVersion, DecodeHeader, Find;
      var pos := Find(request, GET, 0);
      if pos.None? {
        return false;
      }
      assert IsFirst(request, GET, 0, pos.value);
      version := RequestVersion(request, pos.value);
      connection := DecodeHeader(request, CONNECTION);
      upgrade := DecodeHeader(request, UPGRADE);
      secWebSocketKey := DecodeHeader(request, SEC_WEBSOCKET_KEY);
      origin := DecodeHeader(request, ORIGIN);
      return OriginIsSafe(localOrigin, origin);
    }
  }

  class HttpResponse {
    var version: string
    var status: string
    var connection: string
    var upgrade: string
    var secWebSocketAccept: string

    constructor ()
    {
      version, status, connection, upgrade, secWebSocketAccept := "", "", "", "", "";
    }

    method Decode(response: string) returns (ok: bool)
      modifies this
      ensures ok <==> !Absent(response, HTTP, 0)
      ensures !ok ==> unchanged(this)
      ensures ok ==>
                && (exists start: nat :: IsFirst(response, HTTP, 0, start) && IsFirstWord(response, start, version)
                                    && IsWordAfter(response, start + |version|, status))
                && IsHeader(response, CONNECTION, connection)
                && IsHeader(response, UPGRADE, upgrade)
                && IsHeader(response, SEC_WEBSOCKET_ACCEPT, secWebSocketAccept)
    {
      hide IsHeader, IsFirstWord, IsWordAfter, ResponseVersion, Status, DecodeHeader, Find;
      var versionStartPos := Find(response, HTTP, 0);
      if versionStartPos.None? {
        return false;
      }
      assert IsFirst(response, HTTP, 0, versionStartPos.value);
      version := ResponseVersion(response, versionStartPos.value);
      status := Status(response, versionStartPos.value + |version|);
      connection := DecodeHeader(response, CONNECTION);
      upgrade := DecodeHeader(response, UPGRADE);
      secWebSocketAccept := DecodeHeader(response, SEC_WEBSOCKET_ACCEPT);
      return true;
    }
  }

  // ---------------------------------------------- what the searches find

  lemma OccursAt(pre: string, p: string, post: string)
    ensures Occurs(pre + p + post, p, |pre|)
  {
  }

  /** One character that differs rules out an occurrence. */
  lemma Differs(s: string, p: string, k: nat, i: nat)
    requires i < |p| && (k + i < |s| ==> s[k + i] != p[i])
    ensures !Occurs(s, p, k)
  {
    if k + |p| <= |s| {
      assert s[k..k + |p|][i] == s[k + i];
    }
  }

  lemma {:induction false} FirstOccurrence(s: string, p: string, from: nat, k: nat)
    requires from <= k && Occurs(s, p, k) && forall j | from <= j < k :: !Occurs(s, p, j)
    ensures Find(s, p, from) == Some(k)
  {
  }

  /** A pattern is found behind any text that lacks one of its characters. */
  lemma {:induction false} FindByAnchor(pre: string, p: string, post: string, a: nat)
    requires a < |p| && p[a] !in pre && p[a] !in p[..a]
    ensures Find(pre + p + post, p, 0) == Some(|pre|)
  {
    var s := pre + p + post;
    OccursAt(pre, p, post);
    forall j | 0 <= j < |pre|
      ensures !Occurs(s, p, j)
    {
      assert s[j + a] == if j + a < |pre| then pre[j + a] else p[..a][j + a - |pre|];
      Differs(s, p, j, a);
    }
    FirstOccurrence(s, p, 0, |pre|);
  }

  /** The first line end behind `from` when there is no carriage return in between. */
  lemma {:induction false} FindEol(s: string, from: nat, end: nat)
    requires from <= end && Occurs(s, EOL, end) && '\r' !in s[from..end]
    ensures Find(s, EOL, from) == Some(end)
  {
    forall j | from <= j < end
      ensures !Occurs(s, EOL, j)
    {
      assert s[j] == s[from..end][j - from];
      Differs(s, EOL, j, 0);
    }
    FirstOccurrence(s, EOL, from, end);
  }

  /** A header line whose name is found yields its value, whatever stands before and after the line. */
  lemma {:induction false} HeaderValue(pre: string, name: string, value: string, post: string)
    requires '\r' !in name && '\r' !in value
    requires Find(pre + name + value + EOL + post, name, 0) == Some(|pre|)
    ensures DecodeHeader(pre + name + value + EOL + post, name) == value
  {
    var s := pre + name + value + EOL + post;
    var end := |pre| + |name| + |value|;
    assert s[|pre|..end] == name + value;
    assert Occurs(s, EOL, end);
    FindEol(s, |pre|, end);
    assert s[|pre| + |name|..end] == value;
  }

  /** The value of a header in the last line of a text, which no line end follows. */
  lemma {:induction false} HeaderAtEnd(pre: string, name: string, value: string)
    requires '\r' !in name && '\r' !in value && Find(pre + name + value, name, 0) == Some(|pre|)
    ensures DecodeHeader(pre + name + value, name) == value
  {
    var s, k := pre + name + value, |pre|;
    forall j | k <= j
      ensures !Occurs(s, EOL, j)
    {
      if j < |s| {
        assert s[j] == (name + value)[j - k];
      }
      Differs(s, EOL, j, 0);
    }
    assert Find(s, EOL, k).None?;
    assert s[k + |name|..|s|] == value;
  }

  // ------------------------------------------------------------ string helpers

  function LowerChar(c: char): char
  {
    if 'A' <= c <= 'Z' then c + 32 as char else c
  }

  function Lower(s: string): (r: string)
    ensures |r| == |s| && forall i | 0 <= i < |s| :: r[i] == LowerChar(s[i])
  {
    seq(|s|, i requires 0 <= i < |s| => LowerChar(s[i]))
  }

  /** `std::isspace` in the C locale */
  predicate IsSpace(c: char)
  {
    c == ' ' || '\t' <= c <= '\r'
  }

  predicate AllSpace(s: string)
  {
    forall i | 0 <= i < |s| :: IsSpace(s[i])
  }

  method ToLowerCase(str: string) returns (r: string)
    ensures r == Lower(str)
  {
    r := "";
    for i := 0 to |str|
      invariant r == Lower(str)[..i]
    {
      r := r + [LowerChar(str[i])];
    }
  }

  method TrimLeft(str: string) returns (r: string)
    ensures exists l :: AllSpace(l) && str == l + r
    ensures r == "" || !IsSpace(r[0])
  {
    var i := 0;
    while i < |str| && IsSpace(str[i])
      invariant 0 <= i <= |str| && AllSpace(str[..i])
    {
      i := i + 1;
    }
    r := str[i..];
    assert str == str[..i] + r;
  }

  method TrimRight(str: string) returns (r: string)
    ensures exists t :: AllSpace(t) && str == r + t
    ensures r == "" || !IsSpace(r[|r| - 1])
  {
    var i := |str|;
    while i > 0 && IsSpace(str[i - 1])
      invariant 0 <= i <= |str| && AllSpace(str[i..])
    {
      i := i - 1;
    }
    r := str[..i];
    assert str == r + str[i..];
  }

  /** `r` is `s` without the white space around it. */
  ghost predicate Trimmed(s: string, r: string)
  {
    && (exists l, t :: AllSpace(l) && AllSpace(t) && s == l + r + t)
    && (r == "" || (!IsSpace(r[0]) && !IsSpace(r[|r| - 1])))
  }

  method Trim(str: string) returns (r: string)
    ensures Trimmed(str, r)
  {
    var m := TrimLeft(str);
    ghost var l :| AllSpace(l) && str == l + m;
    r := TrimRight(m);
    ghost var t :| AllSpace(t) && m == r + t;
    assert str == l + r + t;
    assert r != "" ==> r[0] == m[0];
  }

  lemma SpaceInside(l: string, r: string, t: string)
    requires AllSpace(l) && AllSpace(t) && l + r + t != r
    ensures exists c :: c in l + r + t && IsSpace(c)
  {
    var s := l + r + t;
    if l == "" {
      assert s[|s| - 1] == t[|t| - 1];
    } else {
      assert s[0] == l[0];
    }
  }

  /** A text without white space is its own trimming. */
  lemma TrimmedSolid(s: string, r: string)
    requires Trimmed(s, r) && forall c | c in s :: !IsSpace(c)
    ensures r == s
  {
    var l, t :| AllSpace(l) && AllSpace(t) && s == l + r + t;
    if r != s {
      SpaceInside(l, r, t);
    }
  }
}
