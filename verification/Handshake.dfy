/**
 The opening handshake (sections 1.3, 4.1 and 4.2.2 of RFC 6455) end to end:
 the client's request, the server's fixed-layout reply, and what each side makes
 of the other's text.  SHA-1 is an unknown function with 20-byte results; the
 base64 step behind it is the one of module `Base64`.
 */
module Handshake {
  import opened Bytes
  import opened Base64
  import Base64RoundTrip
  import opened Http

  const KEY_LENGTH := 24
  const SHA_DIGEST_LENGTH := 20
  const ENCODED_KEY_LEN := 28
  const HTTP_HANDSHAKE_MAX_LEN := 1024
  const WEB_SOCKET_GUID := "258EAFA5-E914-47DA-95CA-C5AB0DC85B11"

  // -------------------------------------------------------------- key values

  /** The characters of base64 text, padding included. */
  predicate IsTokenChar(c: char)
  {
    'A' <= c <= 'Z' || 'a' <= c <= 'z' || '0' <= c <= '9' || c == '+' || c == '/' || c == '='
  }

  predicate IsToken(s: string)
  {
    forall i | 0 <= i < |s| :: IsTokenChar(s[i])
  }

  function Text(b: Octets): (s: string)
    ensures |s| == |b| && forall i | 0 <= i < |b| :: s[i] == b[i] as char
  {
    seq(|b|, i requires 0 <= i < |b| => b[i] as char)
  }

  lemma TextInjective(a: Octets, b: Octets)
    requires Text(a) == Text(b)
    ensures a == b
  {
    forall i | 0 <= i < |a|
      ensures a[i] == b[i]
    {
      assert Text(a)[i] as int == a[i] && Text(b)[i] as int == b[i];
    }
  }

  lemma {:induction false} EncodedIsToken(b: Octets)
    ensures IsToken(Text(Encoded(b)))
  {
    hide Plain, Encoded;
    var t, p := Encoded(b), Base64RoundTrip.PadCount(|b|);
    Base64RoundTrip.EncodedSpells(b);
    forall i | 0 <= i < |t|
      ensures IsTokenChar(Text(t)[i])
    {
      if i < |t| - p {
        assert t[..|t| - p][i] == t[i];
      }
    }
  }

  ghost predicate IsSha1(sha1: string -> Octets)
  {
    forall s :: |sha1(s)| == SHA_DIGEST_LENGTH
  }

  /** `WebSocketKeyEncoder::EncodeKey` */
  function EncodeKey(sha1: string -> Octets, key: string): string
  {
    Text(Encoded(sha1(key + WEB_SOCKET_GUID)))
  }

  lemma EncodeKeyShape(sha1: string -> Octets, key: string)
    requires IsSha1(sha1)
    ensures |EncodeKey(sha1, key)| == ENCODED_KEY_LEN && IsToken(EncodeKey(sha1, key))
  {
    EncodedLength(sha1(key + WEB_SOCKET_GUID));
    EncodedIsToken(sha1(key + WEB_SOCKET_GUID));
  }

  /** Base64 loses nothing: two accept values agree exactly when the digests do. */
  lemma EncodeKeyAgrees(sha1: string -> Octets, k: string, k': string)
    requires IsSha1(sha1)
    ensures EncodeKey(sha1, k) == EncodeKey(sha1, k') <==> sha1(k + WEB_SOCKET_GUID) == sha1(k' + WEB_SOCKET_GUID)
  {
    hide Encoded, Decoded;
    var d, d' := sha1(k + WEB_SOCKET_GUID), sha1(k' + WEB_SOCKET_GUID);
    if EncodeKey(sha1, k) == EncodeKey(sha1, k') {
      TextInjective(Encoded(d), Encoded(d'));
      Base64RoundTrip.DecodeOfEncode(d);
      Base64RoundTrip.DecodeOfEncode(d');
    }
  }

  // --------------------------------------------------------------- the texts

  function RequestLine(): string { "GET / HTTP/1.1" }
  function PragmaLine(): string { "Pragma: no-cache\r\n" }
  function CacheLine(): string { "Cache-Control: no-cache\r\n" }
  function VersionLine(): string { "Sec-WebSocket-Version: 13\r\n" }
  function EncodingLine(): string { "Accept-Encoding: gzip, deflate, br\r\n" }
  function ExtensionLine(): string { "Sec-WebSocket-Extensions: " + "permessage-deflate\r\n" }
  function SwitchingProtocols(): string { "HTTP/1.1 101" + " Switching Protocols" }

  const BAD_REQUEST_RESPONSE := "HTTP/1.1 400 Bad Request\r\n\r\n"

  /** The client's request for a key. */
  function Request(key: string): string
  {
    RequestLine() + EOL + CONNECTION + "Upgrade" + EOL + PragmaLine() + CacheLine() + UPGRADE + "websocket" + EOL
    + VersionLine() + EncodingLine() + SEC_WEBSOCKET_KEY + key + EOL + ExtensionLine() + EOL
  }

  /** The server's reply with an accept value. */
  function Reply(accept: string): string
  {
    SwitchingProtocols() + EOL + CONNECTION + "Upgrade" + EOL + UPGRADE + "websocket" + EOL
    + SEC_WEBSOCKET_ACCEPT + accept + EOL + EOL
  }

  // ---------------------------------------------------- the reply in a buffer

  function ConnectionUpgrade(): string { "Connection: Upgrade" }
  function UpgradeWebsocket(): string { "Upgrade: websocket" }
  function AcceptKey(): string { SEC_WEBSOCKET_ACCEPT }
  function Eol(): string { EOL }

  const KEY_START: nat :=
    |SwitchingProtocols()| + |ConnectionUpgrade()| + |UpgradeWebsocket()| + |AcceptKey()| + 3 * |Eol()|
  const MESSAGE_LENGTH: nat := KEY_START + ENCODED_KEY_LEN + 2 * |Eol()|

  function ReplyHead(): (s: string)
  {
    SwitchingProtocols() + Eol() + ConnectionUpgrade() + Eol() + UpgradeWebsocket() + Eol() + AcceptKey()
  }

  lemma ReplyLayout(accept: string)
    ensures |ReplyHead()| == KEY_START
    ensures Reply(accept) == ReplyHead() + accept + (Eol() + Eol())
  {
    hide SwitchingProtocols;
    assert ConnectionUpgrade() == CONNECTION + "Upgrade";
    assert UpgradeWebsocket() == UPGRADE + "websocket";
    var sw, c, w, ak, e := SwitchingProtocols(), ConnectionUpgrade(), UpgradeWebsocket(), AcceptKey(), Eol();
    Regroup(sw, e, CONNECTION, "Upgrade", UPGRADE, "websocket", ak, accept);
  }

  lemma Regroup(sw: string, e: string, c1: string, c2: string, u1: string, u2: string, a: string, k: string)
    ensures sw + e + c1 + c2 + e + u1 + u2 + e + a + k + e + e
         == sw + e + (c1 + c2) + e + (u1 + u2) + e + a + k + (e + e)
  {
  }

  class ProtocolUpgradeBuilder {
    const upgradeBuffer: array<char>

    method CopyStringToBuffer(source: string, startIndex: nat) returns (index: nat)
      requires startIndex + |source| <= upgradeBuffer.Length
      modifies upgradeBuffer
      ensures index == startIndex + |source|
      ensures upgradeBuffer[..index] == old(upgradeBuffer[..startIndex]) + source
      ensures forall j | index <= j < upgradeBuffer.Length :: upgradeBuffer[j] == old(upgradeBuffer[j])
    {
      index := startIndex;
      for i := 0 to |source|
        invariant index == startIndex + i
        invariant upgradeBuffer[..index] == old(upgradeBuffer[..startIndex]) + source[..i]
        invariant forall j | index <= j < upgradeBuffer.Length :: upgradeBuffer[j] == old(upgradeBuffer[j])
      {
        upgradeBuffer[index] := source[i];
        index := index + 1;
      }
    }

    /** The lines up to the key; the running index meets the start of the key. */
    method WriteHead() returns (index: nat)
      requires upgradeBuffer.Length == MESSAGE_LENGTH + 1
      modifies upgradeBuffer
      ensures index == KEY_START && upgradeBuffer[..index] == ReplyHead()
      ensures forall j | index <= j < upgradeBuffer.Length :: upgradeBuffer[j] == old(upgradeBuffer[j])
    {
      hide SwitchingProtocols, ConnectionUpgrade, UpgradeWebsocket, AcceptKey, Eol;
      index := CopyStringToBuffer(SwitchingProtocols(), 0);
      assert upgradeBuffer[..index] == SwitchingProtocols();
      index := CopyStringToBuffer(Eol(), index);
      index := CopyStringToBuffer(ConnectionUpgrade(), index);
      index := CopyStringToBuffer(Eol(), index);
      index := CopyStringToBuffer(UpgradeWebsocket(), index);
      index := CopyStringToBuffer(Eol(), index);
      index := CopyStringToBuffer(AcceptKey(), index);
    }

    /** The layout with a gap for the key, then the key in the gap. */
    constructor (encodedKey: string)
      requires |encodedKey| == ENCODED_KEY_LEN
      ensures fresh(upgradeBuffer) && upgradeBuffer.Length == MESSAGE_LENGTH + 1
      ensures upgradeBuffer[..MESSAGE_LENGTH] == Reply(encodedKey)
      ensures upgradeBuffer[MESSAGE_LENGTH] == '\0'
    {
      hide SwitchingProtocols, ConnectionUpgrade, UpgradeWebsocket, AcceptKey, Eol, ReplyHead, Reply;
      upgradeBuffer := new char[MESSAGE_LENGTH + 1](_ => '\0');
      new;
      var index := WriteHead();
      index := index + ENCODED_KEY_LEN;
      index := CopyStringToBuffer(Eol(), index);
      ghost var gap := upgradeBuffer[..index];
      index := CopyStringToBuffer(Eol(), index);
      assert index == MESSAGE_LENGTH;
      ghost var b := upgradeBuffer[..];
      assert b == gap + Eol() + ['\0'];
      SetKey(encodedKey);
      ReplyLayout(encodedKey);
      assert b[..KEY_START] == ReplyHead();
      assert b[KEY_START + ENCODED_KEY_LEN..] == Eol() + Eol() + ['\0'];
      assert upgradeBuffer[..] == Reply(encodedKey) + ['\0'];
    }

    method SetKey(encodedKey: string)
      requires |encodedKey| == ENCODED_KEY_LEN && upgradeBuffer.Length == MESSAGE_LENGTH + 1
      modifies upgradeBuffer
      ensures upgradeBuffer[..] == old(upgradeBuffer[..KEY_START]) + encodedKey
                                   + old(upgradeBuffer[KEY_START + ENCODED_KEY_LEN..])
    {
      var _ := CopyStringToBuffer(encodedKey, KEY_START);
    }
  }
}
