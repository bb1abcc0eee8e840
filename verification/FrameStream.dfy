/**
 Reading frames from a byte stream: `Recv` over arbitrarily segmented and
 interrupted transfers, `ReadPayload`, the two `DecodeMessage` functions and
 `Decode`, for the server and for the client.
 */
module FrameStream {
  import opened Bytes
  import opened Frames
  import opened Options

  // -------------------------------------------------------------- the socket

  /** How one `recv` ends: interrupted (EINTR, EAGAIN), with an error, or with up to `n` bytes. */
  datatype Outcome = Interrupted | Failed | Chunk(n: nat)

  /** What one `recv` returned; `Got([])` is the end of the stream. */
  datatype Received = Again | Error | Got(data: Octets)

  /**
   `inbox` is what the peer has sent and nobody has read, then the stream ends;
   `script` is the segmentation that the network imposes on the next calls.
   When it is used up, a call returns all that it may.
   */
  class Socket {
    var inbox: Octets
    var script: seq<Outcome>

    constructor (inbox: Octets, script: seq<Outcome>)
      ensures this.inbox == inbox && this.script == script
    {
      this.inbox, this.script := inbox, script;
    }

    ghost predicate Reliable()
      reads this
    {
      Failed !in script
    }

    method RecvOnce(max: nat) returns (r: Received)
      requires max > 0
      modifies this
      ensures r.Got? ==> |r.data| <= max && old(inbox) == r.data + inbox && (r.data == [] ==> old(inbox) == [])
      ensures !r.Got? ==> inbox == old(inbox)
      ensures old(Reliable()) ==> !r.Error? && Reliable()
      ensures r.Again? ==> |script| < |old(script)|
      ensures |script| <= |old(script)|
    {
      var allowed := max;
      if script != [] {
        var outcome := script[0];
        script := script[1..];
        match outcome {
          case Interrupted => return Again;
          case Failed => return Error;
          case Chunk(n) =>
            if n < max {
              allowed := if n == 0 then 1 else n;
            }
        }
      }
      var n := if allowed < |inbox| then allowed else |inbox|;
      r := Got(inbox[..n]);
      inbox := inbox[n..];
    }

    /** Receive exactly `totalLen` bytes, or fail. */
    method Recv(totalLen: nat) returns (ok: bool, buf: Octets)
      modifies this
      ensures ok ==> |buf| == totalLen && old(inbox) == buf + inbox
      ensures old(Reliable()) ==> Reliable() && (ok <==> totalLen <= |old(inbox)|)
    {
      buf := [];
      while |buf| < totalLen
        invariant |buf| <= totalLen && old(inbox) == buf + inbox
        invariant old(Reliable()) ==> Reliable()
        decreases totalLen - |buf|
      {
        var r := RecvOnce(totalLen - |buf|);
        while r.Again?
          invariant !r.Got? ==> old(inbox) == buf + inbox
          invariant r.Got? ==> |r.data| <= totalLen - |buf| && old(inbox) == buf + r.data + inbox
          invariant r.Got? && r.data == [] ==> inbox == []
          invariant old(Reliable()) ==> !r.Error? && Reliable()
          decreases r.Again?, |script|
        {
          r := RecvOnce(totalLen - |buf|);
        }
        if r.Error? || r.data == [] {
          return false, [];
        }
        buf := buf + r.data;
      }
      ok := true;
    }
  }

  /**
   The sending side: `outbox` is what the peer will receive, `script` how many
   bytes the next calls of `send` take, 0 or less for an error.  When it is used
   up, a call takes everything.
   */
  class Wire {
    var outbox: Octets
    var script: seq<int>

    constructor (script: seq<int>)
      ensures outbox == [] && this.script == script
    {
      outbox, this.script := [], script;
    }

    /** No call fails. */
    ghost predicate Willing()
      reads this
    {
      forall i | 0 <= i < |script| :: script[i] > 0
    }

    method SendOnce(data: Octets) returns (len: int)
      requires data != []
      modifies this
      ensures len <= |data| && outbox == old(outbox) + data[..if len <= 0 then 0 else len]
      ensures old(Willing()) ==> Willing() && len > 0
    {
      len := |data|;
      if script != [] {
        len := if script[0] < |data| then script[0] else |data|;
        script := script[1..];
      }
      if len > 0 {
        outbox := outbox + data[..len];
      }
    }

    /** Send all of `buf`; on failure the peer has a proper prefix of it. */
    method Send(buf: Octets) returns (ok: bool, ghost sendLen: nat)
      modifies this
      ensures sendLen <= |buf| && outbox == old(outbox) + buf[..sendLen]
      ensures ok <==> sendLen == |buf|
      ensures old(Willing()) ==> Willing() && ok
    {
      var n := 0;
      while n < |buf|
        invariant 0 <= n <= |buf| && outbox == old(outbox) + buf[..n]
        invariant old(Willing()) ==> Willing()
        decreases |buf| - n
      {
        var len := SendOnce(buf[n..]);
        if len <= 0 {
          return false, n;
        }
        assert buf[..n + len] == buf[..n] + buf[n..][..len];
        n := n + len;
      }
      return true, n;
    }
  }

  // ------------------------------------------------- the meaning of a stream

  datatype Role = Server | Client

  const UNEXPECTED_ERROR: nat := 1011
  const PROTOCOL_ERROR: nat := 1002
  const NO_STATUS_CODE: nat := 0

  function LengthWidth(field: byte): nat
  {
    if field == TWO_BYTES_LENGTH_ENC then 2 else if field == EIGHT_BYTES_LENGTH_ENC then 8 else 0
  }

  /** The payload length after the header, and what is left; `None` if the stream is too short. */
  function ReadLength(field: byte, bytes: Octets): Option<(nat, Octets)>
  {
    var ext := LengthWidth(field);
    if |bytes| < ext then None
    else Some((if ext == 0 then field else Value(bytes[..ext]), bytes[ext..]))
  }

  /** The payload of a known length; a masked one of length 0 has no key in the eyes of the decoder. */
  function TakePayload(role: Role, len: nat, rest: Octets): Option<(Octets, Octets)>
  {
    if len == 0 then Some(([], rest))
    else if role == Client then
      if |rest| < len then None else Some((rest[..len], rest[len..]))
    else if |rest| < MASK_LEN + len then None
    else
      var key: Key := rest[..MASK_LEN];
      Some((Mask(rest[MASK_LEN..MASK_LEN + len], key), rest[MASK_LEN + len..]))
  }

  /** The payload after the header, and what is left. */
  function ReadPayload(role: Role, field: byte, bytes: Octets): Option<(Octets, Octets)>
  {
    match ReadLength(field, bytes)
    case None => None
    case Some((len, rest)) => TakePayload(role, len, rest)
  }

  /** What one `Decode` does with a stream on which no transfer fails. */
  datatype Decoded =
    | Returned(payload: Octets, rest: Octets, pong: bool)
    | PeerClosed(rest: Octets)
    | Disconnected(status: nat)

  function Deliver(p: Option<(Octets, Octets)>, pong: bool): Decoded
  {
    match p
    case None => Disconnected(PROTOCOL_ERROR)
    case Some((payload, rest)) => Returned(payload, rest, pong)
  }

  function DecodeOne(role: Role, bytes: Octets): Decoded
  {
    if |bytes| < HEADER_LEN then Disconnected(UNEXPECTED_ERROR) else
    var h, rest := ReadHeader(bytes[..HEADER_LEN]), bytes[HEADER_LEN..];
    if h.mask != (if role == Server then 1 else 0) then Disconnected(PROTOCOL_ERROR)
    else if h.opcode == Code(PING) then Deliver(ReadPayload(role, h.lengthField, rest), true)
    else if h.opcode == Code(CLOSE) then PeerClosed(rest)
    else if h.opcode == Code(TEXT) then Deliver(ReadPayload(role, h.lengthField, rest), false)
    else Returned([], rest, false)
  }

  // ------------------------------------------------------------- the decoder

  /** A control frame that the endpoint sent. */
  datatype Sent = Sent(op: FrameType, payload: Octets)

  function DISCONNECT_MSG(): Octets
  {
    [100, 105, 115, 99, 111, 110, 110, 101, 99, 116]
  }

  function StatusPayload(status: nat): Octets
  {
    if status == NO_STATUS_CODE then [] else BigEndian(status, 2)
  }

  class WebSocket {
    const role: Role
    const socket: Socket
    var open: bool
    var sent: seq<Sent>

    constructor (role: Role, socket: Socket)
      ensures this.role == role && this.socket == socket && open && sent == []
    {
      this.role, this.socket, open, sent := role, socket, true, [];
    }

    method CloseConnection(status: nat) returns (closed: bool)
      requires status < 65536
      modifies this
      ensures closed == old(open) && !open
      ensures sent == if old(open) then old(sent) + [Sent(CLOSE, StatusPayload(status))] else old(sent)
    {
      if !open {
        return false;
      }
      open := false;
      var payload: Octets := [];
      if status != NO_STATUS_CODE {
        Pow256Eight();
        payload := PushNumberPerByte([], status, 2);
      }
      assert payload == StatusPayload(status);
      sent := sent + [Sent(CLOSE, payload)];
      closed := true;
    }

    /** The server reads the key and the payload, and removes the mask in place. */
    method DecodeMaskedMessage(msgLen: nat) returns (ok: bool, buffer: Octets)
      modifies socket
      ensures ok && msgLen == 0 ==> buffer == [] && socket.inbox == old(socket.inbox)
      ensures ok && msgLen > 0 ==>
                && MASK_LEN + msgLen <= |old(socket.inbox)|
                && buffer == Mask(old(socket.inbox)[MASK_LEN..MASK_LEN + msgLen], old(socket.inbox)[..MASK_LEN])
                && socket.inbox == old(socket.inbox)[MASK_LEN + msgLen..]
      ensures old(socket.Reliable()) ==>
                && socket.Reliable()
                && (ok <==> msgLen == 0 || MASK_LEN + msgLen <= |old(socket.inbox)|)
    {
      if msgLen == 0 {
        return true, [];
      }
      var maskingKey;
      ok, maskingKey := socket.Recv(MASK_LEN);
      if !ok {
        return false, [];
      }
      ok, buffer := socket.Recv(msgLen);
      if !ok {
        return false, [];
      }
      ghost var masked := buffer;
      ghost var key: Key := maskingKey;
      for i := 0 to msgLen
        invariant |buffer| == msgLen
        invariant forall k | 0 <= k < i :: buffer[k] == Mask(masked, key)[k]
        invariant forall k | i <= k < msgLen :: buffer[k] == masked[k]
      {
        var j := i % MASK_LEN;
        buffer := buffer[i := XorByte(buffer[i], maskingKey[j])];
      }
      assert buffer == Mask(masked, key);
      assert old(socket.inbox) == key + masked + socket.inbox;
      assert key == old(socket.inbox)[..MASK_LEN];
      assert masked == old(socket.inbox)[MASK_LEN..MASK_LEN + msgLen];
    }

    method DecodePlainMessage(msgLen: nat) returns (ok: bool, buffer: Octets)
      modifies socket
      ensures ok ==> msgLen <= |old(socket.inbox)| && buffer == old(socket.inbox)[..msgLen]
                     && socket.inbox == old(socket.inbox)[msgLen..]
      ensures old(socket.Reliable()) ==> socket.Reliable() && (ok <==> msgLen <= |old(socket.inbox)|)
    {
      if msgLen == 0 {
        return true, [];
      }
      ok, buffer := socket.Recv(msgLen);
    }

    /** The length form of a frame. */
    method ReadFrameLength(field: byte) returns (ok: bool, payloadLen: nat)
      modifies socket
      ensures ok ==> ReadLength(field, old(socket.inbox)) == Some((payloadLen, socket.inbox))
      ensures old(socket.Reliable()) ==>
                socket.Reliable() && (ok <==> ReadLength(field, old(socket.inbox)).Some?)
    {
      payloadLen := field;
      ok := true;
      if field == TWO_BYTES_LENGTH_ENC || field == EIGHT_BYTES_LENGTH_ENC {
        var width := if field == TWO_BYTES_LENGTH_ENC then TWO_BYTES_LENGTH else EIGHT_BYTES_LENGTH;
        var recvbuf;
        ok, recvbuf := socket.Recv(width);
        if !ok {
          return false, 0;
        }
        payloadLen := NetToHostLongLong(recvbuf);
        assert recvbuf == old(socket.inbox)[..width] && socket.inbox == old(socket.inbox)[width..];
        ValueBound(recvbuf);
      }
    }


    method ReadFramePayload(field: byte) returns (ok: bool, payload: Octets)
      modifies socket
      ensures ok ==> ReadPayload(role, field, old(socket.inbox)) == Some((payload, socket.inbox))
      ensures old(socket.Reliable()) ==>
                socket.Reliable() && (ok <==> ReadPayload(role, field, old(socket.inbox)).Some?)
    {
      hide ReadLength, Mask;
      var payloadLen;
      ok, payloadLen := ReadFrameLength(field);
      if !ok {
        return false, [];
      }
      if role == Server {
        ok, payload := DecodeMaskedMessage(payloadLen);
      } else {
        ok, payload := DecodePlainMessage(payloadLen);
      }
    }

    /** `Decode`, with its handling of control and data frames. */
    method Decode() returns (msg: Octets)
      modifies this, socket
      ensures !old(open) ==> msg == [] && !open && sent == old(sent) && socket.inbox == old(socket.inbox)
      ensures old(open) && old(socket.Reliable()) ==>
                && socket.Reliable()
                && match DecodeOne(role, old(socket.inbox))
                   case Returned(payload, rest, pong) =>
                     && msg == payload && socket.inbox == rest && open
                     && sent == old(sent) + (if pong then [Sent(PONG, payload)] else [])
                   case PeerClosed(rest) =>
                     && msg == [] && socket.inbox == rest && !open
                     && sent == old(sent) + [Sent(CLOSE, StatusPayload(NO_STATUS_CODE))]
                   case Disconnected(status) =>
                     msg == DISCONNECT_MSG() && !open && sent == old(sent) + [Sent(CLOSE, StatusPayload(status))]
      ensures old(open) && open ==>
                DecodeOne(role, old(socket.inbox)).Returned? && msg == DecodeOne(role, old(socket.inbox)).payload
    {
      if !open {
        return [];
      }
      var ok, recvbuf := socket.Recv(HEADER_LEN);
      if !ok {
        var _ := CloseConnection(UNEXPECTED_ERROR);
        return DISCONNECT_MSG();
      }
      assert recvbuf == old(socket.inbox)[..HEADER_LEN] && socket.inbox == old(socket.inbox)[HEADER_LEN..];
      var h := ReadHeader(recvbuf);
      if h.mask != (if role == Server then 1 else 0) {
        var _ := CloseConnection(PROTOCOL_ERROR);
        return DISCONNECT_MSG();
      }
      msg := [];
      if IsControlFrame(h.opcode) {
        if h.opcode == Code(PING) {
          ok, msg := ReadFramePayload(h.lengthField);
          if ok {
            sent := sent + [Sent(PONG, msg)];
          }
        } else if h.opcode == Code(CLOSE) {
          var _ := CloseConnection(NO_STATUS_CODE);
        }
      } else if h.opcode == Code(TEXT) {
        ok, msg := ReadFramePayload(h.lengthField);
      }
      if !ok {
        var _ := CloseConnection(PROTOCOL_ERROR);
        msg := DISCONNECT_MSG();
      }
    }
  }

  lemma {:induction false} ValueBound(s: Octets)
    ensures Value(s) < Pow256(|s|)
    ensures |s| <= 8 ==> Value(s) < TWO64
  {
    if s != [] {
      ValueBound(s[..|s| - 1]);
    }
    if |s| <= 8 {
      Pow256Eight();
      Pow256Grows(|s|, 8);
    }
  }

  lemma {:induction false} Pow256Grows(a: nat, b: nat)
    requires a <= b
    ensures Pow256(a) <= Pow256(b)
  {
    if a < b {
      Pow256Grows(a, b - 1);
    }
  }

  // ------------------------------------------------------ the caller's test

  /** `IsDecodeDisconnectMsg` */
  predicate IsDisconnectMsg(message: Octets)
  {
    message == DISCONNECT_MSG()
  }

  datatype Event = Disconnect | Message(text: Octets) | Nothing

  /** The decoder returned a payload that reads like its own report of a disconnect. */
  predicate Mistaken(d: Decoded)
  {
    d.Returned? && IsDisconnectMsg(d.payload)
  }

  /** Exactly the frames whose payload is read and is that word look like a disconnect. */
  lemma MistakenIff(role: Role, bytes: Octets)
    ensures Mistaken(DecodeOne(role, bytes)) <==>
              && |bytes| >= HEADER_LEN
              && var h, rest := ReadHeader(bytes[..HEADER_LEN]), bytes[HEADER_LEN..];
                 && h.mask == (if role == Server then 1 else 0)
                 && (h.opcode == Code(TEXT) || h.opcode == Code(PING))
                 && var p := ReadPayload(role, h.lengthField, rest);
                    p.Some? && p.value.0 == DISCONNECT_MSG()
  {
    hide ReadPayload, ReadHeader;
    assert DISCONNECT_MSG() != [];
  }

  /**
   One round of the loop that feeds the debugger: a disconnect is reported for
   every end of the connection that is no close frame, and while the connection
   lives on exactly when the frame read only looks like one.
   */
  method Poll(ws: WebSocket) returns (event: Event)
    requires ws.open && ws.socket.Reliable()
    modifies ws, ws.socket
    ensures var d := DecodeOne(ws.role, old(ws.socket.inbox));
            && (event.Disconnect? && ws.open <==> Mistaken(d))
            && (event.Disconnect? && !ws.open <==> d.Disconnected?)
            && (event.Message? <==> d.Returned? && d.payload != [] && !Mistaken(d))
            && (event.Message? ==> event.text == d.payload)
  {
    hide DecodeOne;
    var message := ws.Decode();
    assert DISCONNECT_MSG() != [];
    if message != [] && IsDisconnectMsg(message) {
      return Disconnect;
    } else if message != [] {
      return Message(message);
    }
    return Nothing;
  }
}
