/** What one endpoint builds is what the other endpoint decodes, frame by frame and stream by stream. */
module FrameRoundTrip {
  import opened Bytes
  import opened Frames
  import opened FrameStream
  import opened Options

  // ---------------------------------------------------------------- one frame

  /** The length form is read back, whatever follows. */
  lemma LengthIsRead(p: Payload, rest: Octets)
    ensures ReadLength(LengthField(|p|), ExtendedLength(|p|) + rest) == Some((|p|, rest))
  {
    LengthForm(p);
    hide ExtendedLength, LengthField, Value;
    var x := ExtendedLength(|p|);
    assert (x + rest)[..|x|] == x && (x + rest)[|x|..] == rest;
  }

  /** An unmasked payload is read back from the client's side of the stream. */
  lemma PlainPayload(p: Payload, tail: Octets)
    ensures ReadPayload(Client, LengthField(|p|), ExtendedLength(|p|) + p + tail) == Some((p, tail))
  {
    LengthIsRead(p, p + tail);
    assert ExtendedLength(|p|) + (p + tail) == ExtendedLength(|p|) + p + tail;
    hide ReadLength, ExtendedLength, LengthField;
    assert (p + tail)[..|p|] == p && (p + tail)[|p|..] == tail;
  }

  lemma MaskedTaken(key: Key, p: Payload, tail: Octets)
    requires p != []
    ensures TakePayload(Server, |p|, key + Mask(p, key) + tail) == Some((p, tail))
  {
    MaskTwice(p, key);
    var m := Mask(p, key);
    hide Mask;
    var bytes := key + m + tail;
    assert bytes[..MASK_LEN] == key;
    assert bytes[MASK_LEN..MASK_LEN + |p|] == m;
    assert bytes[MASK_LEN + |p|..] == tail;
  }

  /** A masked payload is read back from the server's side; of an empty one the key stays in the stream. */
  lemma MaskedPayload(key: Key, p: Payload, tail: Octets)
    ensures ReadPayload(Server, LengthField(|p|), ExtendedLength(|p|) + key + Mask(p, key) + tail)
            == Some((p, if p == [] then key + tail else tail))
  {
    var m := Mask(p, key);
    LengthIsRead(p, key + m + tail);
    hide ReadLength, ExtendedLength, LengthField, Mask;
    assert ExtendedLength(|p|) + (key + m + tail) == ExtendedLength(|p|) + key + m + tail;
    if p != [] {
      MaskedTaken(key, p, tail);
      hide TakePayload;
    } else {
      assert key + m + tail == key + tail;
    }
  }

  predicate ReadsPayload(op: FrameType)
  {
    op == TEXT || op == PING
  }

  /** What the client makes of any frame of the server: unsupported frames keep their payload in the stream. */
  lemma ClientDecodes(fin: bool, op: FrameType, p: Payload, tail: Octets)
    ensures DecodeOne(Client, ServerFrame(fin, op, p) + tail) ==
            if ReadsPayload(op) then Returned(p, tail, op == PING)
            else if op == CLOSE then PeerClosed(ExtendedLength(|p|) + p + tail)
            else Returned([], ExtendedLength(|p|) + p + tail, false)
  {
    hide ReadPayload, ExtendedLength, LengthField;
    var bytes := ServerFrame(fin, op, p) + tail;
    assert bytes[..2] == ServerFrame(fin, op, p)[..2];
    HeaderRoundTrip(fin, op, [0, 0, 0, 0], p);
    assert bytes[2..] == ExtendedLength(|p|) + p + tail;
    PlainPayload(p, tail);
  }

  /** What the server makes of any frame of the client. */
  lemma ServerDecodes(fin: bool, op: FrameType, key: Key, p: Payload, tail: Octets)
    ensures DecodeOne(Server, ClientFrame(fin, op, key, p) + tail) ==
            if ReadsPayload(op) then Returned(p, if p == [] then key + tail else tail, op == PING)
            else if op == CLOSE then PeerClosed(ExtendedLength(|p|) + key + Mask(p, key) + tail)
            else Returned([], ExtendedLength(|p|) + key + Mask(p, key) + tail, false)
  {
    hide ReadPayload, Mask, ExtendedLength, LengthField;
    var bytes := ClientFrame(fin, op, key, p) + tail;
    assert bytes[..2] == ClientFrame(fin, op, key, p)[..2];
    HeaderRoundTrip(fin, op, key, p);
    assert bytes[2..] == ExtendedLength(|p|) + key + Mask(p, key) + tail;
    MaskedPayload(key, p, tail);
  }

  /** `Decode` returned, the connection goes on, and the stream stands at the next frame. */
  predicate StaysAligned(d: Decoded, tail: Octets)
  {
    d.Returned? && d.rest == tail
  }

  /**
   The server stays aligned with the stream after a client's frame exactly when
   the frame is TEXT or PING and its payload is not empty: of every other frame
   at least the masking key stays unread.
   */
  lemma ServerAlignment(fin: bool, op: FrameType, key: Key, p: Payload, tail: Octets)
    ensures StaysAligned(DecodeOne(Server, ClientFrame(fin, op, key, p) + tail), tail)
            <==> ReadsPayload(op) && p != []
  {
    ServerDecodes(fin, op, key, p, tail);
    assert |ExtendedLength(|p|) + key + Mask(p, key) + tail| > |tail|;
    assert |key + tail| > |tail|;
  }

  /** The client stays aligned after a server's frame exactly when it reads the payload or there is none. */
  lemma ClientAlignment(fin: bool, op: FrameType, p: Payload, tail: Octets)
    ensures StaysAligned(DecodeOne(Client, ServerFrame(fin, op, p) + tail), tail)
            <==> ReadsPayload(op) || (p == [] && op != CLOSE)
  {
    ClientDecodes(fin, op, p, tail);
    if p == [] {
      assert ExtendedLength(|p|) + p + tail == tail;
    } else {
      assert |ExtendedLength(|p|) + p + tail| > |tail|;
    }
  }

  /**
   An empty message in front of another one: the server answers the second
   `Decode` from the masking key of the first frame and drops the connection.
   */
  lemma EmptyMessageBreaksStream(p: Payload, tail: Octets)
    ensures var first := ClientFrame(true, TEXT, [1, 2, 3, 4], []);
            var d := DecodeOne(Server, first + ClientFrame(true, TEXT, [1, 2, 3, 4], p) + tail);
            && d.Returned? && d.payload == []
            && DecodeOne(Server, d.rest) == Disconnected(PROTOCOL_ERROR)
  {
    var key: Key := [1, 2, 3, 4];
    var second := ClientFrame(true, TEXT, key, p) + tail;
    ServerDecodes(true, TEXT, key, [], second);
    assert ClientFrame(true, TEXT, key, []) + ClientFrame(true, TEXT, key, p) + tail
           == ClientFrame(true, TEXT, key, []) + second;
    assert (key + second)[..2] == [1, 2];
  }

  // ---------------------------------------------------------------- a stream

  datatype Text = Text(fin: bool, key: Key, payload: Payload)

  /** The bytes that the client sends for a list of messages. */
  function Stream(texts: seq<Text>): Octets
  {
    if texts == [] then []
    else ClientFrame(texts[0].fin, TEXT, texts[0].key, texts[0].payload) + Stream(texts[1..])
  }

  /** The bytes that the server sends for a list of messages. */
  function Replies(texts: seq<(bool, Payload)>): Octets
  {
    if texts == [] then [] else ServerFrame(texts[0].0, TEXT, texts[0].1) + Replies(texts[1..])
  }

  lemma NothingIsSent()
    ensures Stream([]) == [] && Replies([]) == []
  {
  }

  /** One `Decode` in the middle of a client's stream. */
  lemma StreamStep(texts: seq<Text>, i: nat, tail: Octets)
    requires i < |texts| && texts[i].payload != []
    ensures DecodeOne(Server, Stream(texts[i..]) + tail)
            == Returned(texts[i].payload, Stream(texts[i + 1..]) + tail, false)
  {
    var t := texts[i];
    assert texts[i..][1..] == texts[i + 1..];
    var frame, more := ClientFrame(t.fin, TEXT, t.key, t.payload), Stream(texts[i + 1..]) + tail;
    assert Stream(texts[i..]) + tail == frame + more;
    ServerDecodes(t.fin, TEXT, t.key, t.payload, more);
  }

  lemma RepliesStep(texts: seq<(bool, Payload)>, i: nat, tail: Octets)
    requires i < |texts|
    ensures DecodeOne(Client, Replies(texts[i..]) + tail)
            == Returned(texts[i].1, Replies(texts[i + 1..]) + tail, false)
  {
    var t := texts[i];
    assert texts[i..][1..] == texts[i + 1..];
    var frame, more := ServerFrame(t.0, TEXT, t.1), Replies(texts[i + 1..]) + tail;
    assert Replies(texts[i..]) + tail == frame + more;
    ClientDecodes(t.0, TEXT, t.1, more);
  }

  /**
   Client to server: for any messages that are not empty, any keys and any
   segmentation of the stream, repeated `Decode` returns exactly the payloads,
   in order, and consumes exactly their bytes.
   */
  method ReceiveFromClient(ws: WebSocket, ghost texts: seq<Text>, n: nat, ghost tail: Octets)
      returns (messages: seq<Octets>)
    requires ws.role == Server && ws.open && ws.socket.Reliable()
    requires n == |texts| && ws.socket.inbox == Stream(texts) + tail
    requires forall i | 0 <= i < |texts| :: texts[i].payload != []
    modifies ws, ws.socket
    ensures ws.open && ws.sent == old(ws.sent) && ws.socket.inbox == tail
    ensures |messages| == |texts| && forall i | 0 <= i < |texts| :: messages[i] == texts[i].payload
  {
    hide DecodeOne, Stream;
    assert texts[0..] == texts;
    messages := [];
    for i := 0 to n
      invariant ws.open && ws.socket.Reliable() && ws.sent == old(ws.sent)
      invariant ws.socket.inbox == Stream(texts[i..]) + tail
      invariant |messages| == i && forall k | 0 <= k < i :: messages[k] == texts[k].payload
    {
      StreamStep(texts, i, tail);
      var msg := ws.Decode();
      messages := messages + [msg];
    }
    NothingIsSent();
    assert texts[n..] == [] && [] + tail == tail;
  }

  /** Server to client: the same for any payloads, empty ones included. */
  method ReceiveFromServer(ws: WebSocket, ghost texts: seq<(bool, Payload)>, n: nat, ghost tail: Octets)
      returns (messages: seq<Octets>)
    requires ws.role == Client && ws.open && ws.socket.Reliable()
    requires n == |texts| && ws.socket.inbox == Replies(texts) + tail
    modifies ws, ws.socket
    ensures ws.open && ws.sent == old(ws.sent) && ws.socket.inbox == tail
    ensures |messages| == |texts| && forall i | 0 <= i < |texts| :: messages[i] == texts[i].1
  {
    hide DecodeOne, Replies;
    assert texts[0..] == texts;
    messages := [];
    for i := 0 to n
      invariant ws.open && ws.socket.Reliable() && ws.sent == old(ws.sent)
      invariant ws.socket.inbox == Replies(texts[i..]) + tail
      invariant |messages| == i && forall k | 0 <= k < i :: messages[k] == texts[k].1
    {
      RepliesStep(texts, i, tail);
      var msg := ws.Decode();
      messages := messages + [msg];
    }
    NothingIsSent();
    assert texts[n..] == [] && [] + tail == tail;
  }

  /** A client's message looks like a disconnect exactly when it is that word, in a TEXT or PING frame. */
  lemma ClientMessageMistaken(fin: bool, op: FrameType, key: Key, p: Payload, tail: Octets)
    ensures Mistaken(DecodeOne(Server, ClientFrame(fin, op, key, p) + tail)) <==>
              ReadsPayload(op) && p == DISCONNECT_MSG()
  {
    ServerDecodes(fin, op, key, p, tail);
    hide DecodeOne, ClientFrame;
    assert DISCONNECT_MSG() != [];
  }

  // ------------------------------------------------------------ end to end

  lemma {:induction false} StreamAppend(texts: seq<Text>, t: Text)
    ensures Stream(texts + [t]) == Stream(texts) + ClientFrame(t.fin, TEXT, t.key, t.payload)
  {
    hide ClientFrame;
    if texts == [] {
      assert [t][1..] == [];
    } else {
      StreamAppend(texts[1..], t);
      assert (texts + [t])[1..] == texts[1..] + [t];
    }
  }

  lemma {:induction false} RepliesAppend(texts: seq<(bool, Payload)>, t: (bool, Payload))
    ensures Replies(texts + [t]) == Replies(texts) + ServerFrame(t.0, TEXT, t.1)
  {
    hide ServerFrame;
    if texts == [] {
      assert [t][1..] == [];
    } else {
      RepliesAppend(texts[1..], t);
      assert (texts + [t])[1..] == texts[1..] + [t];
    }
  }

  /** Build and send the frames one after the other until a transfer fails; `m` frames are complete on the wire. */
  method SendTexts(wire: Wire, texts: seq<Text>) returns (m: nat, ghost part: Octets)
    modifies wire
    ensures m <= |texts| && wire.outbox == old(wire.outbox) + Stream(texts[..m]) + part
    ensures m == |texts| ==> part == []
    ensures old(wire.Willing()) ==> m == |texts|
  {
    hide Stream, ClientFrame;
    NothingIsSent();
    m, part := 0, [];
    assert texts[..0] == [];
    while m < |texts|
      invariant m <= |texts| && wire.outbox == old(wire.outbox) + Stream(texts[..m])
      invariant old(wire.Willing()) ==> wire.Willing()
    {
      var t := texts[m];
      var frame := CreateClientFrame(t.fin, TEXT, t.payload, t.key);
      var ok; ghost var n;
      ok, n := wire.Send(frame);
      if !ok {
        part := frame[..n];
        return;
      }
      StreamAppend(texts[..m], t);
      assert texts[..m + 1] == texts[..m] + [t];
      assert frame[..n] == frame;
      m := m + 1;
    }
  }

  method SendReplies(wire: Wire, texts: seq<(bool, Payload)>) returns (m: nat, ghost part: Octets)
    modifies wire
    ensures m <= |texts| && wire.outbox == old(wire.outbox) + Replies(texts[..m]) + part
    ensures m == |texts| ==> part == []
    ensures old(wire.Willing()) ==> m == |texts|
  {
    hide Replies, ServerFrame;
    NothingIsSent();
    m, part := 0, [];
    assert texts[..0] == [];
    while m < |texts|
      invariant m <= |texts| && wire.outbox == old(wire.outbox) + Replies(texts[..m])
      invariant old(wire.Willing()) ==> wire.Willing()
    {
      var t := texts[m];
      var frame := CreateServerFrame(t.0, TEXT, t.1);
      var ok; ghost var n;
      ok, n := wire.Send(frame);
      if !ok {
        part := frame[..n];
        return;
      }
      RepliesAppend(texts[..m], t);
      assert texts[..m + 1] == texts[..m] + [t];
      assert frame[..n] == frame;
      m := m + 1;
    }
  }

  /**
   Client to server, from payloads to payloads: however the sending and the
   receiving calls cut the stream, the server receives exactly the messages whose
   frames were sent completely, and that is all of them if no transfer failed.
   */
  method ClientToServer(texts: seq<Text>, sendScript: seq<int>, recvScript: seq<Outcome>)
      returns (sent: nat, messages: seq<Octets>)
    requires Failed !in recvScript && forall i | 0 <= i < |texts| :: texts[i].payload != []
    ensures |messages| == sent <= |texts| && forall i | 0 <= i < sent :: messages[i] == texts[i].payload
    ensures (forall i | 0 <= i < |sendScript| :: sendScript[i] > 0) ==> sent == |texts|
  {
    hide Stream;
    var wire := new Wire(sendScript);
    ghost var part;
    sent, part := SendTexts(wire, texts);
    var socket := new Socket(wire.outbox, recvScript);
    var ws := new WebSocket(Server, socket);
    messages := ReceiveFromClient(ws, texts[..sent], sent, part);
  }

  /** Server to client, empty messages included. */
  method ServerToClient(texts: seq<(bool, Payload)>, sendScript: seq<int>, recvScript: seq<Outcome>)
      returns (sent: nat, messages: seq<Octets>)
    requires Failed !in recvScript
    ensures |messages| == sent <= |texts| && forall i | 0 <= i < sent :: messages[i] == texts[i].1
    ensures (forall i | 0 <= i < |sendScript| :: sendScript[i] > 0) ==> sent == |texts|
  {
    hide Replies;
    var wire := new Wire(sendScript);
    ghost var part;
    sent, part := SendReplies(wire, texts);
    var socket := new Socket(wire.outbox, recvScript);
    var ws := new WebSocket(Client, socket);
    messages := ReceiveFromServer(ws, texts[..sent], sent, part);
  }
}
