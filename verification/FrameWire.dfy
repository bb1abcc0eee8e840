/** Frames byte by byte: the examples of section 5.7 of RFC 6455, and what every incomplete or foreign frame does. */
module FrameWire {
  import opened Bytes
  import opened Frames
  import opened FrameStream
  import opened Options

  /** Masking as section 5.3 of RFC 6455 puts it: bit by bit, with byte `i mod 4` of the key. */
  lemma MaskBits(p: Octets, key: Key, i: nat, j: nat)
    requires i < |p| && j < 8
    ensures Bit(Mask(p, key)[i], j) == if Bit(p[i], j) == Bit(key[i % 4], j) then 0 else 1
  {
    XorByteBit(p[i], key[i % 4], j);
  }

  const HELLO: Octets := [0x48, 0x65, 0x6c, 0x6c, 0x6f]

  const EXAMPLE_KEY: Octets := [0x37, 0xfa, 0x21, 0x3d]

  lemma MaskedHead()
    ensures XorByte(0x48, 0x37) == 0x7f && XorByte(0x65, 0xfa) == 0x9f
  {
    hide XorByte;
    XorByteSum(0x48, 0x37);
    XorByteSum(0x65, 0xfa);
  }

  lemma MaskedTail()
    ensures XorByte(0x6c, 0x21) == 0x4d && XorByte(0x6c, 0x3d) == 0x51 && XorByte(0x6f, 0x37) == 0x58
  {
    hide XorByte;
    XorByteSum(0x6c, 0x21);
    XorByteSum(0x6c, 0x3d);
    XorByteSum(0x6f, 0x37);
  }

  lemma MaskedHello()
    ensures Mask(HELLO, EXAMPLE_KEY) == [0x7f, 0x9f, 0x4d, 0x51, 0x58]
  {
    hide XorByte;
    MaskedHead();
    MaskedTail();
  }

  lemma SmallExamples()
    ensures ServerFrame(true, TEXT, HELLO) == [0x81, 0x05, 0x48, 0x65, 0x6c, 0x6c, 0x6f]
    ensures ClientFrame(true, TEXT, EXAMPLE_KEY, HELLO) ==
              [0x81, 0x85, 0x37, 0xfa, 0x21, 0x3d, 0x7f, 0x9f, 0x4d, 0x51, 0x58]
    ensures ServerFrame(false, TEXT, HELLO[..3]) == [0x01, 0x03, 0x48, 0x65, 0x6c]
    ensures ServerFrame(true, CONTINUATION, HELLO[3..]) == [0x80, 0x02, 0x6c, 0x6f]
    ensures ServerFrame(true, PING, HELLO) == [0x89, 0x05, 0x48, 0x65, 0x6c, 0x6c, 0x6f]
    ensures ClientFrame(true, PONG, EXAMPLE_KEY, HELLO) ==
              [0x8a, 0x85, 0x37, 0xfa, 0x21, 0x3d, 0x7f, 0x9f, 0x4d, 0x51, 0x58]
    ensures ServerFrame(true, CLOSE, []) == [0x88, 0x00]
  {
    MaskedHello();
  }

  lemma LongExamples(p: Payload)
    ensures |p| == 256 ==> ServerFrame(true, BINARY, p) == [0x82, 0x7e, 0x01, 0x00] + p
    ensures |p| == 65536 ==> ServerFrame(true, BINARY, p) == [0x82, 0x7f, 0, 0, 0, 0, 0, 1, 0, 0] + p
  {
    assert BigEndian(256, 2) == [0x01, 0x00];
    assert BigEndian(65536, 4) == [0, 1, 0, 0];
    assert BigEndian(65536, 8) == [0, 0, 0, 0, 0, 1, 0, 0];
  }

  /** The words that an end of the connection is reported with, to the caller and to the peer. */
  lemma Farewells()
    ensures |DISCONNECT_MSG()| == |"disconnect"|
    ensures forall i | 0 <= i < |"disconnect"| :: DISCONNECT_MSG()[i] == "disconnect"[i] as int
    ensures StatusPayload(NO_STATUS_CODE) == []
    ensures StatusPayload(PROTOCOL_ERROR) == [0x03, 0xea]
    ensures StatusPayload(UNEXPECTED_ERROR) == [0x03, 0xf3]
  {
  }

  // ---------------------------------------------------------------- decoding

  /** The bytes of the extended length, from the second header byte. */
  function Extension(second: byte): nat
  {
    if second % 128 == 126 then 2 else if second % 128 == 127 then 8 else 0
  }

  /** The payload length that a frame announces. */
  function Announced(bytes: Octets): nat
    requires |bytes| >= 2 && |bytes| >= 2 + Extension(bytes[1])
  {
    if Extension(bytes[1]) == 0 then bytes[1] % 128 else Value(bytes[2..2 + Extension(bytes[1])])
  }

  /** Where the payload begins; an empty payload has no key for the decoder. */
  function Start(role: Role, bytes: Octets): nat
    requires |bytes| >= 2 && |bytes| >= 2 + Extension(bytes[1])
  {
    2 + Extension(bytes[1]) + if role == Server && Announced(bytes) > 0 then 4 else 0
  }

  /** The whole payload that is announced has arrived. */
  predicate Complete(role: Role, bytes: Octets)
  {
    && |bytes| >= 2 && |bytes| >= 2 + Extension(bytes[1])
    && |bytes| >= Start(role, bytes) + Announced(bytes)
  }

  /** Servers want the top bit of the second byte, clients refuse it. */
  predicate FromPeer(role: Role, bytes: Octets)
    requires |bytes| >= 2
  {
    bytes[1] >= 128 <==> role == Server
  }

  /** An opcode whose payload is read: 1 for text and 9 for ping. */
  predicate HasPayload(bytes: Octets)
    requires |bytes| >= 2
  {
    bytes[0] % 16 == 1 || bytes[0] % 16 == 9
  }

  lemma PayloadRead(role: Role, bytes: Octets)
    requires |bytes| >= 2
    ensures var p := ReadPayload(role, bytes[1] % 128, bytes[2..]);
            && (p.Some? <==> Complete(role, bytes))
            && (p.Some? ==>
                  && |p.value.0| == Announced(bytes)
                  && p.value.1 == bytes[Start(role, bytes) + Announced(bytes)..]
                  && forall i | 0 <= i < Announced(bytes) ::
                       p.value.0[i] ==
                       if role == Client then bytes[Start(role, bytes) + i]
                       else XorByte(bytes[Start(role, bytes) + i], bytes[Start(role, bytes) - 4 + i % 4]))
  {
    hide TakePayload, Value;
    var x := Extension(bytes[1]);
    if |bytes| >= 2 + x {
      assert bytes[2..][..x] == bytes[2..2 + x];
      assert bytes[2..][x..] == bytes[2 + x..];
      TakenPayload(role, Announced(bytes), bytes, 2 + x);
    }
  }

  lemma TakenPayload(role: Role, len: nat, bytes: Octets, from: nat)
    requires from <= |bytes|
    ensures var p, start := TakePayload(role, len, bytes[from..]), from + if role == Server && len > 0 then 4 else 0;
            && (p.Some? <==> |bytes| >= start + len)
            && (p.Some? ==>
                  && |p.value.0| == len && p.value.1 == bytes[start + len..]
                  && forall i | 0 <= i < len ::
                       p.value.0[i] ==
                       if role == Client then bytes[start + i] else XorByte(bytes[start + i], bytes[start - 4 + i % 4]))
  {
  }

  /**
   What `Decode` does with the bytes of a stream, all cases: too short a header,
   a frame of the wrong side, a payload that is cut, a close frame, a payload
   that is complete, and a frame that is skipped after its header.
   */
  lemma DecodeCases(role: Role, bytes: Octets)
    ensures var d := DecodeOne(role, bytes);
            && (d == Disconnected(1011) <==> |bytes| < 2)
            && (|bytes| >= 2 ==>
                  && (d == Disconnected(1002) <==>
                        !FromPeer(role, bytes) || (HasPayload(bytes) && !Complete(role, bytes)))
                  && (d.PeerClosed? <==> FromPeer(role, bytes) && bytes[0] % 16 == 8)
                  && (d.Returned? && d.pong ==> bytes[0] % 16 == 9)
                  && (FromPeer(role, bytes) && HasPayload(bytes) && Complete(role, bytes) ==>
                        && d.Returned? && (d.pong <==> bytes[0] % 16 == 9) && |d.payload| == Announced(bytes)
                        && d.rest == bytes[Start(role, bytes) + Announced(bytes)..])
                  && (FromPeer(role, bytes) && !HasPayload(bytes) && bytes[0] % 16 != 8 ==>
                        d == Returned([], bytes[2..], false)))
  {
    if |bytes| >= 2 {
      PayloadRead(role, bytes);
      assert bytes[..2][1] == bytes[1] && bytes[..2][0] == bytes[0];
    }
  }

  // ------------------------------------------------------------- cut frames

  /** A frame of the peer that was cut before its end. */
  lemma CutStream(role: Role, bytes: Octets, n: nat)
    requires n < |bytes| && |bytes| >= 2 && FromPeer(role, bytes) && HasPayload(bytes) && Complete(role, bytes)
    requires |bytes| == Start(role, bytes) + Announced(bytes)
    ensures DecodeOne(role, bytes[..n]) == Disconnected(if n < 2 then 1011 else 1002)
  {
    var cut := bytes[..n];
    DecodeCases(role, cut);
    if n >= 2 && n >= 2 + Extension(bytes[1]) {
      assert cut[2..2 + Extension(bytes[1])] == bytes[2..2 + Extension(bytes[1])];
    }
  }

  /** Whatever is missing at the end of a text frame with a payload, the server disconnects. */
  lemma CutClientFrame(fin: bool, key: Key, p: Payload, n: nat)
    requires p != [] && n < |ClientFrame(fin, TEXT, key, p)|
    ensures DecodeOne(Server, ClientFrame(fin, TEXT, key, p)[..n]) == Disconnected(if n < 2 then 1011 else 1002)
  {
    var bytes := ClientFrame(fin, TEXT, key, p);
    LengthForm(p);
    hide LengthField, ExtendedLength, Mask;
    assert bytes[2..2 + |ExtendedLength(|p|)|] == ExtendedLength(|p|);
    hide DecodeOne;
    CutStream(Server, bytes, n);
  }

  lemma CutServerFrame(fin: bool, p: Payload, n: nat)
    requires n < |ServerFrame(fin, TEXT, p)|
    ensures DecodeOne(Client, ServerFrame(fin, TEXT, p)[..n]) == Disconnected(if n < 2 then 1011 else 1002)
  {
    var bytes := ServerFrame(fin, TEXT, p);
    LengthForm(p);
    hide LengthField, ExtendedLength;
    assert bytes[2..2 + |ExtendedLength(|p|)|] == ExtendedLength(|p|);
    hide DecodeOne;
    CutStream(Client, bytes, n);
  }

  /** An end point disconnects on every frame of its own kind. */
  lemma OwnFrameRefused(fin: bool, op: FrameType, key: Key, p: Payload, tail: Octets)
    ensures DecodeOne(Server, ServerFrame(fin, op, p) + tail) == Disconnected(1002)
    ensures DecodeOne(Client, ClientFrame(fin, op, key, p) + tail) == Disconnected(1002)
  {
    DecodeCases(Server, ServerFrame(fin, op, p) + tail);
    DecodeCases(Client, ClientFrame(fin, op, key, p) + tail);
  }
}
