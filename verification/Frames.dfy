/**
 WebSocket frames (section 5.2 of RFC 6455): what the frame builders of server
 and client write, and how a header is read.
 */
module Frames {
  import opened Bytes

  datatype FrameType = CONTINUATION | TEXT | BINARY | CLOSE | PING | PONG

  function Code(op: FrameType): byte
  {
    match op
    case CONTINUATION => 0x0
    case TEXT => 0x1
    case BINARY => 0x2
    case CLOSE => 0x8
    case PING => 0x9
    case PONG => 0xa
  }

  const MASK_LEN: nat := 4
  const HEADER_LEN: nat := 2
  const ONE_BYTE_LENGTH_LIMIT: nat := 125
  const TWO_BYTES_LENGTH_ENC: byte := 126
  const TWO_BYTES_LENGTH: nat := 2
  const TWO_BYTES_LENGTH_LIMIT: nat := 65536
  const EIGHT_BYTES_LENGTH_ENC: byte := 127
  const EIGHT_BYTES_LENGTH: nat := 8

  type Key = k: Octets | |k| == MASK_LEN witness [0, 0, 0, 0]

  /** A `std::string` is shorter than 2^64 bytes. */
  type Payload = p: Octets | |p| < TWO64 witness []

  /** Masking is an exclusive or with the key, repeated. */
  function Mask(p: Octets, key: Key): (m: Octets)
    ensures |m| == |p|
  {
    seq(|p|, i requires 0 <= i < |p| => XorByte(p[i], key[i % MASK_LEN]))
  }

  lemma MaskTwice(p: Octets, key: Key)
    ensures Mask(Mask(p, key), key) == p
  {
    forall i | 0 <= i < |p|
      ensures Mask(Mask(p, key), key)[i] == p[i]
    {
      XorByteTwice(p[i], key[i % MASK_LEN]);
    }
  }

  // --------------------------------------------------------- what is written

  /** The length field of the second header byte. */
  function LengthField(n: nat): byte
  {
    if n <= ONE_BYTE_LENGTH_LIMIT then n
    else if n < TWO_BYTES_LENGTH_LIMIT then TWO_BYTES_LENGTH_ENC
    else EIGHT_BYTES_LENGTH_ENC
  }

  /** The extended length that follows the header. */
  function ExtendedLength(n: nat): Octets
  {
    if n <= ONE_BYTE_LENGTH_LIMIT then []
    else if n < TWO_BYTES_LENGTH_LIMIT then BigEndian(n, TWO_BYTES_LENGTH)
    else BigEndian(n, EIGHT_BYTES_LENGTH)
  }

  function FirstByte(fin: bool, op: FrameType): byte
  {
    Code(op) + if fin then 128 else 0
  }

  function ServerFrame(fin: bool, op: FrameType, p: Payload): Octets
  {
    [FirstByte(fin, op), LengthField(|p|)] + ExtendedLength(|p|) + p
  }

  function ClientFrame(fin: bool, op: FrameType, key: Key, p: Payload): Octets
  {
    [FirstByte(fin, op), LengthField(|p|) + 128] + ExtendedLength(|p|) + key + Mask(p, key)
  }

  /** `b | 0x80` */
  function SetTopBit(b: byte): byte
  {
    if b >= 128 then b else b + 128
  }

  class ServerFrameBuilder {
    var fin: bool
    var opcode: FrameType
    var payload: Payload

    constructor (fin: bool, opcode: FrameType)
      ensures this.fin == fin && this.opcode == opcode && payload == []
    {
      this.fin, this.opcode, this.payload := fin, opcode, [];
    }

    method SetPayload(payload: Payload)
      modifies `payload
      ensures this.payload == payload
    {
      this.payload := payload;
    }

    method PushHeader(message: Octets, payloadLenField: byte) returns (result: Octets)
      requires payloadLenField < 128
      ensures result == message + [FirstByte(fin, opcode), payloadLenField]
    {
      var b := Code(opcode);
      if fin {
        b := SetTopBit(b);
      }
      result := message + [b];
      b := payloadLenField % 128;
      result := result + [b];
    }

    method PushPayloadLength(message: Octets, payloadLenField: byte) returns (result: Octets)
      requires payloadLenField == LengthField(|payload|)
      ensures result == message + ExtendedLength(|payload|)
    {
      Pow256Eight();
      if payloadLenField == TWO_BYTES_LENGTH_ENC {
        result := PushNumberPerByte(message, |payload| % TWO_BYTES_LENGTH_LIMIT, TWO_BYTES_LENGTH);
      } else if payloadLenField == EIGHT_BYTES_LENGTH_ENC {
        result := PushNumberPerByte(message, |payload|, EIGHT_BYTES_LENGTH);
      } else {
        result := message;
      }
    }

    method PushFullHeader(message: Octets) returns (result: Octets)
      ensures result == message + [FirstByte(fin, opcode), LengthField(|payload|)] + ExtendedLength(|payload|)
    {
      var payloadLenField: byte := 0;
      if |payload| <= ONE_BYTE_LENGTH_LIMIT {
        payloadLenField := |payload|;
      } else if |payload| < TWO_BYTES_LENGTH_LIMIT {
        payloadLenField := TWO_BYTES_LENGTH_ENC;
      } else {
        payloadLenField := EIGHT_BYTES_LENGTH_ENC;
      }
      result := PushHeader(message, payloadLenField);
      result := PushPayloadLength(result, payloadLenField);
    }

    method Build() returns (message: Octets)
      ensures message == ServerFrame(fin, opcode, payload)
    {
      message := PushFullHeader([]);
      message := message + payload;
    }
  }

  /** The client's builder: the server's header with the mask bit patched in, the key and the masked payload. */
  class ClientFrameBuilder {
    const base: ServerFrameBuilder
    var maskingKey: Key

    constructor (fin: bool, opcode: FrameType, maskingKey: Key)
      ensures fresh(base) && base.fin == fin && base.opcode == opcode && base.payload == []
      ensures this.maskingKey == maskingKey
    {
      base := new ServerFrameBuilder(fin, opcode);
      this.maskingKey := maskingKey;
    }

    method PushMask(message: Octets) returns (result: Octets)
      ensures result == message + maskingKey
    {
      result := message;
      for i := 0 to MASK_LEN
        invariant result == message + maskingKey[..i]
      {
        result := result + [maskingKey[i]];
      }
    }

    method PushFullHeader(message: Octets) returns (result: Octets)
      requires message == []
      ensures result == [FirstByte(base.fin, base.opcode), LengthField(|base.payload|) + 128]
                        + ExtendedLength(|base.payload|) + maskingKey
    {
      result := base.PushFullHeader(message);
      result := result[1 := SetTopBit(result[1])];
      result := PushMask(result);
    }

    method PushPayload(message: Octets) returns (result: Octets)
      ensures result == message + Mask(base.payload, maskingKey)
    {
      result := message;
      for i := 0 to |base.payload|
        invariant result == message + Mask(base.payload, maskingKey)[..i]
      {
        result := result + [XorByte(base.payload[i], maskingKey[i % MASK_LEN])];
      }
    }

    method Build() returns (message: Octets)
      ensures message == ClientFrame(base.fin, base.opcode, maskingKey, base.payload)
    {
      message := PushFullHeader([]);
      message := PushPayload(message);
    }
  }

  /** `WebSocketServer::CreateFrame` */
  method CreateServerFrame(isLast: bool, frameType: FrameType, payload: Payload) returns (frame: Octets)
    ensures frame == ServerFrame(isLast, frameType, payload)
  {
    var builder := new ServerFrameBuilder(isLast, frameType);
    builder.SetPayload(payload);
    frame := builder.Build();
  }

  /** `WebSocketClient::CreateFrame` with the key that it draws. */
  method CreateClientFrame(isLast: bool, frameType: FrameType, payload: Payload, maskingKey: Key)
      returns (frame: Octets)
    ensures frame == ClientFrame(isLast, frameType, maskingKey, payload)
  {
    var builder := new ClientFrameBuilder(isLast, frameType, maskingKey);
    builder.base.SetPayload(payload);
    frame := builder.Build();
  }

  // ------------------------------------------------------------- what is read

  /** The fields of a `WebSocketFrame` right after its header was read. */
  datatype Header = Header(fin: byte, opcode: byte, mask: byte, lengthField: byte)

  function ReadHeader(raw: Octets): Header
    requires |raw| == HEADER_LEN
  {
    Header(raw[0] / 128, raw[0] % 16, raw[1] / 128, raw[1] % 128)
  }

  predicate IsControlFrame(opcode: byte)
  {
    opcode >= Code(CLOSE)
  }

  /** Reading a built header gives back what was put into it; a server never masks, a client always does. */
  lemma HeaderRoundTrip(fin: bool, op: FrameType, key: Key, p: Payload)
    ensures ReadHeader(ServerFrame(fin, op, p)[..2]) == Header(if fin then 1 else 0, Code(op), 0, LengthField(|p|))
    ensures ReadHeader(ClientFrame(fin, op, key, p)[..2]) == Header(if fin then 1 else 0, Code(op), 1, LengthField(|p|))
  {
  }

  /** The form of the length is the shortest that section 5.2 of RFC 6455 allows, and it denotes the length. */
  lemma LengthForm(p: Payload)
    ensures var n, f, x := |p|, LengthField(|p|), ExtendedLength(|p|);
            && (n <= 125 <==> x == []) && (n <= 125 ==> f == n)
            && (126 <= n <= 65535 <==> f == 126 && |x| == 2)
            && (65536 <= n <==> f == 127 && |x| == 8)
            && (x != [] ==> Value(x) == n)
  {
    Pow256Eight();
    if 126 <= |p| < 65536 {
      ValueOfBigEndian(|p|, 2);
    } else if 65536 <= |p| {
      ValueOfBigEndian(|p|, 8);
    }
  }
}
