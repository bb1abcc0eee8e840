/**
 Base64 (section 4 of RFC 4648) as `PtBase64` implements it.  The meaning of a
 group is given by the 24-bit number that its bytes or characters denote; the
 encoder and the decoder work with shifts and masks on output buffers.
 */
module Base64 {
  import opened Bytes

  type Sextet = x: int | 0 <= x < 64

  const PAD: byte := 61
  const INVALID: byte := 255

  /** `ENCODE_TABLE` */
  function EncodeChar(x: Sextet): byte
  {
    if x < 26 then 65 + x            // A-Z
    else if x < 52 then 97 + x - 26  // a-z
    else if x < 62 then 48 + x - 52  // 0-9
    else if x == 62 then 43          // +
    else 47                          // /
  }

  /** `DECODE_TABLE` */
  function DecodeChar(c: byte): byte
  {
    if 65 <= c <= 90 then c - 65
    else if 97 <= c <= 122 then c - 97 + 26
    else if 48 <= c <= 57 then c - 48 + 52
    else if c == 43 then 62
    else if c == 47 then 63
    else INVALID
  }

  predicate IsAlphabet(c: byte)
  {
    DecodeChar(c) != INVALID
  }

  lemma TablesInverse(x: Sextet, c: byte)
    ensures IsAlphabet(EncodeChar(x)) && DecodeChar(EncodeChar(x)) == x
    ensures IsAlphabet(c) ==> DecodeChar(c) < 64 && EncodeChar(DecodeChar(c)) == c
    ensures !IsAlphabet(PAD)
  {
  }

  const CAPITALS := "ABCDEFGHIJKLMNOPQRSTUVWXYZ"
  const SMALL := "abcdefghijklmnopqrstuvwxyz"
  const DIGITS := "0123456789"

  /** Table 1 of RFC 4648. */
  lemma Alphabet(x: Sextet)
    ensures EncodeChar(x) as char ==
              if x < 26 then CAPITALS[x] else if x < 52 then SMALL[x - 26] else if x < 62 then DIGITS[x - 52]
              else if x == 62 then '+' else '/'
  {
  }

  // -------------------------------------------------------------- the meaning

  /** The number that three bytes denote, and its four sextets as characters. */
  function Chars(b0: byte, b1: byte, b2: byte): (s: Octets)
    ensures |s| == 4
  {
    var v := b0 * 65536 + b1 * 256 + b2;
    [EncodeChar(v / 262144), EncodeChar(v / 4096 % 64), EncodeChar(v / 64 % 64), EncodeChar(v % 64)]
  }

  /** The text of a byte string: whole groups, then a padded group. */
  function Encoded(b: Octets): Octets
  {
    if b == [] then []
    else if |b| == 1 then Chars(b[0], 0, 0)[..2] + [PAD, PAD]
    else if |b| == 2 then Chars(b[0], b[1], 0)[..3] + [PAD]
    else Chars(b[0], b[1], b[2]) + Encoded(b[3..])
  }

  function EncodedSize(n: nat): nat
  {
    4 * ((n + 2) / 3)
  }

  function DecodedSize(n: nat): nat
  {
    n / 4 * 3
  }

  /** The number that four sextets denote, and its three bytes. */
  function Octets3(x0: Sextet, x1: Sextet, x2: Sextet, x3: Sextet): (s: Octets)
    ensures |s| == 3
  {
    var v := x0 * 262144 + x1 * 4096 + x2 * 64 + x3;
    [v / 65536, v / 256 % 256, v % 256]
  }

  /** The values of a run of alphabet characters. */
  predicate AllAlphabet(t: Octets)
  {
    forall i | 0 <= i < |t| :: IsAlphabet(t[i])
  }

  function Val(c: byte): Sextet
    requires IsAlphabet(c)
  {
    DecodeChar(c)
  }

  /** The bytes of a run of alphabet characters; an unfinished group gives one byte less than it has characters. */
  function Plain(t: Octets): Octets
    requires AllAlphabet(t)
  {
    if |t| >= 4 then Octets3(Val(t[0]), Val(t[1]), Val(t[2]), Val(t[3])) + Plain(t[4..])
    else if |t| == 3 then Octets3(Val(t[0]), Val(t[1]), Val(t[2]), 0)[..2]
    else if |t| == 2 then Octets3(Val(t[0]), Val(t[1]), 0, 0)[..1]
    else []
  }

  /** The longest prefix of alphabet characters. */
  function Scan(t: Octets): (k: nat)
    ensures k <= |t| && AllAlphabet(t[..k]) && (k < |t| ==> !IsAlphabet(t[k]))
  {
    if t == [] || !IsAlphabet(t[0]) then 0 else
    assert t[..1 + Scan(t[1..])] == [t[0]] + t[1..][..Scan(t[1..])];
    1 + Scan(t[1..])
  }

  predicate GoodLength(n: nat)
  {
    n >= 4 && n % 4 == 0
  }

  /** What the decoder writes for any input. */
  function Decoded(t: Octets): Octets
  {
    if GoodLength(|t|) then Plain(t[..Scan(t)]) else []
  }

  /** Base64 text: a positive multiple of four, alphabet characters and then at most two `=`. */
  ghost predicate IsBase64(t: Octets)
  {
    GoodLength(|t|) &&
    exists p: nat :: p <= 2 && p <= |t| && AllAlphabet(t[..|t| - p]) && Padded(t, p)
  }

  predicate Padded(t: Octets, p: nat)
    requires p <= |t|
  {
    forall i | |t| - p <= i < |t| :: t[i] == PAD
  }

  // ------------------------------------------------------------- the encoder

  lemma {:induction false} EncodedLength(b: Octets)
    ensures |Encoded(b)| == EncodedSize(|b|)
  {
    hide Chars;
    if |b| >= 3 {
      EncodedLength(b[3..]);
    }
  }

  lemma FirstSextet(b0: byte, rest: nat)
    requires rest < 65536
    ensures (b0 * 65536 + rest) / 262144 == b0 / 4
  {
    DivMod(b0 * 65536 + rest, 262144, b0 / 4, b0 % 4 * 65536 + rest);
  }

  lemma SecondSextet(b0: byte, b1: byte, b2: byte)
    ensures (b0 * 65536 + b1 * 256 + b2) / 4096 % 64 == b0 % 4 * 16 + b1 / 16
  {
    DivMod(b0 * 65536 + b1 * 256 + b2, 4096, b0 * 16 + b1 / 16, b1 % 16 * 256 + b2);
    DivMod(b0 * 16 + b1 / 16, 64, b0 / 4, b0 % 4 * 16 + b1 / 16);
  }

  lemma ThirdSextet(b0: byte, b1: byte, b2: byte)
    ensures (b0 * 65536 + b1 * 256 + b2) / 64 % 64 == b1 % 16 * 4 + b2 / 64
  {
    DivMod(b0 * 65536 + b1 * 256 + b2, 64, b0 * 1024 + b1 * 4 + b2 / 64, b2 % 64);
    DivMod(b0 * 1024 + b1 * 4 + b2 / 64, 64, b0 * 16 + b1 / 16, b1 % 16 * 4 + b2 / 64);
  }

  lemma FourthSextet(b0: byte, b1: byte, b2: byte)
    ensures (b0 * 65536 + b1 * 256 + b2) % 64 == b2 % 64
  {
    DivMod(b0 * 65536 + b1 * 256 + b2, 64, b0 * 1024 + b1 * 4 + b2 / 64, b2 % 64);
  }

  /** The shifts and masks of the encoder pick the sextets of the 24-bit number. */
  lemma GroupShifts(b0: byte, b1: byte, b2: byte)
    ensures Chars(b0, b1, b2) == [EncodeChar(b0 / 4), EncodeChar(b0 % 4 * 16 + b1 / 16),
                                  EncodeChar(b1 % 16 * 4 + b2 / 64), EncodeChar(b2 % 64)]
  {
    hide EncodeChar;
    FirstSextet(b0, b1 * 256 + b2);
    SecondSextet(b0, b1, b2);
    ThirdSextet(b0, b1, b2);
    FourthSextet(b0, b1, b2);
  }

  lemma EncodedStep(b: Octets, src: nat)
    requires src + 3 <= |b|
    ensures Encoded(b[src..]) == Chars(b[src], b[src + 1], b[src + 2]) + Encoded(b[src + 3..])
  {
    assert b[src..][3..] == b[src + 3..];
  }

  lemma EncodedNothing()
    ensures Encoded([]) == []
  {
  }

  lemma GroupedSize(n: nat)
    ensures EncodedSize(n) == 4 * (n / 3) + EncodedSize(n % 3) && n == 3 * (n / 3) + n % 3
  {
    DivMod(n + 2, 3, n / 3 + (n % 3 + 2) / 3, (n % 3 + 2) % 3);
  }

  /** Four times `*dest++ = c`. */
  method Put4(output: array<byte>, dest: nat, c0: byte, c1: byte, c2: byte, c3: byte)
    requires dest + 4 <= output.Length
    modifies output
    ensures output[..dest + 4] == old(output[..dest]) + [c0, c1, c2, c3]
    ensures forall k | dest + 4 <= k < output.Length :: output[k] == old(output[k])
  {
    output[dest] := c0;
    output[dest + 1] := c1;
    output[dest + 2] := c2;
    output[dest + 3] := c3;
  }

  /** The last, padded group. */
  method EncodeRemainder(output: array<byte>, dest: nat, rest: Octets) returns (n: nat)
    requires |rest| < 3 && dest + EncodedSize(|rest|) <= output.Length
    modifies output
    ensures n == dest + EncodedSize(|rest|)
    ensures output[..n] == old(output[..dest]) + Encoded(rest)
    ensures forall k | n <= k < output.Length :: output[k] == old(output[k])
  {
    var paddingCnt := (3 - |rest|) % 3;
    n := dest;
    if paddingCnt == 1 {
      GroupShifts(rest[0], rest[1], 0);
      Put4(output, dest, EncodeChar(rest[0] / 4), EncodeChar(rest[0] % 4 * 16 + rest[1] / 16),
           EncodeChar(rest[1] % 16 * 4), PAD);
      n := dest + 4;
    } else if paddingCnt == 2 {
      GroupShifts(rest[0], 0, 0);
      Put4(output, dest, EncodeChar(rest[0] / 4), EncodeChar(rest[0] % 4 * 16), PAD, PAD);
      n := dest + 4;
    }
  }

  /** One whole group. */
  method EncodeGroup(output: array<byte>, dest: nat, input: Octets, src: nat)
    requires src + 3 <= |input| && dest + 4 <= output.Length
    modifies output
    ensures output[..dest + 4] + Encoded(input[src + 3..]) == old(output[..dest]) + Encoded(input[src..])
    ensures forall k | dest + 4 <= k < output.Length :: output[k] == old(output[k])
  {
    var b0, b1, b2 := input[src], input[src + 1], input[src + 2];
    GroupShifts(b0, b1, b2);
    EncodedStep(input, src);
    Put4(output, dest, EncodeChar(b0 / 4), EncodeChar(b0 % 4 * 16 + b1 / 16),
         EncodeChar(b1 % 16 * 4 + b2 / 64), EncodeChar(b2 % 64));
  }

  method Encode(output: array<byte>, input: Octets) returns (n: nat)
    requires output.Length >= EncodedSize(|input|)
    modifies output
    ensures n == EncodedSize(|input|)
    ensures output[..n] == Encoded(input)
    ensures forall k | n <= k < output.Length :: output[k] == old(output[k])
  {
    hide Encoded, Chars;
    if |input| == 0 {
      EncodedNothing();
      return 0;
    }
    GroupedSize(|input|);
    hide EncodedSize;
    var src, dest := 0, 0;
    var groups := |input| / 3;
    ghost var all := groups;
    while groups > 0
      invariant 0 <= groups <= all && src == 3 * (all - groups) && dest == 4 * (all - groups)
      invariant output[..dest] + Encoded(input[src..]) == Encoded(input)
      invariant forall k | dest <= k < output.Length :: output[k] == old(output[k])
    {
      EncodeGroup(output, dest, input, src);
      src, dest, groups := src + 3, dest + 4, groups - 1;
    }
    n := EncodeRemainder(output, dest, input[src..]);
  }

  // ------------------------------------------------------------- the decoder

  /** `(c0 << 2) | ((c1 & 0x30) >> 4)` in a byte. */
  function FirstOctet(c0: byte, c1: byte): byte
  {
    c0 * 4 % 256 + c1 % 64 / 16
  }

  /** `(c1 << 4) | ((c2 & 0x3c) >> 2)` in a byte. */
  function SecondOctet(c1: byte, c2: byte): byte
  {
    c1 * 16 % 256 + c2 % 64 / 4
  }

  /** `(c2 << 6) | c3` in a byte; the two top bits of both operands meet. */
  function ThirdOctet(c2: byte, c3: byte): byte
  {
    var a, b := c2 % 4, c3 / 64;
    (if a >= 2 || b >= 2 then 128 else 0) + (if a % 2 == 1 || b % 2 == 1 then 64 else 0) + c3 % 64
  }

  lemma FirstShift(x0: Sextet, x1: Sextet, y: int)
    requires 0 <= y < 4096
    ensures (x0 * 262144 + x1 * 4096 + y) / 65536 == FirstOctet(x0, x1)
  {
    DivMod(x0 * 262144 + x1 * 4096 + y, 65536, x0 * 4 + x1 / 16, x1 % 16 * 4096 + y);
    DivMod(x0 * 4, 256, 0, x0 * 4);
    DivMod(x1, 64, 0, x1);
  }

  lemma MiddleBits(x0: Sextet, x1: Sextet, y: int)
    requires 0 <= y < 16
    ensures (x0 * 1024 + x1 * 16 + y) % 256 == x1 * 16 % 256 + y
  {
    DivMod(x0 * 1024 + x1 * 16 + y, 256, x0 * 4 + x1 / 16, x1 % 16 * 16 + y);
    DivMod(x1 * 16, 256, x1 / 16, x1 % 16 * 16);
  }

  lemma SecondShift(x0: Sextet, x1: Sextet, x2: Sextet, x3: Sextet)
    ensures (x0 * 262144 + x1 * 4096 + x2 * 64 + x3) / 256 % 256 == SecondOctet(x1, x2)
  {
    DivMod(x0 * 262144 + x1 * 4096 + x2 * 64 + x3, 256, x0 * 1024 + x1 * 16 + x2 / 4, x2 % 4 * 64 + x3);
    MiddleBits(x0, x1, x2 / 4);
    DivMod(x2, 64, 0, x2);
  }

  lemma ThirdShift(x0: Sextet, x1: Sextet, x2: Sextet, x3: Sextet)
    ensures (x0 * 262144 + x1 * 4096 + x2 * 64 + x3) % 256 == ThirdOctet(x2, x3)
  {
    DivMod(x0 * 262144 + x1 * 4096 + x2 * 64 + x3, 256, x0 * 1024 + x1 * 16 + x2 / 4, x2 % 4 * 64 + x3);
    LowBits(x2, x3);
  }

  lemma LowBits(c2: byte, x3: Sextet)
    ensures ThirdOctet(c2, x3) == c2 % 4 * 64 + x3
  {
    DivMod(x3, 64, 0, x3);
  }

  /** The shifts and masks of the decoder pick the bytes of the 24-bit number. */
  lemma OctetShifts(x0: Sextet, x1: Sextet, x2: Sextet, x3: Sextet)
    ensures Octets3(x0, x1, x2, x3) == [FirstOctet(x0, x1), SecondOctet(x1, x2), ThirdOctet(x2, x3)]
  {
    hide FirstOctet, SecondOctet, ThirdOctet;
    FirstShift(x0, x1, x2 * 64 + x3);
    SecondShift(x0, x1, x2, x3);
    ThirdShift(x0, x1, x2, x3);
  }

  /** A whole group: three times `*dest++`. */
  method Put3(output: array<byte>, dest: nat, base64Chars: array<byte>)
    requires base64Chars.Length == 4 && base64Chars != output && dest + 3 <= output.Length
    modifies output
    ensures output[..dest + 3] == old(output[..dest]) +
              [FirstOctet(base64Chars[0], base64Chars[1]), SecondOctet(base64Chars[1], base64Chars[2]),
               ThirdOctet(base64Chars[2], base64Chars[3])]
    ensures forall k | dest + 3 <= k < output.Length :: output[k] == old(output[k])
  {
    output[dest] := FirstOctet(base64Chars[0], base64Chars[1]);
    output[dest + 1] := SecondOctet(base64Chars[1], base64Chars[2]);
    output[dest + 2] := ThirdOctet(base64Chars[2], base64Chars[3]);
  }

  /** `chars` holds the values of `t`, as far as `t` goes. */
  predicate Holds(chars: seq<byte>, t: Octets)
  {
    |t| <= |chars| && forall j | 0 <= j < |t| :: IsAlphabet(t[j]) && chars[j] == DecodeChar(t[j])
  }

  lemma GroupOctets(chars: seq<byte>, t: Octets, src: nat)
    requires |chars| == 4 && src + 4 <= |t| && AllAlphabet(t) && Holds(chars, t[src..src + 4])
    ensures Plain(t[src..]) == [FirstOctet(chars[0], chars[1]), SecondOctet(chars[1], chars[2]),
                                ThirdOctet(chars[2], chars[3])] + Plain(t[src + 4..])
  {
    var g, u := t[src..src + 4], t[src..];
    assert g[0] == u[0] && g[1] == u[1] && g[2] == u[2] && g[3] == u[3];
    OctetShifts(Val(g[0]), Val(g[1]), Val(g[2]), Val(g[3]));
    assert u[4..] == t[src + 4..];
  }

  /**
   `out` has been written for the first `src` characters of `t`, except for the
   `i` characters of the group that `chars` collects.
   */
  ghost predicate Progress(out: Octets, chars: seq<byte>, i: nat, t: Octets, src: nat)
    requires AllAlphabet(t)
  {
    && i < 4 && i <= src <= |t| && 4 * |out| == 3 * (src - i)
    && Holds(chars, t[src - i..src])
    && out + Plain(t[src - i..]) == Plain(t)
  }

  lemma StoreHolds(chars: seq<byte>, i: nat, t: Octets, src: nat)
    requires |chars| == 4 && i < 4 && i <= src < |t| && AllAlphabet(t) && Holds(chars, t[src - i..src])
    ensures Holds(chars[i := DecodeChar(t[src])], t[src - i..src + 1])
  {
    assert t[src - i..src + 1] == t[src - i..src] + [t[src]];
  }

  lemma StoreKeepsProgress(out: Octets, chars: seq<byte>, i: nat, t: Octets, src: nat)
    requires AllAlphabet(t) && |chars| == 4 && i < 3 && src < |t| && Progress(out, chars, i, t, src)
    ensures Progress(out, chars[i := DecodeChar(t[src])], i + 1, t, src + 1)
  {
    StoreHolds(chars, i, t, src);
  }

  lemma GroupKeepsProgress(out: Octets, chars: seq<byte>, t: Octets, src: nat)
    requires AllAlphabet(t) && |chars| == 4 && src < |t| && Progress(out, chars, 3, t, src)
    ensures var c := chars[3 := DecodeChar(t[src])];
            Progress(out + [FirstOctet(c[0], c[1]), SecondOctet(c[1], c[2]), ThirdOctet(c[2], c[3])], c, 0, t, src + 1)
  {
    hide Octets3, FirstOctet, SecondOctet, ThirdOctet;
    var c := chars[3 := DecodeChar(t[src])];
    StoreHolds(chars, 3, t, src);
    GroupOctets(c, t, src - 3);
    var g, rest := [FirstOctet(c[0], c[1]), SecondOctet(c[1], c[2]), ThirdOctet(c[2], c[3])], Plain(t[src + 1..]);
    assert out + (g + rest) == (out + g) + rest;
  }

  /** Store one value and write the group when it is complete. */
  method Accumulate(output: array<byte>, dest: nat, base64Chars: array<byte>, i: nat, v: byte,
                    ghost t: Octets, ghost src: nat)
      returns (dest': nat, i': nat)
    requires base64Chars.Length == 4 && base64Chars != output
    requires AllAlphabet(t) && src < |t| && v == DecodeChar(t[src])
    requires dest <= output.Length && Progress(output[..dest], base64Chars[..], i, t, src)
    requires i == 3 ==> dest + 3 <= output.Length
    modifies output, base64Chars
    ensures dest' <= output.Length && Progress(output[..dest'], base64Chars[..], i', t, src + 1)
    ensures forall k | dest' <= k < output.Length :: output[k] == old(output[k])
  {
    ghost var chars := base64Chars[..];
    base64Chars[i] := v;
    assert base64Chars[..] == chars[i := v];
    dest', i' := dest, i + 1;
    if i' == 4 {
      GroupKeepsProgress(output[..dest], chars, t, src);
      Put3(output, dest, base64Chars);
      dest', i' := dest + 3, 0;
    } else {
      StoreKeepsProgress(output[..dest], chars, i, t, src);
    }
  }

  lemma {:induction false} UnfinishedOctets(chars: seq<byte>, t: Octets)
    requires |chars| == 4 && 0 < |t| < 4 && Holds(chars, t)
    ensures AllAlphabet(t) && |Plain(t)| == |t| - 1
    ensures |t| > 1 ==> Plain(t)[0] == FirstOctet(chars[0], chars[1])
    ensures |t| > 2 ==> Plain(t)[1] == SecondOctet(chars[1], chars[2])
  {
    if |t| == 2 {
      OctetShifts(Val(t[0]), Val(t[1]), 0, 0);
    } else if |t| == 3 {
      OctetShifts(Val(t[0]), Val(t[1]), Val(t[2]), 0);
    }
  }

  /**
   An unfinished group of `i` characters.  The entries of `base64Chars` from `i`
   on hold anything, and none of it reaches the output.
   */
  method DecodeUnfinished(output: array<byte>, dest: nat, base64Chars: array<byte>, i: nat, ghost t: Octets)
      returns (n: nat)
    requires base64Chars.Length == 4 && base64Chars != output
    requires 0 < i < 4 && |t| == i && AllAlphabet(t) && Holds(base64Chars[..], t)
    requires dest + i - 1 <= output.Length
    modifies output
    ensures n == dest + i - 1
    ensures output[..n] == old(output[..dest]) + Plain(t)
    ensures forall k | n <= k < output.Length :: output[k] == old(output[k])
  {
    hide FirstOctet, SecondOctet, ThirdOctet, Plain, AllAlphabet;
    var tmp := [FirstOctet(base64Chars[0], base64Chars[1]), SecondOctet(base64Chars[1], base64Chars[2]),
                ThirdOctet(base64Chars[2], base64Chars[3])];
    UnfinishedOctets(base64Chars[..], t);
    assert Plain(t) == tmp[..i - 1];
    n := dest;
    for j := 0 to i - 1
      invariant n == dest + j
      invariant output[..n] == old(output[..dest]) + tmp[..j]
      invariant forall k | n <= k < output.Length :: output[k] == old(output[k])
    {
      output[n] := tmp[j];
      assert output[..n + 1] == output[..n] + [tmp[j]];
      assert tmp[..j + 1] == tmp[..j] + [tmp[j]];
      n := n + 1;
    }
  }

  lemma PrefixAlphabet(t: Octets, n: nat)
    requires n <= |t| && AllAlphabet(t[..n])
    ensures forall i | 0 <= i < n :: IsAlphabet(t[i])
  {
    assert forall i | 0 <= i < n :: t[..n][i] == t[i];
  }

  lemma {:induction false} ScanEndsAt(t: Octets, p: nat)
    requires p <= |t| && AllAlphabet(t[..|t| - p]) && Padded(t, p)
    ensures Scan(t) == |t| - p
  {
    var k, n := Scan(t), |t| - p;
    TablesInverse(0, PAD);
    hide Scan, DecodeChar;
    PrefixAlphabet(t, k);
    PrefixAlphabet(t, n);
    if n < |t| {
      assert t[n] == PAD;
    }
  }

  lemma PaddedTail(t: Octets, p: nat)
    requires p <= 2 && p <= |t|
    ensures Padded(t, p) <==> p == 0 || (p == 1 && t[|t| - 1] == PAD)
                              || (p == 2 && t[|t| - 2] == PAD && t[|t| - 1] == PAD)
  {
  }

  /** Exactly the texts of the language end the scan with at most two `=` left. */
  lemma {:induction false} AcceptanceByScan(t: Octets)
    ensures IsBase64(t) <==>
              && GoodLength(|t|)
              && var rem := |t| - Scan(t);
                 rem == 0 || (rem == 1 && t[Scan(t)] == PAD)
                 || (rem == 2 && t[Scan(t)] == PAD && t[Scan(t) + 1] == PAD)
  {
    hide Scan, AllAlphabet, IsAlphabet, GoodLength, Padded;
    if IsBase64(t) {
      var p: nat :| p <= 2 && p <= |t| && AllAlphabet(t[..|t| - p]) && Padded(t, p);
      ScanEndsAt(t, p);
      PaddedTail(t, p);
    }
    var p := |t| - Scan(t);
    if p <= 2 {
      PaddedTail(t, p);
      assert t[..|t| - p] == t[..Scan(t)];
    }
  }

  lemma StartProgress(chars: seq<byte>, t: Octets)
    requires AllAlphabet(t)
    ensures Progress([], chars, 0, t, 0)
  {
    assert t[0..] == t;
  }

  lemma ProgressBounds(out: Octets, chars: seq<byte>, i: nat, t: Octets, src: nat)
    requires AllAlphabet(t) && Progress(out, chars, i, t, src)
    ensures i < 4 && i <= src <= |t| && 4 * |out| == 3 * (src - i)
  {
  }

  lemma PlainNothing()
    ensures Plain([]) == []
  {
  }

  lemma SuffixAlphabet(t: Octets, k: nat)
    requires AllAlphabet(t) && k <= |t|
    ensures AllAlphabet(t[k..])
  {
  }

  lemma SliceToEnd(t: Octets, k: nat)
    requires k <= |t|
    ensures t[k..|t|] == t[k..]
  {
  }

  /** At the end of the run only the unfinished group is missing. */
  lemma {:induction false} EndProgress(out: Octets, chars: seq<byte>, i: nat, t: Octets)
    requires AllAlphabet(t) && Progress(out, chars, i, t, |t|)
    ensures i <= |t| && AllAlphabet(t[|t| - i..]) && Holds(chars, t[|t| - i..])
    ensures out + Plain(t[|t| - i..]) == Plain(t)
  {
    hide Plain, Holds, AllAlphabet;
    SliceToEnd(t, |t| - i);
    SuffixAlphabet(t, |t| - i);
  }

  /** With no unfinished group nothing is missing. */
  lemma {:induction false} EndWhole(out: Octets, t: Octets)
    requires AllAlphabet(t) && out + Plain(t[|t|..]) == Plain(t)
    ensures out == Plain(t)
  {
    hide AllAlphabet;
    PlainNothing();
    assert t[|t|..] == [];
    hide Plain;
    assert out + [] == out;
  }

  /** The output buffer has room for what the scan has produced so far. */
  lemma Room(n: nat, src: nat, i: nat, dest: nat)
    requires n % 4 == 0 && i <= 4 && i <= src <= n && 4 * dest == 3 * (src - i)
    ensures i > 0 ==> dest + 3 <= DecodedSize(n)
    ensures dest <= DecodedSize(n)
  {
    assert n == 4 * (n / 4);
    assert src - i == 4 * ((src - i) / 4);
  }

  /** The scan of the decoder: stops at the first character outside the alphabet, or past the end. */
  method DecodeRun(output: array<byte>, input: Octets, base64Chars: array<byte>)
      returns (src: nat, dest: nat, i: nat, len: nat)
    requires GoodLength(|input|) && |input| < TWO64 && output.Length >= DecodedSize(|input|)
    requires base64Chars.Length == 4 && base64Chars != output
    modifies output, base64Chars
    ensures src == Scan(input) && len == (|input| - src - 1) % TWO64
    ensures dest <= output.Length && Progress(output[..dest], base64Chars[..], i, input[..src], src)
    ensures forall k | dest <= k < output.Length :: output[k] == old(output[k])
  {
    hide Progress, Plain, Scan, DecodeChar;
    ghost var t := input[..Scan(input)];
    assert forall j | 0 <= j < |t| :: t[j] == input[j];
    src, dest, i, len := 0, 0, 0, |input|;
    StartProgress(base64Chars[..], t);
    assert output[..0] == [];
    while true
      invariant src <= |t| && len == |input| - src && dest <= output.Length
      invariant Progress(output[..dest], base64Chars[..], i, t, src)
      invariant forall k | dest <= k < output.Length :: output[k] == old(output[k])
      decreases |input| - src
    {
      var more := len != 0;
      len := (len - 1) % TWO64;
      if !more || input[src] == PAD {
        TablesInverse(0, PAD);
        break;
      }
      var v := DecodeChar(input[src]);
      if v == INVALID {
        break;
      }
      ProgressBounds(output[..dest], base64Chars[..], i, t, src);
      Room(|input|, src + 1, i + 1, dest);
      dest, i := Accumulate(output, dest, base64Chars, i, v, t, src);
      src := src + 1;
    }
  }

  /** Everything the decoder writes: the whole groups of the run, then what is left of it. */
  method DecodeBytes(output: array<byte>, input: Octets) returns (src: nat, n: nat, len: nat)
    requires GoodLength(|input|) && |input| < TWO64 && output.Length >= DecodedSize(|input|)
    modifies output
    ensures src == Scan(input) && len == (|input| - src - 1) % TWO64
    ensures n <= DecodedSize(|input|)
    ensures output[..n] == Plain(input[..src])
    ensures forall k | n <= k < output.Length :: output[k] == old(output[k])
  {
    hide Progress, Plain, Scan, IsAlphabet, AllAlphabet, Holds;
    var base64Chars := new byte[4];
    var dest, i;
    src, dest, i, len := DecodeRun(output, input, base64Chars);
    ghost var t := input[..src];
    ProgressBounds(output[..dest], base64Chars[..], i, t, src);
    Room(|input|, src, i, dest);
    EndProgress(output[..dest], base64Chars[..], i, t);
    n := dest;
    if i == 0 {
      EndWhole(output[..dest], t);
    } else {
      n := DecodeUnfinished(output, dest, base64Chars, i, t[src - i..]);
    }
  }

  /**
   `PtBase64::Decode`: writes the bytes of the longest alphabet prefix, never
   more than `DecodedSize` allows, and reports success exactly for base64 text.
   */
  method Decode(output: array<byte>, input: Octets) returns (decodedLen: nat, decodedDone: bool)
    requires |input| < TWO64 && output.Length >= DecodedSize(|input|)
    modifies output
    ensures decodedLen <= DecodedSize(|input|)
    ensures output[..decodedLen] == Decoded(input)
    ensures forall k | decodedLen <= k < output.Length :: output[k] == old(output[k])
    ensures decodedDone <==> IsBase64(input)
  {
    hide Plain, Scan, IsAlphabet, AllAlphabet, IsBase64;
    AcceptanceByScan(input);
    if |input| < 4 || |input| % 4 != 0 {
      return 0, false;
    }
    var src, len;
    src, decodedLen, len := DecodeBytes(output, input);
    len := (len + 1) % TWO64;
    decodedDone := len == 0 || (len == 1 && input[src] == PAD)
                   || (len == 2 && input[src] == PAD && input[src + 1] == PAD);
  }
}
