/**
 What the base64 encoder and decoder are to each other: decoding undoes
 encoding on every byte string, and encoding undoes decoding exactly on the
 canonical texts.
 */
module Base64RoundTrip {
  import opened Bytes
  import opened Base64

  /** The number of `=` at the end of the text of `n` bytes. */
  function PadCount(n: nat): (p: nat)
    ensures p <= 2
  {
    (3 - n % 3) % 3
  }

  lemma SextetsOf(v: nat)
    requires v < 16777216
    ensures v / 262144 < 64
    ensures v == v / 262144 * 262144 + v / 4096 % 64 * 4096 + v / 64 % 64 * 64 + v % 64
  {
    var w := v / 64;
    var x := w / 64;
    DivMod(v, 4096, x, w % 64 * 64 + v % 64);
    DivMod(v, 262144, x / 64, x % 64 * 4096 + w % 64 * 64 + v % 64);
  }

  lemma OctetsOf(v: nat)
    requires v < 16777216
    ensures v / 65536 < 256
    ensures v == v / 65536 * 65536 + v / 256 % 256 * 256 + v % 256
  {
    var w := v / 256;
    DivMod(v, 65536, w / 256, w % 256 * 256 + v % 256);
  }

  lemma OctetsUnique(b0: byte, b1: byte, b2: byte)
    ensures var v := b0 * 65536 + b1 * 256 + b2;
            v < 16777216 && v / 65536 == b0 && v / 256 % 256 == b1 && v % 256 == b2
  {
    var v := b0 * 65536 + b1 * 256 + b2;
    DivMod(v, 65536, b0, b1 * 256 + b2);
    DivMod(v, 256, b0 * 256 + b1, b2);
    DivMod(b0 * 256 + b1, 256, b0, b1);
  }

  lemma SextetsUnique(x0: Sextet, x1: Sextet, x2: Sextet, x3: Sextet)
    ensures var v := x0 * 262144 + x1 * 4096 + x2 * 64 + x3;
            v < 16777216 && v / 262144 == x0 && v / 4096 % 64 == x1 && v / 64 % 64 == x2 && v % 64 == x3
  {
    var v := x0 * 262144 + x1 * 4096 + x2 * 64 + x3;
    DivMod(v, 262144, x0, x1 * 4096 + x2 * 64 + x3);
    DivMod(v, 4096, x0 * 64 + x1, x2 * 64 + x3);
    DivMod(x0 * 64 + x1, 64, x0, x1);
    DivMod(v, 64, x0 * 4096 + x1 * 64 + x2, x3);
    DivMod(x0 * 4096 + x1 * 64 + x2, 64, x0 * 64 + x1, x2);
  }

  /** The four characters of a group decode to its three bytes. */
  lemma GroupThere(b0: byte, b1: byte, b2: byte)
    ensures var s := Chars(b0, b1, b2);
            AllAlphabet(s) && Octets3(Val(s[0]), Val(s[1]), Val(s[2]), Val(s[3])) == [b0, b1, b2]
  {
    var v := b0 * 65536 + b1 * 256 + b2;
    OctetsUnique(b0, b1, b2);
    SextetsOf(v);
    TablesInverse(v / 262144, 0);
    TablesInverse(v / 4096 % 64, 0);
    TablesInverse(v / 64 % 64, 0);
    TablesInverse(v % 64, 0);
  }

  /** The three bytes of a group encode to its four characters. */
  lemma GroupBack(x0: Sextet, x1: Sextet, x2: Sextet, x3: Sextet)
    ensures var o := Octets3(x0, x1, x2, x3);
            Chars(o[0], o[1], o[2]) == [EncodeChar(x0), EncodeChar(x1), EncodeChar(x2), EncodeChar(x3)]
  {
    SextetsUnique(x0, x1, x2, x3);
    OctetsOf(x0 * 262144 + x1 * 4096 + x2 * 64 + x3);
  }

  // ------------------------------------------------- decoding undoes encoding

  /** `t` is alphabet characters with bytes `b`, then `p` times `=`. */
  predicate Spells(t: Octets, p: nat, b: Octets)
  {
    p <= |t| && AllAlphabet(t[..|t| - p]) && Padded(t, p) && Plain(t[..|t| - p]) == b
  }

  /** Zero bytes at the end of a group are zero characters at its end. */
  lemma ZeroTail(b0: byte, b1: byte)
    ensures Chars(b0, 0, 0)[2] == EncodeChar(0) && Chars(b0, 0, 0)[3] == EncodeChar(0)
    ensures Chars(b0, b1, 0)[3] == EncodeChar(0)
  {
    hide Chars, EncodeChar;
    GroupShifts(b0, 0, 0);
    GroupShifts(b0, b1, 0);
  }

  lemma OneByte(b0: byte)
    ensures Spells(Encoded([b0]), 2, [b0])
  {
    hide Octets3, Chars;
    var s := Chars(b0, 0, 0);
    GroupThere(b0, 0, 0);
    ZeroTail(b0, 0);
    var t := s[..2];
    assert Encoded([b0])[..2] == t;
    assert t[0] == s[0] && t[1] == s[1];
  }

  lemma TwoBytes(b0: byte, b1: byte)
    ensures Spells(Encoded([b0, b1]), 1, [b0, b1])
  {
    hide Octets3, Chars;
    var s := Chars(b0, b1, 0);
    GroupThere(b0, b1, 0);
    ZeroTail(b0, b1);
    var t := s[..3];
    assert Encoded([b0, b1])[..3] == t;
    assert t[0] == s[0] && t[1] == s[1] && t[2] == s[2];
  }

  lemma SpellsNothing()
    ensures Spells([], 0, [])
  {
  }

  lemma SpellsAppend(g: Octets, o: Octets, t: Octets, p: nat, b: Octets)
    requires |g| == 4 && AllAlphabet(g) && o == Octets3(Val(g[0]), Val(g[1]), Val(g[2]), Val(g[3]))
    requires Spells(t, p, b)
    ensures Spells(g + t, p, o + b)
  {
    var u := (g + t)[..|g + t| - p];
    assert u == g + t[..|t| - p];
    assert u[4..] == t[..|t| - p];
    forall i | 0 <= i < |u|
      ensures IsAlphabet(u[i])
    {
      if i >= 4 {
        assert u[i] == t[..|t| - p][i - 4];
      }
    }
  }

  lemma {:induction false} EncodedSpells(b: Octets)
    ensures Spells(Encoded(b), PadCount(|b|), b)
  {
    hide Octets3, Chars, Spells, AllAlphabet;
    if b == [] {
      SpellsNothing();
    } else if |b| == 1 {
      OneByte(b[0]);
      assert b == [b[0]];
    } else if |b| == 2 {
      TwoBytes(b[0], b[1]);
      assert b == [b[0], b[1]];
    } else {
      EncodedSpells(b[3..]);
      GroupThere(b[0], b[1], b[2]);
      SpellsAppend(Chars(b[0], b[1], b[2]), [b[0], b[1], b[2]], Encoded(b[3..]), PadCount(|b|), b[3..]);
      assert b == [b[0], b[1], b[2]] + b[3..];
    }
  }

  lemma GoodSize(n: nat)
    requires n > 0
    ensures GoodLength(EncodedSize(n))
  {
  }

  /** Round trip: the text of every non-empty byte string is accepted and decodes to it. */
  lemma {:induction false} DecodeOfEncode(b: Octets)
    requires b != []
    ensures |Encoded(b)| == EncodedSize(|b|)
    ensures IsBase64(Encoded(b))
    ensures Decoded(Encoded(b)) == b
  {
    hide Encoded, Plain, Scan, EncodedSize, GoodLength, PadCount, AllAlphabet;
    EncodedLength(b);
    GoodSize(|b|);
    EncodedSpells(b);
    ScanEndsAt(Encoded(b), PadCount(|b|));
  }

  /** The text of no bytes is empty, and the decoder rejects it. */
  lemma EmptyIsNotAccepted()
    ensures Encoded([]) == [] && !IsBase64([])
  {
  }

  // ---------------------------------------------------------- decoded lengths

  lemma {:induction false} PlainLength(t: Octets)
    requires AllAlphabet(t)
    ensures |Plain(t)| == |t| / 4 * 3 + (if |t| % 4 == 0 then 0 else |t| % 4 - 1)
  {
    if |t| >= 4 {
      PlainLength(t[4..]);
    }
  }

  /** The padding of an accepted text is what the scan leaves over. */
  function Padding(t: Octets): nat
  {
    |t| - Scan(t)
  }

  /** On success the output is three quarters of the text, less one byte for each `=`. */
  lemma DecodedLength(t: Octets)
    requires IsBase64(t)
    ensures Padding(t) <= 2 && |Decoded(t)| == 3 * |t| / 4 - Padding(t)
  {
    hide Plain, Scan, IsAlphabet, AllAlphabet, IsBase64;
    AcceptanceByScan(t);
    PlainLength(t[..Scan(t)]);
  }

  // ------------------------------------------------- encoding undoes decoding

  predicate TwoZeros(c: byte)
  {
    DecodeChar(c) % 4 == 0
  }

  predicate FourZeros(c: byte)
  {
    DecodeChar(c) % 16 == 0
  }

  /** The bits of the last character that no byte uses are zero. */
  predicate Canonical(t: Octets)
  {
    var k := Scan(t);
    k > 0 &&
    if k == |t| then true
    else if k + 1 == |t| then TwoZeros(t[k - 1])
    else k + 2 == |t| && FourZeros(t[k - 1])
  }

  lemma {:induction false} EncodedGroup(o: Octets, rest: Octets)
    requires |o| == 3
    ensures Encoded(o + rest) == Chars(o[0], o[1], o[2]) + Encoded(rest)
  {
    hide Chars;
    assert (o + rest)[3..] == rest;
  }

  /** Re-encoding a whole group gives it back and goes on with the rest. */
  lemma {:induction false} WholeGroup(t: Octets)
    requires |t| >= 4 && AllAlphabet(t)
    ensures Encoded(Plain(t)) == t[..4] + Encoded(Plain(t[4..]))
  {
    hide Octets3, Chars, EncodeChar, DecodeChar, Encoded;
    GroupBack(Val(t[0]), Val(t[1]), Val(t[2]), Val(t[3]));
    TablesInverse(0, t[0]);
    TablesInverse(0, t[1]);
    TablesInverse(0, t[2]);
    TablesInverse(0, t[3]);
    var o := Octets3(Val(t[0]), Val(t[1]), Val(t[2]), Val(t[3]));
    EncodedGroup(o, Plain(t[4..]));
  }

  lemma UnusedTwo(x1: Sextet, x2: Sextet)
    ensures SecondOctet(x1, x2 / 4 * 4) == SecondOctet(x1, x2) && ThirdOctet(x2 / 4 * 4, 0) == 0
  {
    var q := x2 / 4;
    DivMod(q * 4, 4, q, 0);
    DivMod(q * 4, 64, 0, q * 4);
    DivMod(x2, 64, 0, x2);
    LowBits(q * 4, 0);
  }

  lemma UnusedFour(x0: Sextet, x1: Sextet)
    ensures FirstOctet(x0, x1 / 16 * 16) == FirstOctet(x0, x1) && SecondOctet(x1 / 16 * 16, 0) == 0
    ensures ThirdOctet(0, 0) == 0
  {
    var q := x1 / 16;
    DivMod(q * 16, 16, q, 0);
    DivMod(q * 16, 64, 0, q * 16);
    DivMod(x1, 64, 0, x1);
    DivMod(q * 16 * 16, 256, q, 0);
    LowBits(0, 0);
  }

  /** Clearing the bits that no byte uses changes no byte. */
  lemma UnusedBits(x0: Sextet, x1: Sextet, x2: Sextet)
    ensures Octets3(x0, x1, x2 / 4 * 4, 0) == Octets3(x0, x1, x2, 0)[..2] + [0]
    ensures Octets3(x0, x1 / 16 * 16, 0, 0) == Octets3(x0, x1, 0, 0)[..1] + [0, 0]
  {
    hide Octets3, FirstOctet, SecondOctet, ThirdOctet;
    UnusedTwo(x1, x2);
    UnusedFour(x0, x1);
    OctetShifts(x0, x1, x2, 0);
    OctetShifts(x0, x1, x2 / 4 * 4, 0);
    OctetShifts(x0, x1, 0, 0);
    OctetShifts(x0, x1 / 16 * 16, 0, 0);
  }

  /** Re-encoding three characters clears the two low bits of the last one. */
  lemma {:induction false} ThreeChars(t: Octets)
    requires |t| == 3 && AllAlphabet(t)
    ensures Encoded(Plain(t)) == [t[0], t[1], Clear2(t[2]), PAD]
  {
    hide Octets3, Chars, EncodeChar, DecodeChar;
    UnusedBits(Val(t[0]), Val(t[1]), Val(t[2]));
    GroupBack(Val(t[0]), Val(t[1]), Val(t[2]) / 4 * 4, 0);
    TablesInverse(0, t[0]);
    TablesInverse(0, t[1]);
  }

  /** Re-encoding two characters clears the four low bits of the last one. */
  lemma {:induction false} TwoChars(t: Octets)
    requires |t| == 2 && AllAlphabet(t)
    ensures Encoded(Plain(t)) == [t[0], Clear4(t[1]), PAD, PAD]
  {
    hide Octets3, Chars, EncodeChar, DecodeChar;
    UnusedBits(Val(t[0]), Val(t[1]), 0);
    GroupBack(Val(t[0]), Val(t[1]) / 16 * 16, 0, 0);
    TablesInverse(0, t[0]);
  }

  lemma {:induction false} NoChars(t: Octets)
    requires t == []
    ensures Encoded(Plain(t)) == []
  {
  }

  /** A character with its two, or its four, low bits cleared. */
  function Clear2(c: byte): byte
    requires IsAlphabet(c)
  {
    EncodeChar(Val(c) / 4 * 4)
  }

  function Clear4(c: byte): byte
    requires IsAlphabet(c)
  {
    EncodeChar(Val(c) / 16 * 16)
  }

  /** `t` with the last character cleared and padded, when its last group has `r` characters. */
  function Finish(t: Octets, r: nat): Octets
    requires AllAlphabet(t) && (t == [] ==> r == 0)
  {
    if r == 3 then t[..|t| - 1] + ([Clear2(t[|t| - 1])] + [PAD])
    else if r == 2 then t[..|t| - 1] + ([Clear4(t[|t| - 1])] + [PAD, PAD])
    else t
  }

  lemma FinishStep(t: Octets, r: nat)
    requires AllAlphabet(t) && |t| >= 4 && (|t| == 4 ==> r == 0)
    ensures t[..4] + Finish(t[4..], r) == Finish(t, r)
  {
    hide Clear2, Clear4;
    var n := |t| - 1;
    if |t| == 4 {
      assert t[4..] == [];
    } else {
      assert t[4..][n - 4] == t[n];
      assert t[..4] + t[4..][..n - 4] == t[..n];
    }
  }

  lemma FinishShort(t: Octets)
    requires AllAlphabet(t)
    ensures |t| == 0 ==> Finish(t, 0) == []
    ensures |t| == 2 ==> Finish(t, 2) == [t[0], Clear4(t[1]), PAD, PAD]
    ensures |t| == 3 ==> Finish(t, 3) == [t[0], t[1], Clear2(t[2]), PAD]
  {
    hide Clear2, Clear4;
  }

  /** Re-encoding the bytes of `q` groups and `r` more characters. */
  lemma {:induction false} Reencoded(t: Octets, q: nat, r: nat)
    requires AllAlphabet(t) && |t| == 4 * q + r && (r == 0 || r == 2 || r == 3)
    ensures Encoded(Plain(t)) == Finish(t, r)
  {
    FinishShort(t);
    hide IsAlphabet, Plain, Encoded, Finish, Clear2, Clear4;
    if q > 0 {
      assert forall i | 0 <= i < |t[4..]| :: t[4..][i] == t[i + 4];
      Reencoded(t[4..], q - 1, r);
      WholeGroup(t);
      FinishStep(t, r);
    } else if r == 3 {
      ThreeChars(t);
    } else if r == 2 {
      TwoChars(t);
    } else {
      NoChars(t);
    }
  }

  lemma {:induction false} ScannedChar(t: Octets, i: nat)
    requires i < Scan(t)
    ensures IsAlphabet(t[i])
  {
    assert t[..Scan(t)][i] == t[i];
  }

  lemma {:induction false} NoPadding(t: Octets)
    requires |t| > 0 && Padding(t) == 0
    ensures Finish(t[..Scan(t)], 0) == t && Canonical(t)
  {
    hide Scan, AllAlphabet;
    assert t[..|t|] == t;
  }

  lemma {:induction false} OnePadding(t: Octets)
    requires |t| > 1 && Padding(t) == 1 && t[|t| - 1] == PAD
    ensures Finish(t[..Scan(t)], 3) == t <==> Canonical(t)
  {
    hide Scan, Clear2, Clear4, TwoZeros, FourZeros, IsAlphabet, AllAlphabet;
    var k := Scan(t);
    var u, front, c := t[..k], t[..k - 1], t[k - 1];
    assert u[k - 1] == c && u[..k - 1] == front;
    ScannedChar(t, k - 1);
    LastChar(c);
    SameText(t, front, c, Clear2(c), [PAD]);
  }

  lemma {:induction false} TwoPadding(t: Octets)
    requires |t| > 2 && Padding(t) == 2 && t[|t| - 2] == PAD && t[|t| - 1] == PAD
    ensures Finish(t[..Scan(t)], 2) == t <==> Canonical(t)
  {
    hide Scan, Clear2, Clear4, TwoZeros, FourZeros, IsAlphabet, AllAlphabet;
    var k := Scan(t);
    var u, front, c := t[..k], t[..k - 1], t[k - 1];
    assert u[k - 1] == c && u[..k - 1] == front;
    ScannedChar(t, k - 1);
    LastChar(c);
    SameText(t, front, c, Clear4(c), [PAD, PAD]);
  }

  lemma SameText(t: Octets, front: Octets, c: byte, d: byte, rest: Octets)
    requires |t| == |front| + 1 + |rest| && t[..|front|] == front && t[|front|] == c
    requires forall i | 0 <= i < |rest| :: t[|front| + 1 + i] == rest[i]
    ensures front + ([d] + rest) == t <==> c == d
  {
    assert (front + ([d] + rest))[|front|] == d;
  }

  /** The other round trip: an accepted text is what its bytes encode to exactly when it is canonical. */
  lemma EncodeOfDecode(t: Octets)
    requires IsBase64(t)
    ensures Encoded(Decoded(t)) == t <==> Canonical(t)
  {
    hide Encoded, Plain, Scan, IsAlphabet, AllAlphabet, Finish, Canonical, IsBase64;
    AcceptanceByScan(t);
    var u := t[..Scan(t)];
    if Padding(t) == 0 {
      Reencoded(u, |t| / 4, 0);
      NoPadding(t);
    } else if Padding(t) == 1 {
      Reencoded(u, |t| / 4 - 1, 3);
      OnePadding(t);
    } else {
      Reencoded(u, |t| / 4 - 1, 2);
      TwoPadding(t);
    }
  }

  lemma LastChar(c: byte)
    requires IsAlphabet(c)
    ensures Clear2(c) == c <==> TwoZeros(c)
    ensures Clear4(c) == c <==> FourZeros(c)
  {
    TablesInverse(Val(c) / 4 * 4, c);
    TablesInverse(Val(c) / 16 * 16, c);
  }

  /** A text that is accepted and is not the encoding of its bytes: `QR==`. */
  lemma NonCanonicalText()
    ensures var t := [81, 82, PAD, PAD];
            IsBase64(t) && !Canonical(t) && Decoded(t) == [65] && Encoded([65]) == [81, 81, PAD, PAD]
  {
    var t: Octets := [81, 82, PAD, PAD];
    assert AllAlphabet(t[..2]) && Padded(t, 2);
    ScanEndsAt(t, 2);
  }

  lemma ShortVectors()
    ensures Encoded([102]) == [90, 103, 61, 61]
    ensures Encoded([102, 111]) == [90, 109, 56, 61]
  {
    hide Chars;
    GroupShifts(102, 0, 0);
    GroupShifts(102, 111, 0);
  }

  lemma GroupVector()
    ensures Encoded([102, 111, 111]) == [90, 109, 57, 118]
  {
    hide Chars;
    GroupShifts(102, 111, 111);
    assert [102, 111, 111][3..] == [];
    assert Encoded([]) == [];
  }

  /** The examples of section 10 of RFC 4648 up to one group: "f", "fo" and "foo" give "Zg==", "Zm8=" and "Zm9v". */
  lemma TestVectors()
    ensures Encoded([]) == []
    ensures Encoded([102]) == [90, 103, 61, 61]
    ensures Encoded([102, 111]) == [90, 109, 56, 61]
    ensures Encoded([102, 111, 111]) == [90, 109, 57, 118]
  {
    assert Encoded([]) == [];
    hide Encoded;
    ShortVectors();
    GroupVector();
  }
}
