/** Bytes, exclusive or, and numbers in network byte order. */
module Bytes {

  type byte = x: int | 0 <= x < 256

  type Octets = seq<byte>

  // ------------------------------------------------------------- exclusive or

  function Pow2(n: nat): (p: nat)
    ensures p > 0
  {
    if n == 0 then 1 else 2 * Pow2(n - 1)
  }

  /** Exclusive or of two numbers of `n` bits. */
  function Xor(a: nat, b: nat, n: nat): (x: nat)
    requires a < Pow2(n) && b < Pow2(n)
    ensures x < Pow2(n)
  {
    if n == 0 then 0 else
    (if a % 2 == b % 2 then 0 else 1) + 2 * Xor(a / 2, b / 2, n - 1)
  }

  lemma {:induction false} XorTwice(a: nat, b: nat, n: nat)
    requires a < Pow2(n) && b < Pow2(n)
    ensures Xor(Xor(a, b, n), b, n) == a
  {
    if n > 0 {
      XorTwice(a / 2, b / 2, n - 1);
      var bit, y := if a % 2 == b % 2 then 0 else 1, Xor(a / 2, b / 2, n - 1);
      assert Xor(a, b, n) == 2 * y + bit;
      DivMod(Xor(a, b, n), 2, y, bit);
    }
  }

  /** Bit `i` of a number, the lowest bit first. */
  function Bit(x: nat, i: nat): nat
  {
    x / Pow2(i) % 2
  }

  lemma BitOfHalf(x: nat, i: nat)
    requires i > 0
    ensures Bit(x, i) == Bit(x / 2, i - 1)
  {
    DivDiv(x, 2, Pow2(i - 1));
  }

  lemma LowestBit(x: nat)
    ensures Bit(x, 0) == x % 2
  {
  }

  lemma XorHalf(a: nat, b: nat, n: nat)
    requires a < Pow2(n) && b < Pow2(n) && n > 0
    ensures Xor(a, b, n) / 2 == Xor(a / 2, b / 2, n - 1)
    ensures Xor(a, b, n) % 2 == if a % 2 == b % 2 then 0 else 1
  {
    var y, bit := Xor(a / 2, b / 2, n - 1), if a % 2 == b % 2 then 0 else 1;
    DivMod(Xor(a, b, n), 2, y, bit);
  }

  /** A bit of the exclusive or is set exactly where the two numbers differ. */
  lemma {:induction false} XorBit(a: nat, b: nat, n: nat, i: nat)
    requires a < Pow2(n) && b < Pow2(n) && i < n
    ensures Bit(Xor(a, b, n), i) == if Bit(a, i) == Bit(b, i) then 0 else 1
  {
    hide Xor, Bit;
    var x := Xor(a, b, n);
    XorHalf(a, b, n);
    if i == 0 {
      LowestBit(x);
      LowestBit(a);
      LowestBit(b);
    } else {
      XorBit(a / 2, b / 2, n - 1, i - 1);
      BitOfHalf(x, i);
      BitOfHalf(a, i);
      BitOfHalf(b, i);
    }
  }

  lemma EightBits()
    ensures Pow2(8) == 256
  {
    assert Pow2(4) == 16;
  }

  function XorByte(a: byte, b: byte): byte
  {
    EightBits();
    Xor(a, b, 8)
  }

  lemma XorByteBit(a: byte, b: byte, i: nat)
    requires i < 8
    ensures Bit(XorByte(a, b), i) == if Bit(a, i) == Bit(b, i) then 0 else 1
  {
    EightBits();
    XorBit(a, b, 8, i);
  }

  lemma PowersOfTwo()
    ensures Pow2(0) == 1 && Pow2(1) == 2 && Pow2(2) == 4 && Pow2(3) == 8
    ensures Pow2(4) == 16 && Pow2(5) == 32 && Pow2(6) == 64 && Pow2(7) == 128
  {
  }

  lemma SumOfBits(x: byte)
    ensures x == x % 2 + 2 * (x / 2 % 2) + 4 * (x / 4 % 2) + 8 * (x / 8 % 2) + 16 * (x / 16 % 2) + 32 * (x / 32 % 2)
                 + 64 * (x / 64 % 2) + 128 * (x / 128 % 2)
  {
    Halved(x, 1);
    Halved(x, 2);
    Halved(x, 4);
    Halved(x, 8);
    Halved(x, 16);
    Halved(x, 32);
    Halved(x, 64);
    Halved(x, 128);
    DivMod(x, 256, 0, x);
  }

  lemma Halved(x: nat, p: nat)
    requires p > 0
    ensures x / p == 2 * (x / (p * 2)) + x / p % 2
  {
    DivDiv(x, p, 2);
  }

  /** 1 if the numbers differ in the bit with value `p`, otherwise 0. */
  function Differ(a: byte, b: byte, p: nat): nat
    requires p > 0
  {
    if a / p % 2 == b / p % 2 then 0 else 1
  }

  lemma {:induction false} XorByteBitAt(a: byte, b: byte, i: nat, p: nat)
    requires i < 8 && p == Pow2(i)
    ensures XorByte(a, b) / p % 2 == Differ(a, b, p)
  {
    XorByteBit(a, b, i);
  }

  /** The exclusive or of two bytes as a sum. */
  lemma XorByteSum(a: byte, b: byte)
    ensures XorByte(a, b) == Differ(a, b, 1) + 2 * Differ(a, b, 2) + 4 * Differ(a, b, 4) + 8 * Differ(a, b, 8)
                             + 16 * Differ(a, b, 16) + 32 * Differ(a, b, 32) + 64 * Differ(a, b, 64)
                             + 128 * Differ(a, b, 128)
  {
    PowersOfTwo();
    hide XorByte, Pow2, Differ;
    XorByteBitAt(a, b, 0, 1);
    XorByteBitAt(a, b, 1, 2);
    XorByteBitAt(a, b, 2, 4);
    XorByteBitAt(a, b, 3, 8);
    XorByteBitAt(a, b, 4, 16);
    XorByteBitAt(a, b, 5, 32);
    XorByteBitAt(a, b, 6, 64);
    XorByteBitAt(a, b, 7, 128);
    SumOfBits(XorByte(a, b));
  }

  lemma XorByteTwice(a: byte, b: byte)
    ensures XorByte(XorByte(a, b), b) == a
  {
    EightBits();
    XorTwice(a, b, 8);
  }

  // ------------------------------------------------------- network byte order

  function Pow256(n: nat): (p: nat)
    ensures p > 0
  {
    if n == 0 then 1 else 256 * Pow256(n - 1)
  }

  const TWO64: nat := 0x1_0000_0000_0000_0000

  lemma Pow256Eight()
    ensures Pow256(2) == 65536 && Pow256(8) == TWO64
  {
    assert Pow256(4) == 0x1_0000_0000;
    assert Pow256(8) == 256 * (256 * (256 * (256 * Pow256(4))));
  }

  /** The number that a byte string denotes, most significant byte first. */
  function Value(s: Octets): nat
  {
    if s == [] then 0 else Value(s[..|s| - 1]) * 256 + s[|s| - 1]
  }

  /** The `width` low-order bytes of `n`, most significant byte first. */
  function BigEndian(n: nat, width: nat): (s: Octets)
    ensures |s| == width
  {
    if width == 0 then [] else BigEndian(n / 256, width - 1) + [n % 256]
  }

  lemma {:induction false} ValueOfBigEndian(n: nat, width: nat)
    requires n < Pow256(width)
    ensures Value(BigEndian(n, width)) == n
  {
    if width > 0 {
      ValueOfBigEndian(n / 256, width - 1);
      assert BigEndian(n, width)[..width - 1] == BigEndian(n / 256, width - 1);
    }
  }

  lemma MulGrows(a: nat, b: nat, c: nat)
    requires a <= b
    ensures a * c <= b * c
  {
  }

  lemma MulRegroup(a: nat, b: nat, c: nat)
    ensures a * b * c == a * (c * b)
  {
  }

  lemma DivBounds(n: nat, d: nat)
    requires d > 0
    ensures n / d * d <= n < (n / d + 1) * d
  {
  }

  lemma MulPositive(a: nat, b: nat)
    requires a > 0 && b > 0
    ensures a * b > 0
  {
  }

  lemma DivDiv(n: nat, d: nat, p: nat)
    requires d > 0 && p > 0
    ensures d * p > 0 && n / (d * p) == (n / d) / p
  {
    var m := n / d;
    var q := m / p;
    MulPositive(d, p);
    DivBounds(n, d);
    DivBounds(m, p);
    MulGrows(q * p, m, d);
    MulGrows(m + 1, (q + 1) * p, d);
    MulRegroup(q, p, d);
    MulRegroup(q + 1, p, d);
    DivUnique(n, d * p, q);
  }

  lemma DivUnique(m: nat, p: nat, q: nat)
    requires p > 0 && q * p <= m < (q + 1) * p
    ensures m / p == q
  {
    var d := m / p;
    assert d * p <= m < (d + 1) * p;
    assert d < q ==> (d + 1) * p <= q * p;
    assert d > q ==> (q + 1) * p <= d * p;
  }

  /** Quotient and remainder are the only numbers that fit together. */
  lemma DivMod(n: nat, d: nat, q: nat, r: nat)
    requires r < d && n == q * d + r
    ensures n / d == q && n % d == r
  {
    DivUnique(n, d, q);
    assert n == d * (n / d) + n % d;
  }

  /** Byte `i` is what is left after shifting the bytes behind it away. */
  lemma {:induction false} BigEndianAt(n: nat, width: nat, i: nat)
    requires i < width
    ensures BigEndian(n, width)[i] == n / Pow256(width - 1 - i) % 256
  {
    if i < width - 1 {
      BigEndianAt(n / 256, width - 1, i);
      DivDiv(n, 256, Pow256(width - 2 - i));
    }
  }

  /**
   `PushNumberPerByte` for an unsigned type of `bytesCount` bytes.  The shift
   count wraps around after the last byte, when it is not used any more.
   */
  method PushNumberPerByte(message: Octets, number: nat, bytesCount: nat) returns (result: Octets)
    requires 0 < bytesCount <= 8 && number < Pow256(bytesCount)
    ensures result == message + BigEndian(number, bytesCount)
  {
    result := message;
    var shiftCount := (bytesCount - 1) * 8;
    ghost var bytes := BigEndian(number, bytesCount);
    hide BigEndian;
    for i := 0 to bytesCount
      invariant result == message + bytes[..i]
      invariant i < bytesCount ==> shiftCount == (bytesCount - 1 - i) * 8
    {
      BigEndianAt(number, bytesCount, i);
      assert shiftCount / 8 == bytesCount - 1 - i;
      assert bytes[..i + 1] == bytes[..i] + [bytes[i]];
      result := result + [number / Pow256(shiftCount / 8) % 256];
      shiftCount := (shiftCount - 8) % TWO64;
    }
  }

  /** A byte fits into the register next to a shifted number. */
  lemma ShiftIn(v: nat, b: byte)
    ensures v * 256 % TWO64 + b == (v * 256 + b) % TWO64
  {
    var q, r := v * 256 / TWO64, v * 256 % TWO64;
    assert r == 256 * (v - q * 0x100_0000_0000_0000);
    ModUnique(v * 256 + b, q, r + b);
  }

  lemma ShiftMod(v: nat)
    ensures (v % TWO64) * 256 % TWO64 == v * 256 % TWO64
  {
    var q, r := v / TWO64, v % TWO64;
    var q', r' := r * 256 / TWO64, r * 256 % TWO64;
    assert v * 256 == (256 * q + q') * TWO64 + r';
    ModUnique(v * 256, 256 * q + q', r');
  }

  lemma ModUnique(n: nat, q: nat, r: nat)
    requires r < TWO64 && n == q * TWO64 + r
    ensures n % TWO64 == r
  {
  }

  /** `NetToHostLongLong`: shifts in a 64-bit register, so longer inputs are reduced modulo 2^64. */
  method NetToHostLongLong(buf: Octets) returns (result: nat)
    ensures result == Value(buf) % TWO64
  {
    result := 0;
    for i := 0 to |buf|
      invariant i == 0 ==> result == 0
      invariant 0 < i < |buf| ==> result == Value(buf[..i]) * 256 % TWO64
      invariant i == |buf| ==> result == Value(buf) % TWO64
    {
      assert buf[..i + 1][..i] == buf[..i];
      ShiftIn(Value(buf[..i]), buf[i]);
      ShiftMod(Value(buf[..i + 1]));
      // the low byte of the register is zero here, so `|=` adds
      result := result + buf[i];
      if i + 1 < |buf| {
        result := result * 256 % TWO64;
      } else {
        assert buf[..i + 1] == buf;
      }
    }
  }
}
