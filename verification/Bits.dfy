/** Bit patterns of unsigned machine words, kept as natural numbers, and the
    little-endian layout that `memcpy` gives integers in an event buffer. */
module Bits {

  type Byte = b: int | 0 <= b < 256

  /** `x << n`. */
  function Shl(x: nat, n: nat): nat
  {
    if n == 0 then x else 2 * Shl(x, n - 1)
  }

  datatype BitOp = AND | OR

  function Bit(op: BitOp, a: nat, b: nat): (r: nat)
    requires a < 2 && b < 2
    ensures r < 2
  {
    match op
    case AND => if a == 1 && b == 1 then 1 else 0
    case OR => if a == 1 || b == 1 then 1 else 0
  }

  /** The C operators `a & b` and `a | b`, one bit at a time. */
  function Bitwise(op: BitOp, a: nat, b: nat): nat
    decreases a + b
  {
    if a == 0 && b == 0 then 0
    else 2 * Bitwise(op, a / 2, b / 2) + Bit(op, a % 2, b % 2)
  }

  function And(a: nat, b: nat): nat { Bitwise(AND, a, b) }

  function Or(a: nat, b: nat): nat { Bitwise(OR, a, b) }

  /** Bits above position `k` and bits below it never meet. */
  lemma {:induction false} BitwiseSplit(op: BitOp, k: nat, n: nat, m: nat, x: nat, y: nat, u: nat, v: nat)
    requires y < Shl(1, k) && v < Shl(1, k) && n == Shl(x, k) + y && m == Shl(u, k) + v
    ensures Bitwise(op, n, m) == Shl(Bitwise(op, x, u), k) + Bitwise(op, y, v)
  {
    if k > 0 {
      HalfSplit(n, Shl(x, k - 1), y);
      HalfSplit(m, Shl(u, k - 1), v);
      BitwiseSplit(op, k - 1, n / 2, m / 2, x, y / 2, u, v / 2);
    }
  }

  lemma HalfSplit(n: nat, s: nat, y: nat)
    requires n == 2 * s + y
    ensures n / 2 == s + y / 2 && n % 2 == y % 2
  {
  }

  lemma {:induction false} BitwiseZero(a: nat)
    ensures And(a, 0) == 0 && And(0, a) == 0
    ensures Or(a, 0) == a && Or(0, a) == a
  {
    if a != 0 {
      BitwiseZero(a / 2);
    }
  }

  lemma {:induction false} BitwiseLowOnes(n: nat, y: nat)
    requires 0 <= y < Shl(1, n)
    ensures Bitwise(AND, y, Shl(1, n) - 1) == y
  {
    if n > 0 {
      BitwiseLowOnes(n - 1, y / 2);
    }
  }

  lemma {:induction false} BitwiseBound(op: BitOp, n: nat, a: nat, b: nat)
    requires a < Shl(1, n) && b < Shl(1, n)
    ensures Bitwise(op, a, b) < Shl(1, n)
  {
    if n > 0 {
      BitwiseBound(op, n - 1, a / 2, b / 2);
    }
  }

  /** `x >> n`. */
  function Shr(x: nat, n: nat): nat
  {
    if n == 0 then x else Shr(x / 2, n - 1)
  }

  /** Shifting back drops what came in below. */
  lemma {:induction false} ShrShl(x: nat, y: nat, n: nat)
    requires y < Shl(1, n)
    ensures Shr(Shl(x, n) + y, n) == x
  {
    if n > 0 {
      ShrShl(x, y / 2, n - 1);
      assert (Shl(x, n) + y) / 2 == Shl(x, n - 1) + y / 2;
    }
  }

  lemma {:induction false} ShlZero(x: nat, n: nat)
    ensures Shl(x, n) == 0 <==> x == 0
  {
    if n > 0 {
      ShlZero(x, n - 1);
    }
  }

  lemma ShlMore(x: nat, n: nat)
    ensures Shl(x, n + 7) == 128 * Shl(x, n) && Shl(x, n + 8) == 256 * Shl(x, n)
  {
    assert Shl(x, n + 1) == 2 * Shl(x, n);
    assert Shl(x, n + 3) == 8 * Shl(x, n);
    assert Shl(x, n + 5) == 32 * Shl(x, n);
    assert Shl(x, n + 7) == 128 * Shl(x, n);
  }

  lemma ShlByByte(x: nat)
    ensures Shl(x, 8) == 256 * x && Shl(x, 7) == 128 * x
  {
    ShlMore(x, 0);
  }

  lemma ShlByBytes(x: nat)
    ensures Shl(x, 16) == 0x1_0000 * x && Shl(x, 24) == 0x100_0000 * x
  {
    ShlByByte(x);
    ShlMore(x, 8);
    ShlMore(x, 16);
  }

  /** A number split into its last byte and the rest. */
  lemma NextByte(op: BitOp, n: nat, m: nat, r: nat, x: nat, u: nat, h: nat, y: nat, v: nat, l: nat)
    requires n == 256 * x + y && m == 256 * u + v && r == 256 * h + l && y < 256 && v < 256
    requires h == Bitwise(op, x, u) && l == Bitwise(op, y, v)
    ensures Bitwise(op, n, m) == r
  {
    ShlByByte(1); ShlByByte(x); ShlByByte(u); ShlByByte(h);
    BitwiseSplit(op, 8, n, m, x, y, u, v);
  }

  lemma ByteBound(op: BitOp, a: nat, b: nat)
    requires a < 256 && b < 256
    ensures Bitwise(op, a, b) < 256
  {
    ShlByByte(1);
    BitwiseBound(op, 8, a, b);
  }

  lemma FullByteMask(y: nat)
    requires y < 256
    ensures And(y, 0xff) == y
  {
    ShlByByte(1);
    BitwiseLowOnes(8, y);
  }

  lemma LowByteMask(y: nat)
    requires y < 128
    ensures And(y, 0x7f) == y
  {
    ShlByByte(1);
    BitwiseLowOnes(7, y);
  }

  /** A byte split into its top bit and the other seven. */
  lemma TopBitSplit(op: BitOp, y: nat, m: nat)
    requires y < 256 && m < 256
    ensures Bitwise(op, y, m) == 128 * Bitwise(op, y / 128, m / 128) + Bitwise(op, y % 128, m % 128)
  {
    ShlByByte(1); ShlByByte(y / 128); ShlByByte(m / 128); ShlByByte(Bitwise(op, y / 128, m / 128));
    BitwiseSplit(op, 7, y, m, y / 128, y % 128, m / 128, m % 128);
  }

  lemma LowSevenBits(y: nat)
    requires y < 256
    ensures And(y, 0x7f) == y % 128
  {
    TopBitSplit(AND, y, 0x7f);
    BitwiseZero(y / 128);
    ShlByByte(1);
    BitwiseLowOnes(7, y % 128);
  }

  lemma AndTopBit(y: nat)
    requires y < 256
    ensures And(y, 0x80) == (if y >= 128 then 128 else 0)
  {
    TopBitSplit(AND, y, 0x80);
    BitwiseZero(y % 128);
    assert Bitwise(AND, 1, 1) == 1 && Bitwise(AND, 0, 1) == 0;
    assert y / 128 == if y >= 128 then 1 else 0;
  }

  lemma OrTopBit(y: nat)
    requires y < 256
    ensures Or(y, 0x80) == (if y >= 128 then y else y + 128)
  {
    TopBitSplit(OR, y, 0x80);
    BitwiseZero(y % 128);
    assert Bitwise(OR, 1, 1) == 1 && Bitwise(OR, 0, 1) == 1;
    assert y / 128 == if y >= 128 then 1 else 0;
  }

  /** What the four mask bytes of the field encoding do to one byte. */
  lemma ByteMasks(y: nat)
    requires y < 256
    ensures And(y, 0xff) == y
    ensures And(y, 0x7f) == y % 128
    ensures And(y, 0x80) == (if y >= 128 then 128 else 0)
    ensures Or(y, 0x80) == (if y >= 128 then y else y + 128)
  {
    FullByteMask(y);
    LowSevenBits(y);
    AndTopBit(y);
    OrTopBit(y);
  }

  function LEByte(v: nat, i: nat): Byte
    decreases i
  {
    if i == 0 then v % 256 else LEByte(v / 256, i - 1)
  }

  /** `k` bytes, least significant first. */
  function ToLE(k: nat, v: nat): (s: seq<Byte>)
    ensures |s| == k
  {
    seq(k, i requires 0 <= i < k => LEByte(v, i))
  }

  function FromLE(s: seq<Byte>): nat
  {
    if s == [] then 0 else s[0] + 256 * FromLE(s[1..])
  }

  function Pow256(k: nat): (p: nat)
    ensures p >= 1
  {
    if k == 0 then 1 else 256 * Pow256(k - 1)
  }

  lemma {:induction false} LittleEndianRoundTrip(k: nat, v: nat)
    requires v < Pow256(k)
    ensures FromLE(ToLE(k, v)) == v
  {
    if k > 0 {
      LittleEndianRoundTrip(k - 1, v / 256);
      var s := ToLE(k, v);
      assert s[0] == v % 256 && s[1..] == ToLE(k - 1, v / 256);
    }
  }

  lemma {:induction false} FromLEBound(s: seq<Byte>)
    ensures FromLE(s) < Pow256(|s|)
  {
    if s != [] {
      FromLEBound(s[1..]);
    }
  }

  const TWO31 := 0x8000_0000
  const TWO32 := 0x1_0000_0000
  const TWO63 := 0x8000_0000_0000_0000
  const TWO64 := 0x1_0000_0000_0000_0000

  type Int32 = x: int | -TWO31 <= x < TWO31
  type Int64 = x: int | -TWO63 <= x < TWO63
  type UInt32 = x: int | 0 <= x < TWO32

  lemma Pow256Values()
    ensures Pow256(1) == 256 && Pow256(4) == TWO32 && Pow256(8) == TWO64
  {
  }

  /** Two's complement reading of an unsigned 32-bit pattern. */
  function ToInt32(u: nat): Int32
    requires u < TWO32
  {
    if u < TWO31 then u else u - TWO32
  }

  function ToInt64(u: nat): Int64
    requires u < TWO64
  {
    if u < TWO63 then u else u - TWO64
  }

  function Bytes32(v: int): (s: seq<Byte>)
    ensures |s| == 4
  {
    ToLE(4, v % TWO32)
  }

  function Bytes64(v: int): (s: seq<Byte>)
    ensures |s| == 8
  {
    ToLE(8, v % TWO64)
  }

  /** The unsigned value of a 4-byte (8-byte) pattern is in range, so the signed readings are total. */
  lemma Patterns32(s: seq<Byte>)
    requires |s| == 4
    ensures FromLE(s) < TWO32
  {
    FromLEBound(s);
    Pow256Values();
  }

  lemma Patterns64(s: seq<Byte>)
    requires |s| == 8
    ensures FromLE(s) < TWO64
  {
    FromLEBound(s);
    Pow256Values();
  }

  lemma Int32RoundTrip(v: Int32)
    ensures FromLE(Bytes32(v)) < TWO32 && ToInt32(FromLE(Bytes32(v))) == v
  {
    Pow256Values();
    LittleEndianRoundTrip(4, v % TWO32);
  }

  lemma Int64RoundTrip(v: Int64)
    ensures FromLE(Bytes64(v)) < TWO64 && ToInt64(FromLE(Bytes64(v))) == v
  {
    Pow256Values();
    LittleEndianRoundTrip(8, v % TWO64);
  }

  lemma UInt32RoundTrip(v: UInt32)
    ensures FromLE(Bytes32(v)) == v
  {
    Pow256Values();
    LittleEndianRoundTrip(4, v % TWO32);
  }
}
