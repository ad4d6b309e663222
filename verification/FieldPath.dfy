/** The packed 32-bit path of a log element (FieldValue.h, FieldValue.cpp):
    one byte of depth, then one byte per level, whose top bit marks the last item. */
module FieldPath {
  import opened Bits

  const MAX_LOG_DEPTH: nat := 2
  const LAST_BIT_MASK: nat := 0x80
  const CLEAR_LAST_BIT: nat := 0x7f
  const PATH_MASK: nat := 0x00ff_ffff

  /** The bytes of a 32-bit word: the depth, then one byte per level. `Code` is the number itself. */
  datatype Word = Pack(d: nat, p0: nat, p1: nat, p2: nat) {
    function At(depth: nat): nat { if depth == 0 then p0 else if depth == 1 then p1 else p2 }
  }

  datatype Field = Field(tag: int, field: Word)

  /** Which items of a repeated field a matcher means. */
  datatype Position = FIRST | LAST | ANY | ALL | POSITION_UNKNOWN

  predicate IsPath(w: Word) { w.d < 256 && w.p0 < 256 && w.p1 < 256 && w.p2 < 256 }

  // ---------- words and numbers ----------

  function Code(w: Word): nat { 256 * (256 * (256 * w.d + w.p0) + w.p1) + w.p2 }

  function WordOf(n: nat): Word { Pack(n / 256 / 256 / 256 % 256, n / 256 / 256 % 256, n / 256 % 256, n % 256) }

  lemma LastByte(x: nat, y: nat)
    requires y < 256
    ensures (256 * x + y) / 256 == x && (256 * x + y) % 256 == y
  {
  }

  /** A word is determined by its number ... */
  lemma WordOfCode(w: Word)
    requires IsPath(w)
    ensures WordOf(Code(w)) == w
  {
    var x := 256 * w.d + w.p0;
    LastByte(w.d, w.p0);
    LastByte(x, w.p1);
    LastByte(256 * x + w.p1, w.p2);
  }

  /** ... and every 32-bit number is that of its bytes. */
  lemma CodeOfWord(n: nat)
    requires n < TWO32
    ensures IsPath(WordOf(n)) && Code(WordOf(n)) == n
  {
  }

  lemma CodeInjective(a: Word, b: Word)
    requires IsPath(a) && IsPath(b)
    ensures Code(a) == Code(b) <==> a == b
  {
    WordOfCode(a);
    WordOfCode(b);
  }

  /** An operator applied byte by byte. */
  function BitwiseWord(op: BitOp, a: Word, b: Word): Word
  {
    Pack(Bitwise(op, a.d, b.d), Bitwise(op, a.p0, b.p0), Bitwise(op, a.p1, b.p1), Bitwise(op, a.p2, b.p2))
  }

  lemma WordBound(op: BitOp, a: Word, b: Word)
    requires IsPath(a) && IsPath(b)
    ensures IsPath(BitwiseWord(op, a, b))
  {
    ByteBound(op, a.d, b.d); ByteBound(op, a.p0, b.p0); ByteBound(op, a.p1, b.p1); ByteBound(op, a.p2, b.p2);
  }

  /** `&` and `|` of two numbers are those of their bytes. */
  lemma BitwiseCode(op: BitOp, a: Word, b: Word)
    requires IsPath(a) && IsPath(b)
    ensures Bitwise(op, Code(a), Code(b)) == Code(BitwiseWord(op, a, b)) && IsPath(BitwiseWord(op, a, b))
  {
    var x, u := 256 * a.d + a.p0, 256 * b.d + b.p0;
    var w := BitwiseWord(op, a, b);
    var h := 256 * w.d + w.p0;
    NextByte(op, x, u, h, a.d, b.d, w.d, a.p0, b.p0, w.p0);
    NextByte(op, 256 * x + a.p1, 256 * u + b.p1, 256 * h + w.p1, x, u, h, a.p1, b.p1, w.p1);
    NextByte(op, Code(a), Code(b), Code(w), 256 * x + a.p1, 256 * u + b.p1, 256 * h + w.p1, a.p2, b.p2, w.p2);
    WordBound(op, a, b);
  }

  /** The byte `x` at one level. */
  function ByteAt(x: nat, depth: nat): Word
  {
    if depth == 0 then Pack(0, x, 0, 0) else if depth == 1 then Pack(0, 0, x, 0) else Pack(0, 0, 0, x)
  }

  /** The shift that the source computes for a level. */
  function ShiftBits(depth: nat): nat
    requires depth <= MAX_LOG_DEPTH
  {
    8 * (MAX_LOG_DEPTH - depth)
  }

  lemma ShiftCode(x: nat, depth: nat)
    requires depth <= MAX_LOG_DEPTH
    ensures Shl(x, ShiftBits(depth)) == Code(ByteAt(x, depth))
    ensures Shl(x, 24) == Code(Pack(x, 0, 0, 0))
  {
    ShlByByte(x);
    ShlByBytes(x);
  }

  // ---------- encoding ----------

  function OrPositions(pos: seq<nat>, n: nat): nat
    requires n <= |pos| && n <= MAX_LOG_DEPTH + 1
  {
    if n == 0 then 0 else Or(OrPositions(pos, n - 1), Shl(pos[n - 1], ShiftBits(n - 1)))
  }

  function EncodedNumber(pos: seq<nat>, depth: nat, includeDepth: bool): nat
    requires depth < |pos| && depth <= MAX_LOG_DEPTH
  {
    var f := OrPositions(pos, depth + 1);
    if includeDepth then Or(f, Shl(depth, 24)) else f
  }

  function EncodedField(pos: seq<nat>, depth: nat, includeDepth: bool): Word
    requires depth < |pos| && depth <= MAX_LOG_DEPTH
  {
    WordOf(EncodedNumber(pos, depth, includeDepth))
  }

  method GetEncodedField(pos: seq<nat>, depth: nat, includeDepth: bool) returns (field: nat)
    requires depth < |pos| && depth <= MAX_LOG_DEPTH
    ensures field == EncodedNumber(pos, depth, includeDepth)
    ensures Bytes3(pos) ==> field == Code(Packed(pos, depth, includeDepth))
  {
    field := 0;
    for i := 0 to depth + 1
      invariant field == OrPositions(pos, i)
    {
      field := Or(field, Shl(pos[i], ShiftBits(i)));
    }
    if includeDepth {
      field := Or(field, Shl(depth, 24));
    }
    if Bytes3(pos) {
      EncodedIsPacked(pos, depth, includeDepth);
    }
  }

  predicate Bytes3(s: seq<nat>) { |s| == 3 && forall i :: 0 <= i < 3 ==> s[i] < 256 }

  /** Each position in its own byte, and nothing below the depth. */
  function Packed(pos: seq<nat>, depth: nat, includeDepth: bool): Word
    requires |pos| == 3
  {
    Pack(if includeDepth then depth else 0, pos[0], if depth >= 1 then pos[1] else 0, if depth >= 2 then pos[2] else 0)
  }

  function WithByte(w: Word, x: nat, depth: nat): Word
  {
    Pack(w.d, if depth == 0 then x else w.p0, if depth == 1 then x else w.p1, if depth == 2 then x else w.p2)
  }

  lemma OrByteWord(w: Word, x: nat, depth: nat)
    requires depth <= MAX_LOG_DEPTH && w.At(depth) == 0
    ensures BitwiseWord(OR, w, ByteAt(x, depth)) == WithByte(w, x, depth)
  {
    BitwiseZero(w.d); BitwiseZero(w.p0); BitwiseZero(w.p1); BitwiseZero(w.p2); BitwiseZero(x);
  }

  lemma OrByteAt(w: Word, x: nat, depth: nat)
    requires IsPath(w) && x < 256 && depth <= MAX_LOG_DEPTH && w.At(depth) == 0
    ensures Or(Code(w), Shl(x, ShiftBits(depth))) == Code(WithByte(w, x, depth))
  {
    ShiftCode(x, depth);
    BitwiseCode(OR, w, ByteAt(x, depth));
    OrByteWord(w, x, depth);
  }

  lemma OrNext(pos: seq<nat>, n: nat, w: Word)
    requires n < |pos| && n <= MAX_LOG_DEPTH && pos[n] < 256 && IsPath(w) && w.At(n) == 0
    requires OrPositions(pos, n) == Code(w)
    ensures OrPositions(pos, n + 1) == Code(WithByte(w, pos[n], n))
  {
    OrByteAt(w, pos[n], n);
  }

  lemma {:induction false} PackedUpTo(pos: seq<nat>, depth: nat)
    requires Bytes3(pos) && depth <= MAX_LOG_DEPTH
    ensures OrPositions(pos, depth + 1) == Code(Packed(pos, depth, false))
  {
    var before := if depth == 0 then Pack(0, 0, 0, 0) else Packed(pos, depth - 1, false);
    if depth > 0 {
      PackedUpTo(pos, depth - 1);
    }
    OrNext(pos, depth, before);
    assert WithByte(before, pos[depth], depth) == Packed(pos, depth, false);
  }

  /** Encoding a path packs it into one number. */
  lemma EncodedIsPacked(pos: seq<nat>, depth: nat, includeDepth: bool)
    requires Bytes3(pos) && depth <= MAX_LOG_DEPTH
    ensures EncodedNumber(pos, depth, includeDepth) == Code(Packed(pos, depth, includeDepth))
    ensures EncodedField(pos, depth, includeDepth) == Packed(pos, depth, includeDepth)
  {
    PackedUpTo(pos, depth);
    OrDepth(Packed(pos, depth, false), depth);
    WordOfCode(Packed(pos, depth, includeDepth));
  }

  lemma OrDepth(w: Word, depth: nat)
    requires IsPath(w) && w.d == 0 && depth < 256
    ensures Or(Code(w), Shl(depth, 24)) == Code(w.(d := depth))
  {
    ShiftCode(depth, 0);
    BitwiseCode(OR, w, Pack(depth, 0, 0, 0));
    BitwiseZero(depth); BitwiseZero(w.p0); BitwiseZero(w.p1); BitwiseZero(w.p2);
  }

  // ---------- accessors ----------

  /** `getDepth`, `getRawPosAtDepth`, `getPosAtDepth`, `isLastPos` and `decorateLastPos` as the
      masks and shifts of the source, on the number. */
  function NumberDepth(n: nat): nat { Shr(n, 24) }

  function NumberRawPos(n: nat, depth: nat): nat
    requires depth <= MAX_LOG_DEPTH
  {
    Shr(And(And(n, PATH_MASK), Shl(0xff, ShiftBits(depth))), ShiftBits(depth))
  }

  function NumberPos(n: nat, depth: nat): nat
    requires depth <= MAX_LOG_DEPTH
  {
    And(NumberRawPos(n, depth), CLEAR_LAST_BIT)
  }

  predicate NumberIsLast(n: nat, depth: nat)
    requires depth <= MAX_LOG_DEPTH
  {
    And(And(n, PATH_MASK), Shl(LAST_BIT_MASK, ShiftBits(depth))) != 0
  }

  function NumberDecorated(n: nat, depth: nat): nat
    requires depth <= MAX_LOG_DEPTH
  {
    Or(n, Shl(LAST_BIT_MASK, ShiftBits(depth)))
  }

  /** What they read: the position at a level, and whether it is marked last. */
  function PosAtDepth(f: Word, depth: nat): nat { f.At(depth) % 128 }

  predicate IsLastPos(f: Word, depth: nat) { f.At(depth) >= 128 }

  lemma PathPart(f: Word)
    requires IsPath(f)
    ensures And(Code(f), PATH_MASK) == Code(f.(d := 0))
  {
    BitwiseCode(AND, f, Pack(0, 0xff, 0xff, 0xff));
    BitwiseZero(f.d);
    FullByteMask(f.p0); FullByteMask(f.p1); FullByteMask(f.p2);
  }

  /** A mask byte shifted to one level selects that level's byte alone. */
  lemma MaskAtDepth(f: Word, m: nat, depth: nat)
    requires IsPath(f) && m < 256 && depth <= MAX_LOG_DEPTH
    ensures And(And(Code(f), PATH_MASK), Shl(m, ShiftBits(depth))) == Shl(And(f.At(depth), m), ShiftBits(depth))
  {
    PathPart(f);
    ShiftCode(m, depth);
    AndByteAt(f.(d := 0), m, depth);
    ShiftCode(And(f.At(depth), m), depth);
  }

  lemma AndByteAt(w: Word, m: nat, depth: nat)
    requires IsPath(w) && w.d == 0 && m < 256 && depth <= MAX_LOG_DEPTH
    ensures And(Code(w), Code(ByteAt(m, depth))) == Code(ByteAt(And(w.At(depth), m), depth))
  {
    BitwiseCode(AND, w, ByteAt(m, depth));
    AndByteWord(w, m, depth);
  }

  lemma AndByteWord(w: Word, m: nat, depth: nat)
    requires w.d == 0 && depth <= MAX_LOG_DEPTH
    ensures BitwiseWord(AND, w, ByteAt(m, depth)) == ByteAt(And(w.At(depth), m), depth)
  {
    BitwiseZero(0); BitwiseZero(w.p0); BitwiseZero(w.p1); BitwiseZero(w.p2);
  }

  /** Every accessor of the number reads back the byte that was packed. */
  lemma Accessors(f: Word, depth: nat)
    requires IsPath(f) && depth <= MAX_LOG_DEPTH
    ensures NumberDepth(Code(f)) == f.d
    ensures NumberRawPos(Code(f), depth) == f.At(depth)
    ensures NumberPos(Code(f), depth) == PosAtDepth(f, depth)
    ensures NumberIsLast(Code(f), depth) <==> IsLastPos(f, depth)
  {
    MaskAtDepth(f, 0xff, depth);
    MaskAtDepth(f, 0x80, depth);
    ByteMasks(f.At(depth));
    ShlZero(1, ShiftBits(depth));
    ShrShl(f.At(depth), 0, ShiftBits(depth));
    ShlZero(And(f.At(depth), 0x80), ShiftBits(depth));
    DepthOfCode(f);
  }

  lemma DepthOfCode(f: Word)
    requires IsPath(f)
    ensures NumberDepth(Code(f)) == f.d
  {
    ShlByBytes(f.d);
    ShlByBytes(1);
    ShrShl(f.d, Code(f.(d := 0)), 24);
  }

  /** Marking the last position sets one bit and leaves the rest of the path alone. */
  lemma DecorateMarks(f: Word)
    requires IsPath(f)
    ensures NumberDecorated(Code(f), 1) == Code(f.(p1 := if f.p1 >= 128 then f.p1 else f.p1 + 128))
  {
    ShiftCode(LAST_BIT_MASK, 1);
    BitwiseCode(OR, f, ByteAt(LAST_BIT_MASK, 1));
    BitwiseZero(f.d); BitwiseZero(f.p0); BitwiseZero(f.p2);
    OrTopBit(f.p1);
  }

  // ---------- log elements ----------

  /** A logged value; a float is kept as its 32-bit pattern. */
  datatype Value =
    | IntV(i: Int32)
    | LongV(l: Int64)
    | FloatV(bits: UInt32)
    | StrV(str: seq<Byte>)
    | StorageV(bytes: seq<Byte>)

  /** The four booleans of the annotation bitmask of an element. */
  datatype Annotations = Annotations(nested: bool, primary: bool, exclusive: bool, uid: bool)

  const DEFAULT_ANNOTATIONS := Annotations(true, false, false, false)

  datatype FieldValue = FieldValue(field: Field, value: Value, annotations: Annotations)

  function WithLast(p: nat, last: bool): nat
  {
    if last && p < 128 then p + 128 else p
  }

  /** The path of a value: "last" is marked at depth 1 only, and only on what lies below it. */
  function PathAt(depth: nat, p0: nat, p1: nat, p2: nat, last1: bool): Word
  {
    Pack(depth, p0, if depth == 0 then 0 else WithLast(p1, depth == 2 && last1), if depth == 2 then p2 else 0)
  }

  /** The masks and shifts of `addToValues` build that path. */
  lemma EncodedPath(pos: seq<nat>, depth: nat, last1: bool)
    requires Bytes3(pos) && depth <= MAX_LOG_DEPTH
    ensures var n := EncodedNumber(pos, depth, true);
            WordOf(if depth == 2 && last1 then NumberDecorated(n, 1) else n)
            == PathAt(depth, pos[0], pos[1], pos[2], last1)
    ensures IsPath(PathAt(depth, pos[0], pos[1], pos[2], last1))
  {
    EncodedIsPacked(pos, depth, true);
    DecorateMarks(Packed(pos, depth, true));
    WordOfCode(PathAt(depth, pos[0], pos[1], pos[2], last1));
  }
}
