/** Dimension matchers: a tree of field numbers and positions is flattened into (path, mask) pairs
    that are compared with one AND (FieldValue.cpp, FieldValue.h), and events are filtered down to
    dimension keys with them (HashableDimensionKey.cpp). */
module FieldMatch {
  import opened Options
  import opened Bits
  import opened FieldPath
  import opened EventWriter
  import opened WireFormat
  import opened Dimensions

  datatype FieldMatcher = FieldMatcher(field: nat, position: Option<Position>, children: seq<FieldMatcher>)

  datatype Matcher = Matcher(matcher: Field, mask: Word)

  const CLEAR_ALL_POSITION_MASK: nat := 0xffff_00ff

  predicate HasAllPosition(m: Matcher)
  {
    NumberDepth(Code(m.matcher.field)) == 2 && NumberRawPos(Code(m.mask), 1) == 0x7f
  }

  /** `Field::matches`, on the 32-bit numbers. */
  predicate NumberMatches(f: nat, mask: nat, matcher: nat, hasAll: bool)
  {
    And(f, mask) == matcher || (hasAll && And(f, And(mask, CLEAR_ALL_POSITION_MASK)) == matcher)
  }

  predicate Matches(f: Field, m: Matcher)
  {
    f.tag == m.matcher.tag && NumberMatches(Code(f.field), Code(m.mask), Code(m.matcher.field), HasAllPosition(m))
  }

  function EncodeMatcherMask(mask: seq<nat>, depth: nat): nat
    requires depth < |mask| && depth <= MAX_LOG_DEPTH
  {
    Or(EncodedNumber(mask, depth, false), 0xff00_0000)
  }

  function PositionPos(p: Position): nat
  {
    match p case FIRST => 1 case LAST => 0x80 case _ => 0
  }

  function PositionMask(p: Position): nat
  {
    match p case ALL => 0x7f case FIRST => 0x7f case LAST => 0x80 case _ => 0
  }

  // ---------- the flattening, on values ----------

  /** The (path, mask) pair of a leaf. */
  function Pair(tag: int, pos: seq<nat>, mask: seq<nat>, depth: nat): Matcher
    requires |pos| == 3 && |mask| == 3 && depth <= MAX_LOG_DEPTH
  {
    Matcher(Field(tag, EncodedField(pos, depth, true)), WordOf(EncodeMatcherMask(mask, depth)))
  }

  /** The pairs of one subtree, given the path above it. */
  function Flatten(tag: int, m: FieldMatcher, depth: nat, pos: seq<nat>, mask: seq<nat>): seq<Matcher>
    requires |pos| == 3 && |mask| == 3
    decreases m, 1
  {
    if depth > MAX_LOG_DEPTH then []
    else if m.position.None? then FlattenBelow(tag, m.children, depth, pos[depth := m.field], mask[depth := 0x7f])
    else if depth + 1 > MAX_LOG_DEPTH then []
    else FlattenBelow(tag, m.children, depth + 1,
                      pos[depth := m.field][depth + 1 := PositionPos(m.position.value)],
                      mask[depth := 0x7f][depth + 1 := PositionMask(m.position.value)])
  }

  function FlattenBelow(tag: int, children: seq<FieldMatcher>, depth: nat, pos: seq<nat>, mask: seq<nat>): seq<Matcher>
    requires |pos| == 3 && |mask| == 3 && depth <= MAX_LOG_DEPTH
    decreases children, 2
  {
    if children == [] then [Pair(tag, pos, mask, depth)]
    else FlattenAll(tag, children, depth + 1, pos, mask)
  }

  function FlattenAll(tag: int, ms: seq<FieldMatcher>, depth: nat, pos: seq<nat>, mask: seq<nat>): seq<Matcher>
    requires |pos| == 3 && |mask| == 3
    decreases ms, 1
  {
    if ms == [] then [] else Flatten(tag, ms[0], depth, pos, mask) + FlattenAll(tag, ms[1..], depth, pos, mask)
  }

  // ---------- shared arrays ----------

  predicate AgreeBelow(a: seq<nat>, b: seq<nat>, depth: nat)
  {
    |a| == |b| == 3 && forall i :: 0 <= i < 3 && i < depth ==> a[i] == b[i]
  }

  /** Only the part of the path above a node can influence its pairs. */
  lemma {:induction false} FlattenPrefix(tag: int, m: FieldMatcher, depth: nat,
                                         pos: seq<nat>, mask: seq<nat>, pos': seq<nat>, mask': seq<nat>)
    requires AgreeBelow(pos, pos', depth) && AgreeBelow(mask, mask', depth)
    ensures Flatten(tag, m, depth, pos, mask) == Flatten(tag, m, depth, pos', mask')
    decreases m, 1
  {
    if depth <= MAX_LOG_DEPTH {
      if m.position.None? {
        FlattenBelowPrefix(tag, m.children, depth, pos[depth := m.field], mask[depth := 0x7f],
                           pos'[depth := m.field], mask'[depth := 0x7f]);
      } else if depth + 1 <= MAX_LOG_DEPTH {
        var p, q := PositionPos(m.position.value), PositionMask(m.position.value);
        FlattenBelowPrefix(tag, m.children, depth + 1,
                           pos[depth := m.field][depth + 1 := p], mask[depth := 0x7f][depth + 1 := q],
                           pos'[depth := m.field][depth + 1 := p], mask'[depth := 0x7f][depth + 1 := q]);
      }
    }
  }

  lemma EncodedPrefix(pos: seq<nat>, pos': seq<nat>, n: nat)
    requires n <= 3 && AgreeBelow(pos, pos', n)
    ensures OrPositions(pos, n) == OrPositions(pos', n)
  {
    if n > 0 {
      EncodedPrefix(pos, pos', n - 1);
    }
  }

  lemma {:induction false} FlattenBelowPrefix(tag: int, children: seq<FieldMatcher>, depth: nat,
                                              pos: seq<nat>, mask: seq<nat>, pos': seq<nat>, mask': seq<nat>)
    requires depth <= MAX_LOG_DEPTH && AgreeBelow(pos, pos', depth + 1) && AgreeBelow(mask, mask', depth + 1)
    ensures FlattenBelow(tag, children, depth, pos, mask) == FlattenBelow(tag, children, depth, pos', mask')
    decreases children, 2
  {
    EncodedPrefix(pos, pos', depth + 1);
    EncodedPrefix(mask, mask', depth + 1);
    FlattenAllPrefix(tag, children, depth + 1, pos, mask, pos', mask');
  }

  lemma {:induction false} FlattenAllPrefix(tag: int, ms: seq<FieldMatcher>, depth: nat,
                                            pos: seq<nat>, mask: seq<nat>, pos': seq<nat>, mask': seq<nat>)
    requires AgreeBelow(pos, pos', depth) && AgreeBelow(mask, mask', depth)
    ensures FlattenAll(tag, ms, depth, pos, mask) == FlattenAll(tag, ms, depth, pos', mask')
    decreases ms, 1
  {
    if ms != [] {
      FlattenPrefix(tag, ms[0], depth, pos, mask, pos', mask');
      FlattenAllPrefix(tag, ms[1..], depth, pos, mask, pos', mask');
    }
  }

  /** The recursion of the source: siblings overwrite the same two arrays, and still every subtree
      contributes exactly the pairs of its own path. */
  method TranslateFieldMatcher(tag: int, m: FieldMatcher, depth: nat, pos: array<nat>, mask: array<nat>,
                               output: seq<Matcher>) returns (out: seq<Matcher>)
    requires pos.Length == 3 && mask.Length == 3 && pos != mask
    modifies pos, mask
    ensures out == output + Flatten(tag, m, depth, old(pos[..]), old(mask[..]))
    ensures AgreeBelow(pos[..], old(pos[..]), depth) && AgreeBelow(mask[..], old(mask[..]), depth)
    decreases m, 1
  {
    if depth > MAX_LOG_DEPTH {
      return output;
    }
    pos[depth] := m.field;
    mask[depth] := 0x7f;
    var d := depth;
    if m.position.Some? {
      d := depth + 1;
      if d > 2 {
        return output;
      }
      pos[d], mask[d] := PositionPos(m.position.value), PositionMask(m.position.value);
      assert pos[..] == old(pos[..])[depth := m.field][depth + 1 := PositionPos(m.position.value)];
      assert mask[..] == old(mask[..])[depth := 0x7f][depth + 1 := PositionMask(m.position.value)];
    } else {
      assert pos[..] == old(pos[..])[depth := m.field];
      assert mask[..] == old(mask[..])[depth := 0x7f];
    }
    if |m.children| == 0 {
      var field := GetEncodedField(pos[..], d, true);
      out := output + [Matcher(Field(tag, WordOf(field)), WordOf(EncodeMatcherMask(mask[..], d)))];
    } else {
      out := TranslateAll(tag, m.children, d + 1, pos, mask, output);
    }
  }

  method TranslateAll(tag: int, ms: seq<FieldMatcher>, depth: nat, pos: array<nat>, mask: array<nat>,
                      output: seq<Matcher>) returns (out: seq<Matcher>)
    requires pos.Length == 3 && mask.Length == 3 && pos != mask
    modifies pos, mask
    ensures out == output + FlattenAll(tag, ms, depth, old(pos[..]), old(mask[..]))
    ensures AgreeBelow(pos[..], old(pos[..]), depth) && AgreeBelow(mask[..], old(mask[..]), depth)
    decreases ms, 0
  {
    out := output;
    ghost var p, q := pos[..], mask[..];
    ghost var end := output + FlattenAll(tag, ms, depth, p, q);
    assert ms[0..] == ms;
    for k := 0 to |ms|
      invariant AgreeBelow(pos[..], p, depth) && AgreeBelow(mask[..], q, depth)
      invariant out + FlattenAll(tag, ms[k..], depth, p, q) == end
    {
      assert ms[k..][0] == ms[k] && ms[k..][1..] == ms[k + 1..];
      FlattenPrefix(tag, ms[k], depth, pos[..], mask[..], p, q);
      out := TranslateFieldMatcher(tag, ms[k], depth, pos, mask, out);
    }
  }

  /** The entry point: the root names the atom, its children are the top-level fields. */
  method Translate(root: FieldMatcher) returns (out: seq<Matcher>)
    ensures out == FlattenAll(root.field, root.children, 0, [1, 1, 1], [0x7f, 0x7f, 0x7f])
  {
    var pos := new nat[3](_ => 1);
    var mask := new nat[3](_ => 0x7f);
    assert pos[..] == [1, 1, 1] && mask[..] == [0x7f, 0x7f, 0x7f];
    out := TranslateAll(root.field, root.children, 0, pos, mask, []);
  }

  // ---------- meaning of the tree on a path ----------

  predicate PositionSat(p: Position, f: Word, depth: nat)
    requires depth <= MAX_LOG_DEPTH
  {
    match p
    case FIRST => PosAtDepth(f, depth) == 1
    case LAST => IsLastPos(f, depth)
    case _ => true
  }

  /** The path `f` runs through node `m` at `depth` and down to a leaf of the tree. */
  predicate Sat(m: FieldMatcher, depth: nat, f: Word)
    decreases m, 1
  {
    && depth <= MAX_LOG_DEPTH
    && PosAtDepth(f, depth) == m.field
    && match m.position
       case None => SatBelow(m.children, depth, f)
       case Some(p) => depth + 1 <= MAX_LOG_DEPTH && PositionSat(p, f, depth + 1) && SatBelow(m.children, depth + 1, f)
  }

  predicate SatBelow(children: seq<FieldMatcher>, depth: nat, f: Word)
    decreases children, 0
  {
    if children == [] then f.d == depth
    else exists k :: 0 <= k < |children| && Sat(children[k], depth + 1, f)
  }

  /** Field numbers fit in 7 bits, and ALL stands on a top-level field with children. */
  predicate Proper(m: FieldMatcher, depth: nat)
    decreases m
  {
    && 1 <= m.field <= 127
    && (m.position == Some(ALL) ==> depth == 0 && m.children != [])
    && forall k :: 0 <= k < |m.children| ==> Proper(m.children[k], depth + (if m.position.Some? then 2 else 1))
  }

  // ---------- one pair on one path ----------

  /** What a pair asks of one level; ALL asks nothing of level 1. */
  predicate Level(b: nat, p: nat, m: nat, i: nat)
  {
    And(b, m) == p || (i == 1 && m == 0x7f && p == 0)
  }

  predicate Levels(f: Word, pos: seq<nat>, mask: seq<nat>, n: nat)
    requires |pos| == 3 && |mask| == 3
  {
    forall i :: 0 <= i < 3 && i < n ==> Level(f.At(i), pos[i], mask[i], i)
  }

  function Cut(s: seq<nat>, i: nat, depth: nat): nat
    requires |s| == 3 && i < 3
  {
    if i <= depth then s[i] else 0
  }

  lemma MaskPacked(mask: seq<nat>, depth: nat)
    requires Bytes3(mask) && depth <= MAX_LOG_DEPTH
    ensures WordOf(EncodeMatcherMask(mask, depth)) == Pack(0xff, mask[0], Cut(mask, 1, depth), Cut(mask, 2, depth))
  {
    var w := Packed(mask, depth, false);
    EncodedIsPacked(mask, depth, false);
    BitwiseCode(OR, w, Pack(0xff, 0, 0, 0));
    BitwiseZero(0xff); BitwiseZero(w.p0); BitwiseZero(w.p1); BitwiseZero(w.p2);
    WordOfCode(w.(d := 0xff));
  }

  /** Masking a path, on the number. */
  lemma MaskedPath(f: Word, m0: nat, m1: nat, m2: nat)
    requires IsPath(f) && m0 < 256 && m1 < 256 && m2 < 256
    ensures var masked := Pack(f.d, And(f.p0, m0), And(f.p1, m1), And(f.p2, m2));
            And(Code(f), Code(Pack(0xff, m0, m1, m2))) == Code(masked) && IsPath(masked)
  {
    BitwiseCode(AND, f, Pack(0xff, m0, m1, m2));
    FullByteMask(f.d);
  }

  /** The ALL test clears the mask of level 1. */
  lemma AllMask(m0: nat, m1: nat, m2: nat)
    requires m0 < 256 && m1 < 256 && m2 < 256
    ensures And(Code(Pack(0xff, m0, m1, m2)), CLEAR_ALL_POSITION_MASK) == Code(Pack(0xff, m0, 0, m2))
    ensures NumberRawPos(Code(Pack(0xff, m0, m1, m2)), 1) == m1
  {
    BitwiseCode(AND, Pack(0xff, m0, m1, m2), Pack(0xff, 0xff, 0, 0xff));
    FullByteMask(0xff); FullByteMask(m0); FullByteMask(m2); BitwiseZero(m1);
    Accessors(Pack(0xff, m0, m1, m2), 1);
  }

  lemma PackedPairMatches(tag: int, f: Word, p: Word, m0: nat, m1: nat, m2: nat)
    requires IsPath(f) && IsPath(p) && m0 < 256 && m1 < 256 && m2 < 256
    ensures Matches(Field(tag, f), Matcher(Field(tag, p), Pack(0xff, m0, m1, m2)))
       <==> f.d == p.d && And(f.p0, m0) == p.p0 && And(f.p2, m2) == p.p2
            && (And(f.p1, m1) == p.p1 || (p.d == 2 && m1 == 0x7f && p.p1 == 0))
  {
    MaskedPath(f, m0, m1, m2);
    AllMask(m0, m1, m2);
    MaskedPath(f, m0, 0, m2);
    BitwiseZero(f.p1);
    DepthOfCode(p);
    CodeInjective(Pack(f.d, And(f.p0, m0), And(f.p1, m1), And(f.p2, m2)), p);
    CodeInjective(Pack(f.d, And(f.p0, m0), 0, And(f.p2, m2)), p);
  }

  lemma PairPacked(tag: int, pos: seq<nat>, mask: seq<nat>, depth: nat)
    requires Bytes3(pos) && Bytes3(mask) && depth <= MAX_LOG_DEPTH
    ensures Pair(tag, pos, mask, depth)
         == Matcher(Field(tag, Pack(depth, pos[0], Cut(pos, 1, depth), Cut(pos, 2, depth))),
                    Pack(0xff, mask[0], Cut(mask, 1, depth), Cut(mask, 2, depth)))
  {
    EncodedIsPacked(pos, depth, true);
    MaskPacked(mask, depth);
  }

  lemma LevelsCut(f: Word, pos: seq<nat>, mask: seq<nat>, depth: nat)
    requires Bytes3(pos) && Bytes3(mask) && depth <= MAX_LOG_DEPTH
    requires depth == 1 && mask[1] == 0x7f ==> pos[1] != 0
    ensures Levels(f, pos, mask, depth + 1)
       <==> && And(f.p0, mask[0]) == pos[0] && And(f.p2, Cut(mask, 2, depth)) == Cut(pos, 2, depth)
            && (|| And(f.p1, Cut(mask, 1, depth)) == Cut(pos, 1, depth)
                || (depth == 2 && Cut(mask, 1, depth) == 0x7f && Cut(pos, 1, depth) == 0))
  {
    var l0, l1, l2 := Level(f.p0, pos[0], mask[0], 0), Level(f.p1, pos[1], mask[1], 1), Level(f.p2, pos[2], mask[2], 2);
    assert Levels(f, pos, mask, depth + 1) <==> l0 && (depth >= 1 ==> l1) && (depth >= 2 ==> l2);
    BitwiseZero(f.p1); BitwiseZero(f.p2);
  }

  /** One pair, level by level: the depths agree and each level's byte passes its mask, where a
      7-bit mask over a zero position at level 1 (ALL) passes anything. */
  lemma PairMatches(tag: int, f: Word, pos: seq<nat>, mask: seq<nat>, depth: nat)
    requires IsPath(f) && Bytes3(pos) && Bytes3(mask) && depth <= MAX_LOG_DEPTH
    requires depth == 1 && mask[1] == 0x7f ==> pos[1] != 0
    ensures Matches(Field(tag, f), Pair(tag, pos, mask, depth)) <==> f.d == depth && Levels(f, pos, mask, depth + 1)
  {
    PairPacked(tag, pos, mask, depth);
    PackedPairMatches(tag, f, Pack(depth, pos[0], Cut(pos, 1, depth), Cut(pos, 2, depth)),
                      mask[0], Cut(mask, 1, depth), Cut(mask, 2, depth));
    LevelsCut(f, pos, mask, depth);
  }

  // ---------- the flattened tree means the tree ----------

  predicate AnyMatches(f: Field, ms: seq<Matcher>) { exists k :: 0 <= k < |ms| && Matches(f, ms[k]) }

  lemma AnyMatchesConcat(f: Field, a: seq<Matcher>, b: seq<Matcher>)
    ensures AnyMatches(f, a + b) <==> AnyMatches(f, a) || AnyMatches(f, b)
  {
    if AnyMatches(f, a) {
      var k :| 0 <= k < |a| && Matches(f, a[k]);
      assert (a + b)[k] == a[k];
    }
    if AnyMatches(f, b) {
      var k :| 0 <= k < |b| && Matches(f, b[k]);
      assert (a + b)[|a| + k] == b[k];
    }
    if AnyMatches(f, a + b) {
      var k :| 0 <= k < |a + b| && Matches(f, (a + b)[k]);
      assert (a + b)[k] == if k < |a| then a[k] else b[k - |a|];
    }
  }

  lemma FieldLevel(f: Word, i: nat, field: nat)
    requires IsPath(f) && i <= MAX_LOG_DEPTH && 1 <= field <= 127
    ensures Level(f.At(i), field, 0x7f, i) <==> PosAtDepth(f, i) == field
  {
    ByteMasks(f.At(i));
  }

  lemma PositionLevel(f: Word, i: nat, p: Position)
    requires IsPath(f) && 1 <= i <= MAX_LOG_DEPTH && (p == ALL ==> i == 1)
    ensures Level(f.At(i), PositionPos(p), PositionMask(p), i) <==> PositionSat(p, f, i)
  {
    ByteMasks(f.At(i));
    BitwiseZero(f.At(i));
  }

  lemma LevelsSnoc(f: Word, pos: seq<nat>, mask: seq<nat>, n: nat, p: nat, m: nat)
    requires |pos| == 3 && |mask| == 3 && n < 3
    ensures Levels(f, pos[n := p], mask[n := m], n + 1) <==> Levels(f, pos, mask, n) && Level(f.At(n), p, m, n)
  {
    var pos', mask' := pos[n := p], mask[n := m];
    if Levels(f, pos', mask', n + 1) {
      forall i | 0 <= i < 3 && i < n ensures Level(f.At(i), pos[i], mask[i], i) {
        assert Level(f.At(i), pos'[i], mask'[i], i);
      }
      assert Level(f.At(n), pos'[n], mask'[n], n);
    }
  }

  lemma {:induction false} FlattenMeans(tag: int, m: FieldMatcher, depth: nat, pos: seq<nat>, mask: seq<nat>, f: Word)
    requires IsPath(f) && Proper(m, depth) && Bytes3(pos) && Bytes3(mask)
    ensures AnyMatches(Field(tag, f), Flatten(tag, m, depth, pos, mask))
       <==> Levels(f, pos, mask, depth) && Sat(m, depth, f)
    decreases m, 1
  {
    if depth <= MAX_LOG_DEPTH {
      var pos1, mask1 := pos[depth := m.field], mask[depth := 0x7f];
      LevelsSnoc(f, pos, mask, depth, m.field, 0x7f);
      FieldLevel(f, depth, m.field);
      if m.position.None? {
        FlattenBelowMeans(tag, m.children, depth, pos1, mask1, f);
      } else if depth + 1 <= MAX_LOG_DEPTH {
        var p := m.position.value;
        LevelsSnoc(f, pos1, mask1, depth + 1, PositionPos(p), PositionMask(p));
        PositionLevel(f, depth + 1, p);
        FlattenBelowMeans(tag, m.children, depth + 1, pos1[depth + 1 := PositionPos(p)],
                          mask1[depth + 1 := PositionMask(p)], f);
      }
    }
  }

  lemma {:induction false} FlattenBelowMeans(tag: int, children: seq<FieldMatcher>, depth: nat,
                                             pos: seq<nat>, mask: seq<nat>, f: Word)
    requires IsPath(f) && depth <= MAX_LOG_DEPTH && Bytes3(pos) && Bytes3(mask)
    requires forall k :: 0 <= k < |children| ==> Proper(children[k], depth + 1)
    requires children == [] && depth == 1 && mask[1] == 0x7f ==> pos[1] != 0
    ensures AnyMatches(Field(tag, f), FlattenBelow(tag, children, depth, pos, mask))
       <==> Levels(f, pos, mask, depth + 1) && SatBelow(children, depth, f)
    decreases children, 2
  {
    if children == [] {
      PairMatches(tag, f, pos, mask, depth);
      assert [Pair(tag, pos, mask, depth)][0] == Pair(tag, pos, mask, depth);
    } else {
      FlattenAllMeans(tag, children, depth + 1, pos, mask, f);
    }
  }

  lemma {:induction false} FlattenAllMeans(tag: int, ms: seq<FieldMatcher>, depth: nat,
                                           pos: seq<nat>, mask: seq<nat>, f: Word)
    requires IsPath(f) && Bytes3(pos) && Bytes3(mask) && forall k :: 0 <= k < |ms| ==> Proper(ms[k], depth)
    ensures AnyMatches(Field(tag, f), FlattenAll(tag, ms, depth, pos, mask))
       <==> Levels(f, pos, mask, depth) && exists k :: 0 <= k < |ms| && Sat(ms[k], depth, f)
    decreases ms, 1
  {
    if ms != [] {
      FlattenMeans(tag, ms[0], depth, pos, mask, f);
      FlattenAllMeans(tag, ms[1..], depth, pos, mask, f);
      AnyMatchesConcat(Field(tag, f), Flatten(tag, ms[0], depth, pos, mask),
                       FlattenAll(tag, ms[1..], depth, pos, mask));
      ConsSat(ms, depth, f);
    }
  }

  lemma ConsSat(ms: seq<FieldMatcher>, depth: nat, f: Word)
    requires ms != []
    ensures (exists k :: 0 <= k < |ms| && Sat(ms[k], depth, f))
       <==> Sat(ms[0], depth, f) || exists k :: 0 <= k < |ms[1..]| && Sat(ms[1..][k], depth, f)
  {
    if k :| 0 <= k < |ms| && Sat(ms[k], depth, f) {
      if k > 0 { assert ms[1..][k - 1] == ms[k]; }
    }
    if k :| 0 <= k < |ms[1..]| && Sat(ms[1..][k], depth, f) {
      assert ms[k + 1] == ms[1..][k];
    }
  }

  /** A log field of the atom matches some translated pair exactly when its path satisfies the tree. */
  lemma TranslationMeansTree(root: FieldMatcher, f: Word)
    requires IsPath(f) && forall k :: 0 <= k < |root.children| ==> Proper(root.children[k], 0)
    ensures AnyMatches(Field(root.field, f), FlattenAll(root.field, root.children, 0, [1, 1, 1], [0x7f, 0x7f, 0x7f]))
       <==> exists k :: 0 <= k < |root.children| && Sat(root.children[k], 0, f)
  {
    FlattenAllMeans(root.field, root.children, 0, [1, 1, 1], [0x7f, 0x7f, 0x7f], f);
  }

  /** Why ALL must have a child: on a leaf it matches position 0 only, which no item has. */
  lemma AllWithoutChild(tag: int, m: FieldMatcher, pos: seq<nat>, mask: seq<nat>, f: Word)
    requires m == FieldMatcher(m.field, Some(ALL), []) && 1 <= m.field <= 127 && Bytes3(pos) && Bytes3(mask)
    requires IsPath(f)
    ensures AnyMatches(Field(tag, f), Flatten(tag, m, 0, pos, mask))
       <==> f.d == 1 && PosAtDepth(f, 0) == m.field && PosAtDepth(f, 1) == 0
    ensures Sat(m, 0, f) <==> f.d == 1 && PosAtDepth(f, 0) == m.field
  {
    var pos1, mask1 := pos[0 := m.field][1 := 0], mask[0 := 0x7f][1 := 0x7f];
    PairPacked(tag, pos1, mask1, 1);
    PackedPairMatches(tag, f, Pack(1, m.field, 0, 0), 0x7f, 0x7f, 0);
    assert Flatten(tag, m, 0, pos, mask) == [Pair(tag, pos1, mask1, 1)];
    assert [Pair(tag, pos1, mask1, 1)][0] == Pair(tag, pos1, mask1, 1);
    BitwiseZero(f.p2);
    ByteMasks(f.p0); ByteMasks(f.p1);
  }

  // ---------- dimension keys ----------

  /** A matched value, with its path cut down to what the matcher compared. */
  function Keyed(fv: FieldValue, m: Matcher): FieldValue
  {
    fv.(field := Field(fv.field.tag, WordOf(And(Code(fv.field.field), Code(m.mask)))))
  }

  function KeysOf(ms: seq<Matcher>, fv: FieldValue): seq<FieldValue>
  {
    if ms == [] then [] else KeyFor(ms[0], fv) + KeysOf(ms[1..], fv)
  }

  function KeyFor(m: Matcher, fv: FieldValue): seq<FieldValue>
  {
    if Matches(fv.field, m) then [Keyed(fv, m)] else []
  }

  function Filtered(ms: seq<Matcher>, values: seq<FieldValue>): seq<FieldValue>
  {
    if values == [] then [] else KeysOf(ms, values[0]) + Filtered(ms, values[1..])
  }

  method FilterValue(ms: seq<Matcher>, fv: FieldValue, key0: seq<FieldValue>) returns (key: seq<FieldValue>)
    ensures key == key0 + KeysOf(ms, fv)
  {
    key := key0;
    assert ms[0..] == ms;
    for i := 0 to |ms|
      invariant key + KeysOf(ms[i..], fv) == key0 + KeysOf(ms, fv)
    {
      KeysStep(ms, i, fv, key);
      if Matches(fv.field, ms[i]) {
        key := key + [Keyed(fv, ms[i])];
      }
    }
  }

  lemma KeysStep(ms: seq<Matcher>, i: nat, fv: FieldValue, key: seq<FieldValue>)
    requires i < |ms|
    ensures key + KeysOf(ms[i..], fv) == key + KeyFor(ms[i], fv) + KeysOf(ms[i + 1..], fv)
  {
    assert ms[i..][0] == ms[i] && ms[i..][1..] == ms[i + 1..];
  }

  lemma FilteredStep(ms: seq<Matcher>, values: seq<FieldValue>, v: nat, key: seq<FieldValue>)
    requires v < |values|
    ensures key + Filtered(ms, values[v..]) == key + KeysOf(ms, values[v]) + Filtered(ms, values[v + 1..])
  {
    assert values[v..][0] == values[v] && values[v..][1..] == values[v + 1..];
  }

  method FilterValues(ms: seq<Matcher>, values: seq<FieldValue>) returns (any: bool, key: seq<FieldValue>)
    ensures key == Filtered(ms, values) && any == (|key| > 0)
  {
    key := [];
    assert values[0..] == values;
    for v := 0 to |values|
      invariant key + Filtered(ms, values[v..]) == Filtered(ms, values)
    {
      FilteredStep(ms, values, v, key);
      key := FilterValue(ms, values[v], key);
    }
    any := |key| > 0;
  }

  lemma {:induction false} FilteredNone(m: Matcher, values: seq<FieldValue>)
    requires forall k :: 0 <= k < |values| ==> !Matches(values[k].field, m)
    ensures Filtered([m], values) == []
  {
    if values != [] {
      FilteredNone(m, values[1..]);
      assert KeysOf([m], values[0]) == [] by { assert [m][1..] == []; }
    }
  }

  lemma {:induction false} FilteredOne(m: Matcher, values: seq<FieldValue>, at: nat)
    requires at < |values|
    requires forall k :: 0 <= k < |values| ==> (Matches(values[k].field, m) <==> k == at)
    ensures Filtered([m], values) == [Keyed(values[at], m)]
  {
    assert [m][1..] == [];
    if at == 0 {
      FilteredNone(m, values[1..]);
      assert KeysOf([m], values[0]) == [Keyed(values[0], m)];
    } else {
      FilteredOne(m, values[1..], at - 1);
      assert KeysOf([m], values[0]) == [];
    }
  }

  /** The pair for component `c` of the last node of the chain in field `p0`. */
  function LastNodeMatcher(tag: int, p0: nat, c: nat): Matcher
  {
    Matcher(Field(tag, Pack(2, p0, 0x80, c)), Pack(0xff, 0x7f, 0x80, 0x7f))
  }

  lemma LastNodeMatcherIsTranslated(tag: int, p0: nat, c: nat, pos: seq<nat>, mask: seq<nat>)
    requires p0 < 128 && c < 128 && Bytes3(pos) && Bytes3(mask)
    ensures Flatten(tag, FieldMatcher(p0, Some(LAST), [FieldMatcher(c, None, [])]), 0, pos, mask)
         == [LastNodeMatcher(tag, p0, c)]
  {
    var child := FieldMatcher(c, None, []);
    var pos1, mask1 := pos[0 := p0][1 := 0x80], mask[0 := 0x7f][1 := 0x80];
    PairPacked(tag, pos1[2 := c], mask1[2 := 0x7f], 2);
    assert Flatten(tag, child, 2, pos1, mask1) == [LastNodeMatcher(tag, p0, c)];
    assert FlattenAll(tag, [child], 2, pos1, mask1)
        == Flatten(tag, child, 2, pos1, mask1) + FlattenAll(tag, [child][1..], 2, pos1, mask1);
    assert [child][1..] == [];
  }

  /** What the three mask bytes of LAST leave of a path. */
  lemma LastMaskBytes(f: Word)
    requires IsPath(f) && f.p0 < 128 && f.p2 < 128
    ensures And(f.p0, 0x7f) == f.p0 && And(f.p2, 0x7f) == f.p2
    ensures And(f.p1, 0x80) == (if f.p1 >= 128 then 0x80 else 0)
  {
    LowByteMask(f.p0); LowByteMask(f.p2);
    ByteMasks(f.p1);
  }

  lemma LastMatches(tag: int, f: Word, m: Matcher, p0: Byte, c: Byte)
    requires IsPath(f) && m == LastNodeMatcher(tag, p0, c) && f.p0 < 128 && f.p2 < 128
    ensures Matches(Field(tag, f), m) <==> f.d == 2 && f.p0 == p0 && f.p1 >= 128 && f.p2 == c
    ensures f.d == 2 && f.p0 == p0 && f.p1 >= 128 && f.p2 == c ==>
      WordOf(And(Code(f), Code(m.mask))) == Pack(2, p0, 0x80, c)
  {
    LastMaskBytes(f);
    PackedPairMatches(tag, f, Pack(2, p0, 0x80, c), 0x7f, 0x80, 0x7f);
    MaskedPath(f, 0x7f, 0x80, 0x7f);
    WordOfCode(Pack(f.d, And(f.p0, 0x7f), And(f.p1, 0x80), And(f.p2, 0x7f)));
  }

  function ChainPath(p0: Byte, n: nat, k: nat): Word
    requires k < 2 * n <= 254
  {
    Pack(2, p0, WithLast(k / 2 + 1, k / 2 + 1 == n), 1 + k % 2)
  }

  lemma LastNodeMatches(tag: int, p0: nat, c: nat, nodes: seq<Node>, k: nat)
    requires 1 <= p0 <= 127 && 1 <= c <= 2 && 1 <= |nodes| <= 127 && k < 2 * |nodes|
    ensures Matches(ChainValue(tag, p0, nodes, k).field, LastNodeMatcher(tag, p0, c))
       <==> k == 2 * (|nodes| - 1) + (c - 1)
    ensures k == 2 * (|nodes| - 1) + (c - 1) ==>
      Keyed(ChainValue(tag, p0, nodes, k), LastNodeMatcher(tag, p0, c)).field == Field(tag, Pack(2, p0, 0x80, c))
  {
    var f := ChainPath(p0, |nodes|, k);
    LastMatches(tag, f, LastNodeMatcher(tag, p0, c), p0, c);
    assert ChainValue(tag, p0, nodes, k).field == Field(tag, f);
  }

  lemma {:induction false} LastNodeFiltered(tag: int, p0: nat, c: nat, nodes: seq<Node>, at: nat)
    requires 1 <= p0 <= 127 && 1 <= c <= 2 && 1 <= |nodes| <= 127 && at == 2 * (|nodes| - 1) + (c - 1)
    ensures Filtered([LastNodeMatcher(tag, p0, c)], ChainValues(tag, p0, nodes))
         == [Keyed(ChainValue(tag, p0, nodes, at), LastNodeMatcher(tag, p0, c))]
  {
    var m, values := LastNodeMatcher(tag, p0, c), ChainValues(tag, p0, nodes);
    forall k | 0 <= k < |values| ensures Matches(values[k].field, m) <==> k == at {
      LastNodeMatches(tag, p0, c, nodes, k);
    }
    FilteredOne(m, values, at);
  }

  /** A key sliced by the LAST node alone holds that node's value under one canonical path. */
  lemma {:induction false} LastNodeKey(tag: int, p0: nat, c: nat, nodes: seq<Node>)
    requires 1 <= p0 <= 127 && 1 <= c <= 2 && 1 <= |nodes| <= 127
    ensures Filtered([LastNodeMatcher(tag, p0, c)], ChainValues(tag, p0, nodes))
         == [FieldValue(Field(tag, Pack(2, p0, 0x80, c)),
                        if c == 1 then IntV(ToInt32(nodes[|nodes| - 1].uid)) else StrV(CStr(nodes[|nodes| - 1].tag)),
                        DEFAULT_ANNOTATIONS)]
  {
    var at := 2 * (|nodes| - 1) + (c - 1);
    LastNodeFiltered(tag, p0, c, nodes, at);
    LastNodeMatches(tag, p0, c, nodes, at);
  }

  // ---------- keys by FIRST, ANY and ALL ----------

  /** The pair for component `c` of the nodes at a position of the chain in field `p0`. */
  function NodeMatcher(tag: int, p0: nat, c: nat, position: Position): Matcher
  {
    Matcher(Field(tag, Pack(2, p0, PositionPos(position), c)), Pack(0xff, 0x7f, PositionMask(position), 0x7f))
  }

  lemma {:induction false} NodeMatcherIsTranslated(tag: int, p0: nat, c: nat, position: Position, pos: seq<nat>,
                                                   mask: seq<nat>)
    requires p0 < 128 && c < 128 && Bytes3(pos) && Bytes3(mask)
    ensures Flatten(tag, FieldMatcher(p0, Some(position), [FieldMatcher(c, None, [])]), 0, pos, mask)
         == [NodeMatcher(tag, p0, c, position)]
  {
    var child := FieldMatcher(c, None, []);
    var pos1 := pos[0 := p0][1 := PositionPos(position)];
    var mask1 := mask[0 := 0x7f][1 := PositionMask(position)];
    PairPacked(tag, pos1[2 := c], mask1[2 := 0x7f], 2);
    assert Flatten(tag, child, 2, pos1, mask1) == [NodeMatcher(tag, p0, c, position)];
    assert FlattenAll(tag, [child], 2, pos1, mask1)
        == Flatten(tag, child, 2, pos1, mask1) + FlattenAll(tag, [child][1..], 2, pos1, mask1);
    assert [child][1..] == [];
  }

  /** Which node a position picks: the first, the last, or every one. */
  predicate Picks(position: Position, i: nat, n: nat)
  {
    match position case FIRST => i == 0 case LAST => i == n - 1 case _ => true
  }

  /** Where the value of node `i` is kept: FIRST, LAST and ANY forget the node, ALL does not. */
  function KeptPosition(position: Position, i: nat): nat
  {
    match position case FIRST => 1 case LAST => 0x80 case ALL => i + 1 case _ => 0
  }

  /** What the mask of a position leaves of the number of node `i`. */
  function MaskedPosition(position: Position, i: nat, n: nat): nat
  {
    match position case FIRST => i + 1 case ALL => i + 1 case LAST => (if i + 1 == n then 0x80 else 0) case _ => 0
  }

  lemma MaskByte(p1: nat, position: Position)
    requires p1 < 256
    ensures And(p1, PositionMask(position)) ==
              match position
              case FIRST => p1 % 128
              case ALL => p1 % 128
              case LAST => (if p1 >= 128 then 0x80 else 0)
              case _ => 0
  {
    match position
    case FIRST => LowSevenBits(p1);
    case ALL => LowSevenBits(p1);
    case LAST => AndTopBit(p1);
    case _ => BitwiseZero(p1);
  }

  lemma NodeByte(position: Position, i: nat, n: nat)
    requires i < n <= 127
    ensures And(WithLast(i + 1, i + 1 == n), PositionMask(position)) == MaskedPosition(position, i, n)
  {
    MaskByte(WithLast(i + 1, i + 1 == n), position);
  }

  /** A pair of a position, on the bytes that the masks leave. */
  lemma {:induction false} NodeMatchesIff(tag: int, f: Word, p0: Byte, c: Byte, position: Position, b: nat)
    requires IsPath(f) && f.d == 2 && f.p0 < 128 && f.p2 < 128 && b == And(f.p1, PositionMask(position))
    ensures Matches(Field(tag, f), NodeMatcher(tag, p0, c, position))
       <==> f.p0 == p0 && f.p2 == c && (b == PositionPos(position) || position == ALL)
    ensures WordOf(And(Code(f), Code(NodeMatcher(tag, p0, c, position).mask))) == Pack(2, f.p0, b, f.p2)
  {
    var w := PositionMask(position);
    LowByteMask(f.p0); LowByteMask(f.p2);
    PackedPairMatches(tag, f, Pack(2, p0, PositionPos(position), c), 0x7f, w, 0x7f);
    MaskedPath(f, 0x7f, w, 0x7f);
    WordOfCode(Pack(2, f.p0, b, f.p2));
  }

  lemma Component(k: nat, i: nat, comp: nat)
    requires 1 <= comp <= 2 && k == 2 * i + (comp - 1)
    ensures k / 2 == i && 1 + k % 2 == comp
  {
  }

  /** Component `comp` of node `i` under such a pair. */
  lemma {:induction false} NodeMatches(tag: int, p0: Byte, c: Byte, position: Position, nodes: seq<Node>, i: nat,
                                       comp: nat, k: nat)
    requires 1 <= p0 <= 127 && 1 <= c <= 2 && i < |nodes| <= 127 && 1 <= comp <= 2 && k == 2 * i + (comp - 1)
    ensures var m, v := NodeMatcher(tag, p0, c, position), ChainValue(tag, p0, nodes, k);
            && (Matches(v.field, m) <==> comp == c && Picks(position, i, |nodes|))
            && (Matches(v.field, m) ==> Keyed(v, m).field == Field(tag, Pack(2, p0, KeptPosition(position, i), c)))
  {
    var f := ChainPath(p0, |nodes|, k);
    Component(k, i, comp);
    NodeByte(position, i, |nodes|);
    NodeMatchesIff(tag, f, p0, c, position, MaskedPosition(position, i, |nodes|));
    assert ChainValue(tag, p0, nodes, k).field == Field(tag, f);
  }

  /** What the key holds of node `i`. */
  function NodeDimension(tag: int, p0: nat, c: nat, position: Position, nodes: seq<Node>, i: nat): FieldValue
    requires i < |nodes|
  {
    FieldValue(Field(tag, Pack(2, p0, KeptPosition(position, i), c)),
               if c == 1 then IntV(ToInt32(nodes[i].uid)) else StrV(CStr(nodes[i].tag)), DEFAULT_ANNOTATIONS)
  }

  lemma {:induction false} NodeKey(tag: int, p0: Byte, c: Byte, position: Position, nodes: seq<Node>, i: nat, comp: nat,
                                   k: nat)
    requires 1 <= p0 <= 127 && 1 <= c <= 2 && i < |nodes| <= 127 && 1 <= comp <= 2 && k == 2 * i + (comp - 1)
    ensures KeyFor(NodeMatcher(tag, p0, c, position), ChainValue(tag, p0, nodes, k))
         == if comp == c then NodePart(tag, p0, c, position, nodes, i) else []
  {
    NodeMatches(tag, p0, c, position, nodes, i, comp, k);
    Component(k, i, comp);
  }

  lemma {:induction false} OneMatcher(m: Matcher, v: FieldValue)
    ensures KeysOf([m], v) == KeyFor(m, v)
  {
    assert [m][1..] == [] && KeysOf([], v) == [];
  }

  /** What node `i` contributes. */
  function NodePart(tag: int, p0: nat, c: nat, position: Position, nodes: seq<Node>, i: nat): seq<FieldValue>
    requires i < |nodes|
  {
    if Picks(position, i, |nodes|) then [NodeDimension(tag, p0, c, position, nodes, i)] else []
  }

  function NodeParts(tag: int, p0: nat, c: nat, position: Position, nodes: seq<Node>): (r: seq<seq<FieldValue>>)
    ensures |r| == |nodes| && forall i :: 0 <= i < |nodes| ==> r[i] == NodePart(tag, p0, c, position, nodes, i)
  {
    seq(|nodes|, i requires 0 <= i < |nodes| => NodePart(tag, p0, c, position, nodes, i))
  }

  function Flat(parts: seq<seq<FieldValue>>): seq<FieldValue>
  {
    if parts == [] then [] else parts[0] + Flat(parts[1..])
  }

  /** Both values of a node together contribute `part`. */
  predicate Contributes(m: Matcher, v: FieldValue, w: FieldValue, part: seq<FieldValue>)
  {
    KeyFor(m, v) + KeyFor(m, w) == part
  }

  predicate PartAt(m: Matcher, values: seq<FieldValue>, parts: seq<seq<FieldValue>>, i: nat)
    requires i < |parts| && |values| == 2 * |parts|
  {
    Contributes(m, values[2 * i], values[2 * i + 1], parts[i])
  }

  predicate AllParts(m: Matcher, values: seq<FieldValue>, parts: seq<seq<FieldValue>>)
  {
    |values| == 2 * |parts| && forall i {:trigger PartAt(m, values, parts, i)} :: 0 <= i < |parts| ==>
      PartAt(m, values, parts, i)
  }

  lemma {:induction false} FilteredFlat(m: Matcher, values: seq<FieldValue>, parts: seq<seq<FieldValue>>)
    requires AllParts(m, values, parts)
    ensures Filtered([m], values) == Flat(parts)
    decreases |parts|
  {
    if parts != [] {
      var rest, more := values[2..], parts[1..];
      forall i | 0 <= i < |more| ensures PartAt(m, rest, more, i) {
        var j := i + 1;
        assert PartAt(m, values, parts, j);
        assert rest[2 * i] == values[2 * j] && rest[2 * i + 1] == values[2 * j + 1] && more[i] == parts[j];
      }
      FilteredFlat(m, rest, more);
      TwoThenRest([m], values, rest);
      OneMatcher(m, values[0]);
      OneMatcher(m, values[1]);
      assert PartAt(m, values, parts, 0);
      JoinKeys(KeyFor(m, values[0]), KeyFor(m, values[1]), Filtered([m], rest), parts[0]);
    }
  }

  lemma {:induction false} TwoThenRest(ms: seq<Matcher>, values: seq<FieldValue>, rest: seq<FieldValue>)
    requires |values| >= 2 && rest == values[2..]
    ensures Filtered(ms, values) == KeysOf(ms, values[0]) + (KeysOf(ms, values[1]) + Filtered(ms, rest))
  {
    assert values[1..][0] == values[1] && values[1..][1..] == rest;
  }

  lemma JoinKeys(x: seq<FieldValue>, y: seq<FieldValue>, z: seq<FieldValue>, xy: seq<FieldValue>)
    requires x + y == xy
    ensures x + (y + z) == xy + z
  {
    assert x + (y + z) == x + y + z;
  }

  lemma EitherPart(c: nat, part: seq<FieldValue>)
    requires 1 <= c <= 2
    ensures (if 1 == c then part else []) + (if 2 == c then part else []) == part
  {
  }

  /** Of the two values of node `i` one reaches the key, if its node is picked. */
  lemma {:induction false} NodeContributes(tag: int, p0: Byte, c: Byte, position: Position, nodes: seq<Node>, i: nat)
    requires 1 <= p0 <= 127 && 1 <= c <= 2 && i < |nodes| <= 127
    ensures Contributes(NodeMatcher(tag, p0, c, position), ChainValue(tag, p0, nodes, 2 * i),
                        ChainValue(tag, p0, nodes, 2 * i + 1), NodePart(tag, p0, c, position, nodes, i))
  {
    NodeKey(tag, p0, c, position, nodes, i, 1, 2 * i);
    NodeKey(tag, p0, c, position, nodes, i, 2, 2 * i + 1);
    EitherPart(c, NodePart(tag, p0, c, position, nodes, i));
  }

  lemma {:induction false} AllContribute(tag: int, p0: Byte, c: Byte, position: Position, nodes: seq<Node>)
    returns (m: Matcher, parts: seq<seq<FieldValue>>)
    requires 1 <= p0 <= 127 && 1 <= c <= 2 && |nodes| <= 127
    ensures m == NodeMatcher(tag, p0, c, position) && parts == NodeParts(tag, p0, c, position, nodes)
    ensures AllParts(m, ChainValues(tag, p0, nodes), parts)
  {
    m, parts := NodeMatcher(tag, p0, c, position), NodeParts(tag, p0, c, position, nodes);
    forall i | 0 <= i < |parts| ensures PartAt(m, ChainValues(tag, p0, nodes), parts, i) {
      NodePartAt(tag, p0, c, position, nodes, i);
    }
  }

  lemma {:induction false} NodePartAt(tag: int, p0: Byte, c: Byte, position: Position, nodes: seq<Node>, i: nat)
    requires 1 <= p0 <= 127 && 1 <= c <= 2 && i < |nodes| <= 127
    ensures PartAt(NodeMatcher(tag, p0, c, position), ChainValues(tag, p0, nodes),
                   NodeParts(tag, p0, c, position, nodes), i)
  {
    NodeContributes(tag, p0, c, position, nodes, i);
    ChainValuesAt(tag, p0, nodes, i);
    PartFrom(NodeMatcher(tag, p0, c, position), ChainValues(tag, p0, nodes), NodeParts(tag, p0, c, position, nodes), i,
             ChainValue(tag, p0, nodes, 2 * i), ChainValue(tag, p0, nodes, 2 * i + 1),
             NodePart(tag, p0, c, position, nodes, i));
  }

  lemma ChainValuesAt(tag: int, p0: nat, nodes: seq<Node>, i: nat)
    requires i < |nodes|
    ensures ChainValues(tag, p0, nodes)[2 * i] == ChainValue(tag, p0, nodes, 2 * i)
    ensures ChainValues(tag, p0, nodes)[2 * i + 1] == ChainValue(tag, p0, nodes, 2 * i + 1)
  {
  }

  lemma PartFrom(m: Matcher, values: seq<FieldValue>, parts: seq<seq<FieldValue>>, i: nat, v: FieldValue, w: FieldValue,
                 part: seq<FieldValue>)
    requires i < |parts| && |values| == 2 * |parts| && Contributes(m, v, w, part)
    requires values[2 * i] == v && values[2 * i + 1] == w && parts[i] == part
    ensures PartAt(m, values, parts, i)
  {
  }

  /** A key sliced by one component of the nodes at a position: the first node's value, the last
      node's, or those of all nodes in order. Only ALL keeps the place of a node. */
  lemma {:induction false} ChainKeys(tag: int, p0: Byte, c: Byte, position: Position, nodes: seq<Node>)
    requires 1 <= p0 <= 127 && 1 <= c <= 2 && |nodes| <= 127
    ensures Filtered([NodeMatcher(tag, p0, c, position)], ChainValues(tag, p0, nodes))
         == Flat(NodeParts(tag, p0, c, position, nodes))
  {
    var m, parts := AllContribute(tag, p0, c, position, nodes);
    FilteredFlat(m, ChainValues(tag, p0, nodes), parts);
  }

  /** A node has the same dimension wherever it stands in its chain, except under ALL. */
  lemma PlaceForgotten(tag: int, p0: nat, c: nat, position: Position, a: seq<Node>, i: nat, b: seq<Node>, j: nat)
    requires i < |a| && j < |b| && a[i] == b[j]
    ensures NodeDimension(tag, p0, c, position, a, i) == NodeDimension(tag, p0, c, position, b, j)
       <==> position != ALL || i == j
  {
  }

  // ---------- LAST keys of whole events ----------

  lemma {:induction false} FilteredConcat(ms: seq<Matcher>, a: seq<FieldValue>, b: seq<FieldValue>)
    ensures Filtered(ms, a + b) == Filtered(ms, a) + Filtered(ms, b)
  {
    if a == [] {
      assert a + b == b;
    } else {
      assert (a + b)[0] == a[0] && (a + b)[1..] == a[1..] + b;
      FilteredConcat(ms, a[1..], b);
    }
  }

  lemma KeyOfConcat(a: seq<FieldValue>, b: seq<FieldValue>)
    ensures KeyOf(a + b) == KeyOf(a) + KeyOf(b)
  {
  }

  lemma {:induction false} SilentValues(ms: seq<Matcher>, values: seq<FieldValue>)
    requires forall k :: 0 <= k < |values| ==> KeysOf(ms, values[k]) == []
    ensures Filtered(ms, values) == []
  {
    if values != [] {
      SilentValues(ms, values[1..]);
    }
  }

  /** A translated matcher of another atom or of another top-level field. */
  predicate ForOtherField(m: Matcher, tag: int, p0: nat)
  {
    || m.matcher.tag != tag
    || (IsPath(m.matcher.field) && IsPath(m.mask) && m.mask.p0 == 0x7f && m.matcher.field.p0 != p0)
  }

  lemma OtherFieldSilent(f: Word, m: Matcher, tag: int, p0: nat)
    requires IsPath(f) && f.p0 == p0 < 128 && ForOtherField(m, tag, p0)
    ensures !Matches(Field(tag, f), m)
  {
    if m.matcher.tag == tag {
      var clear := Pack(0xff, 0xff, 0, 0xff);
      var all := BitwiseWord(AND, m.mask, clear);
      BitwiseCode(AND, m.mask, clear);
      BitwiseCode(AND, f, m.mask);
      BitwiseCode(AND, f, all);
      FullByteMask(0x7f);
      LowByteMask(p0);
      CodeInjective(BitwiseWord(AND, f, m.mask), m.matcher.field);
      CodeInjective(BitwiseWord(AND, f, all), m.matcher.field);
    }
  }

  /** A component of the LAST node, or something about another field. */
  predicate LastOrOther(m: Matcher, tag: int, p0: nat)
  {
    m == LastNodeMatcher(tag, p0, 1) || m == LastNodeMatcher(tag, p0, 2) || ForOtherField(m, tag, p0)
  }

  predicate AllLastOrOther(ms: seq<Matcher>, tag: int, p0: nat)
  {
    forall i :: 0 <= i < |ms| ==> LastOrOther(ms[i], tag, p0)
  }

  /** `values` are those of a chain, whatever their annotations. */
  predicate IsChain(values: seq<FieldValue>, tag: int, p0: nat, nodes: seq<Node>)
  {
    && 1 <= |nodes| <= 127 && |values| == 2 * |nodes|
    && forall k {:trigger IsChainValue(values[k], tag, p0, nodes, k)} ::
         0 <= k < |values| ==> IsChainValue(values[k], tag, p0, nodes, k)
  }

  predicate IsChainValue(v: FieldValue, tag: int, p0: nat, nodes: seq<Node>, k: nat)
    requires k < 2 * |nodes|
  {
    v.field == ChainValue(tag, p0, nodes, k).field && v.value == ChainValue(tag, p0, nodes, k).value
  }

  lemma ChainSilent(m: Matcher, tag: int, p0: nat, nodes: seq<Node>, k: nat)
    requires 1 <= p0 <= 127 && 1 <= |nodes| <= 127 && k < 2 * |nodes| && ForOtherField(m, tag, p0)
    ensures !Matches(ChainValue(tag, p0, nodes, k).field, m)
  {
    OtherFieldSilent(ChainPath(p0, |nodes|, k), m, tag, p0);
  }

  /** Nodes before the last contribute nothing. */
  lemma {:induction false} EarlierNodesSilent(ms: seq<Matcher>, tag: int, p0: nat, nodes: seq<Node>, v: FieldValue,
                                              k: nat)
    requires 1 <= p0 <= 127 && 1 <= |nodes| <= 127 && k < 2 * (|nodes| - 1)
    requires IsChainValue(v, tag, p0, nodes, k) && AllLastOrOther(ms, tag, p0)
    ensures KeysOf(ms, v) == []
  {
    if ms != [] {
      assert LastOrOther(ms[0], tag, p0);
      if ForOtherField(ms[0], tag, p0) {
        ChainSilent(ms[0], tag, p0, nodes, k);
      } else {
        LastNodeMatches(tag, p0, 1, nodes, k);
        LastNodeMatches(tag, p0, 2, nodes, k);
      }
      EarlierNodesSilent(ms[1..], tag, p0, nodes, v, k);
    }
  }

  /** Component `j` of the last node of either chain, for one matcher ... */
  lemma LastNodeAlike(m: Matcher, tag: int, p0: nat, a: seq<Node>, b: seq<Node>, v: FieldValue, w: FieldValue, j: nat)
    requires 1 <= p0 <= 127 && 1 <= |a| <= 127 && 1 <= |b| <= 127 && j < 2 && LastOrOther(m, tag, p0)
    requires IsChainValue(v, tag, p0, a, 2 * (|a| - 1) + j) && IsChainValue(w, tag, p0, b, 2 * (|b| - 1) + j)
    requires v.value == w.value
    ensures KeyOf(KeyFor(m, v)) == KeyOf(KeyFor(m, w))
  {
    if ForOtherField(m, tag, p0) {
      ChainSilent(m, tag, p0, a, 2 * (|a| - 1) + j);
      ChainSilent(m, tag, p0, b, 2 * (|b| - 1) + j);
    } else {
      var c := if m == LastNodeMatcher(tag, p0, 1) then 1 else 2;
      LastComponentKey(tag, p0, c, a, v, j);
      LastComponentKey(tag, p0, c, b, w, j);
    }
  }

  lemma LastComponentKey(tag: int, p0: nat, c: nat, nodes: seq<Node>, v: FieldValue, j: nat)
    requires 1 <= p0 <= 127 && 1 <= c <= 2 && 1 <= |nodes| <= 127 && j < 2
    requires IsChainValue(v, tag, p0, nodes, 2 * (|nodes| - 1) + j)
    ensures KeyOf(KeyFor(LastNodeMatcher(tag, p0, c), v))
         == if j == c - 1 then [Dimension(Field(tag, Pack(2, p0, 0x80, c)), v.value)] else []
  {
    LastNodeMatches(tag, p0, c, nodes, 2 * (|nodes| - 1) + j);
  }

  /** ... and for all. */
  lemma {:induction false} LastNodesAlike(ms: seq<Matcher>, tag: int, p0: nat, a: seq<Node>, b: seq<Node>,
                                          v: FieldValue, w: FieldValue, j: nat)
    requires 1 <= p0 <= 127 && 1 <= |a| <= 127 && 1 <= |b| <= 127 && j < 2 && AllLastOrOther(ms, tag, p0)
    requires IsChainValue(v, tag, p0, a, 2 * (|a| - 1) + j) && IsChainValue(w, tag, p0, b, 2 * (|b| - 1) + j)
    requires v.value == w.value
    ensures KeyOf(KeysOf(ms, v)) == KeyOf(KeysOf(ms, w))
  {
    if ms != [] {
      assert LastOrOther(ms[0], tag, p0);
      LastNodeAlike(ms[0], tag, p0, a, b, v, w, j);
      LastNodesAlike(ms[1..], tag, p0, a, b, v, w, j);
      KeyOfConcat(KeyFor(ms[0], v), KeysOf(ms[1..], v));
      KeyOfConcat(KeyFor(ms[0], w), KeysOf(ms[1..], w));
    }
  }

  function LastTwo(values: seq<FieldValue>, j: nat): FieldValue
    requires |values| >= 2 && j < 2
  {
    values[|values| - 2 + j]
  }

  /** Only the last two values of a chain reach the key. */
  lemma {:induction false} ChainKeyIsLast(ms: seq<Matcher>, tag: int, p0: nat, nodes: seq<Node>,
                                          values: seq<FieldValue>)
    requires 1 <= p0 <= 127 && AllLastOrOther(ms, tag, p0) && IsChain(values, tag, p0, nodes)
    ensures KeyOf(Filtered(ms, values)) == KeyOf(KeysOf(ms, LastTwo(values, 0))) + KeyOf(KeysOf(ms, LastTwo(values, 1)))
  {
    var front, last := values[..|values| - 2], values[|values| - 2..];
    FrontIsSilent(ms, tag, p0, nodes, values, front);
    assert values == front + last;
    FilteredConcat(ms, front, last);
    TwoValues(ms, last);
  }

  lemma FrontIsSilent(ms: seq<Matcher>, tag: int, p0: nat, nodes: seq<Node>, values: seq<FieldValue>,
                      front: seq<FieldValue>)
    requires 1 <= p0 <= 127 && AllLastOrOther(ms, tag, p0) && IsChain(values, tag, p0, nodes)
    requires front == values[..|values| - 2]
    ensures Filtered(ms, front) == []
  {
    forall k | 0 <= k < |front| ensures KeysOf(ms, front[k]) == [] {
      assert IsChainValue(values[k], tag, p0, nodes, k);
      EarlierNodesSilent(ms, tag, p0, nodes, front[k], k);
    }
    SilentValues(ms, front);
  }

  lemma TwoValues(ms: seq<Matcher>, vs: seq<FieldValue>)
    requires |vs| == 2
    ensures KeyOf(Filtered(ms, vs)) == KeyOf(KeysOf(ms, vs[0])) + KeyOf(KeysOf(ms, vs[1]))
  {
    assert vs[1..][0] == vs[1] && vs[1..][1..] == [];
    assert Filtered(ms, vs[1..]) == KeysOf(ms, vs[1]);
    KeyOfConcat(KeysOf(ms, vs[0]), KeysOf(ms, vs[1]));
  }

  lemma ChainKeysAlike(ms: seq<Matcher>, tag: int, p0: nat, a: seq<Node>, b: seq<Node>, va: seq<FieldValue>,
                       vb: seq<FieldValue>)
    requires 1 <= p0 <= 127 && AllLastOrOther(ms, tag, p0) && IsChain(va, tag, p0, a) && IsChain(vb, tag, p0, b)
    requires a[|a| - 1] == b[|b| - 1]
    ensures KeyOf(Filtered(ms, va)) == KeyOf(Filtered(ms, vb))
  {
    ChainKeyIsLast(ms, tag, p0, a, va);
    ChainKeyIsLast(ms, tag, p0, b, vb);
    ComponentAlike(ms, tag, p0, a, b, va, vb, 0);
    ComponentAlike(ms, tag, p0, a, b, va, vb, 1);
  }

  lemma ComponentAlike(ms: seq<Matcher>, tag: int, p0: nat, a: seq<Node>, b: seq<Node>,
                       va: seq<FieldValue>, vb: seq<FieldValue>, j: nat)
    requires 1 <= p0 <= 127 && AllLastOrOther(ms, tag, p0) && IsChain(va, tag, p0, a) && IsChain(vb, tag, p0, b)
    requires a[|a| - 1] == b[|b| - 1] && j < 2
    ensures KeyOf(KeysOf(ms, LastTwo(va, j))) == KeyOf(KeysOf(ms, LastTwo(vb, j)))
  {
    LastValue(va, tag, p0, a, j);
    LastValue(vb, tag, p0, b, j);
    LastNodesAlike(ms, tag, p0, a, b, LastTwo(va, j), LastTwo(vb, j), j);
  }

  lemma LastValue(values: seq<FieldValue>, tag: int, p0: nat, nodes: seq<Node>, j: nat)
    requires IsChain(values, tag, p0, nodes) && j < 2
    ensures var k := 2 * (|nodes| - 1) + j;
            && IsChainValue(values[k], tag, p0, nodes, k)
            && values[k].value ==
                 if j == 0 then IntV(ToInt32(nodes[|nodes| - 1].uid)) else StrV(CStr(nodes[|nodes| - 1].tag))
  {
    assert IsChainValue(values[2 * (|nodes| - 1) + j], tag, p0, nodes, 2 * (|nodes| - 1) + j);
  }

  /** The dimension key of an event sliced by components of the LAST node, and by anything about
      other fields, does not depend on the length of the chain or on its earlier nodes. */
  lemma LastKeyIgnoresLength(ms: seq<Matcher>, tag: int, p0: nat, a: seq<Node>, b: seq<Node>,
                             va: seq<FieldValue>, vb: seq<FieldValue>, pre: seq<FieldValue>, post: seq<FieldValue>)
    requires 1 <= p0 <= 127 && AllLastOrOther(ms, tag, p0) && IsChain(va, tag, p0, a) && IsChain(vb, tag, p0, b)
    requires a[|a| - 1] == b[|b| - 1]
    ensures KeyOf(Filtered(ms, pre + va + post)) == KeyOf(Filtered(ms, pre + vb + post))
  {
    ChainKeysAlike(ms, tag, p0, a, b, va, vb);
    KeyInContext(ms, pre, va, post);
    KeyInContext(ms, pre, vb, post);
  }

  lemma KeyInContext(ms: seq<Matcher>, pre: seq<FieldValue>, values: seq<FieldValue>, post: seq<FieldValue>)
    ensures KeyOf(Filtered(ms, pre + values + post))
         == KeyOf(Filtered(ms, pre)) + KeyOf(Filtered(ms, values)) + KeyOf(Filtered(ms, post))
  {
    FilteredConcat(ms, pre + values, post);
    FilteredConcat(ms, pre, values);
    KeyOfConcat(Filtered(ms, pre), Filtered(ms, values));
    KeyOfConcat(Filtered(ms, pre) + Filtered(ms, values), Filtered(ms, post));
  }

  /** All pairs start at top-level field `p`. */
  predicate Rooted(out: seq<Matcher>, tag: int, p: nat)
  {
    forall i :: 0 <= i < |out| ==>
      && out[i].matcher.tag == tag && IsPath(out[i].matcher.field) && IsPath(out[i].mask)
      && out[i].matcher.field.p0 == p && out[i].mask.p0 == 0x7f
  }

  lemma {:induction false} FlattenRooted(tag: int, m: FieldMatcher, depth: nat, pos: seq<nat>, mask: seq<nat>, p: nat)
    requires Proper(m, depth) && Bytes3(pos) && Bytes3(mask)
    requires if depth == 0 then p == m.field else p == pos[0] && mask[0] == 0x7f
    ensures Rooted(Flatten(tag, m, depth, pos, mask), tag, p)
    decreases m, 1
  {
    if depth <= MAX_LOG_DEPTH {
      var pos1, mask1 := pos[depth := m.field], mask[depth := 0x7f];
      if m.position.None? {
        FlattenBelowRooted(tag, m.children, depth, pos1, mask1, p);
      } else if depth + 1 <= MAX_LOG_DEPTH {
        var q := m.position.value;
        FlattenBelowRooted(tag, m.children, depth + 1, pos1[depth + 1 := PositionPos(q)],
                           mask1[depth + 1 := PositionMask(q)], p);
      }
    }
  }

  lemma {:induction false} FlattenBelowRooted(tag: int, children: seq<FieldMatcher>, depth: nat,
                                              pos: seq<nat>, mask: seq<nat>, p: nat)
    requires depth <= MAX_LOG_DEPTH && Bytes3(pos) && Bytes3(mask) && p == pos[0] && mask[0] == 0x7f
    requires forall k :: 0 <= k < |children| ==> Proper(children[k], depth + 1)
    ensures Rooted(FlattenBelow(tag, children, depth, pos, mask), tag, p)
    decreases children, 2
  {
    if children == [] {
      PairPacked(tag, pos, mask, depth);
    } else {
      FlattenAllRooted(tag, children, depth + 1, pos, mask, p);
    }
  }

  lemma {:induction false} FlattenAllRooted(tag: int, ms: seq<FieldMatcher>, depth: nat, pos: seq<nat>, mask: seq<nat>,
                                            p: nat)
    requires 1 <= depth && Bytes3(pos) && Bytes3(mask) && p == pos[0] && mask[0] == 0x7f
    requires forall k :: 0 <= k < |ms| ==> Proper(ms[k], depth)
    ensures Rooted(FlattenAll(tag, ms, depth, pos, mask), tag, p)
    decreases ms, 1
  {
    if ms != [] {
      FlattenRooted(tag, ms[0], depth, pos, mask, p);
      FlattenAllRooted(tag, ms[1..], depth, pos, mask, p);
    }
  }

  /** Whatever is translated from the tree of another top-level field is about that field. */
  lemma TranslatedIsOther(tag: int, m: FieldMatcher, pos: seq<nat>, mask: seq<nat>, p0: nat)
    requires Proper(m, 0) && m.field != p0 && Bytes3(pos) && Bytes3(mask)
    ensures AllLastOrOther(Flatten(tag, m, 0, pos, mask), tag, p0)
  {
    FlattenRooted(tag, m, 0, pos, mask, m.field);
  }
}
