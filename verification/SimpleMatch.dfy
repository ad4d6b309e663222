/** Matching an event against a tree of field matchers (matcher_util.cpp): the code narrows index
    ranges with early exits; the meaning is a plain selection of values, in any order. */
module SimpleMatch {
  import opened Options
  import opened Bits
  import opened FieldPath
  import opened LogParser
  import opened DfsOrder

  datatype FieldValueMatcher = FieldValueMatcher(field: int, position: Option<Position>, test: Test)

  datatype Test =
    | MatchesTuple(subs: seq<FieldValueMatcher>)
    | EqBool(b: bool)
    | EqString(str: seq<Byte>)
    | NeqAnyString(strs: seq<seq<Byte>>)
    | EqAnyString(strs: seq<seq<Byte>>)
    | EqInt(i: int) | LtInt(i: int) | GtInt(i: int) | LteInt(i: int) | GteInt(i: int)
    | LtFloat(bits: UInt32) | GtFloat(bits: UInt32)
    | NoTest

  /** What lies outside the event: AID names, package names of a uid, the order of float patterns. */
  datatype Env = Env(aidToUid: map<seq<Byte>, int>, appNames: int -> set<seq<Byte>>,
                     floatLess: (UInt32, UInt32) -> bool)

  predicate IsAttributionUid(fv: FieldValue)
  {
    And(Code(fv.field.field), 0xff_007f) == 0x1_0001 && fv.value.IntV?
  }

  /** What that mask selects: an integer first in a node of the chain in field 1. */
  lemma AttributionUidPath(fv: FieldValue)
    requires IsPath(fv.field.field)
    ensures IsAttributionUid(fv) <==> fv.field.field.p0 == 1 && PosAtDepth(fv.field.field, 2) == 1 && fv.value.IntV?
  {
    var f := fv.field.field;
    UidMask(f);
    CodeInjective(Pack(0, f.p0, 0, f.p2 % 128), Pack(0, 1, 0, 1));
  }

  lemma UidMask(f: Word)
    requires IsPath(f)
    ensures And(Code(f), 0xff_007f) == Code(Pack(0, f.p0, 0, f.p2 % 128))
  {
    BitwiseCode(AND, f, Pack(0, 0xff, 0, 0x7f));
    BitwiseZero(f.d); BitwiseZero(f.p1);
    FullByteMask(f.p0); LowSevenBits(f.p2);
  }

  predicate TryMatchString(env: Env, fv: FieldValue, str: seq<Byte>)
  {
    if IsAttributionUid(fv) || fv.annotations.uid then
      var uid := if fv.value.IntV? then fv.value.i else 0;
      if str in env.aidToUid then env.aidToUid[str] == uid else str in env.appNames(uid)
    else fv.value.StrV? && fv.value.str == str
  }

  /** INT and LONG values are compared alike. */
  predicate IsWhole(v: Value) { v.IntV? || v.LongV? }

  function Whole(v: Value): int
    requires IsWhole(v)
  {
    if v.IntV? then v.i else v.l
  }

  /** The test of a leaf on one value. */
  predicate Passes(env: Env, t: Test, fv: FieldValue)
  {
    var v := fv.value;
    match t
    case EqBool(b) => IsWhole(v) && (Whole(v) != 0) == b
    case EqString(s) => TryMatchString(env, fv, s)
    case NeqAnyString(ss) => forall k :: 0 <= k < |ss| ==> !TryMatchString(env, fv, ss[k])
    case EqAnyString(ss) => exists k :: 0 <= k < |ss| && TryMatchString(env, fv, ss[k])
    case EqInt(i) => IsWhole(v) && i == Whole(v)
    case LtInt(i) => IsWhole(v) && Whole(v) < i
    case GtInt(i) => IsWhole(v) && Whole(v) > i
    case LteInt(i) => IsWhole(v) && Whole(v) <= i
    case GteInt(i) => IsWhole(v) && Whole(v) >= i
    case LtFloat(x) => v.FloatV? && env.floatLess(v.bits, x)
    case GtFloat(x) => v.FloatV? && env.floatLess(x, v.bits)
    case MatchesTuple(_) => false
    case NoTest => false
  }

  // ---------- meaning: select values by their paths, no order, no ranges ----------

  function Pos(vs: seq<FieldValue>, i: nat, depth: nat): nat
    requires i < |vs| && depth <= MAX_LOG_DEPTH
  {
    PosAtDepth(vs[i].field.field, depth)
  }

  predicate IsLast(vs: seq<FieldValue>, i: nat, depth: nat)
    requires i < |vs| && depth <= MAX_LOG_DEPTH
  {
    IsLastPos(vs[i].field.field, depth)
  }

  predicate Indexes(vs: seq<FieldValue>, s: set<nat>) { forall i :: i in s ==> i < |vs| }

  function WithPos(vs: seq<FieldValue>, s: set<nat>, depth: nat, p: int): (t: set<nat>)
    requires Indexes(vs, s) && depth <= MAX_LOG_DEPTH
    ensures Indexes(vs, t)
  {
    set i | i in s && Pos(vs, i, depth) == p
  }

  /** The items marked last, or all of them when none is. */
  function LastItems(vs: seq<FieldValue>, s: set<nat>, depth: nat): (t: set<nat>)
    requires Indexes(vs, s) && depth <= MAX_LOG_DEPTH
    ensures Indexes(vs, t)
  {
    if exists i :: i in s && IsLast(vs, i, depth) then set i | i in s && IsLast(vs, i, depth) else s
  }

  /** The values a leaf test may look at. */
  function Selected(vs: seq<FieldValue>, s: set<nat>, depth: nat, position: Position): (t: set<nat>)
    requires Indexes(vs, s) && depth <= MAX_LOG_DEPTH
    ensures Indexes(vs, t)
  {
    match position
    case FIRST => WithPos(vs, s, depth, 1)
    case LAST => LastItems(vs, s, depth)
    case _ => s
  }

  predicate SomePasses(env: Env, t: Test, vs: seq<FieldValue>, s: set<nat>)
    requires Indexes(vs, s)
  {
    exists i :: i in s && Passes(env, t, vs[i])
  }

  /** A matcher holds on a set of values seen at `depth`: some item of the selected list passes
      the leaf test, or one item (FIRST, LAST, ANY) satisfies all sub-matchers. */
  predicate Holds(env: Env, m: FieldValueMatcher, vs: seq<FieldValue>, s: set<nat>, depth: nat)
    requires Indexes(vs, s)
    decreases m, 1
  {
    && depth <= MAX_LOG_DEPTH
    && var t := WithPos(vs, s, depth, m.field);
       && t != {}
       && match m.position
          case None =>
            if m.test.MatchesTuple? then AllHold(env, m.test.subs, vs, t, depth + 1)
            else SomePasses(env, m.test, vs, t)
          case Some(position) =>
            && depth + 1 <= MAX_LOG_DEPTH
            && if m.test.MatchesTuple? then ItemHolds(env, m.test.subs, vs, t, depth + 1, position)
               else SomePasses(env, m.test, vs, Selected(vs, t, depth + 1, position))
  }

  predicate AllHold(env: Env, subs: seq<FieldValueMatcher>, vs: seq<FieldValue>, s: set<nat>, depth: nat)
    requires Indexes(vs, s)
    decreases subs, 0
  {
    forall k :: 0 <= k < |subs| ==> Holds(env, subs[k], vs, s, depth)
  }

  predicate ItemHolds(env: Env, subs: seq<FieldValueMatcher>, vs: seq<FieldValue>, s: set<nat>, depth: nat,
                      position: Position)
    requires Indexes(vs, s) && depth <= MAX_LOG_DEPTH
    decreases subs, 1
  {
    match position
    case FIRST => AllHold(env, subs, vs, WithPos(vs, s, depth, 1), depth + 1)
    case LAST => AllHold(env, subs, vs, LastItems(vs, s, depth), depth + 1)
    case ANY => exists i :: i in s && AllHold(env, subs, vs, WithPos(vs, s, depth, Pos(vs, i, depth)), depth + 1)
    case _ => false
  }

  // ---------- ranges ----------

  function Range(start: nat, end: nat): (s: set<nat>)
    ensures forall i :: i in s <==> start <= i < end
    decreases end - start
  {
    if start >= end then {} else {start} + Range(start + 1, end)
  }

  /** A range in which every value has the same positions above `depth`; at the top it is the
      whole list. */
  predicate Uniform(vs: seq<FieldValue>, start: nat, end: nat, depth: nat)
  {
    && start <= end <= |vs|
    && (depth == 0 ==> start == 0 && end == |vs|)
    && (depth >= 1 ==> SameAt(vs, start, end, 0))
    && (depth >= 2 ==> SameAt(vs, start, end, 1))
  }

  predicate SameAt(vs: seq<FieldValue>, start: nat, end: nat, depth: nat)
    requires start <= end <= |vs| && depth <= MAX_LOG_DEPTH
  {
    forall i, j :: start <= i < j < end ==> Pos(vs, i, depth) == Pos(vs, j, depth)
  }

  /** In a uniform range positions never decrease. */
  lemma PosMonotone(vs: seq<FieldValue>, start: nat, end: nat, depth: nat, i: nat, j: nat)
    requires Sorted(Paths(vs)) && Uniform(vs, start, end, depth) && depth <= MAX_LOG_DEPTH
    requires start <= i <= j < end
    ensures Pos(vs, i, depth) <= Pos(vs, j, depth)
  {
    if i < j {
      assert DfsLess(Paths(vs)[i], Paths(vs)[j]);
      assert depth >= 1 ==> Pos(vs, i, 0) == Pos(vs, j, 0);
      assert depth >= 2 ==> Pos(vs, i, 1) == Pos(vs, j, 1);
    }
  }

  /** The first loop: zoom in on a field, stopping at the first larger position. */
  method FindField(vs: seq<FieldValue>, field: int, start: nat, end: nat, depth: nat)
    returns (newStart: int, newEnd: nat)
    requires Sorted(Paths(vs)) && Uniform(vs, start, end, depth) && depth <= MAX_LOG_DEPTH
    ensures newStart == -1 ==> WithPos(vs, Range(start, end), depth, field) == {}
    ensures newStart != -1 ==>
      start <= newStart < newEnd <= end && WithPos(vs, Range(start, end), depth, field) == Range(newStart, newEnd)
  {
    newStart, newEnd := -1, end;
    var i := start;
    while i < end
      invariant start <= i <= end
      invariant newStart == -1 ==> forall j :: start <= j < i ==> Pos(vs, j, depth) != field
      invariant newStart != -1 ==> start <= newStart < newEnd == i
      invariant newStart != -1 ==>
        forall j :: start <= j < i ==> (Pos(vs, j, depth) == field <==> newStart <= j < newEnd)
      invariant forall j :: start <= j < i ==> Pos(vs, j, depth) <= field
    {
      var pos := Pos(vs, i, depth);
      if newStart != -1 { PosMonotone(vs, start, end, depth, newStart, i); }
      if pos == field {
        if newStart == -1 {
          newStart := i;
        }
        newEnd := i + 1;
      } else if pos > field {
        forall j | i <= j < end ensures Pos(vs, j, depth) > field {
          PosMonotone(vs, start, end, depth, i, j);
        }
        return;
      }
      i := i + 1;
    }
  }

  lemma ListStepAt(vs: seq<FieldValue>, start: nat, end: nat, depth: nat, i: nat, j: nat)
    requires WellFormed(Paths(vs)) && Uniform(vs, start, end, depth) && 1 <= depth <= MAX_LOG_DEPTH
    requires start <= i < j < end
    ensures Pos(vs, i, depth) >= 1
    ensures IsLast(vs, i, depth) ==> IsLast(vs, j, depth) && Pos(vs, i, depth) == Pos(vs, j, depth)
  {
    assert ListStep(Paths(vs)[i], Paths(vs)[j], depth);
    assert Pos(vs, i, 0) == Pos(vs, j, 0);
    assert depth >= 2 ==> Pos(vs, i, 1) == Pos(vs, j, 1);
  }

  /** FIRST: stop at the first other position. */
  method FirstItem(vs: seq<FieldValue>, start: nat, end: nat, depth: nat) returns (newEnd: nat)
    requires WellFormed(Paths(vs)) && Uniform(vs, start, end, depth) && 1 <= depth <= MAX_LOG_DEPTH
    ensures start <= newEnd <= end
    ensures WithPos(vs, Range(start, end), depth, 1) == Range(start, newEnd)
  {
    newEnd := end;
    for i := start to end
      invariant forall j :: start <= j < i ==> Pos(vs, j, depth) == 1
    {
      if Pos(vs, i, depth) != 1 {
        newEnd := i;
        forall j | i <= j < end ensures Pos(vs, j, depth) != 1 {
          PosMonotone(vs, start, end, depth, i, j);
          if i < j { ListStepAt(vs, start, end, depth, i, j); }
        }
        break;
      }
    }
  }

  /** LAST: move to the first value marked last, if there is one. */
  method LastItem(vs: seq<FieldValue>, start: nat, end: nat, depth: nat) returns (newStart: nat)
    requires WellFormed(Paths(vs)) && Uniform(vs, start, end, depth) && 1 <= depth <= MAX_LOG_DEPTH
    ensures start <= newStart <= end
    ensures LastItems(vs, Range(start, end), depth) == Range(newStart, end)
    ensures if newStart < end && IsLast(vs, newStart, depth) then true
            else newStart == start && forall i :: start <= i < end ==> !IsLast(vs, i, depth)
  {
    newStart := start;
    for i := start to end
      invariant forall j :: start <= j < i ==> !IsLast(vs, j, depth)
    {
      if IsLast(vs, i, depth) {
        newStart := i;
        forall j | i <= j < end ensures IsLast(vs, j, depth) {
          if i < j { ListStepAt(vs, start, end, depth, i, j); }
        }
        assert i in Range(start, end);
        return;
      }
    }
  }

  predicate Covered(ranges: seq<(nat, nat)>, i: nat)
  {
    exists r :: 0 <= r < |ranges| && ranges[r].0 <= i < ranges[r].1
  }

  lemma CoveredSnoc(ranges: seq<(nat, nat)>, a: nat, b: nat, i: nat)
    requires Covered(ranges, i) || a <= i < b
    ensures Covered(ranges + [(a, b)], i)
  {
    var more := ranges + [(a, b)];
    if Covered(ranges, i) {
      var r :| 0 <= r < |ranges| && ranges[r].0 <= i < ranges[r].1;
      assert more[r] == ranges[r];
    } else {
      assert more[|ranges|] == (a, b);
    }
  }

  /** All values up to `n` are covered by ranges that are whole items. */
  predicate Split(vs: seq<FieldValue>, start: nat, end: nat, depth: nat, ranges: seq<(nat, nat)>, n: nat)
    requires end <= |vs| && depth <= MAX_LOG_DEPTH
  {
    && (forall r :: 0 <= r < |ranges| ==> IsItem(vs, start, end, depth, ranges[r].0, ranges[r].1))
    && (forall i: nat {:trigger Covered(ranges, i)} :: start <= i < n ==> Covered(ranges, i))
  }

  lemma SplitSnoc(vs: seq<FieldValue>, start: nat, end: nat, depth: nat, ranges: seq<(nat, nat)>, a: nat, b: nat)
    requires end <= |vs| && depth <= MAX_LOG_DEPTH
    requires Split(vs, start, end, depth, ranges, a) && IsItem(vs, start, end, depth, a, b)
    ensures Split(vs, start, end, depth, ranges + [(a, b)], b)
  {
    var more := ranges + [(a, b)];
    forall i: nat | start <= i < b ensures Covered(more, i) {
      if i < a { assert Covered(ranges, i); }
      CoveredSnoc(ranges, a, b, i);
    }
  }

  /** A stretch of equal positions between smaller and larger ones is a whole item. */
  lemma StretchIsItem(vs: seq<FieldValue>, start: nat, end: nat, depth: nat, a: nat, b: nat)
    requires Sorted(Paths(vs)) && Uniform(vs, start, end, depth) && depth <= MAX_LOG_DEPTH
    requires start <= a < b <= end
    requires forall j :: start <= j < a ==> Pos(vs, j, depth) < Pos(vs, a, depth)
    requires forall j :: a <= j < b ==> Pos(vs, j, depth) == Pos(vs, a, depth)
    requires b < end ==> Pos(vs, b, depth) != Pos(vs, a, depth)
    ensures IsItem(vs, start, end, depth, a, b)
  {
    forall j | start <= j < end ensures a <= j < b <==> Pos(vs, j, depth) == Pos(vs, a, depth) {
      if j >= b {
        PosMonotone(vs, start, end, depth, a, b);
        PosMonotone(vs, start, end, depth, b, j);
      }
    }
  }

  /** ANY: one range per position. */
  method Items(vs: seq<FieldValue>, start: nat, end: nat, depth: nat) returns (ranges: seq<(nat, nat)>)
    requires Sorted(Paths(vs)) && Uniform(vs, start, end, depth) && 1 <= depth <= MAX_LOG_DEPTH && start < end
    ensures Split(vs, start, end, depth, ranges, end)
  {
    ranges := [];
    var newStart, currentPos := start, Pos(vs, start, depth);
    for i := start to end
      invariant start <= newStart <= i && newStart < end && currentPos == Pos(vs, newStart, depth)
      invariant i > start ==> newStart < i
      invariant forall j :: newStart <= j < i ==> Pos(vs, j, depth) == currentPos
      invariant forall j :: start <= j < newStart ==> Pos(vs, j, depth) < currentPos
      invariant Split(vs, start, end, depth, ranges, newStart)
    {
      var newPos := Pos(vs, i, depth);
      if newPos != currentPos {
        StretchIsItem(vs, start, end, depth, newStart, i);
        SplitSnoc(vs, start, end, depth, ranges, newStart, i);
        PosMonotone(vs, start, end, depth, newStart, i);
        ranges := ranges + [(newStart, i)];
        newStart, currentPos := i, newPos;
      }
    }
    StretchIsItem(vs, start, end, depth, newStart, end);
    SplitSnoc(vs, start, end, depth, ranges, newStart, end);
    ranges := ranges + [(newStart, end)];
  }

  /** `[a, b)` is exactly the values at one position of the list. */
  predicate IsItem(vs: seq<FieldValue>, start: nat, end: nat, depth: nat, a: nat, b: nat)
    requires end <= |vs| && depth <= MAX_LOG_DEPTH
  {
    start <= a < b <= end && forall j :: start <= j < end ==> (a <= j < b <==> Pos(vs, j, depth) == Pos(vs, a, depth))
  }

  lemma ItemIsWithPos(vs: seq<FieldValue>, start: nat, end: nat, depth: nat, a: nat, b: nat, i: nat)
    requires end <= |vs| && depth <= MAX_LOG_DEPTH && IsItem(vs, start, end, depth, a, b) && a <= i < b
    ensures WithPos(vs, Range(start, end), depth, Pos(vs, i, depth)) == Range(a, b)
  {
  }

  // ---------- the matcher ----------

  lemma ItemUniform(vs: seq<FieldValue>, start: nat, end: nat, depth: nat, a: nat, b: nat)
    requires Uniform(vs, start, end, depth) && 1 <= depth <= MAX_LOG_DEPTH
    requires start <= a <= b <= end && SameAt(vs, a, b, depth)
    ensures Uniform(vs, a, b, depth + 1)
  {
  }

  /** What follows an item marked last belongs to that item. */
  lemma SameAsMarked(vs: seq<FieldValue>, a: nat, i: nat)
    requires WellFormed(Paths(vs)) && a <= i < |vs| && IsLast(vs, a, 1) && Pos(vs, a, 0) == Pos(vs, i, 0)
    ensures Pos(vs, i, 1) == Pos(vs, a, 1)
  {
    assert a < i ==> ListStep(Paths(vs)[a], Paths(vs)[i], 1);
  }

  /** A list of several items has one that is marked last. */
  lemma {:induction false} SomeItemIsMarked(vs: seq<FieldValue>, field: int, start: nat, end: nat, i: nat, j: nat)
    requires WellFormed(Paths(vs)) && WithPos(vs, Range(0, |vs|), 0, field) == Range(start, end)
    requires start <= i < j < end <= |vs| && Pos(vs, i, 1) != Pos(vs, j, 1)
    ensures exists k :: start <= k < end && IsLast(vs, k, 1)
  {
    var ps := Paths(vs);
    assert i in Range(start, end) && j in Range(start, end);
    assert PosAtDepth(ps[i], 0) == PosAtDepth(ps[j], 0) == field && PosAtDepth(ps[i], 1) != PosAtDepth(ps[j], 1);
    assert InMarkedList(ps, PosAtDepth(ps[i], 0));
    var k :| 0 <= k < |ps| && PosAtDepth(ps[k], 0) == PosAtDepth(ps[i], 0) && IsLastPos(ps[k], 1);
    assert k in WithPos(vs, Range(0, |vs|), 0, field);
    assert IsLast(vs, k, 1);
  }

  lemma LastItemUniform(vs: seq<FieldValue>, field: int, start: nat, end: nat, newStart: nat)
    requires WellFormed(Paths(vs)) && Uniform(vs, start, end, 1)
    requires WithPos(vs, Range(0, |vs|), 0, field) == Range(start, end)
    requires start <= newStart <= end
    requires if newStart < end && IsLast(vs, newStart, 1) then true
             else newStart == start && forall i :: start <= i < end ==> !IsLast(vs, i, 1)
    ensures SameAt(vs, newStart, end, 1)
  {
    forall i, j | newStart <= i < j < end ensures Pos(vs, i, 1) == Pos(vs, j, 1) {
      if newStart < end && IsLast(vs, newStart, 1) {
        SameAsMarked(vs, newStart, i);
        SameAsMarked(vs, newStart, j);
      } else if Pos(vs, i, 1) != Pos(vs, j, 1) {
        SomeItemIsMarked(vs, field, start, end, i, j);
      }
    }
  }

  method SomeValue(env: Env, t: Test, vs: seq<FieldValue>, start: nat, end: nat) returns (r: bool)
    requires start <= end <= |vs|
    ensures r == SomePasses(env, t, vs, Range(start, end))
  {
    for i := start to end
      invariant forall j :: start <= j < i ==> !Passes(env, t, vs[j])
    {
      if Passes(env, t, vs[i]) {
        assert i in Range(start, end);
        return true;
      }
    }
    return false;
  }

  method AllSubs(env: Env, subs: seq<FieldValueMatcher>, vs: seq<FieldValue>, start: nat, end: nat, depth: nat)
    returns (r: bool)
    requires WellFormed(Paths(vs)) && Uniform(vs, start, end, depth)
    ensures r == AllHold(env, subs, vs, Range(start, end), depth)
    decreases subs, 0
  {
    for k := 0 to |subs|
      invariant forall j :: 0 <= j < k ==> Holds(env, subs[j], vs, Range(start, end), depth)
    {
      var matched := MatchesSimple(env, subs[k], vs, start, end, depth);
      if !matched {
        return false;
      }
    }
    return true;
  }

  method AnyItem(env: Env, subs: seq<FieldValueMatcher>, vs: seq<FieldValue>, start: nat, end: nat, depth: nat)
    returns (r: bool)
    requires WellFormed(Paths(vs)) && Uniform(vs, start, end, depth) && 1 <= depth <= MAX_LOG_DEPTH && start < end
    ensures r == ItemHolds(env, subs, vs, Range(start, end), depth, ANY)
    decreases subs, 1
  {
    var ranges := Items(vs, start, end, depth);
    for n := 0 to |ranges|
      invariant forall q :: 0 <= q < n ==> !AllHold(env, subs, vs, Range(ranges[q].0, ranges[q].1), depth + 1)
    {
      var (a, b) := ranges[n];
      assert IsItem(vs, start, end, depth, a, b);
      ItemUniform(vs, start, end, depth, a, b);
      var matched := AllSubs(env, subs, vs, a, b, depth + 1);
      if matched {
        ItemIsWithPos(vs, start, end, depth, a, b, a);
        assert a in Range(start, end);
        return true;
      }
    }
    forall i | i in Range(start, end)
      ensures !AllHold(env, subs, vs, WithPos(vs, Range(start, end), depth, Pos(vs, i, depth)), depth + 1)
    {
      assert Covered(ranges, i);
      var q :| 0 <= q < |ranges| && ranges[q].0 <= i < ranges[q].1;
      ItemIsWithPos(vs, start, end, depth, ranges[q].0, ranges[q].1, i);
    }
    return false;
  }

  /** The recursive range search, proved against the order-free meaning for matchers of any
      nesting. */
  method MatchesSimple(env: Env, m: FieldValueMatcher, vs: seq<FieldValue>, start0: nat, end0: nat, depth0: nat)
    returns (r: bool)
    requires WellFormed(Paths(vs)) && Uniform(vs, start0, end0, depth0)
    ensures r == Holds(env, m, vs, Range(start0, end0), depth0)
    decreases m, 2
  {
    if depth0 > 2 || start0 >= end0 {
      return false;
    }
    var newStart, newEnd := FindField(vs, m.field, start0, end0, depth0);
    if newStart == -1 {
      return false;
    }
    var start: nat, end: nat := newStart, newEnd;
    assert start in Range(start, end);
    FieldUniform(vs, m.field, start0, end0, depth0, start, end);
    if m.position == None {
      if m.test.MatchesTuple? {
        r := AllSubs(env, m.test.subs, vs, start, end, depth0 + 1);
      } else {
        r := SomeValue(env, m.test, vs, start, end);
      }
      return;
    }
    if depth0 + 1 > 2 {
      return false;
    }
    r := MatchItems(env, m, vs, start, end, depth0 + 1);
  }

  lemma FieldUniform(vs: seq<FieldValue>, field: int, start0: nat, end0: nat, depth: nat, start: nat, end: nat)
    requires Uniform(vs, start0, end0, depth) && depth <= MAX_LOG_DEPTH
    requires start0 <= start <= end <= end0 && WithPos(vs, Range(start0, end0), depth, field) == Range(start, end)
    ensures Uniform(vs, start, end, depth + 1)
  {
    forall i, j | start <= i < j < end ensures Pos(vs, i, depth) == Pos(vs, j, depth) {
      assert i in Range(start, end) && j in Range(start, end);
    }
  }

  method MatchItems(env: Env, m: FieldValueMatcher, vs: seq<FieldValue>, start: nat, end: nat, depth: nat)
    returns (r: bool)
    requires WellFormed(Paths(vs)) && Uniform(vs, start, end, depth) && 1 <= depth <= MAX_LOG_DEPTH && start < end
    requires depth == 1 ==> WithPos(vs, Range(0, |vs|), 0, m.field) == Range(start, end)
    requires m.position.Some?
    ensures var range, position := Range(start, end), m.position.value;
            r == if m.test.MatchesTuple? then ItemHolds(env, m.test.subs, vs, range, depth, position)
                 else SomePasses(env, m.test, vs, Selected(vs, range, depth, position))
    decreases m, 1
  {
    var position := m.position.value;
    if position == FIRST {
      var newEnd := FirstItem(vs, start, end, depth);
      if m.test.MatchesTuple? {
        FieldUniform(vs, 1, start, end, depth, start, newEnd);
        r := AllSubs(env, m.test.subs, vs, start, newEnd, depth + 1);
      } else {
        r := SomeValue(env, m.test, vs, start, newEnd);
      }
    } else if position == LAST {
      var newStart := LastItem(vs, start, end, depth);
      if m.test.MatchesTuple? {
        if depth == 1 { LastItemUniform(vs, m.field, start, end, newStart); }
        SubrangeUniform(vs, start, end, depth, newStart);
        r := AllSubs(env, m.test.subs, vs, newStart, end, depth + 1);
      } else {
        r := SomeValue(env, m.test, vs, newStart, end);
      }
    } else if position == ANY && m.test.MatchesTuple? {
      r := AnyItem(env, m.test.subs, vs, start, end, depth);
    } else if m.test.MatchesTuple? {
      r := false;
    } else {
      r := SomeValue(env, m.test, vs, start, end);
    }
  }

  lemma SubrangeUniform(vs: seq<FieldValue>, start: nat, end: nat, depth: nat, newStart: nat)
    requires Uniform(vs, start, end, depth) && 1 <= depth <= MAX_LOG_DEPTH && start <= newStart <= end
    requires depth == 1 ==> SameAt(vs, newStart, end, 1)
    ensures Uniform(vs, newStart, end, depth + 1)
  {
  }

  /** A simple atom matcher on a whole event. */
  method MatchesEvent(env: Env, atomId: int, matchers: seq<FieldValueMatcher>, ev: Event) returns (r: bool)
    requires WellFormed(Paths(ev.values))
    ensures r == (ev.tag == atomId && AllHold(env, matchers, ev.values, Range(0, |ev.values|), 0))
  {
    if ev.tag != atomId {
      return false;
    }
    for k := 0 to |matchers|
      invariant forall j :: 0 <= j < k ==> Holds(env, matchers[j], ev.values, Range(0, |ev.values|), 0)
    {
      var matched := MatchesSimple(env, matchers[k], ev.values, 0, |ev.values|, 0);
      if !matched {
        return false;
      }
    }
    return true;
  }
}
