/** The part of the framework's event builder (StatsEvent.java) that writes lists of key-value pairs
    and annotates them. */
module EventBuilding {
  import opened Options
  import opened Bits
  import opened FieldPath
  import opened LogParser
  import opened EventWriter
  import opened WireFormat
  import opened WriterRuns
  import opened WireRoundTrip
  import opened KeyValueLists

  const MAX_KEY_VALUE_PAIRS := 127
  const ERROR_TOO_MANY_KEY_VALUE_PAIRS := 0x10

  /** The written part of a buffer, and whether something did not fit. */
  datatype Buffer = Buffer(bytes: seq<Byte>, overflow: bool, maxSize: nat)

  function Put(b: Buffer, bs: seq<Byte>): Buffer
  {
    if |b.bytes| + |bs| > b.maxSize then b.(overflow := true) else b.(bytes := b.bytes + bs)
  }

  /** `bs` was written at the end of `a`, in whatever pieces: all of it if it fits, and else the
      overflow is remembered. */
  predicate Appended(a: Buffer, b: Buffer, bs: seq<Byte>)
  {
    && b.maxSize == a.maxSize
    && (!b.overflow <==> !a.overflow && |a.bytes| + |bs| <= a.maxSize)
    && (!b.overflow ==> b.bytes == a.bytes + bs)
    && (|a.bytes| <= a.maxSize ==> |b.bytes| <= b.maxSize)
  }

  lemma PutAppends(a: Buffer, bs: seq<Byte>)
    requires |a.bytes| <= a.maxSize
    ensures Appended(a, Put(a, bs), bs)
  {
  }

  lemma AppendedMore(a: Buffer, b: Buffer, c: Buffer, x: seq<Byte>, y: seq<Byte>)
    requires Appended(a, b, x) && Appended(b, c, y)
    ensures Appended(a, c, x + y)
  {
    Assoc3(a.bytes, x, y);
  }

  lemma AppendedNone(a: Buffer)
    requires |a.bytes| <= a.maxSize
    ensures Appended(a, a, [])
  {
    assert a.bytes + [] == a.bytes;
  }

  // ---------- the four maps ----------

  function IntPairs(m: seq<(Int32, Int32)>): (r: seq<KeyValue>)
    ensures |r| == |m| && PairsOk(r) && Unmarked(r)
  {
    seq(|m|, i requires 0 <= i < |m| => KeyValue(m[i].0, IntP(m[i].1), 0))
  }

  function LongPairs(m: seq<(Int32, Int64)>): (r: seq<KeyValue>)
    ensures |r| == |m| && PairsOk(r) && Unmarked(r)
  {
    seq(|m|, i requires 0 <= i < |m| => KeyValue(m[i].0, LongP(m[i].1), 0))
  }

  function StringPairs(m: seq<(Int32, seq<Byte>)>): (r: seq<KeyValue>)
    ensures |r| == |m| && Unmarked(r)
  {
    seq(|m|, i requires 0 <= i < |m| => KeyValue(m[i].0, StringP(m[i].1), 0))
  }

  function FloatPairs(m: seq<(Int32, UInt32)>): (r: seq<KeyValue>)
    ensures |r| == |m| && PairsOk(r) && Unmarked(r)
  {
    seq(|m|, i requires 0 <= i < |m| => KeyValue(m[i].0, FloatP(m[i].1), 0))
  }

  predicate Unmarked(pairs: seq<KeyValue>) { forall i :: 0 <= i < |pairs| ==> pairs[i].mark == 0 }

  lemma {:induction false} PairsBytesConcat(a: seq<KeyValue>, b: seq<KeyValue>)
    requires PairsOk(a) && PairsOk(b)
    ensures PairsOk(a + b) && PairsBytes(a + b) == PairsBytes(a) + PairsBytes(b)
  {
    if a == [] {
      assert a + b == b;
    } else {
      assert (a + b)[0] == a[0] && (a + b)[1..] == a[1..] + b;
      PairsBytesConcat(a[1..], b);
      Assoc3(PairBytes(a[0]), PairsBytes(a[1..]), PairsBytes(b));
    }
  }

  lemma {:induction false} PairsBytesSnoc(pairs: seq<KeyValue>, kv: KeyValue)
    requires PairsOk(pairs) && PairOk(kv)
    ensures PairsOk(pairs + [kv]) && PairsBytes(pairs + [kv]) == PairsBytes(pairs) + PairBytes(kv)
  {
    PairsBytesConcat(pairs, [kv]);
    assert [kv][1..] == [] && PairsBytes([kv]) == PairBytes(kv) + [];
  }

  /** Distance of the type byte of a pair's value from the end of the pair. */
  function FromEnd(kv: KeyValue): nat { 1 + |ValueBytes(kv.value)| }

  class StatsEventBuilder {
    var buffer: Buffer
    var numElements: nat
    var errorMask: nat
    var lastFieldPos: nat
    var lastType: Byte
    var annotationCount: nat

    ghost predicate Valid()
      reads this
    {
      |buffer.bytes| <= buffer.maxSize && lastType < 16
    }

    constructor (maxSize: nat)
      ensures Valid() && buffer == Buffer([], false, maxSize)
      ensures numElements == 0 && errorMask == 0 && lastFieldPos == 0 && annotationCount == 0
    {
      buffer := Buffer([], false, maxSize);
      numElements, errorMask, lastFieldPos, lastType, annotationCount := 0, 0, 0, 0, 0;
    }

    method WriteTypeId(t: Byte)
      requires Valid() && t < 16
      modifies this`buffer, this`lastFieldPos, this`lastType, this`annotationCount
      ensures Valid() && Appended(old(buffer), buffer, [t])
      ensures lastFieldPos == |old(buffer).bytes| && lastType == t && annotationCount == 0
    {
      lastFieldPos, lastType, annotationCount := |buffer.bytes|, t, 0;
      PutAppends(buffer, [t]);
      buffer := Put(buffer, [t]);
    }

    method WriteValue(v: PairValue)
      requires Valid()
      modifies this`buffer
      ensures Valid() && Appended(old(buffer), buffer, ValueBytes(v))
    {
      match v
      case IntP(i) => PutAppends(buffer, Bytes32(i)); buffer := Put(buffer, Bytes32(i));
      case LongP(l) => PutAppends(buffer, Bytes64(l)); buffer := Put(buffer, Bytes64(l));
      case FloatP(bits) => PutAppends(buffer, Bytes32(bits)); buffer := Put(buffer, Bytes32(bits));
      case StringP(str) =>
        ghost var a := buffer;
        PutAppends(buffer, Bytes32(|str|));
        buffer := Put(buffer, Bytes32(|str|));
        ghost var b := buffer;
        PutAppends(buffer, str);
        buffer := Put(buffer, str);
        AppendedMore(a, b, buffer, Bytes32(|str|), str);
    }

    /** The next annotation would count on the value of `kv`, the last thing written. */
    ghost predicate AtValue(kv: KeyValue)
      reads this
    {
      && lastType == ValueType(kv.value) && annotationCount == 0
      && (!buffer.overflow ==> lastFieldPos + FromEnd(kv) == |buffer.bytes|)
    }

    ghost predicate SameField(pos: nat, t: Byte, count: nat)
      reads this
    {
      lastFieldPos == pos && lastType == t && annotationCount == count
    }

    method WritePair(kv: KeyValue)
      requires Valid() && PairOk(kv) && kv.mark == 0
      modifies this`buffer, this`lastFieldPos, this`lastType, this`annotationCount
      ensures Valid() && Appended(old(buffer), buffer, PairBytes(kv)) && AtValue(kv)
    {
      ghost var a := buffer;
      PutAppends(buffer, Bytes32(kv.key));
      buffer := Put(buffer, Bytes32(kv.key));
      ghost var b := buffer;
      WriteTypeId(ValueType(kv.value));
      ghost var c := buffer;
      WriteValue(kv.value);
      AppendedMore(b, c, buffer, [ValueType(kv.value)], ValueBytes(kv.value));
      AppendedMore(a, b, buffer, Bytes32(kv.key), [ValueType(kv.value)] + ValueBytes(kv.value));
    }

    /** What the next annotation counts on after `pairs`: the last value, or what it was before. */
    ghost predicate After(pairs: seq<KeyValue>, pos: nat, t: Byte, count: nat)
      reads this
    {
      if pairs == [] then SameField(pos, t, count) else AtValue(pairs[|pairs| - 1])
    }

    /** The loop over one of the maps; `done` is what has been written since `a`. */
    method WritePairs(pairs: seq<KeyValue>, ghost a: Buffer, ghost done: seq<KeyValue>, ghost pos: nat, ghost t: Byte,
                      ghost count: nat)
      requires Valid() && PairsOk(pairs) && Unmarked(pairs)
      requires PairsOk(done) && Appended(a, buffer, PairsBytes(done)) && After(done, pos, t, count)
      modifies this`buffer, this`lastFieldPos, this`lastType, this`annotationCount
      ensures Valid() && PairsOk(done + pairs) && Appended(a, buffer, PairsBytes(done + pairs))
      ensures After(done + pairs, pos, t, count)
    {
      ghost var all := done;
      for i := 0 to |pairs|
        invariant Valid() && all == done + pairs[..i]
        invariant PairsOk(all) && Appended(a, buffer, PairsBytes(all)) && After(all, pos, t, count)
      {
        ghost var b := buffer;
        WritePair(pairs[i]);
        NextPair(a, b, buffer, all, pairs[i]);
        all := all + [pairs[i]];
        OneMorePair(done, pairs, i);
      }
      assert pairs[..|pairs|] == pairs;
    }

    /** Writes the pairs of four maps as one list, or records an error when there are too many. */
    method WriteKeyValuePairs(ints: seq<(Int32, Int32)>, longs: seq<(Int32, Int64)>, strings: seq<(Int32, seq<Byte>)>,
                              floats: seq<(Int32, UInt32)>)
      requires Valid() && PairsOk(StringPairs(strings))
      modifies this
      ensures Valid()
      ensures var pairs := AllPairs(ints, longs, strings, floats);
              if |pairs| > MAX_KEY_VALUE_PAIRS then
                && errorMask == Or(old(errorMask), ERROR_TOO_MANY_KEY_VALUE_PAIRS)
                && buffer == old(buffer) && numElements == old(numElements)
                && SameField(old(lastFieldPos), old(lastType), old(annotationCount))
              else
                && errorMask == old(errorMask) && numElements == old(numElements) + 1
                && PairsOk(pairs) && Appended(old(buffer), buffer, ListBytes(pairs, 0))
                && After(pairs, |old(buffer).bytes|, KEY_VALUE_PAIRS_TYPE, 0)
    {
      var totalCount := |ints| + |longs| + |strings| + |floats|;
      if totalCount > MAX_KEY_VALUE_PAIRS {
        errorMask := Or(errorMask, ERROR_TOO_MANY_KEY_VALUE_PAIRS);
        return;
      }
      ghost var a := buffer;
      WriteTypeId(KEY_VALUE_PAIRS_TYPE);
      ghost var b := buffer;
      PutAppends(buffer, [totalCount]);
      buffer := Put(buffer, [totalCount]);
      ghost var c := buffer;
      WriteMaps(IntPairs(ints), LongPairs(longs), StringPairs(strings), FloatPairs(floats));
      numElements := numElements + 1;
      ghost var x := PairsBytes(AllPairs(ints, longs, strings, floats));
      AppendedMore(b, c, buffer, [totalCount], x);
      AppendedMore(a, b, buffer, [KEY_VALUE_PAIRS_TYPE], [totalCount] + x);
    }

    /** The four loops. */
    method WriteMaps(ints: seq<KeyValue>, longs: seq<KeyValue>, strings: seq<KeyValue>, floats: seq<KeyValue>)
      requires Valid() && PairsOk(ints) && PairsOk(longs) && PairsOk(strings) && PairsOk(floats)
      requires Unmarked(ints) && Unmarked(longs) && Unmarked(strings) && Unmarked(floats)
      modifies this`buffer, this`lastFieldPos, this`lastType, this`annotationCount
      ensures var pairs := ints + longs + strings + floats;
              && Valid() && PairsOk(pairs) && Appended(old(buffer), buffer, PairsBytes(pairs))
              && After(pairs, old(lastFieldPos), old(lastType), old(annotationCount))
    {
      ghost var a, pos, t, count := buffer, lastFieldPos, lastType, annotationCount;
      AppendedNone(a);
      WritePairs(ints, a, [], pos, t, count);
      assert [] + ints == ints;
      WritePairs(longs, a, ints, pos, t, count);
      WritePairs(strings, a, ints + longs, pos, t, count);
      WritePairs(floats, a, ints + longs + strings, pos, t, count);
    }

    /** Counts the annotation on whatever was last written with a type byte. */
    method AddBooleanAnnotation(id: Byte, value: bool)
      requires Valid()
      modifies this
      ensures Valid()
      ensures old(numElements) < 2 ==>
        errorMask == Or(old(errorMask), ERROR_ANNOTATION_DOES_NOT_FOLLOW_FIELD) && buffer == old(buffer)
      ensures old(numElements) >= 2 && old(annotationCount) >= MAX_ANNOTATION_COUNT ==>
        errorMask == Or(old(errorMask), ERROR_TOO_MANY_ANNOTATIONS) && buffer == old(buffer)
      ensures old(numElements) >= 2 && old(annotationCount) < MAX_ANNOTATION_COUNT ==>
        && errorMask == old(errorMask) && annotationCount == old(annotationCount) + 1
        && (!buffer.overflow <==> !old(buffer).overflow && |old(buffer).bytes| + 3 <= buffer.maxSize)
        && (!buffer.overflow && lastFieldPos < |old(buffer).bytes| ==>
              buffer.bytes == old(buffer).bytes[lastFieldPos := annotationCount * 16 + lastType]
                              + AnnBytes(BoolAnn(id, value)))
      ensures numElements == old(numElements) && lastFieldPos == old(lastFieldPos) && lastType == old(lastType)
    {
      if numElements < 2 {
        errorMask := Or(errorMask, ERROR_ANNOTATION_DOES_NOT_FOLLOW_FIELD);
        return;
      }
      if annotationCount >= MAX_ANNOTATION_COUNT {
        errorMask := Or(errorMask, ERROR_TOO_MANY_ANNOTATIONS);
        return;
      }
      ghost var a := buffer;
      PutAppends(a, [id]);
      PutAppends(Put(a, [id]), [BOOL_TYPE]);
      PutAppends(Put(Put(a, [id]), [BOOL_TYPE]), [BoolByte(value)]);
      buffer := Put(Put(Put(buffer, [id]), [BOOL_TYPE]), [BoolByte(value)]);
      ThreeMore(a, buffer, id, BoolByte(value));
      annotationCount := annotationCount + 1;
      if lastFieldPos < |buffer.bytes| {
        buffer := buffer.(bytes := buffer.bytes[lastFieldPos := annotationCount * 16 + lastType]);
      }
    }
  }

  lemma ThreeMore(a: Buffer, b: Buffer, id: Byte, x: Byte)
    requires |a.bytes| <= a.maxSize && b == Put(Put(Put(a, [id]), [BOOL_TYPE]), [x])
    ensures Appended(a, b, [id, BOOL_TYPE, x])
  {
    PutAppends(a, [id]);
    PutAppends(Put(a, [id]), [BOOL_TYPE]);
    PutAppends(Put(Put(a, [id]), [BOOL_TYPE]), [x]);
    AppendedMore(Put(a, [id]), Put(Put(a, [id]), [BOOL_TYPE]), b, [BOOL_TYPE], [x]);
    AppendedMore(a, Put(a, [id]), b, [id], [BOOL_TYPE] + [x]);
    assert [id] + ([BOOL_TYPE] + [x]) == [id, BOOL_TYPE, x];
  }

  lemma {:induction false} NextPair(a: Buffer, b: Buffer, c: Buffer, pairs: seq<KeyValue>, kv: KeyValue)
    requires PairsOk(pairs) && PairOk(kv) && Appended(a, b, PairsBytes(pairs)) && Appended(b, c, PairBytes(kv))
    ensures PairsOk(pairs + [kv]) && Appended(a, c, PairsBytes(pairs + [kv]))
  {
    PairsBytesSnoc(pairs, kv);
    AppendedMore(a, b, c, PairsBytes(pairs), PairBytes(kv));
  }

  lemma OneMorePair(done: seq<KeyValue>, pairs: seq<KeyValue>, i: nat)
    requires i < |pairs|
    ensures done + pairs[..i] + [pairs[i]] == done + pairs[..i + 1]
  {
  }

  /** The list that the four maps make. */
  function AllPairs(ints: seq<(Int32, Int32)>, longs: seq<(Int32, Int64)>, strings: seq<(Int32, seq<Byte>)>,
                    floats: seq<(Int32, UInt32)>): (r: seq<KeyValue>)
    ensures |r| == |ints| + |longs| + |strings| + |floats|
  {
    IntPairs(ints) + LongPairs(longs) + StringPairs(strings) + FloatPairs(floats)
  }

  // ---------- annotating a list ----------

  lemma UpdateAfter(x: seq<Byte>, y: seq<Byte>, k: nat, b: Byte)
    requires k < |y|
    ensures (x + y)[|x| + k := b] == x + y[k := b]
  {
  }

  lemma MarkedPair(kv: KeyValue)
    requires PairOk(kv) && kv.mark == 0
    ensures PairOk(kv.(mark := 1)) && |PairBytes(kv)| == 4 + FromEnd(kv)
    ensures PairBytes(kv)[4 := 16 + ValueType(kv.value)] == PairBytes(kv.(mark := 1))
  {
    UpdateAfter(Bytes32(kv.key), [ValueType(kv.value)] + ValueBytes(kv.value), 0, 16 + ValueType(kv.value));
  }

  /** The list with an annotation counted on its last value. */
  function LastMarked(pairs: seq<KeyValue>): (r: seq<KeyValue>)
    requires pairs != []
    ensures |r| == |pairs|
  {
    pairs[|pairs| - 1 := pairs[|pairs| - 1].(mark := 1)]
  }

  lemma {:induction false} MarkedList(pre: seq<Byte>, pairs: seq<KeyValue>)
    requires pairs != [] && |pairs| < 256 && PairsOk(pairs) && Unmarked(pairs)
    ensures var kv, full := pairs[|pairs| - 1], pre + ListBytes(pairs, 0);
            && FromEnd(kv) <= |full| && PairsOk(LastMarked(pairs))
            && full[|full| - FromEnd(kv) := 16 + ValueType(kv.value)] == pre + ListBytes(LastMarked(pairs), 0)
  {
    var n := |pairs| - 1;
    var init, kv := pairs[..n], pairs[n];
    assert pairs == init + [kv] && LastMarked(pairs) == init + [kv.(mark := 1)];
    MarkedPair(kv);
    PairsBytesSnoc(init, kv);
    PairsBytesSnoc(init, kv.(mark := 1));
    MarkedTail(pre, |pairs|, PairsBytes(init), PairBytes(kv), PairBytes(kv.(mark := 1)), 4, 16 + ValueType(kv.value));
  }

  lemma MarkedTail(pre: seq<Byte>, n: Byte, y: seq<Byte>, z: seq<Byte>, z': seq<Byte>, k: nat, b: Byte)
    requires k < |z| && z' == z[k := b]
    ensures var full := pre + ([KEY_VALUE_PAIRS_TYPE] + ([n] + (y + z)));
            full[|full| - (|z| - k) := b] == pre + ([KEY_VALUE_PAIRS_TYPE] + ([n] + (y + z')))
  {
    var x := pre + ([KEY_VALUE_PAIRS_TYPE] + ([n] + y));
    ListEnd(pre, n, y, z);
    ListEnd(pre, n, y, z');
    UpdateAfter(x, z, k, b);
  }

  lemma ListEnd(pre: seq<Byte>, n: Byte, y: seq<Byte>, z: seq<Byte>)
    ensures pre + ([KEY_VALUE_PAIRS_TYPE] + ([n] + (y + z))) == pre + ([KEY_VALUE_PAIRS_TYPE] + ([n] + y)) + z
  {
  }

  lemma {:induction false} SameListValues(tag: int, p0: nat, pairs: seq<KeyValue>, i: nat)
    requires pairs != [] && 1 <= i <= |pairs| + 1
    ensures ListValues(tag, p0, LastMarked(pairs), i) == ListValues(tag, p0, pairs, i)
    decreases |pairs| + 1 - i
  {
    if i <= |pairs| {
      SameListValues(tag, p0, pairs, i + 1);
    }
  }

  /** An annotation that follows a list with pairs in it is counted on the last value, where the
      parser does not look: it reads the list without the annotation and takes the annotation's bytes
      for the next field. */
  lemma {:induction false} AnnotationAfterPairsIsMisread(p: Log, p0: nat, pairs: seq<KeyValue>, a: Ann, s: seq<Byte>)
    requires pairs != [] && |pairs| < 256 && PairsOk(pairs) && Unmarked(pairs) && p.valid
    requires PairsOk(LastMarked(pairs)) && p.rest == ListBytes(LastMarked(pairs), 0) + (AnnBytes(a) + s)
    ensures ParseField(p, p0)
         == Log(AnnBytes(a) + s, true, p.ev.(values := p.ev.values + ListValues(p.ev.tag, p0, pairs, 1)))
  {
    NoAnnotations(ListBytes(LastMarked(pairs), 0), AnnBytes(a) + s);
    ListFieldOf(p, p0, LastMarked(pairs), [], AnnBytes(a) + s);
    SameListValues(p.ev.tag, p0, pairs, 1);
  }

  lemma NoAnnotations(x: seq<Byte>, s: seq<Byte>)
    ensures x + AnnsBytes([]) + s == x + s
  {
    assert x + [] == x;
  }

  /** Only on a list without pairs does the annotation count where it belongs. */
  lemma {:induction false} AnnotationAfterNoPairs(pre: seq<Byte>, a: Ann)
    ensures (pre + ListBytes([], 0))[|pre| := 16 + KEY_VALUE_PAIRS_TYPE] + AnnBytes(a)
         == pre + (ListBytes([], 1) + AnnBytes(a))
  {
    UpdateAfter(pre, ListBytes([], 0), 0, 16 + KEY_VALUE_PAIRS_TYPE);
    Assoc3(pre, ListBytes([], 1), AnnBytes(a));
  }
}
