/** Lists of key-value pairs on the wire: what the event builder of the framework writes
    (StatsEvent.java), and that the parser reads exactly that. */
module KeyValueLists {
  import opened Options
  import opened Bits
  import opened FieldPath
  import opened LogParser
  import opened EventWriter
  import opened WireFormat
  import opened WriterRuns
  import opened WireRoundTrip

  /** A value of one of the four types that a pair can have. */
  datatype PairValue = IntP(i: Int32) | LongP(l: Int64) | StringP(str: seq<Byte>) | FloatP(bits: UInt32)

  /** A pair; `mark` is what stands in the upper half of the type byte of its value. */
  datatype KeyValue = KeyValue(key: Int32, value: PairValue, mark: nat)

  // ---------- bytes ----------

  function ValueType(v: PairValue): Byte
  {
    match v
    case IntP(_) => INT32_TYPE
    case LongP(_) => INT64_TYPE
    case StringP(_) => STRING_TYPE
    case FloatP(_) => FLOAT_TYPE
  }

  function ValueBytes(v: PairValue): seq<Byte>
  {
    match v
    case IntP(i) => Bytes32(i)
    case LongP(l) => Bytes64(l)
    case StringP(str) => Bytes32(|str|) + str
    case FloatP(bits) => Bytes32(bits)
  }

  /** The mark fits in four bits and the length of a string in 32. */
  predicate PairOk(kv: KeyValue) { kv.mark < 16 && (kv.value.StringP? ==> |kv.value.str| < TWO32) }

  predicate PairsOk(pairs: seq<KeyValue>) { forall i :: 0 <= i < |pairs| ==> PairOk(pairs[i]) }

  function PairBytes(kv: KeyValue): seq<Byte>
    requires PairOk(kv)
  {
    Bytes32(kv.key) + ([kv.mark * 16 + ValueType(kv.value)] + ValueBytes(kv.value))
  }

  function PairsBytes(pairs: seq<KeyValue>): seq<Byte>
    requires PairsOk(pairs)
  {
    if pairs == [] then [] else PairBytes(pairs[0]) + PairsBytes(pairs[1..])
  }

  // ---------- values ----------

  /** Where a value stands in its pair: the key is 1, the value 2 to 5, by its type. */
  function ValueIndex(v: PairValue): nat
  {
    match v case IntP(_) => 2 case LongP(_) => 3 case StringP(_) => 4 case FloatP(_) => 5
  }

  function Logged(v: PairValue): Value
  {
    match v
    case IntP(i) => IntV(i)
    case LongP(l) => LongV(l)
    case StringP(str) => StrV(str)
    case FloatP(bits) => FloatV(bits)
  }

  /** The key and the value of pair number `i` (from 1) of `n`, in field `p0`; the last pair is marked. */
  function PairValues(tag: int, p0: nat, i: nat, n: nat, kv: KeyValue): seq<FieldValue>
  {
    var p1 := WithLast(i, i == n);
    [FieldValue(Field(tag, Pack(2, p0, p1, 1)), IntV(kv.key), DEFAULT_ANNOTATIONS),
     FieldValue(Field(tag, Pack(2, p0, p1, ValueIndex(kv.value))), Logged(kv.value), DEFAULT_ANNOTATIONS)]
  }

  /** The values of the pairs from number `i` on. */
  function ListValues(tag: int, p0: nat, pairs: seq<KeyValue>, i: nat): seq<FieldValue>
    requires 1 <= i <= |pairs| + 1
    decreases |pairs| + 1 - i
  {
    if i > |pairs| then []
    else PairValues(tag, p0, i, |pairs|, pairs[i - 1]) + ListValues(tag, p0, pairs, i + 1)
  }

  // ---------- reading ----------

  lemma TypeOfMarked(mark: nat, t: Byte)
    requires mark < 16 && t < 16
    ensures mark * 16 + t < 256 && TypeId(mark * 16 + t) == t && NumAnnotations(mark * 16 + t) == mark
  {
  }

  lemma BlobRead(p: Log, p0: nat, i: nat, last1: bool, str: seq<Byte>, s: seq<Byte>)
    requires |str| < TWO32 && p.rest == Bytes32(|str|) + str + s
    ensures ParseBlob(p, 2, p0, i, 4, last1, 0, true) == Add(p.(rest := s), 2, p0, i, 4, StrV(str), last1)
  {
    Assoc3(Bytes32(|str|), str, s);
    Read32Of(p, |str|, str + s);
    TakeDrop(str, s);
  }

  /** The typed value of a pair, read where it was written. */
  lemma {:induction false} PairValueOf(p: Log, p0: nat, i: nat, last1: bool, kv: KeyValue, s: seq<Byte>)
    requires PairOk(kv) && p.rest == [kv.mark * 16 + ValueType(kv.value)] + (ValueBytes(kv.value) + s)
    ensures ParsePairValue(p, p0, i, last1)
         == Add(p.(rest := s), 2, p0, i, ValueIndex(kv.value), Logged(kv.value), last1)
  {
    TypeOfMarked(kv.mark, ValueType(kv.value));
    ReadByteOf(p, kv.mark * 16 + ValueType(kv.value), ValueBytes(kv.value) + s);
    var r := p.(rest := ValueBytes(kv.value) + s);
    match kv.value
    case IntP(v) => ReadInt32Of(r, v, s);
    case LongP(v) => ReadInt64Of(r, v, s);
    case StringP(str) => BlobRead(r, p0, i, last1, str, s);
    case FloatP(v) => Read32Of(r, v, s);
  }

  lemma {:induction false} PairSplit(kv: KeyValue, s: seq<Byte>)
    requires PairOk(kv)
    ensures PairBytes(kv) + s
         == Bytes32(kv.key) + ([kv.mark * 16 + ValueType(kv.value)] + (ValueBytes(kv.value) + s))
  {
    var x, y, z := Bytes32(kv.key), [kv.mark * 16 + ValueType(kv.value)], ValueBytes(kv.value);
    Assoc3(x, y + z, s);
    Assoc3(y, z, s);
  }

  /** A pair, read where it was written. */
  lemma {:induction false} PairOf(p: Log, p0: nat, i: nat, n: nat, kv: KeyValue, s: seq<Byte>)
    requires PairOk(kv) && p.rest == PairBytes(kv) + s && i <= n
    ensures ParsePair(p, p0, i, i == n)
         == Log(s, p.valid, p.ev.(values := p.ev.values + PairValues(p.ev.tag, p0, i, n, kv)))
  {
    PairSplit(kv, s);
    var rest := [kv.mark * 16 + ValueType(kv.value)] + (ValueBytes(kv.value) + s);
    ReadInt32Of(p, kv.key, rest);
    var q := Add(p.(rest := rest), 2, p0, i, 1, IntV(kv.key), i == n);
    assert ParseInt32(p, 2, p0, i, 1, i == n, 0) == q;
    PairValueOf(q, p0, i, i == n, kv, s);
    TwoMore(p.ev.values, PairValues(p.ev.tag, p0, i, n, kv));
  }

  lemma TwoMore(a: seq<FieldValue>, b: seq<FieldValue>)
    requires |b| == 2
    ensures a + [b[0]] + [b[1]] == a + b
  {
  }

  lemma {:induction false} PairsSplit(pairs: seq<KeyValue>, i: nat, s: seq<Byte>)
    requires PairsOk(pairs) && 1 <= i <= |pairs|
    ensures PairsBytes(pairs[i - 1..]) + s == PairBytes(pairs[i - 1]) + (PairsBytes(pairs[i..]) + s)
  {
    assert pairs[i - 1..][0] == pairs[i - 1] && pairs[i - 1..][1..] == pairs[i..];
    Assoc3(PairBytes(pairs[i - 1]), PairsBytes(pairs[i..]), s);
  }

  lemma {:induction false} PairsOf(p: Log, p0: nat, pairs: seq<KeyValue>, i: nat, n: nat, s: seq<Byte>)
    requires PairsOk(pairs) && 1 <= i <= n + 1 && n == |pairs| && p.rest == PairsBytes(pairs[i - 1..]) + s
    ensures ParsePairs(p, p0, i, n)
         == Log(s, p.valid, p.ev.(values := p.ev.values + ListValues(p.ev.tag, p0, pairs, i)))
    decreases n + 1 - i
  {
    if i > n {
      assert pairs[i - 1..] == [] && p.rest == s;
      assert p.ev.values + ListValues(p.ev.tag, p0, pairs, i) == p.ev.values;
    } else {
      var z, two := PairsBytes(pairs[i..]) + s, PairValues(p.ev.tag, p0, i, n, pairs[i - 1]);
      PairsSplit(pairs, i, s);
      PairOf(p, p0, i, n, pairs[i - 1], z);
      PairsOf(Log(z, p.valid, p.ev.(values := p.ev.values + two)), p0, pairs, i + 1, n, s);
      AssocValues(p.ev.values, two, ListValues(p.ev.tag, p0, pairs, i + 1));
    }
  }

  // ---------- the field ----------

  predicate ListOk(pairs: seq<KeyValue>, anns: seq<Ann>)
  {
    |pairs| < 256 && PairsOk(pairs) && |anns| <= MAX_ANNOTATION_COUNT
  }

  /** The type byte, the number of pairs and the pairs. */
  function ListBytes(pairs: seq<KeyValue>, numAnnotations: nat): seq<Byte>
    requires |pairs| < 256 && PairsOk(pairs) && numAnnotations <= MAX_ANNOTATION_COUNT
  {
    [numAnnotations * 16 + KEY_VALUE_PAIRS_TYPE] + ([|pairs|] + PairsBytes(pairs))
  }

  function MeanList(ev: Event, p0: nat, pairs: seq<KeyValue>, anns: seq<Ann>): Option<Event>
  {
    MeanAnns(ev.(values := ev.values + ListValues(ev.tag, p0, pairs, 1)), anns, -1)
  }

  lemma ListField(p: Log, p0: nat, t: Byte, rest: seq<Byte>)
    requires p.rest == [t] + rest && TypeId(t) == KEY_VALUE_PAIRS_TYPE
    ensures ParseField(p, p0) == ParseKeyValuePairs(p.(rest := rest), p0, NumAnnotations(t))
  {
    ReadByteOf(p, t, rest);
  }

  lemma {:induction false} ListOf(p: Log, p0: nat, pairs: seq<KeyValue>, anns: seq<Ann>, s: seq<Byte>)
    requires ListOk(pairs, anns) && p.valid && p.rest == [|pairs|] + (PairsBytes(pairs) + AnnsThen(anns, s))
    ensures Agrees(ParseKeyValuePairs(p, p0, |anns|), MeanList(p.ev, p0, pairs, anns), s)
  {
    var n, t := |pairs|, AnnsThen(anns, s);
    ReadByteOf(p, n, PairsBytes(pairs) + t);
    assert pairs[0..] == pairs;
    PairsOf(p.(rest := PairsBytes(pairs) + t), p0, pairs, 1, n, t);
    AnnotationsOf(Log(t, true, p.ev.(values := p.ev.values + ListValues(p.ev.tag, p0, pairs, 1))), anns, -1, s);
  }

  lemma ListSplit(t: Byte, n: Byte, x: seq<Byte>, y: seq<Byte>, s: seq<Byte>, u: seq<Byte>)
    requires y + s == u
    ensures [t] + ([n] + x) + y + s == [t] + ([n] + (x + u))
  {
    Assoc3([t] + ([n] + x), y, s);
    Assoc3([t], [n] + x, u);
    Assoc3([n], x, u);
  }

  lemma {:induction false} ListStart(bytes: seq<Byte>, pairs: seq<KeyValue>, anns: seq<Ann>, s: seq<Byte>)
    returns (t: Byte, rest: seq<Byte>)
    requires ListOk(pairs, anns) && bytes == ListBytes(pairs, |anns|) + AnnsBytes(anns) + s
    ensures bytes == [t] + rest && TypeId(t) == KEY_VALUE_PAIRS_TYPE && NumAnnotations(t) == |anns|
    ensures rest == [|pairs|] + (PairsBytes(pairs) + AnnsThen(anns, s))
  {
    t, rest := |anns| * 16 + KEY_VALUE_PAIRS_TYPE, [|pairs|] + (PairsBytes(pairs) + AnnsThen(anns, s));
    TypeOfMarked(|anns|, KEY_VALUE_PAIRS_TYPE);
    AnnsSplit(anns, s);
    ListSplit(t, |pairs|, PairsBytes(pairs), AnnsBytes(anns), s, AnnsThen(anns, s));
  }

  lemma {:induction false} TypedListOf(p: Log, p0: nat, t: Byte, pairs: seq<KeyValue>, anns: seq<Ann>, s: seq<Byte>,
                                       rest: seq<Byte>)
    requires ListOk(pairs, anns) && p.valid && p.rest == [t] + rest
    requires TypeId(t) == KEY_VALUE_PAIRS_TYPE && NumAnnotations(t) == |anns|
    requires rest == [|pairs|] + (PairsBytes(pairs) + AnnsThen(anns, s))
    ensures Agrees(ParseField(p, p0), MeanList(p.ev, p0, pairs, anns), s)
  {
    ListField(p, p0, t, rest);
    ListOf(p.(rest := rest), p0, pairs, anns, s);
  }

  /** A list of pairs with its annotations, read where it was written: for each pair its key and its
      typed value, each under its own path. */
  lemma {:induction false} ListFieldOf(p: Log, p0: nat, pairs: seq<KeyValue>, anns: seq<Ann>, s: seq<Byte>)
    requires ListOk(pairs, anns) && p.valid && p.rest == ListBytes(pairs, |anns|) + AnnsBytes(anns) + s
    ensures Agrees(ParseField(p, p0), MeanList(p.ev, p0, pairs, anns), s)
  {
    var t, rest := ListStart(p.rest, pairs, anns, s);
    TypedListOf(p, p0, t, pairs, anns, s, rest);
  }

  // ---------- events of all kinds of fields ----------

  datatype WireField = Plain(field: FieldRec) | PairList(pairs: seq<KeyValue>, anns: seq<Ann>)

  predicate FieldOk(f: WireField) { if f.Plain? then WireOk(f.field) else ListOk(f.pairs, f.anns) }

  predicate AllOk(fs: seq<WireField>) { forall i :: 0 <= i < |fs| ==> FieldOk(fs[i]) }

  function WireBytes(f: WireField): seq<Byte>
    requires FieldOk(f)
  {
    match f
    case Plain(field) => FieldBytes(field)
    case PairList(pairs, anns) => ListBytes(pairs, |anns|) + AnnsBytes(anns)
  }

  function AllBytes(fs: seq<WireField>): seq<Byte>
    requires AllOk(fs)
  {
    if fs == [] then [] else WireBytes(fs[0]) + AllBytes(fs[1..])
  }

  function MeanWire(ev: Event, p0: nat, f: WireField): Option<Event>
  {
    match f
    case Plain(field) => MeanField(ev, p0, field)
    case PairList(pairs, anns) => MeanList(ev, p0, pairs, anns)
  }

  function MeanAll(ev: Event, p0: nat, fs: seq<WireField>): Option<Event>
    decreases |fs|
  {
    if fs == [] then Some(ev)
    else match MeanWire(ev, p0, fs[0])
      case None => None
      case Some(next) => MeanAll(next, p0 + 1, fs[1..])
  }

  lemma {:induction false} WireFieldOf(p: Log, p0: nat, f: WireField, s: seq<Byte>)
    requires FieldOk(f) && p.valid && p0 < 256 && p.rest == WireBytes(f) + s
    ensures Agrees(ParseField(p, p0), MeanWire(p.ev, p0, f), s)
  {
    match f
    case Plain(field) => FieldOf(p, p0, field, s);
    case PairList(pairs, anns) => ListFieldOf(p, p0, pairs, anns, s);
  }

  lemma {:induction false} AllFieldsOf(p: Log, p0: nat, fs: seq<WireField>, n: nat)
    requires AllOk(fs) && p.valid && p.rest == AllBytes(fs)
    requires 1 <= p0 && p0 + |fs| == n + 1 && n < 256
    ensures Agrees(ParseFields(p, p0, n), MeanAll(p.ev, p0, fs), [])
    decreases |fs|
  {
    if fs != [] {
      WireFieldOf(p, p0, fs[0], AllBytes(fs[1..]));
      match MeanWire(p.ev, p0, fs[0])
      case None =>
      case Some(ev) => AllFieldsOf(Log(AllBytes(fs[1..]), true, ev), p0 + 1, fs[1..], n);
    }
  }

  /** The event that an atom id and any fields stand for. */
  function MixedMeaning(timestamp: Int64, atom: FieldRec, fs: seq<WireField>): Option<Event>
    requires atom.elem.Int32E?
  {
    match MeanAnns(EMPTY_EVENT.(timestamp := timestamp, tag := atom.elem.i), atom.anns, -1)
    case None => None
    case Some(ev) => MeanAll(ev, 1, fs)
  }

  lemma {:induction false} AfterAtomId(q: Log, timestamp: Int64, atom: FieldRec, fs: seq<WireField>, n: nat)
    requires WireOk(atom) && atom.elem.Int32E? && AllOk(fs) && n == |fs| <= 125
    requires q.valid && q.rest == FieldBytes(atom) + AllBytes(fs) && q.ev == EMPTY_EVENT.(timestamp := timestamp)
    ensures Agrees(ParseFields(ParseAtomId(q), 1, n), MixedMeaning(timestamp, atom, fs), [])
  {
    AtomFieldOf(q, atom, AllBytes(fs));
    match MeanAnns(q.ev.(tag := atom.elem.i), atom.anns, -1)
    case None =>
    case Some(ev) => AllFieldsOf(ParseAtomId(q), 1, fs, n);
  }

  lemma {:induction false} MixedEventOf(timestamp: Int64, atom: FieldRec, fs: seq<WireField>, p: Log)
    requires WireOk(atom) && atom.elem.Int32E? && AllOk(fs) && |fs| <= 125
    requires p.valid && p.ev == EMPTY_EVENT
    requires p.rest == Prefix(2 + |fs|, timestamp) + (FieldBytes(atom) + AllBytes(fs))
    ensures Agrees(ParseFields(ParseHeader(p).0, 1, ParseHeader(p).1), MixedMeaning(timestamp, atom, fs), [])
  {
    var n, x := 2 + |fs|, FieldBytes(atom) + AllBytes(fs);
    var q := Log(x, true, EMPTY_EVENT.(timestamp := timestamp));
    StartOf(p, n, timestamp, x);
    HeaderIs(p, q, n);
    AfterAtomId(q, timestamp, atom, fs, n - 2);
  }

  /** Any event of scalars, chains and pair lists: accepted exactly when its annotations and chains
      stand where they may, and then read as it was written. */
  lemma {:induction false} MixedEventRead(timestamp: Int64, atom: FieldRec, fs: seq<WireField>, bytes: seq<Byte>)
    requires WireOk(atom) && atom.elem.Int32E? && AllOk(fs) && |fs| <= 125 && |bytes| < TWO32
    requires bytes == Prefix(2 + |fs|, timestamp) + (FieldBytes(atom) + AllBytes(fs))
    ensures var log := ParseBuffer(bytes);
            && (log.valid <==> MixedMeaning(timestamp, atom, fs).Some?)
            && (log.valid ==> log.rest == [] && Some(log.ev) == MixedMeaning(timestamp, atom, fs))
  {
    ParseBufferOf(bytes);
    MixedEventOf(timestamp, atom, fs, Log(bytes, true, EMPTY_EVENT));
  }
}
