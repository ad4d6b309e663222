/** Everything written without an error is read back as written, and nothing else is accepted. */
module WireRoundTrip {
  import opened Options
  import opened Bits
  import opened FieldPath
  import opened LogParser
  import opened EventWriter
  import opened WireFormat
  import opened WriterRuns

  // ---------- reading one item ----------

  lemma TakeDrop(x: seq<Byte>, s: seq<Byte>)
    ensures (x + s)[..|x|] == x && (x + s)[|x|..] == s
  {
  }

  lemma ReadByteOf(p: Log, b: Byte, s: seq<Byte>)
    requires p.rest == [b] + s
    ensures ReadByte(p) == (b, p.(rest := s))
  {
  }

  lemma ReadInt32Of(p: Log, v: Int32, s: seq<Byte>)
    requires p.rest == Bytes32(v) + s
    ensures ReadInt32(p) == (v, p.(rest := s))
  {
    TakeDrop(Bytes32(v), s);
    Int32RoundTrip(v);
  }

  lemma Read32Of(p: Log, v: UInt32, s: seq<Byte>)
    requires p.rest == Bytes32(v) + s
    ensures Read32(p) == (v, p.(rest := s))
  {
    TakeDrop(Bytes32(v), s);
    UInt32RoundTrip(v);
  }

  lemma ReadInt64Of(p: Log, v: Int64, s: seq<Byte>)
    requires p.rest == Bytes64(v) + s
    ensures ReadInt64(p) == (v, p.(rest := s))
  {
    TakeDrop(Bytes64(v), s);
    Int64RoundTrip(v);
  }

  // ---------- annotations ----------

  /** A reader that has consumed what was written is where the meaning says it is. */
  ghost predicate Agrees(q: Log, meaning: Option<Event>, suffix: seq<Byte>)
  {
    match meaning
    case None => !q.valid
    case Some(ev) => q == Log(suffix, true, ev)
  }

  lemma AnnotationOf(p: Log, a: Ann, chain: int, s: seq<Byte>)
    requires p.valid && -1 <= chain && KnownAnnotation(a.id)
    requires p.rest == AnnValue(a) + s
    ensures var q := ParseAnnotation(p, a.id, AnnType(a), chain);
            if AnnLegal(p.ev, a, chain) then q == Log(s, true, MeanAnn(p.ev, a, chain)) else !q.valid
  {
    match a
    case BoolAnn(_, b) => ReadByteOf(p, BoolByte(b), s);
    case IntAnn(_, v) => ReadInt32Of(p, v, s);
  }

  function AnnType(a: Ann): Byte { if a.BoolAnn? then BOOL_TYPE else INT32_TYPE }

  function AnnValue(a: Ann): seq<Byte> { if a.BoolAnn? then [BoolByte(a.b)] else Bytes32(a.v) }

  lemma AnnotationsStep(p: Log, id: Byte, t: Byte, z: seq<Byte>, n: nat, chain: int)
    requires n > 0 && -1 <= chain && p.rest == [id] + ([t] + z)
    ensures KnownAnnotation(id) ==>
      ParseAnnotations(p, n, chain) == ParseAnnotations(ParseAnnotation(p.(rest := z), id, t, chain), n - 1, chain)
    ensures !KnownAnnotation(id) ==> !ParseAnnotations(p, n, chain).valid
  {
  }

  /** What follows a value: its annotations, item by item, and then `s`. */
  function AnnsThen(anns: seq<Ann>, s: seq<Byte>): seq<Byte>
  {
    if anns == [] then s
    else [anns[0].id] + ([AnnType(anns[0])] + (AnnValue(anns[0]) + AnnsThen(anns[1..], s)))
  }

  lemma AnnSplit(a: Ann, y: seq<Byte>)
    ensures AnnBytes(a) + y == [a.id] + ([AnnType(a)] + (AnnValue(a) + y))
  {
  }

  lemma {:induction false} AnnsSplit(anns: seq<Ann>, s: seq<Byte>)
    ensures AnnsBytes(anns) + s == AnnsThen(anns, s)
  {
    if anns == [] {
      assert AnnsBytes(anns) + s == s;
    } else {
      AnnsSplit(anns[1..], s);
      Assoc3(AnnBytes(anns[0]), AnnsBytes(anns[1..]), s);
      AnnSplit(anns[0], AnnsThen(anns[1..], s));
    }
  }

  /** One annotation, read where it was written: the rest is read from there, or nothing is valid. */
  lemma FirstAnnotation(p: Log, a: Ann, y: seq<Byte>, n: nat, chain: int)
    requires p.valid && n > 0 && -1 <= chain && p.rest == [a.id] + ([AnnType(a)] + (AnnValue(a) + y))
    ensures if AnnLegal(p.ev, a, chain)
            then ParseAnnotations(p, n, chain) == ParseAnnotations(Log(y, true, MeanAnn(p.ev, a, chain)), n - 1, chain)
            else !ParseAnnotations(p, n, chain).valid
  {
    AnnotationsStep(p, a.id, AnnType(a), AnnValue(a) + y, n, chain);
    if KnownAnnotation(a.id) {
      AnnotationOf(p.(rest := AnnValue(a) + y), a, chain, y);
    }
  }

  lemma MoreAnnotations(p: Log, q: Log, a: Ann, anns: seq<Ann>, y: seq<Byte>, n: nat, chain: int, s: seq<Byte>)
    requires p.valid && n > 0 && -1 <= chain && p.rest == [a.id] + ([AnnType(a)] + (AnnValue(a) + y))
    requires anns != [] && anns[0] == a
    requires AnnLegal(p.ev, a, chain) ==>
      && q == ParseAnnotations(Log(y, true, MeanAnn(p.ev, a, chain)), n - 1, chain)
      && Agrees(q, MeanAnns(MeanAnn(p.ev, a, chain), anns[1..], chain), s)
    ensures Agrees(ParseAnnotations(p, n, chain), MeanAnns(p.ev, anns, chain), s)
  {
    FirstAnnotation(p, a, y, n, chain);
  }

  lemma {:induction false} AnnotationsOf(p: Log, anns: seq<Ann>, chain: int, s: seq<Byte>)
    requires p.valid && -1 <= chain && p.rest == AnnsThen(anns, s)
    ensures Agrees(ParseAnnotations(p, |anns|, chain), MeanAnns(p.ev, anns, chain), s)
    decreases |anns|
  {
    if anns != [] {
      var a, y, q := anns[0], AnnsThen(anns[1..], s), p;
      if AnnLegal(p.ev, a, chain) {
        var next := Log(y, true, MeanAnn(p.ev, a, chain));
        AnnotationsOf(next, anns[1..], chain, s);
        q := ParseAnnotations(next, |anns| - 1, chain);
      }
      MoreAnnotations(p, q, a, anns, y, |anns|, chain, s);
    }
  }

  // ---------- fields ----------

  lemma ScalarOf(p: Log, p0: nat, elem: Elem, n: nat, s: seq<Byte>)
    requires Fits(elem) && !elem.ChainE? && p0 < 256
    requires p.rest == Payload(elem) + s
    ensures ParseScalar(p, p0, TypeOf(elem), n)
         == ParseAnnotations(Log(s, p.valid, MeanElem(p.ev, p0, elem).value), n, -1)
  {
    match elem
    case Int32E(v) => ReadInt32Of(p, v, s);
    case Int64E(v) => ReadInt64Of(p, v, s);
    case FloatE(v) => Read32Of(p, v, s);
    case BoolE(b) => ReadByteOf(p, BoolByte(b), s);
    case BytesE(bs) => BlobOf(p, p0, bs, n, s, false);
    case StringE(chars) => BlobOf(p, p0, CStr(chars), n, s, true);
  }

  function ParseScalar(q: Log, p0: nat, t: Byte, n: nat): Log
  {
    if t == BOOL_TYPE then ParseBool(q, 0, p0, 1, 1, false, n)
    else if t == INT32_TYPE then ParseInt32(q, 0, p0, 1, 1, false, n)
    else if t == INT64_TYPE then ParseInt64(q, 0, p0, 1, 1, false, n)
    else if t == FLOAT_TYPE then ParseFloat(q, 0, p0, 1, 1, false, n)
    else ParseBlob(q, 0, p0, 1, 1, false, n, t == STRING_TYPE)
  }

  lemma BlobOf(p: Log, p0: nat, bs: seq<Byte>, n: nat, s: seq<Byte>, isString: bool)
    requires |bs| <= MAX_PULL_EVENT_PAYLOAD
    requires p.rest == Bytes32(|bs|) + bs + s
    ensures ParseBlob(p, 0, p0, 1, 1, false, n, isString)
         == ParseAnnotations(Add(p.(rest := s), 0, p0, 1, 1, if isString then StrV(bs) else StorageV(bs), false), n, -1)
  {
    Assoc3(Bytes32(|bs|), bs, s);
    Read32Of(p, |bs|, bs + s);
    TakeDrop(bs, s);
  }

  // ---------- attribution chains ----------

  function NodeValues(tag: int, p0: nat, nodes: seq<Node>, i: nat): seq<FieldValue>
    requires 1 <= i <= |nodes| + 1
  {
    ChainValues(tag, p0, nodes)[2 * (i - 1)..]
  }

  lemma NodeValuesStep(tag: int, p0: nat, nodes: seq<Node>, i: nat)
    requires 1 <= i <= |nodes|
    ensures NodeValues(tag, p0, nodes, i)
         == [ChainValue(tag, p0, nodes, 2 * (i - 1)), ChainValue(tag, p0, nodes, 2 * (i - 1) + 1)]
            + NodeValues(tag, p0, nodes, i + 1)
  {
  }

  /** Reading node `i` appends its uid and its tag. */
  lemma NodeOf(p: Log, p0: nat, nodes: seq<Node>, i: nat, s: seq<Byte>)
    requires 1 <= i <= |nodes| <= MAX_BYTE_VALUE && p0 < 256 && TagsFit(nodes)
    requires p.rest == Bytes32(nodes[i - 1].uid) + StringBytes(nodes[i - 1].tag) + s
    ensures ParseNode(p, p0, i, i == |nodes|)
         == Log(s, p.valid, p.ev.(values := p.ev.values
              + [ChainValue(p.ev.tag, p0, nodes, 2 * (i - 1)), ChainValue(p.ev.tag, p0, nodes, 2 * (i - 1) + 1)]))
  {
    var node, n := nodes[i - 1], |nodes|;
    var x, y, z := Bytes32(node.uid), Bytes32(StrLen(node.tag)), CStr(node.tag);
    Assoc3(x, y + z, s);
    Read32Of(p, node.uid, y + z + s);
    var q := ParseInt32(p, 2, p0, i, 1, i == n, 0);
    Assoc3(y, z, s);
    Read32Of(q, |z|, z + s);
    TakeDrop(z, s);
    assert 2 * (i - 1) / 2 == i - 1 && (2 * (i - 1) + 1) / 2 == i - 1;
  }

  lemma NodesBytesStep(nodes: seq<Node>, i: nat, s: seq<Byte>)
    requires 1 <= i <= |nodes|
    ensures NodesBytes(nodes[i - 1..]) + s
         == Bytes32(nodes[i - 1].uid) + StringBytes(nodes[i - 1].tag) + (NodesBytes(nodes[i..]) + s)
  {
  }

  lemma AssocValues(a: seq<FieldValue>, b: seq<FieldValue>, c: seq<FieldValue>)
    ensures a + b + c == a + (b + c)
  {
  }

  lemma {:induction false} NodesOf(p: Log, p0: nat, nodes: seq<Node>, i: nat, s: seq<Byte>)
    requires 1 <= i <= |nodes| + 1 && |nodes| <= MAX_BYTE_VALUE && p0 < 256 && TagsFit(nodes)
    requires p.rest == NodesBytes(nodes[i - 1..]) + s
    ensures ParseNodes(p, p0, i, |nodes|)
         == Log(s, p.valid, p.ev.(values := p.ev.values + NodeValues(p.ev.tag, p0, nodes, i)))
    decreases |nodes| + 1 - i
  {
    if i > |nodes| {
      assert NodesBytes(nodes[i - 1..]) == [];
      assert p.ev.values + NodeValues(p.ev.tag, p0, nodes, i) == p.ev.values;
      assert p.rest == s;
    } else {
      var z := NodesBytes(nodes[i..]);
      NodesBytesStep(nodes, i, s);
      NodeOf(p, p0, nodes, i, z + s);
      var two := [ChainValue(p.ev.tag, p0, nodes, 2 * (i - 1)), ChainValue(p.ev.tag, p0, nodes, 2 * (i - 1) + 1)];
      var q := Log(z + s, p.valid, p.ev.(values := p.ev.values + two));
      NodesOf(q, p0, nodes, i + 1, s);
      NodeValuesStep(p.ev.tag, p0, nodes, i);
      AssocValues(p.ev.values, two, NodeValues(p.ev.tag, p0, nodes, i + 1));
    }
  }

  lemma NodesThenEnd(p: Log, p0: nat, nodes: seq<Node>, t: seq<Byte>)
    requires Fits(ChainE(nodes)) && p.valid && p0 < 256 && p.rest == NodesBytes(nodes) + t
    ensures Agrees(EndChain(ParseNodes(p, p0, 1, |nodes|), |p.ev.values|), MeanElem(p.ev, p0, ChainE(nodes)), t)
  {
    assert nodes[0..] == nodes;
    NodesOf(p, p0, nodes, 1, t);
    assert NodeValues(p.ev.tag, p0, nodes, 1) == ChainValues(p.ev.tag, p0, nodes);
  }

  lemma ChainOf(p: Log, p0: nat, nodes: seq<Node>, anns: seq<Ann>, s: seq<Byte>)
    requires Fits(ChainE(nodes)) && p.valid && p0 < 256
    requires p.rest == Payload(ChainE(nodes)) + AnnsThen(anns, s)
    ensures Agrees(ParseAttributionChain(p, p0, |anns|), MeanField(p.ev, p0, FieldRec(ChainE(nodes), anns)), s)
  {
    var t, first := AnnsThen(anns, s), |p.ev.values|;
    Assoc3([|nodes|], NodesBytes(nodes), t);
    ReadByteOf(p, |nodes|, NodesBytes(nodes) + t);
    NodesThenEnd(p.(rest := NodesBytes(nodes) + t), p0, nodes, t);
    match MeanElem(p.ev, p0, ChainE(nodes))
    case None =>
    case Some(ev) => AnnotationsOf(Log(t, true, ev), anns, first, s);
  }

  lemma ScalarThenAnnotations(q: Log, p0: nat, f: FieldRec, s: seq<Byte>)
    requires WireOk(f) && !f.elem.ChainE? && q.valid && p0 < 256
    requires q.rest == Payload(f.elem) + AnnsThen(f.anns, s)
    ensures Agrees(ParseScalar(q, p0, TypeOf(f.elem), |f.anns|), MeanField(q.ev, p0, f), s)
  {
    var t := AnnsThen(f.anns, s);
    ScalarOf(q, p0, f.elem, |f.anns|, t);
    AnnotationsOf(Log(t, true, MeanElem(q.ev, p0, f.elem).value), f.anns, -1, s);
  }

  lemma FieldDispatch(p: Log, p0: nat, t: Byte, rest: seq<Byte>)
    requires p.rest == [t] + rest
    ensures TypeId(t) == ATTRIBUTION_CHAIN_TYPE ==>
      ParseField(p, p0) == ParseAttributionChain(p.(rest := rest), p0, NumAnnotations(t))
    ensures TypeId(t) in {BOOL_TYPE, INT32_TYPE, INT64_TYPE, FLOAT_TYPE, BYTE_ARRAY_TYPE, STRING_TYPE} ==>
      ParseField(p, p0) == ParseScalar(p.(rest := rest), p0, TypeId(t), NumAnnotations(t))
  {
  }

  function TypeInfo(f: FieldRec): Byte
    requires WireOk(f)
  {
    TypeByte(|f.anns|, f.elem)
  }

  lemma FieldSplit(f: FieldRec, s: seq<Byte>)
    requires WireOk(f)
    ensures FieldBytes(f) + s == [TypeInfo(f)] + (Payload(f.elem) + AnnsThen(f.anns, s))
    ensures TypeId(TypeInfo(f)) == TypeOf(f.elem) && NumAnnotations(TypeInfo(f)) == |f.anns|
  {
    var t, x, y := [TypeInfo(f)], Payload(f.elem), AnnsBytes(f.anns);
    AnnsSplit(f.anns, s);
    Assoc4(t, x, y, s);
    Assoc3(x, y, s);
    TypeByteParts(|f.anns|, f.elem);
  }

  /** One field, read where it was written. */
  lemma FieldOf(p: Log, p0: nat, f: FieldRec, s: seq<Byte>)
    requires WireOk(f) && p.valid && p0 < 256
    requires p.rest == FieldBytes(f) + s
    ensures Agrees(ParseField(p, p0), MeanField(p.ev, p0, f), s)
  {
    FieldSplit(f, s);
    var rest := Payload(f.elem) + AnnsThen(f.anns, s);
    FieldDispatch(p, p0, TypeInfo(f), rest);
    if f.elem.ChainE? {
      ChainOf(p.(rest := rest), p0, f.elem.nodes, f.anns, s);
    } else {
      ScalarThenAnnotations(p.(rest := rest), p0, f, s);
    }
  }

  lemma {:induction false} FieldsOfWire(p: Log, p0: nat, fs: seq<FieldRec>, n: nat)
    requires AllWireOk(fs) && p.valid && p.rest == FieldsBytes(fs)
    requires 1 <= p0 && p0 + |fs| == n + 1 && n < 256
    ensures Agrees(ParseFields(p, p0, n), MeanFields(p.ev, p0, fs), [])
    decreases |fs|
  {
    if fs != [] {
      FieldOf(p, p0, fs[0], FieldsBytes(fs[1..]));
      match MeanField(p.ev, p0, fs[0])
      case None =>
      case Some(ev) => FieldsOfWire(Log(FieldsBytes(fs[1..]), true, ev), p0 + 1, fs[1..], n);
    }
  }

  // ---------- the whole event ----------

  lemma StartOf(p: Log, n: Byte, timestamp: Int64, x: seq<Byte>)
    requires p.valid && 2 <= n <= 127
    requires p.rest == Prefix(n, timestamp) + x
    ensures ParseStart(p) == (Log(x, true, p.ev.(timestamp := timestamp)), n)
  {
    var p1 := p.(rest := [n] + ([INT64_TYPE] + (Bytes64(timestamp) + x)));
    assert p.rest == [OBJECT_TYPE] + p1.rest;
    ReadByteOf(p, OBJECT_TYPE, p1.rest);
    var p2 := p.(rest := [INT64_TYPE] + (Bytes64(timestamp) + x));
    ReadByteOf(p1, n, p2.rest);
    ReadByteOf(p2, INT64_TYPE, Bytes64(timestamp) + x);
    ReadInt64Of(p.(rest := Bytes64(timestamp) + x), timestamp, x);
  }

  lemma AtomIdOf(p: Log, tag: Int32, t: Byte, s: seq<Byte>)
    requires TypeId(t) == INT32_TYPE && p.rest == [t] + (Bytes32(tag) + s)
    ensures ParseAtomId(p) == ParseAnnotations(Log(s, p.valid, p.ev.(tag := tag)), NumAnnotations(t), -1)
  {
    ReadByteOf(p, t, Bytes32(tag) + s);
    ReadInt32Of(p.(rest := Bytes32(tag) + s), tag, s);
  }

  lemma AtomFieldOf(p: Log, f: FieldRec, s: seq<Byte>)
    requires WireOk(f) && f.elem.Int32E? && p.valid && p.rest == FieldBytes(f) + s
    ensures Agrees(ParseAtomId(p), MeanAnns(p.ev.(tag := f.elem.i), f.anns, -1), s)
  {
    FieldSplit(f, s);
    AtomIdOf(p, f.elem.i, TypeInfo(f), AnnsThen(f.anns, s));
    AnnotationsOf(Log(AnnsThen(f.anns, s), true, p.ev.(tag := f.elem.i)), f.anns, -1, s);
  }

  lemma HeaderIs(p: Log, q: Log, n: Byte)
    requires ParseStart(p) == (q, n) && 2 <= n <= 127
    ensures ParseHeader(p) == (ParseAtomId(q), n - 2)
  {
  }

  /** The atom id and the fields, read where they were written. */
  lemma FieldsAfterStart(q: Log, timestamp: Int64, fs: seq<FieldRec>, n: nat)
    requires fs != [] && AllWireOk(fs) && fs[0].elem.Int32E? && |fs| <= 126 && n == |fs| - 1
    requires q.valid && q.rest == FieldsBytes(fs) && q.ev == EMPTY_EVENT.(timestamp := timestamp)
    ensures Agrees(ParseFields(ParseAtomId(q), 1, n), Meaning(timestamp, fs), [])
  {
    var start := q.ev.(tag := fs[0].elem.i);
    AtomFieldOf(q, fs[0], FieldsBytes(fs[1..]));
    match MeanAnns(start, fs[0].anns, -1)
    case None =>
    case Some(ev) => FieldsOfWire(ParseAtomId(q), 1, fs[1..], n);
  }

  lemma EventOf(timestamp: Int64, fs: seq<FieldRec>, p: Log)
    requires fs != [] && AllWireOk(fs) && fs[0].elem.Int32E? && |fs| <= 126
    requires p.valid && p.ev == EMPTY_EVENT && p.rest == Prefix(1 + |fs|, timestamp) + FieldsBytes(fs)
    ensures Agrees(ParseFields(ParseHeader(p).0, 1, ParseHeader(p).1), Meaning(timestamp, fs), [])
  {
    var n, x := 1 + |fs|, FieldsBytes(fs);
    var q := Log(x, true, EMPTY_EVENT.(timestamp := timestamp));
    StartOf(p, n, timestamp, x);
    HeaderIs(p, q, n);
    FieldsAfterStart(q, timestamp, fs, n - 2);
  }

  lemma PrefixCount(timestamp: Int64, n: Byte, x: seq<Byte>)
    ensures (Prefix(0, timestamp) + x)[POS_NUM_ELEMENTS := n] == Prefix(n, timestamp) + x
  {
  }

  lemma {:induction false} ErrorFreeBuild(timestamp: Int64, calls: seq<Call>, push: bool)
    requires ErrorFree(timestamp, calls, push)
    ensures var fs := FieldsOf(calls);
            && fs != [] && fs[0].elem.Int32E? && AllWireOk(fs) && |fs| <= 126
            && Build(timestamp, calls, push).bytes == Prefix(1 + |fs|, timestamp) + FieldsBytes(fs)
            && |Build(timestamp, calls, push).bytes| <= MAX_PULL_EVENT_PAYLOAD
  {
    RunWrites(timestamp, calls);
    CheckBuildClean(Run(timestamp, calls), push);
    CleanBuildBytes(Run(timestamp, calls), push, timestamp, FieldsOf(calls));
  }

  lemma CleanBuildBytes(e: Ev, push: bool, timestamp: Int64, fs: seq<FieldRec>)
    requires CheckBuild(e, push) == e && e.errors == 0 && Writes(e, timestamp, fs) && |fs| <= 126
    ensures BuildInternal(e, push).bytes == Prefix(1 + |fs|, timestamp) + FieldsBytes(fs)
  {
    assert |e.bytes| >= 2;
    BuildInternalClean(e, push);
    PrefixCount(timestamp, 1 + |fs|, FieldsBytes(fs));
  }

  lemma BuildInternalClean(e: Ev, push: bool)
    requires CheckBuild(e, push) == e && e.errors == 0 && |e.bytes| >= 2 && e.numElements <= 127
    ensures BuildInternal(e, push).bytes == e.bytes[POS_NUM_ELEMENTS := e.numElements]
  {
  }

  lemma CheckBuildClean(e: Ev, push: bool)
    requires CheckBuild(e, push).errors == 0
    ensures CheckBuild(e, push) == e && e.numElements <= MAX_BYTE_VALUE && e.atomId != 0
  {
    var a := if e.numElements > MAX_BYTE_VALUE then WithError(e, ERROR_TOO_MANY_FIELDS) else e;
    var b := if a.atomId == 0 then WithError(a, ERROR_NO_ATOM_ID) else a;
    OrNonZero(e.errors, ERROR_TOO_MANY_FIELDS);
    OrNonZero(a.errors, ERROR_NO_ATOM_ID);
    OrNonZero(b.errors, ERROR_OVERFLOW);
  }

  lemma ParseBufferOf(bytes: seq<Byte>)
    requires |bytes| < TWO32
    ensures ParseBuffer(bytes) == ParseLog(Log(bytes, true, EMPTY_EVENT))
  {
    UnreadAll(bytes);
  }

  lemma UnreadAll(bytes: seq<Byte>)
    requires |bytes| < TWO32
    ensures Unread(bytes) == bytes
  {
  }

  /** A recorded error replaces the fields by an error element, which no reader accepts. */
  lemma {:induction false} ErrorsAreRejected(timestamp: Int64, calls: seq<Call>, push: bool)
    requires !ErrorFree(timestamp, calls, push)
    ensures !ParseBuffer(Build(timestamp, calls, push).bytes).valid
  {
    var c := CheckBuild(Run(timestamp, calls), push);
    var h := HeaderBytes(c.bytes)[POS_ATOM_ID := INT32_TYPE];
    var bytes := Build(timestamp, calls, push).bytes;
    assert bytes == (h + [ERROR_TYPE] + Bytes32(c.errors))[1 := 3];
    ErrorElementRejected(Log(bytes, true, EMPTY_EVENT));
    ParseBufferOf(bytes);
  }

  lemma StartConsumes(p: Log)
    requires |p.rest| >= 11
    ensures ParseStart(p).0.rest == p.rest[11..] && ParseStart(p).1 == p.rest[1]
  {
  }

  lemma AtomIdConsumes(q: Log)
    requires |q.rest| >= 5 && q.rest[0] == INT32_TYPE
    ensures ParseAtomId(q).rest == q.rest[5..]
  {
  }

  lemma ErrorElementRejected(p: Log)
    requires |p.rest| == 21 && p.valid
    requires p.rest[1] == 3 && p.rest[POS_ATOM_ID] == INT32_TYPE && p.rest[END_ATOM_ID] == ERROR_TYPE
    ensures !ParseLog(p).valid
  {
    StartConsumes(p);
    AtomIdConsumes(ParseStart(p).0);
    var (h, n) := ParseHeader(p);
    assert h.rest == p.rest[END_ATOM_ID..] && n == 1;
    ErrorFieldRejected(h, 1, n);
  }

  lemma ErrorField(h: Log, p0: nat, t: Byte)
    requires h.rest != [] && h.rest[0] == t && TypeId(t) == ERROR_TYPE
    ensures !ParseField(h, p0).valid
  {
    ReadByteOf(h, t, h.rest[1..]);
  }

  lemma ErrorFieldRejected(h: Log, i: nat, n: nat)
    requires 1 <= i <= n && h.rest != [] && h.rest[0] == ERROR_TYPE
    ensures !ParseFields(h, i, n).valid
  {
    ErrorField(h, i, ERROR_TYPE);
  }

  /** The bytes of an event are read as its meaning. */
  lemma {:induction false} EventBytesRead(timestamp: Int64, fs: seq<FieldRec>, bytes: seq<Byte>)
    requires fs != [] && AllWireOk(fs) && fs[0].elem.Int32E? && |fs| <= 126
    requires bytes == Prefix(1 + |fs|, timestamp) + FieldsBytes(fs) && |bytes| < TWO32
    ensures var log := ParseBuffer(bytes);
            && (log.valid <==> Meaning(timestamp, fs).Some?)
            && (log.valid ==> log.rest == [] && Some(log.ev) == Meaning(timestamp, fs))
  {
    ParseBufferOf(bytes);
    EventOf(timestamp, fs, Log(bytes, true, EMPTY_EVENT));
  }

  /** The round trip, for every sequence of calls: a reader accepts the built event if and only if
      no error was recorded and every annotation and chain stands where it may; it then has read
      exactly the timestamp, atom id, values, paths and annotations that were written. */
  lemma {:induction false} RoundTrip(timestamp: Int64, calls: seq<Call>, push: bool)
    ensures ErrorFree(timestamp, calls, push) ==> FieldsOf(calls) != [] && FieldsOf(calls)[0].elem.Int32E?
    ensures var log := ParseBuffer(Build(timestamp, calls, push).bytes);
            && (log.valid <==> ErrorFree(timestamp, calls, push) && Meaning(timestamp, FieldsOf(calls)).Some?)
            && (log.valid ==> log.rest == [] && Some(log.ev) == Meaning(timestamp, FieldsOf(calls)))
  {
    if ErrorFree(timestamp, calls, push) {
      ErrorFreeBuild(timestamp, calls, push);
      EventBytesRead(timestamp, FieldsOf(calls), Build(timestamp, calls, push).bytes);
    } else {
      ErrorsAreRejected(timestamp, calls, push);
    }
  }
}
