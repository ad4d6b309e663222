/** Runs of the writer: as long as no error bit is set, the buffer lists the fields that were written. */
module WriterRuns {
  import opened Bits
  import opened FieldPath
  import opened LogParser
  import opened EventWriter
  import opened WireFormat

  // ---------- the writer ----------

  lemma {:induction false} OrNonZero(a: nat, b: nat)
    requires a > 0 || b > 0
    ensures Or(a, b) > 0
    decreases a + b
  {
    if a / 2 > 0 || b / 2 > 0 {
      OrNonZero(a / 2, b / 2);
    }
  }

  lemma AppendClean(e: Ev, bs: seq<Byte>)
    ensures e.errors != 0 ==> Append(e, bs).errors != 0
    ensures Append(e, bs).errors == 0 ==>
      Append(e, bs) == e.(bytes := e.bytes + bs) && |e.bytes| + |bs| <= MAX_PULL_EVENT_PAYLOAD
  {
    OrNonZero(e.errors, ERROR_OVERFLOW);
  }

  lemma AppendStringClean(e: Ev, chars: seq<Byte>)
    ensures e.errors != 0 ==> AppendString(e, chars).errors != 0
    ensures AppendString(e, chars).errors == 0 ==>
      && StrLen(chars) < MAX_PULL_EVENT_PAYLOAD
      && AppendString(e, chars) == e.(bytes := e.bytes + StringBytes(chars))
  {
    OrNonZero(e.errors, ERROR_STRING_NOT_NULL_TERMINATED);
    var a := Append(e, Bytes32(StrLen(chars)));
    AppendClean(e, Bytes32(StrLen(chars)));
    AppendClean(a, CStr(chars));
    assert e.bytes + Bytes32(StrLen(chars)) + CStr(chars) == e.bytes + StringBytes(chars);
  }

  lemma Assoc3(a: seq<Byte>, b: seq<Byte>, c: seq<Byte>)
    ensures a + b + c == a + (b + c)
  {
  }

  lemma Assoc4(a: seq<Byte>, b: seq<Byte>, c: seq<Byte>, d: seq<Byte>)
    ensures a + b + c + d == a + (b + c + d)
  {
  }

  lemma TagsFitCons(nodes: seq<Node>)
    requires nodes != [] && StrLen(nodes[0].tag) < MAX_PULL_EVENT_PAYLOAD && TagsFit(nodes[1..])
    ensures TagsFit(nodes)
  {
  }

  lemma {:induction false} AppendNodesClean(e: Ev, nodes: seq<Node>)
    ensures e.errors != 0 ==> AppendNodes(e, nodes).errors != 0
    ensures AppendNodes(e, nodes).errors == 0 ==>
      TagsFit(nodes) && AppendNodes(e, nodes) == e.(bytes := e.bytes + NodesBytes(nodes))
    decreases |nodes|
  {
    if nodes == [] {
      assert e.bytes + NodesBytes(nodes) == e.bytes;
    } else {
      var x, y, z := Bytes32(nodes[0].uid), StringBytes(nodes[0].tag), NodesBytes(nodes[1..]);
      var a := Append(e, x);
      var b := AppendString(a, nodes[0].tag);
      AppendClean(e, x);
      AppendStringClean(a, nodes[0].tag);
      AppendNodesClean(b, nodes[1..]);
      Assoc4(e.bytes, x, y, z);
      if AppendNodes(e, nodes).errors == 0 {
        TagsFitCons(nodes);
      }
    }
  }

  /** An error-free write appends exactly the bytes of an annotation-free field. */
  lemma StartClean(e: Ev, t: Byte)
    ensures e.errors != 0 ==> StartField(e, t).errors != 0
    ensures StartField(e, t).errors == 0 ==>
      StartField(e, t) == e.(bytes := e.bytes + [t], lastFieldPos := |e.bytes|, numElements := e.numElements + 1)
  {
    AppendClean(e.(lastFieldPos := |e.bytes|), [t]);
  }

  lemma PlainFieldBytes(elem: Elem)
    requires Fits(elem)
    ensures FieldBytes(FieldRec(elem, [])) == [TypeOf(elem)] + Payload(elem)
  {
  }

  lemma WriteElemClean(e: Ev, elem: Elem)
    ensures e.errors != 0 ==> WriteElem(e, elem).errors != 0
    ensures WriteElem(e, elem).errors == 0 ==>
      && Fits(elem)
      && WriteElem(e, elem) == e.(bytes := e.bytes + FieldBytes(FieldRec(elem, [])),
                                  lastFieldPos := |e.bytes|, numElements := e.numElements + 1)
  {
    if elem.ChainE? && |elem.nodes| > MAX_BYTE_VALUE {
      OrNonZero(e.errors, ERROR_ATTRIBUTION_CHAIN_TOO_LONG);
    } else {
      StartClean(e, TypeOf(elem));
      WritePayloadClean(StartField(e, TypeOf(elem)), elem);
      if WriteElem(e, elem).errors == 0 {
        PlainFieldBytes(elem);
        Assoc3(e.bytes, [TypeOf(elem)], Payload(elem));
      }
    }
  }

  lemma WritePayloadClean(s: Ev, elem: Elem)
    requires elem.ChainE? ==> |elem.nodes| <= MAX_BYTE_VALUE
    ensures s.errors != 0 ==> WritePayload(s, elem).errors != 0
    ensures WritePayload(s, elem).errors == 0 ==>
      Fits(elem) && WritePayload(s, elem) == s.(bytes := s.bytes + Payload(elem))
  {
    match elem
    case Int32E(v) => AppendClean(s, Bytes32(v));
    case Int64E(v) => AppendClean(s, Bytes64(v));
    case FloatE(v) => AppendClean(s, Bytes32(v));
    case BoolE(b) => AppendClean(s, [BoolByte(b)]);
    case BytesE(bs) =>
      var a := Append(s, Bytes32(|bs|));
      AppendClean(s, Bytes32(|bs|));
      AppendClean(a, bs);
      assert s.bytes + Bytes32(|bs|) + bs == s.bytes + (Bytes32(|bs|) + bs);
    case StringE(chars) => AppendStringClean(s, chars);
    case ChainE(nodes) =>
      AppendClean(s, [|nodes|]);
      AppendNodesClean(Append(s, [|nodes|]), nodes);
      assert s.bytes + [|nodes|] + NodesBytes(nodes) == s.bytes + ([|nodes|] + NodesBytes(nodes));
  }

  lemma {:induction false} AnnsBytesSnoc(anns: seq<Ann>, a: Ann)
    ensures AnnsBytes(anns + [a]) == AnnsBytes(anns) + AnnBytes(a)
  {
    if anns == [] {
      assert anns + [a] == [a] && AnnsBytes([]) == [];
    } else {
      assert (anns + [a])[1..] == anns[1..] + [a];
      AnnsBytesSnoc(anns[1..], a);
    }
  }

  lemma {:induction false} FieldsBytesSnoc(fs: seq<FieldRec>, f: FieldRec)
    requires AllWireOk(fs) && WireOk(f)
    ensures AllWireOk(fs + [f]) && FieldsBytes(fs + [f]) == FieldsBytes(fs) + FieldBytes(f)
  {
    if fs == [] {
      assert fs + [f] == [f] && FieldsBytes([]) == [];
    } else {
      assert (fs + [f])[0] == fs[0] && (fs + [f])[1..] == fs[1..] + [f];
      FieldsBytesSnoc(fs[1..], f);
      Assoc3(FieldBytes(fs[0]), FieldsBytes(fs[1..]), FieldBytes(f));
    }
  }

  function AppendAnn(e: Ev, a: Ann): Ev
  {
    var s := Append(e, [a.id]);
    match a
    case BoolAnn(_, b) => Append(Append(s, [BOOL_TYPE]), [BoolByte(b)])
    case IntAnn(_, v) => Append(Append(s, [INT32_TYPE]), Bytes32(v))
  }

  lemma AppendThreeClean(e: Ev, x: seq<Byte>, y: seq<Byte>, z: seq<Byte>)
    ensures var r := Append(Append(Append(e, x), y), z);
            && (e.errors != 0 ==> r.errors != 0)
            && (r.errors == 0 ==> r == e.(bytes := e.bytes + (x + y + z)))
  {
    AppendClean(e, x);
    AppendClean(Append(e, x), y);
    AppendClean(Append(Append(e, x), y), z);
    Assoc4(e.bytes, x, y, z);
  }

  lemma AppendAnnClean(e: Ev, a: Ann)
    ensures e.errors != 0 ==> AppendAnn(e, a).errors != 0
    ensures AppendAnn(e, a).errors == 0 ==> AppendAnn(e, a) == e.(bytes := e.bytes + AnnBytes(a))
  {
    match a
    case BoolAnn(id, b) =>
      AppendThreeClean(e, [id], [BOOL_TYPE], [BoolByte(b)]);
      assert [id] + [BOOL_TYPE] + [BoolByte(b)] == AnnBytes(a);
    case IntAnn(id, v) =>
      AppendThreeClean(e, [id], [INT32_TYPE], Bytes32(v));
      assert [id] + [INT32_TYPE] + Bytes32(v) == AnnBytes(a);
  }

  lemma AnnotationErrorsStick(e: Ev, a: Ann)
    ensures e.errors != 0 ==> AddAnnotation(e, a).errors != 0
    ensures AddAnnotation(e, a).errors == 0 ==>
      && e.numElements >= 2 && a.id <= MAX_BYTE_VALUE && AppendAnn(e, a).errors == 0
      && AddAnnotation(e, a) == IncrementAnnotationCount(AppendAnn(e, a))
  {
    OrNonZero(e.errors, ERROR_ANNOTATION_DOES_NOT_FOLLOW_FIELD);
    OrNonZero(e.errors, ERROR_ANNOTATION_ID_TOO_LARGE);
    AppendAnnClean(e, a);
    OrNonZero(AppendAnn(e, a).errors, ERROR_TOO_MANY_ANNOTATIONS);
  }

  /** An error-free annotation turns the bytes of the last field into those of the annotated field. */
  lemma AddAnnotationClean(e: Ev, pre: seq<Byte>, f: FieldRec, a: Ann)
    requires WireOk(f) && e.bytes == pre + FieldBytes(f) && e.lastFieldPos == |pre|
    requires AddAnnotation(e, a).errors == 0
    ensures WireOk(f.(anns := f.anns + [a]))
    ensures AddAnnotation(e, a) == e.(bytes := pre + FieldBytes(f.(anns := f.anns + [a])))
  {
    AnnotationErrorsStick(e, a);
    AppendAnnClean(e, a);
    CountedBytes(AppendAnn(e, a), pre, f, a);
  }

  /** The type byte of a field with `n` annotations. */
  function TypeByte(n: nat, elem: Elem): Byte
    requires n <= MAX_ANNOTATION_COUNT
  {
    n * 16 + TypeOf(elem)
  }

  lemma TypeByteParts(n: nat, elem: Elem)
    requires n <= MAX_ANNOTATION_COUNT
    ensures TypeByte(n, elem) / 16 == n && TypeByte(n, elem) % 16 == TypeOf(elem)
  {
  }

  lemma FieldBytesParts(f: FieldRec, body: seq<Byte>)
    requires WireOk(f) && body == Payload(f.elem) + AnnsBytes(f.anns)
    ensures FieldBytes(f) == [TypeByte(|f.anns|, f.elem)] + body
  {
    Assoc3([TypeByte(|f.anns|, f.elem)], Payload(f.elem), AnnsBytes(f.anns));
  }

  /** The bytes of a field with those of one more annotation behind them. */
  lemma AnnotatedBytes(f: FieldRec, a: Ann)
    requires WireOk(f)
    ensures FieldBytes(f) + AnnBytes(a) == [TypeByte(|f.anns|, f.elem)] + (Payload(f.elem) + AnnsBytes(f.anns + [a]))
  {
    var x, y := Payload(f.elem), AnnsBytes(f.anns);
    AnnsBytesSnoc(f.anns, a);
    FieldBytesParts(f, x + y);
    Assoc3([TypeByte(|f.anns|, f.elem)], x + y, AnnBytes(a));
    Assoc3(x, y, AnnBytes(a));
  }

  lemma IncrementAt(u: Ev, pre: seq<Byte>, t: Byte, body: seq<Byte>)
    requires u.errors == 0 && u.lastFieldPos == |pre| && u.bytes == pre + ([t] + body)
    requires IncrementAnnotationCount(u).errors == 0
    ensures t / 16 < MAX_ANNOTATION_COUNT
    ensures IncrementAnnotationCount(u) == u.(bytes := pre + ([(t / 16 + 1) * 16 + t % 16] + body))
  {
  }

  lemma IncrementField(u: Ev, pre: seq<Byte>, n: nat, elem: Elem, body: seq<Byte>)
    requires n <= MAX_ANNOTATION_COUNT && u.errors == 0 && u.lastFieldPos == |pre|
    requires u.bytes == pre + ([TypeByte(n, elem)] + body)
    requires IncrementAnnotationCount(u).errors == 0
    ensures n + 1 <= MAX_ANNOTATION_COUNT
    ensures IncrementAnnotationCount(u) == u.(bytes := pre + ([TypeByte(n + 1, elem)] + body))
  {
    TypeByteParts(n, elem);
    IncrementAt(u, pre, TypeByte(n, elem), body);
  }

  lemma CountedBytes(u: Ev, pre: seq<Byte>, f: FieldRec, a: Ann)
    requires WireOk(f) && u.errors == 0 && u.lastFieldPos == |pre|
    requires u.bytes == pre + FieldBytes(f) + AnnBytes(a)
    requires IncrementAnnotationCount(u).errors == 0
    ensures WireOk(f.(anns := f.anns + [a]))
    ensures IncrementAnnotationCount(u) == u.(bytes := pre + FieldBytes(f.(anns := f.anns + [a])))
  {
    var n, body := |f.anns|, Payload(f.elem) + AnnsBytes(f.anns + [a]);
    Assoc3(pre, FieldBytes(f), AnnBytes(a));
    AnnotatedBytes(f, a);
    IncrementField(u, pre, n, f.elem, body);
    FieldBytesParts(f.(anns := f.anns + [a]), body);
  }

  /** State of the writer after error-free calls. */
  ghost predicate Writes(e: Ev, timestamp: Int64, fs: seq<FieldRec>)
  {
    && AllWireOk(fs)
    && e.bytes == Prefix(0, timestamp) + FieldsBytes(fs)
    && e.numElements == 1 + |fs|
    && (fs != [] ==> e.lastFieldPos == |Prefix(0, timestamp)| + |FieldsBytes(fs[..|fs| - 1])|)
    && (e.atomId != 0 ==> fs != [] && fs[0].elem == Int32E(ToInt32(e.atomId)))
  }

  lemma WritesField(e: Ev, timestamp: Int64, fs: seq<FieldRec>, elem: Elem)
    requires Writes(e, timestamp, fs) && WriteElem(e, elem).errors == 0
    ensures Writes(WriteElem(e, elem), timestamp, fs + [FieldRec(elem, [])])
  {
    var f := FieldRec(elem, []);
    WriteElemClean(e, elem);
    FieldsBytesSnoc(fs, f);
    Assoc3(Prefix(0, timestamp), FieldsBytes(fs), FieldBytes(f));
    assert (fs + [f])[..|fs|] == fs;
  }

  lemma WritesAnnotation(e: Ev, timestamp: Int64, fs: seq<FieldRec>, a: Ann)
    requires Writes(e, timestamp, fs) && fs != [] && AddAnnotation(e, a).errors == 0
    ensures Writes(AddAnnotation(e, a), timestamp, AnnotateLast(fs, a))
  {
    var init, f := fs[..|fs| - 1], fs[|fs| - 1];
    var g := f.(anns := f.anns + [a]);
    var pre := Prefix(0, timestamp) + FieldsBytes(init);
    assert fs == init + [f];
    FieldsBytesSnoc(init, f);
    Assoc3(Prefix(0, timestamp), FieldsBytes(init), FieldBytes(f));
    AddAnnotationClean(e, pre, f, a);
    FieldsBytesSnoc(init, g);
    Assoc3(Prefix(0, timestamp), FieldsBytes(init), FieldBytes(g));
    assert AnnotateLast(fs, a) == init + [g];
    assert (init + [g])[..|init|] == init;
    assert fs[0].elem == (init + [g])[0].elem;
  }

  lemma ObtainWrites(timestamp: Int64)
    ensures Obtain(timestamp).errors == 0 && Writes(Obtain(timestamp), timestamp, [])
  {
  }

  lemma WritesAtomId(e: Ev, timestamp: Int64, fs: seq<FieldRec>, id: UInt32)
    requires e.errors == 0 ==> Writes(e, timestamp, fs)
    requires SetId(e, id).errors == 0
    ensures e.errors == 0
    ensures Writes(SetId(e, id), timestamp, if fs == [] then [FieldRec(Int32E(ToInt32(id)), [])] else fs)
  {
    OrNonZero(e.errors, ERROR_ATOM_ID_INVALID_POSITION);
    if e.atomId == 0 {
      var elem := Int32E(ToInt32(id));
      WriteElemClean(e.(atomId := id), elem);
      WriteElemClean(e, elem);
      assert fs == [];
      WritesField(e, timestamp, fs, elem);
      assert fs + [FieldRec(elem, [])] == [FieldRec(elem, [])];
    }
  }

  lemma ApplyWrites(e: Ev, timestamp: Int64, calls: seq<Call>, call: Call)
    requires e.errors == 0 ==> Writes(e, timestamp, FieldsOf(calls))
    requires Apply(e, call).errors == 0
    ensures Writes(Apply(e, call), timestamp, FieldsOf(calls + [call]))
  {
    var fs := FieldsOf(calls);
    assert (calls + [call])[..|calls|] == calls;
    match call
    case SetAtomId(id) => WritesAtomId(e, timestamp, fs, id);
    case Write(elem) =>
      WriteElemClean(e, elem);
      WritesField(e, timestamp, fs, elem);
    case Annotate(a) =>
      AnnotationErrorsStick(e, a);
      WritesAnnotation(e, timestamp, fs, a);
  }

  /** Run invariant of the writer: errors stick, and without one the buffer lists the fields. */
  lemma {:induction false} RunWrites(timestamp: Int64, calls: seq<Call>)
    ensures Run(timestamp, calls).errors == 0 ==> Writes(Run(timestamp, calls), timestamp, FieldsOf(calls))
    decreases |calls|
  {
    if calls == [] {
      ObtainWrites(timestamp);
    } else {
      var init, call := calls[..|calls| - 1], calls[|calls| - 1];
      RunWrites(timestamp, init);
      assert calls == init + [call];
      if Run(timestamp, calls).errors == 0 {
        ApplyWrites(Run(timestamp, init), timestamp, init, call);
      }
    }
  }
}
