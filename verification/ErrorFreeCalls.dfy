/** Which sequences of write calls record no error, said of the calls alone. */
module ErrorFreeCalls {
  import opened Bits
  import opened LogParser
  import opened EventWriter
  import opened WireFormat
  import opened WriterRuns
  import opened WireRoundTrip

  /** Bytes before the first field: root type, element count and timestamp. */
  const PREFIX_LENGTH := 11

  function Limit(push: bool): nat { if push then MAX_PUSH_EVENT_PAYLOAD else MAX_PULL_EVENT_PAYLOAD }

  /** A non-zero atom id comes first. */
  predicate StartsWithAtomId(calls: seq<Call>) { calls != [] && calls[0].SetAtomId? && calls[0].id != 0 }

  predicate IdFits(call: Call) { call.Annotate? ==> call.ann.id <= MAX_BYTE_VALUE }

  predicate IdsFit(calls: seq<Call>) { forall i :: 0 <= i < |calls| ==> IdFits(calls[i]) }

  /** Lengths, counts and annotation ids fit, and so do all the bytes together. */
  predicate FitsIn(calls: seq<Call>, limit: nat)
  {
    IdsFit(calls) && AllWireOk(FieldsOf(calls)) && PREFIX_LENGTH + |FieldsBytes(FieldsOf(calls))| <= limit
  }

  // ---------- what fits is written without an error ----------

  lemma AppendFits(e: Ev, bs: seq<Byte>)
    requires e.errors == 0 && |e.bytes| + |bs| <= MAX_PULL_EVENT_PAYLOAD
    ensures Append(e, bs) == e.(bytes := e.bytes + bs)
  {
  }

  lemma AppendStringFits(e: Ev, chars: seq<Byte>)
    requires e.errors == 0 && StrLen(chars) < MAX_PULL_EVENT_PAYLOAD
    requires |e.bytes| + |StringBytes(chars)| <= MAX_PULL_EVENT_PAYLOAD
    ensures AppendString(e, chars) == e.(bytes := e.bytes + StringBytes(chars))
  {
    AppendFits(e, Bytes32(StrLen(chars)));
    AppendFits(e.(bytes := e.bytes + Bytes32(StrLen(chars))), CStr(chars));
    Assoc3(e.bytes, Bytes32(StrLen(chars)), CStr(chars));
  }

  lemma {:induction false} AppendNodesFits(e: Ev, nodes: seq<Node>)
    requires e.errors == 0 && TagsFit(nodes) && |e.bytes| + |NodesBytes(nodes)| <= MAX_PULL_EVENT_PAYLOAD
    ensures AppendNodes(e, nodes).errors == 0
    decreases |nodes|
  {
    if nodes != [] {
      var x, y := Bytes32(nodes[0].uid), StringBytes(nodes[0].tag);
      AppendFits(e, x);
      AppendStringFits(e.(bytes := e.bytes + x), nodes[0].tag);
      AppendNodesFits(e.(bytes := e.bytes + x + y), nodes[1..]);
    }
  }

  lemma WritePayloadFits(s: Ev, elem: Elem)
    requires s.errors == 0 && Fits(elem) && |s.bytes| + |Payload(elem)| <= MAX_PULL_EVENT_PAYLOAD
    ensures WritePayload(s, elem).errors == 0
  {
    match elem
    case BytesE(bs) =>
      AppendFits(s, Bytes32(|bs|));
      AppendFits(s.(bytes := s.bytes + Bytes32(|bs|)), bs);
    case StringE(chars) => AppendStringFits(s, chars);
    case ChainE(nodes) =>
      AppendFits(s, [|nodes|]);
      AppendNodesFits(s.(bytes := s.bytes + [|nodes|]), nodes);
    case _ =>
  }

  lemma WriteElemFits(e: Ev, elem: Elem)
    requires e.errors == 0 && Fits(elem) && |e.bytes| + |FieldBytes(FieldRec(elem, []))| <= MAX_PULL_EVENT_PAYLOAD
    ensures WriteElem(e, elem).errors == 0 && WriteElem(e, elem).atomId == e.atomId
  {
    PlainFieldBytes(elem);
    AppendFits(e.(lastFieldPos := |e.bytes|), [TypeOf(elem)]);
    WritePayloadFits(StartField(e, TypeOf(elem)), elem);
    WriteElemClean(e, elem);
  }

  lemma AppendAnnFits(e: Ev, a: Ann)
    requires e.errors == 0 && |e.bytes| + |AnnBytes(a)| <= MAX_PULL_EVENT_PAYLOAD
    ensures AppendAnn(e, a).errors == 0
  {
    AppendFits(e, [a.id]);
  }

  lemma CountFits(u: Ev, pre: seq<Byte>, n: nat, elem: Elem, body: seq<Byte>)
    requires n < MAX_ANNOTATION_COUNT && u.errors == 0 && u.lastFieldPos == |pre|
    requires u.bytes == pre + ([TypeByte(n, elem)] + body)
    ensures IncrementAnnotationCount(u).errors == 0 && IncrementAnnotationCount(u).atomId == u.atomId
  {
    TypeByteParts(n, elem);
    assert u.bytes[|pre|] == TypeByte(n, elem);
  }

  lemma AnnotationFits(e: Ev, pre: seq<Byte>, f: FieldRec, a: Ann)
    requires e.errors == 0 && e.numElements >= 2 && a.id <= MAX_BYTE_VALUE
    requires WireOk(f.(anns := f.anns + [a])) && e.bytes == pre + FieldBytes(f) && e.lastFieldPos == |pre|
    requires |e.bytes| + |AnnBytes(a)| <= MAX_PULL_EVENT_PAYLOAD
    ensures AddAnnotation(e, a).errors == 0 && AddAnnotation(e, a).atomId == e.atomId
  {
    AppendAnnFits(e, a);
    AppendAnnClean(e, a);
    Assoc3(pre, FieldBytes(f), AnnBytes(a));
    AnnotatedBytes(f, a);
    CountFits(AppendAnn(e, a), pre, |f.anns|, f.elem, Payload(f.elem) + AnnsBytes(f.anns + [a]));
  }

  // ---------- one more call ----------

  /** The bytes grow by those of the new field or annotation. */
  lemma WriteGrows(fs: seq<FieldRec>, elem: Elem)
    requires AllWireOk(fs + [FieldRec(elem, [])])
    ensures AllWireOk(fs) && Fits(elem)
    ensures |FieldsBytes(fs + [FieldRec(elem, [])])| == |FieldsBytes(fs)| + |FieldBytes(FieldRec(elem, []))|
  {
    var f := FieldRec(elem, []);
    assert (fs + [f])[|fs|] == f;
    forall i | 0 <= i < |fs| ensures WireOk(fs[i]) { assert (fs + [f])[i] == fs[i]; }
    FieldsBytesSnoc(fs, f);
  }

  lemma AnnotateGrows(fs: seq<FieldRec>, a: Ann)
    requires fs != [] && AllWireOk(AnnotateLast(fs, a))
    ensures AllWireOk(fs) && |FieldsBytes(AnnotateLast(fs, a))| == |FieldsBytes(fs)| + |AnnBytes(a)|
  {
    var init, f := fs[..|fs| - 1], fs[|fs| - 1];
    var g := f.(anns := f.anns + [a]);
    assert AnnotateLast(fs, a)[|fs| - 1] == g && fs == init + [f];
    forall i | 0 <= i < |fs| ensures WireOk(fs[i]) { assert WireOk(AnnotateLast(fs, a)[i]); }
    FieldsBytesSnoc(init, f);
    FieldsBytesSnoc(init, g);
    FieldGrows(f, a);
  }

  lemma FieldGrows(f: FieldRec, a: Ann)
    requires WireOk(f) && WireOk(f.(anns := f.anns + [a]))
    ensures |FieldBytes(f.(anns := f.anns + [a]))| == |FieldBytes(f)| + |AnnBytes(a)|
  {
    AnnsBytesSnoc(f.anns, a);
  }

  lemma FieldsOfMore(calls: seq<Call>, call: Call)
    ensures FieldsOf(calls + [call]) == WithCall(FieldsOf(calls), call)
  {
    assert (calls + [call])[..|calls|] == calls;
  }

  lemma IdsFitSnoc(calls: seq<Call>, call: Call)
    ensures IdsFit(calls + [call]) <==> IdsFit(calls) && IdFits(call)
  {
    assert (calls + [call])[|calls|] == call;
    forall i | 0 <= i < |calls| ensures (calls + [call])[i] == calls[i] {}
  }

  /** What fits after a call fitted before it. */
  lemma FittedBefore(calls: seq<Call>, call: Call, limit: nat)
    requires FitsIn(calls + [call], limit)
    ensures FitsIn(calls, limit) && IdFits(call)
  {
    var fs := FieldsOf(calls);
    FieldsOfMore(calls, call);
    IdsFitSnoc(calls, call);
    match call
    case SetAtomId(_) => assert fs == [] ==> FieldsBytes(fs) == [];
    case Write(elem) => WriteGrows(fs, elem);
    case Annotate(a) => if fs != [] { AnnotateGrows(fs, a); }
  }

  lemma WriteStaysClean(e: Ev, timestamp: Int64, fs: seq<FieldRec>, elem: Elem)
    requires e.errors == 0 && Writes(e, timestamp, fs) && AllWireOk(fs + [FieldRec(elem, [])])
    requires PREFIX_LENGTH + |FieldsBytes(fs + [FieldRec(elem, [])])| <= MAX_PULL_EVENT_PAYLOAD
    ensures WriteElem(e, elem).errors == 0 && WriteElem(e, elem).atomId == e.atomId
  {
    WriteGrows(fs, elem);
    WriteElemFits(e, elem);
  }

  lemma AnnotateStaysClean(e: Ev, timestamp: Int64, fs: seq<FieldRec>, a: Ann)
    requires e.errors == 0 && Writes(e, timestamp, fs) && fs != [] && a.id <= MAX_BYTE_VALUE
    requires AllWireOk(AnnotateLast(fs, a))
    requires PREFIX_LENGTH + |FieldsBytes(AnnotateLast(fs, a))| <= MAX_PULL_EVENT_PAYLOAD
    ensures AddAnnotation(e, a).errors == 0 && AddAnnotation(e, a).atomId == e.atomId
  {
    var init, f := fs[..|fs| - 1], fs[|fs| - 1];
    AnnotateGrows(fs, a);
    assert WireOk(AnnotateLast(fs, a)[|fs| - 1]);
    LastFieldAtEnd(fs, init, f, Prefix(0, timestamp));
    AnnotationFits(e, Prefix(0, timestamp) + FieldsBytes(init), f, a);
  }

  lemma LastFieldAtEnd(fs: seq<FieldRec>, init: seq<FieldRec>, f: FieldRec, pre: seq<Byte>)
    requires fs != [] && AllWireOk(fs) && init == fs[..|fs| - 1] && f == fs[|fs| - 1]
    ensures pre + FieldsBytes(fs) == pre + FieldsBytes(init) + FieldBytes(f)
  {
    assert fs == init + [f];
    FieldsBytesSnoc(init, f);
    Assoc3(pre, FieldsBytes(init), FieldBytes(f));
  }

  lemma CallStaysClean(e: Ev, timestamp: Int64, calls: seq<Call>, call: Call)
    requires e.errors == 0 && e.atomId != 0 && Writes(e, timestamp, FieldsOf(calls))
    requires FitsIn(calls + [call], MAX_PULL_EVENT_PAYLOAD)
    ensures Apply(e, call).errors == 0 && Apply(e, call).atomId == e.atomId
  {
    FieldsOfMore(calls, call);
    FittedBefore(calls, call, MAX_PULL_EVENT_PAYLOAD);
    match call
    case SetAtomId(_) =>
    case Write(elem) => WriteStaysClean(e, timestamp, FieldsOf(calls), elem);
    case Annotate(a) => AnnotateStaysClean(e, timestamp, FieldsOf(calls), a);
  }

  // ---------- whole runs ----------

  lemma FirstCall(timestamp: Int64, id: UInt32)
    ensures Run(timestamp, [SetAtomId(id)]).errors == 0 && Run(timestamp, [SetAtomId(id)]).atomId == id
  {
    var e := Obtain(timestamp);
    assert [SetAtomId(id)][..0] == [] && Run(timestamp, []) == e;
    assert Run(timestamp, [SetAtomId(id)]) == SetId(e, id);
    WriteElemFits(e.(atomId := id), Int32E(ToInt32(id)));
  }

  lemma {:induction false} RunStaysClean(timestamp: Int64, calls: seq<Call>)
    requires StartsWithAtomId(calls) && FitsIn(calls, MAX_PULL_EVENT_PAYLOAD)
    ensures Run(timestamp, calls).errors == 0 && Run(timestamp, calls).atomId == calls[0].id
    decreases |calls|
  {
    if |calls| == 1 {
      assert calls == [SetAtomId(calls[0].id)];
      FirstCall(timestamp, calls[0].id);
    } else {
      var init, call := calls[..|calls| - 1], calls[|calls| - 1];
      assert calls == init + [call];
      FittedBefore(init, call, MAX_PULL_EVENT_PAYLOAD);
      RunStaysClean(timestamp, init);
      RunWrites(timestamp, init);
      CallStaysClean(Run(timestamp, init), timestamp, init, call);
    }
  }

  // ---------- and nothing else is ----------

  lemma ApplyErrorsStick(e: Ev, call: Call)
    requires Apply(e, call).errors == 0
    ensures e.errors == 0 && IdFits(call)
  {
    match call
    case SetAtomId(id) =>
      OrNonZero(e.errors, ERROR_ATOM_ID_INVALID_POSITION);
      WriteElemClean(e.(atomId := id), Int32E(ToInt32(id)));
    case Write(elem) => WriteElemClean(e, elem);
    case Annotate(a) => AnnotationErrorsStick(e, a);
  }

  lemma {:induction false} RunErrorsStick(timestamp: Int64, calls: seq<Call>, call: Call)
    requires Run(timestamp, calls + [call]).errors == 0
    ensures Run(timestamp, calls).errors == 0 && IdFits(call)
  {
    assert (calls + [call])[..|calls|] == calls;
    ApplyErrorsStick(Run(timestamp, calls), call);
  }

  lemma {:induction false} CleanIdsFit(timestamp: Int64, calls: seq<Call>)
    requires Run(timestamp, calls).errors == 0
    ensures IdsFit(calls)
    decreases |calls|
  {
    if calls != [] {
      var init, call := calls[..|calls| - 1], calls[|calls| - 1];
      assert calls == init + [call];
      RunErrorsStick(timestamp, init, call);
      CleanIdsFit(timestamp, init);
      IdsFitSnoc(init, call);
    }
  }

  function FirstId(calls: seq<Call>): UInt32
    requires calls != []
  {
    if calls[0].SetAtomId? then calls[0].id else 0
  }

  /** Only the first call can set the atom id without an error. */
  lemma AtomIdStep(e: Ev, call: Call)
    requires Apply(e, call).errors == 0 && e.numElements >= 2
    ensures Apply(e, call).atomId == e.atomId && Apply(e, call).numElements >= 2
  {
    match call
    case SetAtomId(id) => OrNonZero(e.errors, ERROR_ATOM_ID_INVALID_POSITION);
    case Write(elem) => WriteElemClean(e, elem);
    case Annotate(a) =>
      AnnotationErrorsStick(e, a);
      AppendAnnClean(e, a);
  }

  lemma FirstStep(timestamp: Int64, call: Call)
    requires Run(timestamp, [call]).errors == 0
    ensures Run(timestamp, [call]).atomId == FirstId([call]) && Run(timestamp, [call]).numElements >= 2
  {
    var e := Obtain(timestamp);
    ObtainWrites(timestamp);
    assert [call][..0] == [] && Run(timestamp, []) == e;
    assert Run(timestamp, [call]) == Apply(e, call) && e.numElements == 1 && e.atomId == 0;
    match call
    case SetAtomId(id) => WriteElemClean(e.(atomId := id), Int32E(ToInt32(id)));
    case Write(elem) => WriteElemClean(e, elem);
    case Annotate(a) => AnnotationErrorsStick(e, a);
  }

  lemma {:induction false} CleanAtomId(timestamp: Int64, calls: seq<Call>)
    requires calls != [] && Run(timestamp, calls).errors == 0
    ensures Run(timestamp, calls).atomId == FirstId(calls) && Run(timestamp, calls).numElements >= 2
    decreases |calls|
  {
    if |calls| == 1 {
      assert calls == [calls[0]];
      FirstStep(timestamp, calls[0]);
    } else {
      var init, call := calls[..|calls| - 1], calls[|calls| - 1];
      ApplyErrorsStick(Run(timestamp, init), call);
      CleanAtomId(timestamp, init);
      AtomIdStep(Run(timestamp, init), call);
    }
  }

  /** A sequence of calls is free of errors if and only if a non-zero atom id comes first, there are
      at most 126 fields, every length, count and annotation id fits, and so do all bytes together. */
  lemma {:induction false} ErrorFreeIff(timestamp: Int64, calls: seq<Call>, push: bool)
    ensures ErrorFree(timestamp, calls, push)
       <==> StartsWithAtomId(calls) && FitsIn(calls, Limit(push)) && |FieldsOf(calls)| <= 126
  {
    if ErrorFree(timestamp, calls, push) {
      ErrorFreeFits(timestamp, calls, push);
    }
    if StartsWithAtomId(calls) && FitsIn(calls, Limit(push)) && |FieldsOf(calls)| <= 126 {
      RunStaysClean(timestamp, calls);
      RunWrites(timestamp, calls);
    }
  }

  lemma {:induction false} ErrorFreeFits(timestamp: Int64, calls: seq<Call>, push: bool)
    requires ErrorFree(timestamp, calls, push)
    ensures StartsWithAtomId(calls) && FitsIn(calls, Limit(push)) && |FieldsOf(calls)| <= 126
  {
    var e := Run(timestamp, calls);
    CheckBuildClean(e, push);
    RunWrites(timestamp, calls);
    CleanIdsFit(timestamp, calls);
    assert calls != [] by { ObtainWrites(timestamp); }
    CleanAtomId(timestamp, calls);
    assert push ==> |e.bytes| <= MAX_PUSH_EVENT_PAYLOAD by {
      if push && |e.bytes| > MAX_PUSH_EVENT_PAYLOAD { OrNonZero(e.errors, ERROR_OVERFLOW); }
    }
  }

  /** The round trip with acceptance said of the calls alone. */
  lemma {:induction false} CallsRoundTrip(timestamp: Int64, calls: seq<Call>, push: bool)
    ensures StartsWithAtomId(calls) ==> FieldsOf(calls) != [] && FieldsOf(calls)[0].elem == Int32E(ToInt32(calls[0].id))
    ensures var log := ParseBuffer(Build(timestamp, calls, push).bytes);
            log.valid <==> && StartsWithAtomId(calls) && FitsIn(calls, Limit(push)) && |FieldsOf(calls)| <= 126
                           && Meaning(timestamp, FieldsOf(calls)).Some?
  {
    FirstField(calls);
    RoundTrip(timestamp, calls, push);
    ErrorFreeIff(timestamp, calls, push);
  }

  lemma {:induction false} FirstField(calls: seq<Call>)
    ensures StartsWithAtomId(calls) ==> FieldsOf(calls) != [] && FieldsOf(calls)[0].elem == Int32E(ToInt32(calls[0].id))
    decreases |calls|
  {
    if |calls| > 1 {
      FirstField(calls[..|calls| - 1]);
    } else if |calls| == 1 {
      assert calls[..0] == [] && FieldsOf([]) == [];
    }
  }
}
