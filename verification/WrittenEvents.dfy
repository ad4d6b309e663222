/** From the writer to the matcher: every event that is written and accepted can be matched. */
module WrittenEvents {
  import opened Options
  import opened Bits
  import opened FieldPath
  import opened LogParser
  import opened EventWriter
  import opened WireFormat
  import opened WireRoundTrip
  import opened DfsOrder

  lemma WrittenFieldFits(p: Log, f: FieldRec, s: seq<Byte>)
    requires WireOk(f) && p.rest == FieldBytes(f) + s
    ensures ListFits(p)
  {
    FieldSplit(f, s);
    assert p.rest[0] == TypeInfo(f);
  }

  lemma {:induction false} WrittenFieldsFit(p: Log, p0: nat, fs: seq<FieldRec>, n: nat)
    requires AllWireOk(fs) && p.valid && p.rest == FieldsBytes(fs)
    requires 1 <= p0 && p0 + |fs| == n + 1 && n < 256
    ensures ListsFit(p, p0, n)
    decreases |fs|
  {
    if fs != [] {
      var s := FieldsBytes(fs[1..]);
      WrittenFieldFits(p, fs[0], s);
      FieldOf(p, p0, fs[0], s);
      match MeanField(p.ev, p0, fs[0])
      case None =>
      case Some(ev) => WrittenFieldsFit(Log(s, true, ev), p0 + 1, fs[1..], n);
    }
  }

  lemma FitsAfterStart(q: Log, fs: seq<FieldRec>, n: nat)
    requires fs != [] && AllWireOk(fs) && fs[0].elem.Int32E? && |fs| <= 126 && n == |fs| - 1
    requires q.valid && q.rest == FieldsBytes(fs)
    ensures ListsFit(ParseAtomId(q), 1, n)
  {
    AtomFieldOf(q, fs[0], FieldsBytes(fs[1..]));
    if ParseAtomId(q).valid {
      WrittenFieldsFit(ParseAtomId(q), 1, fs[1..], n);
    }
  }

  lemma WrittenEventFits(timestamp: Int64, fs: seq<FieldRec>, bytes: seq<Byte>)
    requires fs != [] && AllWireOk(fs) && fs[0].elem.Int32E? && |fs| <= 126
    requires bytes == Prefix(1 + |fs|, timestamp) + FieldsBytes(fs) && |bytes| < TWO32
    ensures KeyValueListsFit(bytes)
  {
    var p, n, x := Log(bytes, true, EMPTY_EVENT), 1 + |fs|, FieldsBytes(fs);
    var q := Log(x, true, EMPTY_EVENT.(timestamp := timestamp));
    UnreadAll(bytes);
    StartOf(p, n, timestamp, x);
    HeaderIs(p, q, n);
    FitsAfterStart(q, fs, n - 2);
  }

  lemma {:induction false} AcceptedIsErrorFree(timestamp: Int64, calls: seq<Call>, push: bool)
    requires ParseBuffer(Build(timestamp, calls, push).bytes).valid
    ensures ErrorFree(timestamp, calls, push)
  {
    RoundTrip(timestamp, calls, push);
  }

  lemma {:induction false} WrittenListsFit(timestamp: Int64, calls: seq<Call>, push: bool, bytes: seq<Byte>)
    requires bytes == Build(timestamp, calls, push).bytes && ParseBuffer(bytes).valid
    ensures KeyValueListsFit(bytes)
  {
    AcceptedIsErrorFree(timestamp, calls, push);
    ErrorFreeBuild(timestamp, calls, push);
    WrittenEventFits(timestamp, FieldsOf(calls), bytes);
  }

  /** Whatever was written, the values of an accepted event are in DFS order with consistent last
      marks, which is what matching relies on. */
  lemma {:induction false} WrittenEventsCanBeMatched(timestamp: Int64, calls: seq<Call>, push: bool, bytes: seq<Byte>)
    requires bytes == Build(timestamp, calls, push).bytes && ParseBuffer(bytes).valid
    ensures WellFormed(Paths(ParseBuffer(bytes).ev.values))
  {
    WrittenListsFit(timestamp, calls, push, bytes);
    AcceptedInOrder(bytes);
  }
}
