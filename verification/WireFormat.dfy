/** What a sequence of write calls means, said without bytes: the fields it lists, the bytes of
    each field, and the event a reader should end up with. */
module WireFormat {
  import opened Options
  import opened Bits
  import opened FieldPath
  import opened LogParser
  import opened EventWriter

  /** A field with the annotations that follow it. */
  datatype FieldRec = FieldRec(elem: Elem, anns: seq<Ann>)

  function AnnotateLast(fs: seq<FieldRec>, a: Ann): seq<FieldRec>
    requires fs != []
  {
    fs[..|fs| - 1] + [fs[|fs| - 1].(anns := fs[|fs| - 1].anns + [a])]
  }

  /** What one more call does to the fields. */
  function WithCall(fs: seq<FieldRec>, call: Call): seq<FieldRec>
  {
    match call
    case SetAtomId(id) => if fs == [] then [FieldRec(Int32E(ToInt32(id)), [])] else fs
    case Write(elem) => fs + [FieldRec(elem, [])]
    case Annotate(a) => if fs == [] then fs else AnnotateLast(fs, a)
  }

  /** The fields listed by the calls, the atom id first. */
  function FieldsOf(calls: seq<Call>): seq<FieldRec>
  {
    if calls == [] then [] else WithCall(FieldsOf(calls[..|calls| - 1]), calls[|calls| - 1])
  }

  // ---------- bytes ----------

  function StringBytes(chars: seq<Byte>): seq<Byte> { Bytes32(StrLen(chars)) + CStr(chars) }

  function NodesBytes(nodes: seq<Node>): seq<Byte>
  {
    if nodes == [] then [] else Bytes32(nodes[0].uid) + StringBytes(nodes[0].tag) + NodesBytes(nodes[1..])
  }

  /** Lengths and counts that the wire format can carry. */
  predicate Fits(elem: Elem)
  {
    match elem
    case BytesE(bs) => |bs| <= MAX_PULL_EVENT_PAYLOAD
    case StringE(chars) => StrLen(chars) < MAX_PULL_EVENT_PAYLOAD
    case ChainE(nodes) => |nodes| <= MAX_BYTE_VALUE && TagsFit(nodes)
    case _ => true
  }

  predicate TagsFit(nodes: seq<Node>)
  {
    forall i :: 0 <= i < |nodes| ==> StrLen(nodes[i].tag) < MAX_PULL_EVENT_PAYLOAD
  }

  function Payload(elem: Elem): seq<Byte>
    requires Fits(elem)
  {
    match elem
    case Int32E(v) => Bytes32(v)
    case Int64E(v) => Bytes64(v)
    case FloatE(v) => Bytes32(v)
    case BoolE(b) => [BoolByte(b)]
    case BytesE(bs) => Bytes32(|bs|) + bs
    case StringE(chars) => StringBytes(chars)
    case ChainE(nodes) => [|nodes|] + NodesBytes(nodes)
  }

  function AnnBytes(a: Ann): seq<Byte>
  {
    match a
    case BoolAnn(id, b) => [id, BOOL_TYPE, BoolByte(b)]
    case IntAnn(id, v) => [id, INT32_TYPE] + Bytes32(v)
  }

  function AnnsBytes(anns: seq<Ann>): seq<Byte>
  {
    if anns == [] then [] else AnnBytes(anns[0]) + AnnsBytes(anns[1..])
  }

  predicate WireOk(f: FieldRec)
  {
    Fits(f.elem) && |f.anns| <= MAX_ANNOTATION_COUNT
  }

  function FieldBytes(f: FieldRec): seq<Byte>
    requires WireOk(f)
  {
    [|f.anns| * 16 + TypeOf(f.elem)] + Payload(f.elem) + AnnsBytes(f.anns)
  }

  predicate AllWireOk(fs: seq<FieldRec>) { forall i :: 0 <= i < |fs| ==> WireOk(fs[i]) }

  function FieldsBytes(fs: seq<FieldRec>): seq<Byte>
    requires AllWireOk(fs)
  {
    if fs == [] then [] else FieldBytes(fs[0]) + FieldsBytes(fs[1..])
  }

  /** Root type, element count and timestamp. */
  function Prefix(count: Byte, timestamp: Int64): seq<Byte>
  {
    [OBJECT_TYPE, count, INT64_TYPE] + Bytes64(timestamp)
  }

  // ---------- meaning ----------

  /** Element `k` of a chain of uids and tags: nodes are numbered from 1, the last one is marked. */
  function ChainValue(tag: int, p0: nat, nodes: seq<Node>, k: nat): FieldValue
    requires k < 2 * |nodes|
  {
    var i := k / 2;
    FieldValue(
      Field(tag, Pack(2, p0, WithLast(i + 1, i + 1 == |nodes|), 1 + k % 2)),
      if k % 2 == 0 then IntV(ToInt32(nodes[i].uid)) else StrV(CStr(nodes[i].tag)),
      DEFAULT_ANNOTATIONS)
  }

  function ChainValues(tag: int, p0: nat, nodes: seq<Node>): seq<FieldValue>
  {
    seq(2 * |nodes|, k requires 0 <= k < 2 * |nodes| => ChainValue(tag, p0, nodes, k))
  }

  function ScalarValue(elem: Elem): Value
    requires !elem.ChainE?
  {
    match elem
    case Int32E(v) => IntV(v)
    case Int64E(v) => LongV(v)
    case FloatE(v) => FloatV(v)
    case BoolE(b) => IntV(BoolByte(b))
    case BytesE(bs) => StorageV(bs)
    case StringE(chars) => StrV(CStr(chars))
  }

  /** The values of one field at position `p0` of the atom. */
  function ElemValues(tag: int, p0: nat, elem: Elem): seq<FieldValue>
  {
    if elem.ChainE? then ChainValues(tag, p0, elem.nodes)
    else [FieldValue(Field(tag, Pack(0, p0, 0, 0)), ScalarValue(elem), DEFAULT_ANNOTATIONS)]
  }

  /** A field adds its values; a chain may end only while indexes still fit in 7 bits, and
      not on an empty list. */
  function MeanElem(ev: Event, p0: nat, elem: Elem): Option<Event>
  {
    var first := |ev.values|;
    var next := ev.(values := ev.values + ElemValues(ev.tag, p0, elem));
    if !elem.ChainE? then Some(next)
    else if PastInt8(|next.values|) then None
    else if elem.nodes == [] then Some(next)
    else Some(next.(chainStart := first, chainEnd := |next.values| - 1))
  }

  /** Where an annotation may stand; `chain` is the index of the chain it follows, or -1. */
  predicate AnnLegal(ev: Event, a: Ann, chain: int)
  {
    var size := |ev.values|;
    if a.IntAnn? then a.id == TRIGGER_STATE_RESET && size > 0
    else if a.id == TRUNCATE_TIMESTAMP then size == 0
    else if a.id == IS_UID then 0 < size <= 128 && ev.values[size - 1].value.IntV?
    else if a.id == EXCLUSIVE_STATE then 0 < size <= 128
    else if a.id == PRIMARY_FIELD_FIRST_UID then 0 <= chain < size
    else (a.id == PRIMARY_FIELD || a.id == STATE_NESTED) && size > 0
  }

  function MeanAnn(ev: Event, a: Ann, chain: int): Event
    requires AnnLegal(ev, a, chain)
  {
    match a
    case IntAnn(_, v) => ev.(resetState := v)
    case BoolAnn(id, b) =>
      if id == TRUNCATE_TIMESTAMP then ev.(truncateTimestamp := b)
      else
        var at := if id == PRIMARY_FIELD_FIRST_UID then chain else |ev.values| - 1;
        var was := ev.values[at].annotations;
        var ann :=
          if id == IS_UID then was.(uid := b)
          else if id == EXCLUSIVE_STATE then was.(exclusive := b)
          else if id == STATE_NESTED then was.(nested := b)
          else was.(primary := b);
        ev.(values := ev.values[at := ev.values[at].(annotations := ann)],
            uidIndex := if id == IS_UID && b then at else ev.uidIndex,
            exclusiveIndex := if id == EXCLUSIVE_STATE then at else ev.exclusiveIndex)
  }

  /** Each annotation has its own effect and no other: a flag of one value, the index of the value that
      was marked, or a property of the whole event. */
  lemma AnnotationEffects(ev: Event, a: Ann, chain: int, j: nat)
    requires AnnLegal(ev, a, chain) && j < |ev.values|
    ensures var r, last := MeanAnn(ev, a, chain), |ev.values| - 1;
            var was, now := ev.values[j], if j < |r.values| then r.values[j] else ev.values[j];
            && |r.values| == |ev.values| && now.field == was.field && now.value == was.value
            && now.annotations.uid == (if a.BoolAnn? && a.id == IS_UID && j == last then a.b else was.annotations.uid)
            && now.annotations.exclusive ==
                 (if a.BoolAnn? && a.id == EXCLUSIVE_STATE && j == last then a.b else was.annotations.exclusive)
            && now.annotations.nested ==
                 (if a.BoolAnn? && a.id == STATE_NESTED && j == last then a.b else was.annotations.nested)
            && now.annotations.primary ==
                 (if a.BoolAnn? && a.id == PRIMARY_FIELD && j == last then a.b
                  else if a.BoolAnn? && a.id == PRIMARY_FIELD_FIRST_UID && j == chain then a.b
                  else was.annotations.primary)
            && r.uidIndex == (if a.BoolAnn? && a.id == IS_UID && a.b then last else ev.uidIndex)
            && r.exclusiveIndex == (if a.BoolAnn? && a.id == EXCLUSIVE_STATE then last else ev.exclusiveIndex)
            && r.resetState == (if a.IntAnn? then a.v else ev.resetState)
            && r.truncateTimestamp == ev.truncateTimestamp
  {
  }

  function MeanAnns(ev: Event, anns: seq<Ann>, chain: int): Option<Event>
    decreases |anns|
  {
    if anns == [] then Some(ev)
    else if !AnnLegal(ev, anns[0], chain) then None
    else MeanAnns(MeanAnn(ev, anns[0], chain), anns[1..], chain)
  }

  function MeanField(ev: Event, p0: nat, f: FieldRec): Option<Event>
  {
    match MeanElem(ev, p0, f.elem)
    case None => None
    case Some(next) => MeanAnns(next, f.anns, if f.elem.ChainE? then |ev.values| else -1)
  }

  function MeanFields(ev: Event, p0: nat, fs: seq<FieldRec>): Option<Event>
    decreases |fs|
  {
    if fs == [] then Some(ev)
    else match MeanField(ev, p0, fs[0])
      case None => None
      case Some(next) => MeanFields(next, p0 + 1, fs[1..])
  }

  /** The event that a list of fields, atom id first, stands for. */
  function Meaning(timestamp: Int64, fs: seq<FieldRec>): Option<Event>
    requires fs != [] && fs[0].elem.Int32E?
  {
    var start := EMPTY_EVENT.(timestamp := timestamp, tag := fs[0].elem.i);
    match MeanAnns(start, fs[0].anns, -1)
    case None => None
    case Some(ev) => MeanFields(ev, 1, fs[1..])
  }
}
