/** Writing an event (stats_event.c), as functions on the event record. */
module EventWriter {
  import opened Bits
  import opened LogParser

  const MAX_PUSH_EVENT_PAYLOAD := 4064
  const MAX_PULL_EVENT_PAYLOAD := 51200
  const POS_NUM_ELEMENTS := 1
  const POS_ATOM_ID := 11
  const END_ATOM_ID := 16
  const MAX_ANNOTATION_COUNT := 15
  const MAX_BYTE_VALUE := 127

  const ERROR_NO_ATOM_ID := 0x2
  const ERROR_OVERFLOW := 0x4
  const ERROR_ATTRIBUTION_CHAIN_TOO_LONG := 0x8
  const ERROR_ANNOTATION_DOES_NOT_FOLLOW_FIELD := 0x20
  const ERROR_ANNOTATION_ID_TOO_LARGE := 0x80
  const ERROR_TOO_MANY_ANNOTATIONS := 0x100
  const ERROR_TOO_MANY_FIELDS := 0x200
  const ERROR_STRING_NOT_NULL_TERMINATED := 0x800
  const ERROR_ATOM_ID_INVALID_POSITION := 0x2000

  /** The event record; `bytes` is the written part of the buffer. */
  datatype Ev = Ev(bytes: seq<Byte>, lastFieldPos: nat, numElements: nat, atomId: UInt32, errors: nat)

  /** One node of an attribution chain: a uid and the memory its tag points to. */
  datatype Node = Node(uid: UInt32, tag: seq<Byte>)

  /** The argument of one write call. */
  datatype Elem =
    | Int32E(i: Int32)
    | Int64E(l: Int64)
    | FloatE(bits: UInt32)
    | BoolE(b: bool)
    | BytesE(bytes: seq<Byte>)
    | StringE(chars: seq<Byte>)
    | ChainE(nodes: seq<Node>)

  datatype Ann =
    | BoolAnn(id: Byte, b: bool)
    | IntAnn(id: Byte, v: Int32)

  /** A call made on an event between `obtain` and `build`. */
  datatype Call = SetAtomId(id: UInt32) | Write(elem: Elem) | Annotate(ann: Ann)

  /** The buffer never outgrows the pull limit. */
  predicate Bounded(e: Ev) { |e.bytes| <= MAX_PULL_EVENT_PAYLOAD }

  function WithError(e: Ev, bit: nat): Ev { e.(errors := Or(e.errors, bit)) }

  function Append(e: Ev, bs: seq<Byte>): (r: Ev)
    ensures Bounded(e) ==> Bounded(r)
  {
    if |e.bytes| + |bs| > MAX_PULL_EVENT_PAYLOAD then WithError(e, ERROR_OVERFLOW)
    else e.(bytes := e.bytes + bs)
  }

  function StartField(e: Ev, typeId: Byte): (r: Ev)
    ensures Bounded(e) ==> Bounded(r)
  {
    var a := Append(e.(lastFieldPos := |e.bytes|), [typeId]);
    a.(numElements := a.numElements + 1)
  }

  /** Length of the C string stored at `chars`: up to the first NUL, or the NUL that ends it. */
  function StrLen(chars: seq<Byte>): (n: nat)
    ensures n <= |chars|
    ensures 0 !in chars[..n]
    ensures n < |chars| ==> chars[n] == 0
  {
    if chars == [] || chars[0] == 0 then 0
    else
      var n := 1 + StrLen(chars[1..]);
      assert chars[..n] == [chars[0]] + chars[1..][..n - 1];
      n
  }

  function CStr(chars: seq<Byte>): seq<Byte> { chars[..StrLen(chars)] }

  function AppendString(e: Ev, chars: seq<Byte>): (r: Ev)
    ensures Bounded(e) ==> Bounded(r)
  {
    if StrLen(chars) >= MAX_PULL_EVENT_PAYLOAD then WithError(e, ERROR_STRING_NOT_NULL_TERMINATED)
    else Append(Append(e, Bytes32(StrLen(chars))), CStr(chars))
  }

  function AppendNodes(e: Ev, nodes: seq<Node>): (r: Ev)
    ensures Bounded(e) ==> Bounded(r)
    decreases |nodes|
  {
    if nodes == [] then e
    else AppendNodes(AppendString(Append(e, Bytes32(nodes[0].uid)), nodes[0].tag), nodes[1..])
  }

  function BoolByte(b: bool): Byte { if b then 1 else 0 }

  function TypeOf(elem: Elem): Byte
  {
    match elem
    case Int32E(_) => INT32_TYPE
    case Int64E(_) => INT64_TYPE
    case FloatE(_) => FLOAT_TYPE
    case BoolE(_) => BOOL_TYPE
    case BytesE(_) => BYTE_ARRAY_TYPE
    case StringE(_) => STRING_TYPE
    case ChainE(_) => ATTRIBUTION_CHAIN_TYPE
  }

  function WritePayload(s: Ev, elem: Elem): (r: Ev)
    requires elem.ChainE? ==> |elem.nodes| <= MAX_BYTE_VALUE
    ensures Bounded(s) ==> Bounded(r)
  {
    match elem
    case Int32E(v) => Append(s, Bytes32(v))
    case Int64E(v) => Append(s, Bytes64(v))
    case FloatE(v) => Append(s, Bytes32(v))
    case BoolE(b) => Append(s, [BoolByte(b)])
    case BytesE(bs) => var a := Append(s, Bytes32(|bs|)); if |bs| > 0 then Append(a, bs) else a
    case StringE(chars) => AppendString(s, chars)
    case ChainE(nodes) => AppendNodes(Append(s, [|nodes|]), nodes)
  }

  function WriteElem(e: Ev, elem: Elem): (r: Ev)
    ensures Bounded(e) ==> Bounded(r)
  {
    if elem.ChainE? && |elem.nodes| > MAX_BYTE_VALUE then WithError(e, ERROR_ATTRIBUTION_CHAIN_TOO_LONG)
    else WritePayload(StartField(e, TypeOf(elem)), elem)
  }

  function SetId(e: Ev, id: UInt32): (r: Ev)
    ensures Bounded(e) ==> Bounded(r)
  {
    if e.atomId != 0 then e
    else if e.numElements != 1 then WithError(e, ERROR_ATOM_ID_INVALID_POSITION)
    else WriteElem(e.(atomId := id), Int32E(ToInt32(id)))
  }

  /** Adds one to the count kept in the upper half of the last type byte. */
  function IncrementAnnotationCount(e: Ev): (r: Ev)
    ensures Bounded(e) ==> Bounded(r)
  {
    if e.lastFieldPos >= |e.bytes| then e
    else
      var t := e.bytes[e.lastFieldPos];
      if t / 16 + 1 > MAX_ANNOTATION_COUNT then WithError(e, ERROR_TOO_MANY_ANNOTATIONS)
      else e.(bytes := e.bytes[e.lastFieldPos := (t / 16 + 1) * 16 + t % 16])
  }

  function AddAnnotation(e: Ev, a: Ann): (r: Ev)
    ensures Bounded(e) ==> Bounded(r)
  {
    if e.numElements < 2 then WithError(e, ERROR_ANNOTATION_DOES_NOT_FOLLOW_FIELD)
    else if a.id > MAX_BYTE_VALUE then WithError(e, ERROR_ANNOTATION_ID_TOO_LARGE)
    else
      var s := Append(e, [a.id]);
      IncrementAnnotationCount(
        match a
        case BoolAnn(_, b) => Append(Append(s, [BOOL_TYPE]), [BoolByte(b)])
        case IntAnn(_, v) => Append(Append(s, [INT32_TYPE]), Bytes32(v)))
  }

  function Apply(e: Ev, call: Call): (r: Ev)
    ensures Bounded(e) ==> Bounded(r)
  {
    match call
    case SetAtomId(id) => SetId(e, id)
    case Write(elem) => WriteElem(e, elem)
    case Annotate(a) => AddAnnotation(e, a)
  }

  function Obtain(timestamp: Int64): (r: Ev)
    ensures Bounded(r)
  {
    WriteElem(Ev([OBJECT_TYPE, 0], 0, 0, 0, 0), Int64E(timestamp))
  }

  function Run(timestamp: Int64, calls: seq<Call>): (r: Ev)
    ensures Bounded(r)
  {
    if calls == [] then Obtain(timestamp)
    else Apply(Run(timestamp, calls[..|calls| - 1]), calls[|calls| - 1])
  }

  // ---------- build ----------

  function CheckBuild(e: Ev, push: bool): Ev
  {
    var a := if e.numElements > MAX_BYTE_VALUE then WithError(e, ERROR_TOO_MANY_FIELDS) else e;
    var b := if a.atomId == 0 then WithError(a, ERROR_NO_ATOM_ID) else a;
    if push && |b.bytes| > MAX_PUSH_EVENT_PAYLOAD then WithError(b, ERROR_OVERFLOW) else b
  }

  /** The first bytes of the buffer, which `calloc` zeroed before anything was written. */
  function HeaderBytes(bytes: seq<Byte>): (h: seq<Byte>)
    ensures |h| == END_ATOM_ID
  {
    seq(END_ATOM_ID, i requires 0 <= i < END_ATOM_ID => if i < |bytes| then bytes[i] else 0)
  }

  /** Everything after the atom id is replaced by the error mask. */
  function DiscardWithErrors(e: Ev): Ev
  {
    var kept := e.(numElements := 2, bytes := HeaderBytes(e.bytes)[POS_ATOM_ID := INT32_TYPE]);
    Append(StartField(kept, ERROR_TYPE), Bytes32(e.errors))
  }

  function BuildInternal(e: Ev, push: bool): Ev
  {
    var c := CheckBuild(e, push);
    var d := if c.errors != 0 then DiscardWithErrors(c) else c;
    if POS_NUM_ELEMENTS < |d.bytes| then d.(bytes := d.bytes[POS_NUM_ELEMENTS := d.numElements % 256]) else d
  }

  function Build(timestamp: Int64, calls: seq<Call>, push: bool): Ev
  {
    BuildInternal(Run(timestamp, calls), push)
  }

  /** No call and no build check has recorded an error. */
  predicate ErrorFree(timestamp: Int64, calls: seq<Call>, push: bool)
  {
    CheckBuild(Run(timestamp, calls), push).errors == 0
  }
}
