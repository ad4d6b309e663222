/** Reading an event back from the wire (LogEvent.h, LogEvent.cpp), as functions from parser
    state to parser state. */
module LogParser {
  import opened Bits
  import opened FieldPath

  const INT32_TYPE: Byte := 0x00
  const INT64_TYPE: Byte := 0x01
  const STRING_TYPE: Byte := 0x02
  const FLOAT_TYPE: Byte := 0x04
  const BOOL_TYPE: Byte := 0x05
  const BYTE_ARRAY_TYPE: Byte := 0x06
  const OBJECT_TYPE: Byte := 0x07
  const KEY_VALUE_PAIRS_TYPE: Byte := 0x08
  const ATTRIBUTION_CHAIN_TYPE: Byte := 0x09
  const ERROR_TYPE: Byte := 0x0F

  const IS_UID: Byte := 1
  const TRUNCATE_TIMESTAMP: Byte := 2
  const PRIMARY_FIELD: Byte := 3
  const EXCLUSIVE_STATE: Byte := 4
  const PRIMARY_FIELD_FIRST_UID: Byte := 5
  const TRIGGER_STATE_RESET: Byte := 7
  const STATE_NESTED: Byte := 8

  const INT8_MAX := 127

  /** What an event says, without the bytes it came from. */
  datatype Event = Event(
    tag: Int32, timestamp: Int64, values: seq<FieldValue>,
    truncateTimestamp: bool, resetState: Int32,
    uidIndex: int, chainStart: int, chainEnd: int, exclusiveIndex: int)

  const EMPTY_EVENT := Event(0, 0, [], false, -1, -1, -1, -1, -1)

  /** Parser state: the unread bytes, `mValid`, and what has been read so far. */
  datatype Log = Log(rest: seq<Byte>, valid: bool, ev: Event)

  function Fail(p: Log): Log { p.(valid := false) }

  function TypeId(typeInfo: Byte): Byte { typeInfo % 16 }

  function NumAnnotations(typeInfo: Byte): nat { typeInfo / 16 }

  // ---------- readNextValue ----------

  function ReadByte(p: Log): (Byte, Log)
  {
    if |p.rest| < 1 then (0, Fail(p)) else (p.rest[0], p.(rest := p.rest[1..]))
  }

  function Read32(p: Log): (r: (UInt32, Log))
  {
    if |p.rest| < 4 then (0, Fail(p))
    else
      Patterns32(p.rest[..4]);
      (FromLE(p.rest[..4]), p.(rest := p.rest[4..]))
  }

  function ReadInt32(p: Log): (Int32, Log)
  {
    var (u, q) := Read32(p);
    (ToInt32(u), q)
  }

  function ReadInt64(p: Log): (Int64, Log)
  {
    if |p.rest| < 8 then (0, Fail(p))
    else
      Patterns64(p.rest[..8]);
      (ToInt64(FromLE(p.rest[..8])), p.(rest := p.rest[8..]))
  }

  // ---------- values ----------

  function AddValue(ev: Event, depth: nat, p0: nat, p1: nat, p2: nat, v: Value, last1: bool): Event
    requires depth <= MAX_LOG_DEPTH
  {
    ev.(values := ev.values + [FieldValue(Field(ev.tag, PathAt(depth, p0, p1, p2, last1)), v, DEFAULT_ANNOTATIONS)])
  }

  function Add(p: Log, depth: nat, p0: nat, p1: nat, p2: nat, v: Value, last1: bool): Log
    requires depth <= MAX_LOG_DEPTH
  {
    p.(ev := AddValue(p.ev, depth, p0, p1, p2, v, last1))
  }

  function ParseInt32(p: Log, depth: nat, p0: nat, p1: nat, p2: nat, last1: bool, n: nat): (q: Log)
    requires depth <= MAX_LOG_DEPTH
    ensures q.valid ==> p.valid
  {
    var (v, q) := ReadInt32(p);
    ParseAnnotations(Add(q, depth, p0, p1, p2, IntV(v), last1), n, -1)
  }

  function ParseInt64(p: Log, depth: nat, p0: nat, p1: nat, p2: nat, last1: bool, n: nat): (q: Log)
    requires depth <= MAX_LOG_DEPTH
    ensures q.valid ==> p.valid
  {
    var (v, q) := ReadInt64(p);
    ParseAnnotations(Add(q, depth, p0, p1, p2, LongV(v), last1), n, -1)
  }

  function ParseFloat(p: Log, depth: nat, p0: nat, p1: nat, p2: nat, last1: bool, n: nat): (q: Log)
    requires depth <= MAX_LOG_DEPTH
    ensures q.valid ==> p.valid
  {
    var (v, q) := Read32(p);
    ParseAnnotations(Add(q, depth, p0, p1, p2, FloatV(v), last1), n, -1)
  }

  function ParseBool(p: Log, depth: nat, p0: nat, p1: nat, p2: nat, last1: bool, n: nat): (q: Log)
    requires depth <= MAX_LOG_DEPTH
    ensures q.valid ==> p.valid
  {
    var (v, q) := ReadByte(p);
    ParseAnnotations(Add(q, depth, p0, p1, p2, IntV(v), last1), n, -1)
  }

  /** A 32-bit length, then that many bytes. The length is compared as unsigned. */
  function ParseBlob(p: Log, depth: nat, p0: nat, p1: nat, p2: nat, last1: bool, n: nat, isString: bool): (q: Log)
    requires depth <= MAX_LOG_DEPTH
    ensures q.valid ==> p.valid
  {
    var (len, q) := Read32(p);
    if len > |q.rest| then Fail(q)
    else
      var v := if isString then StrV(q.rest[..len]) else StorageV(q.rest[..len]);
      ParseAnnotations(Add(q.(rest := q.rest[len..]), depth, p0, p1, p2, v, last1), n, -1)
  }

  // ---------- annotations ----------

  /** `mValues.size() - 1 > INT8_MAX`, where the subtraction wraps on an empty list. */
  predicate PastInt8(size: nat) { size == 0 || size - 1 > INT8_MAX }

  function SetLast(ev: Event, a: Annotations): Event
    requires ev.values != []
  {
    var i := |ev.values| - 1;
    ev.(values := ev.values[i := ev.values[i].(annotations := a)])
  }

  function LastAnnotations(ev: Event): Annotations
    requires ev.values != []
  {
    ev.values[|ev.values| - 1].annotations
  }

  predicate KnownAnnotation(id: Byte)
  {
    id in {IS_UID, TRUNCATE_TIMESTAMP, PRIMARY_FIELD, EXCLUSIVE_STATE, PRIMARY_FIELD_FIRST_UID,
           TRIGGER_STATE_RESET, STATE_NESTED}
  }

  // One function per annotation, called after its id and its type have been read.

  function MarkUid(ev: Event, isUid: bool): Event
    requires ev.values != []
  {
    SetLast(if isUid then ev.(uidIndex := |ev.values| - 1) else ev, LastAnnotations(ev).(uid := isUid))
  }

  function ParseIsUid(p: Log, typ: Byte): (q: Log)
    ensures q.valid ==> p.valid
  {
    var size := |p.ev.values|;
    if PastInt8(size) || !p.ev.values[size - 1].value.IntV? || typ != BOOL_TYPE then Fail(p)
    else
      var (b, q) := ReadByte(p);
      q.(ev := MarkUid(q.ev, b != 0))
  }

  function ParseTruncateTimestamp(p: Log, typ: Byte): (q: Log)
    ensures q.valid ==> p.valid
  {
    if p.ev.values != [] || typ != BOOL_TYPE then Fail(p)
    else
      var (b, q) := ReadByte(p);
      q.(ev := q.ev.(truncateTimestamp := b != 0))
  }

  function ParsePrimaryField(p: Log, typ: Byte): (q: Log)
    ensures q.valid ==> p.valid
  {
    if p.ev.values == [] || typ != BOOL_TYPE then Fail(p)
    else
      var (b, q) := ReadByte(p);
      q.(ev := SetLast(q.ev, LastAnnotations(q.ev).(primary := b != 0)))
  }

  function ParsePrimaryFieldFirstUid(p: Log, typ: Byte, firstUid: int): (q: Log)
    requires -1 <= firstUid
    ensures q.valid ==> p.valid
  {
    if p.ev.values == [] || typ != BOOL_TYPE || firstUid == -1 || |p.ev.values| - 1 < firstUid then Fail(p)
    else
      var (b, q) := ReadByte(p);
      var fv := q.ev.values[firstUid];
      q.(ev := q.ev.(values := q.ev.values[firstUid := fv.(annotations := fv.annotations.(primary := b != 0))]))
  }

  function MarkExclusive(ev: Event, exclusive: bool): Event
    requires ev.values != []
  {
    SetLast(ev.(exclusiveIndex := |ev.values| - 1), LastAnnotations(ev).(exclusive := exclusive))
  }

  function ParseExclusiveState(p: Log, typ: Byte): (q: Log)
    ensures q.valid ==> p.valid
  {
    if typ != BOOL_TYPE || PastInt8(|p.ev.values|) then Fail(p)
    else
      var (b, q) := ReadByte(p);
      q.(ev := MarkExclusive(q.ev, b != 0))
  }

  function ParseTriggerStateReset(p: Log, typ: Byte): (q: Log)
    ensures q.valid ==> p.valid
  {
    if p.ev.values == [] || typ != INT32_TYPE then Fail(p)
    else
      var (v, q) := ReadInt32(p);
      q.(ev := q.ev.(resetState := v))
  }

  function ParseStateNested(p: Log, typ: Byte): (q: Log)
    ensures q.valid ==> p.valid
  {
    if p.ev.values == [] || typ != BOOL_TYPE then Fail(p)
    else
      var (b, q) := ReadByte(p);
      q.(ev := SetLast(q.ev, LastAnnotations(q.ev).(nested := b != 0)))
  }

  function ParseAnnotation(p: Log, id: Byte, typ: Byte, firstUid: int): (q: Log)
    requires KnownAnnotation(id) && -1 <= firstUid
    ensures q.valid ==> p.valid
  {
    if id == IS_UID then ParseIsUid(p, typ)
    else if id == TRUNCATE_TIMESTAMP then ParseTruncateTimestamp(p, typ)
    else if id == PRIMARY_FIELD then ParsePrimaryField(p, typ)
    else if id == PRIMARY_FIELD_FIRST_UID then ParsePrimaryFieldFirstUid(p, typ, firstUid)
    else if id == EXCLUSIVE_STATE then ParseExclusiveState(p, typ)
    else if id == TRIGGER_STATE_RESET then ParseTriggerStateReset(p, typ)
    else ParseStateNested(p, typ)
  }

  function ParseAnnotations(p: Log, n: nat, firstUid: int): (q: Log)
    requires -1 <= firstUid
    ensures q.valid ==> p.valid
    decreases n
  {
    if n == 0 then p
    else
      var (id, q) := ReadByte(p);
      var (typ, r) := ReadByte(q);
      if !KnownAnnotation(id) then Fail(r)
      else ParseAnnotations(ParseAnnotation(r, id, typ, firstUid), n - 1, firstUid)
  }

  // ---------- nested fields ----------

  /** The typed value of pair `i`; the last component of its path names the type. */
  function ParsePairValue(p: Log, p0: nat, i: nat, last1: bool): (q: Log)
    ensures q.valid ==> p.valid
  {
    var (typeInfo, r) := ReadByte(p);
    var t := TypeId(typeInfo);
    if t == INT32_TYPE then ParseInt32(r, 2, p0, i, 2, last1, 0)
    else if t == INT64_TYPE then ParseInt64(r, 2, p0, i, 3, last1, 0)
    else if t == STRING_TYPE then ParseBlob(r, 2, p0, i, 4, last1, 0, true)
    else if t == FLOAT_TYPE then ParseFloat(r, 2, p0, i, 5, last1, 0)
    else Fail(r)
  }

  /** Key and value of pair `i`. */
  function ParsePair(p: Log, p0: nat, i: nat, last1: bool): (q: Log)
    ensures q.valid ==> p.valid
  {
    ParsePairValue(ParseInt32(p, 2, p0, i, 1, last1, 0), p0, i, last1)
  }

  /** Pairs `i..n` of a key-value list. */
  function ParsePairs(p: Log, p0: nat, i: nat, n: nat): (q: Log)
    requires 1 <= i
    ensures q.valid ==> p.valid
    decreases n + 1 - i
  {
    if i > n then p else ParsePairs(ParsePair(p, p0, i, i == n), p0, i + 1, n)
  }

  function ParseKeyValuePairs(p: Log, p0: nat, numAnnotations: nat): (q: Log)
    ensures q.valid ==> p.valid
  {
    var (n, q) := ReadByte(p);
    ParseAnnotations(ParsePairs(q, p0, 1, n), numAnnotations, -1)
  }

  function ParseNode(p: Log, p0: nat, i: nat, last1: bool): (q: Log)
    ensures q.valid ==> p.valid
  {
    ParseBlob(ParseInt32(p, 2, p0, i, 1, last1, 0), 2, p0, i, 2, last1, 0, true)
  }

  /** Nodes `i..n` of an attribution chain. */
  function ParseNodes(p: Log, p0: nat, i: nat, n: nat): (q: Log)
    requires 1 <= i
    ensures q.valid ==> p.valid
    decreases n + 1 - i
  {
    if i > n then p else ParseNodes(ParseNode(p, p0, i, i == n), p0, i + 1, n)
  }

  /** The bookkeeping after the nodes of a chain that started at index `first`. */
  function EndChain(p: Log, first: nat): Log
  {
    var size := |p.ev.values|;
    if PastInt8(size) then Fail(p)
    else if size - 1 > first then p.(ev := p.ev.(chainStart := first, chainEnd := size - 1))
    else p
  }

  function ParseAttributionChain(p: Log, p0: nat, numAnnotations: nat): (q: Log)
    ensures q.valid ==> p.valid
  {
    var first := |p.ev.values|;
    var (n, q) := ReadByte(p);
    var r := EndChain(ParseNodes(q, p0, 1, n), first);
    if r.valid then ParseAnnotations(r, numAnnotations, first) else r
  }

  // ---------- the event ----------

  function ParseField(p: Log, p0: nat): (q: Log)
    ensures q.valid ==> p.valid
  {
    var (typeInfo, q) := ReadByte(p);
    var n := NumAnnotations(typeInfo);
    var t := TypeId(typeInfo);
    if t == BOOL_TYPE then ParseBool(q, 0, p0, 1, 1, false, n)
    else if t == INT32_TYPE then ParseInt32(q, 0, p0, 1, 1, false, n)
    else if t == INT64_TYPE then ParseInt64(q, 0, p0, 1, 1, false, n)
    else if t == FLOAT_TYPE then ParseFloat(q, 0, p0, 1, 1, false, n)
    else if t == BYTE_ARRAY_TYPE then ParseBlob(q, 0, p0, 1, 1, false, n, false)
    else if t == STRING_TYPE then ParseBlob(q, 0, p0, 1, 1, false, n, true)
    else if t == KEY_VALUE_PAIRS_TYPE then ParseKeyValuePairs(q, p0, n)
    else if t == ATTRIBUTION_CHAIN_TYPE then ParseAttributionChain(q, p0, n)
    else if t == ERROR_TYPE then Fail(ReadInt32(q).1)
    else Fail(q)
  }

  function ParseFields(p: Log, i: nat, n: nat): (q: Log)
    requires 1 <= i
    ensures q.valid ==> p.valid
    decreases n + 1 - i
  {
    if i > n || !p.valid then p else ParseFields(ParseField(p, i), i + 1, n)
  }

  function CheckType(p: Log, typeInfo: Byte, expected: Byte): Log
  {
    if TypeId(typeInfo) != expected then Fail(p) else p
  }

  /** Object type and number of elements. */
  function ParseCount(p: Log): (Log, Byte)
  {
    var (t, q) := ReadByte(p);
    var (n, r) := ReadByte(CheckType(q, t, OBJECT_TYPE));
    (if n < 2 || n > 127 then Fail(r) else r, n)
  }

  function ParseTimestamp(p: Log): (q: Log)
    ensures q.valid ==> p.valid
  {
    var (t, q) := ReadByte(p);
    var (ts, r) := ReadInt64(CheckType(q, t, INT64_TYPE));
    r.(ev := r.ev.(timestamp := ts))
  }

  function ParseStart(p: Log): (Log, Byte)
  {
    var (q, n) := ParseCount(p);
    (ParseTimestamp(q), n)
  }

  /** Atom id and atom-level annotations. */
  function ParseAtomId(p: Log): Log
  {
    var (t, q) := ReadByte(p);
    var (tag, r) := ReadInt32(CheckType(q, t, INT32_TYPE));
    ParseAnnotations(r.(ev := r.ev.(tag := tag)), NumAnnotations(t), -1)
  }

  /** The second result is the number of fields that follow, with its 8-bit wrap-around. */
  function ParseHeader(p: Log): (Log, nat)
  {
    var (q, n) := ParseStart(p);
    (ParseAtomId(q), (n - 2) % 256)
  }

  function Finish(p: Log): Log
  {
    if p.rest != [] then Fail(p) else p
  }

  /** The buffer length is kept in 32 bits. */
  function Unread(buf: seq<Byte>): seq<Byte>
  {
    buf[..|buf| % TWO32]
  }

  function ParseLog(p: Log): Log
  {
    var (h, n) := ParseHeader(p);
    Finish(ParseFields(h, 1, n))
  }

  function ParseBuffer(buf: seq<Byte>): Log
  {
    ParseLog(Log(Unread(buf), true, EMPTY_EVENT))
  }
}
