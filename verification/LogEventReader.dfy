/** `LogEvent` as the object it is: a cursor over a buffer, a validity flag and a list of values,
    all updated in place by the parse methods. Each method is proved to do what the parser
    functions of `LogParser` say. */
module LogEventReader {
  import opened Bits
  import opened FieldPath
  import opened LogParser

  class LogEvent {
    var buf: seq<Byte>
    var cursor: nat
    var remainingLen: nat
    ghost var inputLen: nat
    ghost var log: Log
    var valid: bool
    var values: seq<FieldValue>
    var timestamp: Int64
    var tag: Int32
    var truncateTimestamp: bool
    var resetState: Int32
    var uidIndex: int
    var chainStart: int
    var chainEnd: int
    var exclusiveIndex: int

    /** What has been read and what is left always add up to the input length; `log` is the
        parser state that the fields stand for. */
    ghost predicate Valid()
      reads this
    {
      && cursor + remainingLen == inputLen <= |buf|
      && log == Log(buf[cursor..inputLen], valid, Ev())
    }

    ghost predicate Same(b: seq<Byte>, n: nat)
      reads this
    {
      buf == b && inputLen == n
    }

    ghost function Ev(): Event
      reads this
    {
      Event(tag, timestamp, values, truncateTimestamp, resetState, uidIndex, chainStart, chainEnd, exclusiveIndex)
    }

    constructor ()
      ensures Valid() && buf == [] && valid && Ev() == EMPTY_EVENT
    {
      buf, cursor, remainingLen, inputLen, valid := [], 0, 0, 0, true;
      values, timestamp, tag, truncateTimestamp, resetState := [], 0, 0, false, -1;
      uidIndex, chainStart, chainEnd, exclusiveIndex := -1, -1, -1, -1;
      log := Log([], true, EMPTY_EVENT);
    }

    method ReadNextByte() returns (v: Byte)
      requires Valid()
      modifies this
      ensures Valid() && Same(old(buf), old(inputLen))
      ensures (v, log) == ReadByte(old(log))
    {
      if remainingLen < 1 {
        valid := false;
        log := Fail(log);
        v := 0;
      } else {
        v := buf[cursor];
        cursor, remainingLen := cursor + 1, remainingLen - 1;
        log := log.(rest := log.rest[1..]);
      }
    }

    method ReadNextUInt32() returns (v: UInt32)
      requires Valid()
      modifies this
      ensures Valid() && Same(old(buf), old(inputLen))
      ensures (v, log) == Read32(old(log))
    {
      if remainingLen < 4 {
        valid := false;
        log := Fail(log);
        v := 0;
      } else {
        assert log.rest[..4] == buf[cursor..cursor + 4];
        Patterns32(buf[cursor..cursor + 4]);
        v := FromLE(buf[cursor..cursor + 4]);
        cursor, remainingLen := cursor + 4, remainingLen - 4;
        log := log.(rest := log.rest[4..]);
      }
    }

    method ReadNextInt32() returns (v: Int32)
      requires Valid()
      modifies this
      ensures Valid() && Same(old(buf), old(inputLen))
      ensures (v, log) == ReadInt32(old(log))
    {
      var u := ReadNextUInt32();
      v := ToInt32(u);
    }

    method ReadNextInt64() returns (v: Int64)
      requires Valid()
      modifies this
      ensures Valid() && Same(old(buf), old(inputLen))
      ensures (v, log) == ReadInt64(old(log))
    {
      if remainingLen < 8 {
        valid := false;
        log := Fail(log);
        v := 0;
      } else {
        assert log.rest[..8] == buf[cursor..cursor + 8];
        Patterns64(buf[cursor..cursor + 8]);
        v := ToInt64(FromLE(buf[cursor..cursor + 8]));
        cursor, remainingLen := cursor + 8, remainingLen - 8;
        log := log.(rest := log.rest[8..]);
      }
    }

    /** Positions fit in a byte. */
    ghost predicate Positions(pos: array<nat>)
      reads pos
    {
      pos.Length == 3 && pos[0] < 256 && pos[1] < 256 && pos[2] < 256
    }

    /** The encoded path, with a mark on the last item of every level between the first and the last. */
    method EncodePath(pos: array<nat>, depth: nat, last: array<bool>) returns (w: Word)
      requires Positions(pos) && last.Length == 3 && depth <= MAX_LOG_DEPTH
      ensures w == PathAt(depth, pos[0], pos[1], pos[2], last[1])
    {
      assert pos[..] == [pos[0], pos[1], pos[2]];
      var f := GetEncodedField(pos[..], depth, true);
      ghost var f0 := f;
      EncodedPath(pos[..], depth, last[1]);
      var i := 1;
      while i < depth
        invariant 1 <= i <= 2 && (i == 2 ==> depth == 2)
        invariant f == if i == 2 && last[1] then NumberDecorated(f0, 1) else f0
      {
        if last[i] {
          f := NumberDecorated(f, i);
        }
        i := i + 1;
      }
      w := WordOf(f);
    }

    method AddToValues(pos: array<nat>, depth: nat, value: Value, last: array<bool>)
      requires Valid() && Positions(pos) && last.Length == 3 && depth <= MAX_LOG_DEPTH
      modifies this`values, this`log
      ensures Valid()
      ensures log == Add(old(log), depth, pos[0], pos[1], pos[2], value, last[1])
    {
      var w := EncodePath(pos, depth, last);
      values := values + [FieldValue(Field(tag, w), value, DEFAULT_ANNOTATIONS)];
      log := Add(log, depth, pos[0], pos[1], pos[2], value, last[1]);
    }

    method SetLastAnnotations(a: Annotations)
      requires Valid() && values != []
      modifies this`values, this`log
      ensures Valid()
      ensures log == old(log).(ev := SetLast(old(Ev()), a))
    {
      var i := |values| - 1;
      values := values[i := values[i].(annotations := a)];
      log := log.(ev := SetLast(log.ev, a));
    }

    method StoreUid(isUid: bool)
      requires Valid() && values != []
      modifies this`values, this`uidIndex, this`log
      ensures Valid() && log == old(log).(ev := MarkUid(old(log).ev, isUid))
    {
      var i := |values| - 1;
      if isUid {
        uidIndex := i;
      }
      values := values[i := values[i].(annotations := values[i].annotations.(uid := isUid))];
      log := log.(ev := Ev());
    }

    method ReadIsUid(annotationType: Byte)
      requires Valid()
      modifies this
      ensures Valid() && Same(old(buf), old(inputLen))
      ensures log == ParseIsUid(old(log), annotationType)
    {
      if PastInt8(|values|) || !values[|values| - 1].value.IntV? || annotationType != BOOL_TYPE {
        valid := false;
        log := Fail(log);
        return;
      }
      var isUid := ReadNextByte();
      StoreUid(isUid != 0);
    }

    method ReadTruncateTimestamp(annotationType: Byte)
      requires Valid()
      modifies this
      ensures Valid() && Same(old(buf), old(inputLen))
      ensures log == ParseTruncateTimestamp(old(log), annotationType)
    {
      if |values| != 0 || annotationType != BOOL_TYPE {
        valid := false;
        log := Fail(log);
        return;
      }
      var b := ReadNextByte();
      truncateTimestamp := b != 0;
      log := log.(ev := log.ev.(truncateTimestamp := b != 0));
    }

    method ReadPrimaryField(annotationType: Byte)
      requires Valid()
      modifies this
      ensures Valid() && Same(old(buf), old(inputLen))
      ensures log == ParsePrimaryField(old(log), annotationType)
    {
      if |values| == 0 || annotationType != BOOL_TYPE {
        valid := false;
        log := Fail(log);
        return;
      }
      var b := ReadNextByte();
      SetLastAnnotations(values[|values| - 1].annotations.(primary := b != 0));
    }

    method ReadPrimaryFieldFirstUid(annotationType: Byte, firstUidInChainIndex: int)
      requires Valid() && -1 <= firstUidInChainIndex
      modifies this
      ensures Valid() && Same(old(buf), old(inputLen))
      ensures log == ParsePrimaryFieldFirstUid(old(log), annotationType, firstUidInChainIndex)
    {
      if |values| == 0 || annotationType != BOOL_TYPE || -1 == firstUidInChainIndex {
        valid := false;
        log := Fail(log);
        return;
      }
      if |values| - 1 < firstUidInChainIndex {
        valid := false;
        log := Fail(log);
        return;
      }
      var b := ReadNextByte();
      var fv := values[firstUidInChainIndex];
      values := values[firstUidInChainIndex := fv.(annotations := fv.annotations.(primary := b != 0))];
      log := log.(ev := log.ev.(values := values));
    }

    method StoreExclusive(exclusive: bool)
      requires Valid() && values != []
      modifies this`values, this`exclusiveIndex, this`log
      ensures Valid() && log == old(log).(ev := MarkExclusive(old(log).ev, exclusive))
    {
      var i := |values| - 1;
      exclusiveIndex := i;
      values := values[i := values[i].(annotations := values[i].annotations.(exclusive := exclusive))];
      log := log.(ev := Ev());
    }

    method ReadExclusiveState(annotationType: Byte)
      requires Valid()
      modifies this
      ensures Valid() && Same(old(buf), old(inputLen))
      ensures log == ParseExclusiveState(old(log), annotationType)
    {
      if |values| == 0 || annotationType != BOOL_TYPE {
        valid := false;
        log := Fail(log);
        return;
      }
      if PastInt8(|values|) {
        valid := false;
        log := Fail(log);
        return;
      }
      var b := ReadNextByte();
      StoreExclusive(b != 0);
    }

    method ReadTriggerStateReset(annotationType: Byte)
      requires Valid()
      modifies this
      ensures Valid() && Same(old(buf), old(inputLen))
      ensures log == ParseTriggerStateReset(old(log), annotationType)
    {
      if |values| == 0 || annotationType != INT32_TYPE {
        valid := false;
        log := Fail(log);
        return;
      }
      resetState := ReadNextInt32();
      log := log.(ev := log.ev.(resetState := resetState));
    }

    method ReadStateNested(annotationType: Byte)
      requires Valid()
      modifies this
      ensures Valid() && Same(old(buf), old(inputLen))
      ensures log == ParseStateNested(old(log), annotationType)
    {
      if |values| == 0 || annotationType != BOOL_TYPE {
        valid := false;
        log := Fail(log);
        return;
      }
      var b := ReadNextByte();
      SetLastAnnotations(values[|values| - 1].annotations.(nested := b != 0));
    }

    method ReadAnnotation(id: Byte, annotationType: Byte, firstUidInChainIndex: int)
      requires Valid() && KnownAnnotation(id) && -1 <= firstUidInChainIndex
      modifies this
      ensures Valid() && Same(old(buf), old(inputLen))
      ensures log == ParseAnnotation(old(log), id, annotationType, firstUidInChainIndex)
    {
      if id == IS_UID {
        ReadIsUid(annotationType);
      } else if id == TRUNCATE_TIMESTAMP {
        ReadTruncateTimestamp(annotationType);
      } else if id == PRIMARY_FIELD {
        ReadPrimaryField(annotationType);
      } else if id == PRIMARY_FIELD_FIRST_UID {
        ReadPrimaryFieldFirstUid(annotationType, firstUidInChainIndex);
      } else if id == EXCLUSIVE_STATE {
        ReadExclusiveState(annotationType);
      } else if id == TRIGGER_STATE_RESET {
        ReadTriggerStateReset(annotationType);
      } else {
        ReadStateNested(annotationType);
      }
    }

    method ReadAnnotations(numAnnotations: nat, firstUidInChainIndex: int)
      requires Valid() && -1 <= firstUidInChainIndex
      modifies this
      ensures Valid() && Same(old(buf), old(inputLen))
      ensures log == ParseAnnotations(old(log), numAnnotations, firstUidInChainIndex)
    {
      for i := 0 to numAnnotations
        invariant Valid() && Same(old(buf), old(inputLen))
        invariant ParseAnnotations(log, numAnnotations - i, firstUidInChainIndex)
               == ParseAnnotations(old(log), numAnnotations, firstUidInChainIndex)
      {
        var annotationId := ReadNextByte();
        var annotationType := ReadNextByte();
        if KnownAnnotation(annotationId) {
          ReadAnnotation(annotationId, annotationType, firstUidInChainIndex);
        } else {
          valid := false;
          log := Fail(log);
          return;
        }
      }
    }

    method ReadInt32Field(pos: array<nat>, depth: nat, last: array<bool>, numAnnotations: nat)
      requires Valid() && Positions(pos) && last.Length == 3 && depth <= MAX_LOG_DEPTH
      modifies this
      ensures Valid() && Same(old(buf), old(inputLen))
      ensures log == ParseInt32(old(log), depth, pos[0], pos[1], pos[2], last[1], numAnnotations)
    {
      var value := ReadNextInt32();
      AddToValues(pos, depth, IntV(value), last);
      ReadAnnotations(numAnnotations, -1);
    }

    method ReadInt64Field(pos: array<nat>, depth: nat, last: array<bool>, numAnnotations: nat)
      requires Valid() && Positions(pos) && last.Length == 3 && depth <= MAX_LOG_DEPTH
      modifies this
      ensures Valid() && Same(old(buf), old(inputLen))
      ensures log == ParseInt64(old(log), depth, pos[0], pos[1], pos[2], last[1], numAnnotations)
    {
      var value := ReadNextInt64();
      AddToValues(pos, depth, LongV(value), last);
      ReadAnnotations(numAnnotations, -1);
    }

    method ReadFloatField(pos: array<nat>, depth: nat, last: array<bool>, numAnnotations: nat)
      requires Valid() && Positions(pos) && last.Length == 3 && depth <= MAX_LOG_DEPTH
      modifies this
      ensures Valid() && Same(old(buf), old(inputLen))
      ensures log == ParseFloat(old(log), depth, pos[0], pos[1], pos[2], last[1], numAnnotations)
    {
      var value := ReadNextUInt32();
      AddToValues(pos, depth, FloatV(value), last);
      ReadAnnotations(numAnnotations, -1);
    }

    method ReadBoolField(pos: array<nat>, depth: nat, last: array<bool>, numAnnotations: nat)
      requires Valid() && Positions(pos) && last.Length == 3 && depth <= MAX_LOG_DEPTH
      modifies this
      ensures Valid() && Same(old(buf), old(inputLen))
      ensures log == ParseBool(old(log), depth, pos[0], pos[1], pos[2], last[1], numAnnotations)
    {
      var value := ReadNextByte();
      AddToValues(pos, depth, IntV(value), last);
      ReadAnnotations(numAnnotations, -1);
    }

    method TakeBytes(numBytes: nat) returns (bytes: seq<Byte>)
      requires Valid() && numBytes <= remainingLen
      modifies this`cursor, this`remainingLen, this`log
      ensures Valid() && bytes == old(log).rest[..numBytes]
      ensures log == old(log).(rest := old(log).rest[numBytes..])
    {
      bytes := buf[cursor..cursor + numBytes];
      cursor, remainingLen := cursor + numBytes, remainingLen - numBytes;
      log := log.(rest := log.rest[numBytes..]);
    }

    method ReadBlobField(pos: array<nat>, depth: nat, last: array<bool>, numAnnotations: nat, isString: bool)
      requires Valid() && Positions(pos) && last.Length == 3 && depth <= MAX_LOG_DEPTH
      modifies this
      ensures Valid() && Same(old(buf), old(inputLen))
      ensures log == ParseBlob(old(log), depth, pos[0], pos[1], pos[2], last[1], numAnnotations, isString)
    {
      var numBytes := ReadNextUInt32();
      if numBytes > remainingLen {
        valid := false;
        log := Fail(log);
        return;
      }
      var bytes := TakeBytes(numBytes);
      AddToValues(pos, depth, if isString then StrV(bytes) else StorageV(bytes), last);
      ReadAnnotations(numAnnotations, -1);
    }

    method ReadPairValue(pos: array<nat>, last: array<bool>)
      requires Valid() && Positions(pos) && last.Length == 3
      modifies this, pos
      ensures Valid() && Same(old(buf), old(inputLen))
      ensures log == ParsePairValue(old(log), old(pos[0]), old(pos[1]), last[1])
      ensures pos[0] == old(pos[0]) && pos[1] == old(pos[1])
    {
      var typeInfo := ReadNextByte();
      var t := TypeId(typeInfo);
      if t == INT32_TYPE {
        pos[2] := 2;
        ReadInt32Field(pos, 2, last, 0);
      } else if t == INT64_TYPE {
        pos[2] := 3;
        ReadInt64Field(pos, 2, last, 0);
      } else if t == STRING_TYPE {
        pos[2] := 4;
        ReadBlobField(pos, 2, last, 0, true);
      } else if t == FLOAT_TYPE {
        pos[2] := 5;
        ReadFloatField(pos, 2, last, 0);
      } else {
        valid := false;
        log := Fail(log);
      }
    }

    method ReadPair(pos: array<nat>, last: array<bool>)
      requires Valid() && pos.Length == 3 && pos[0] < 256 && pos[1] < 256 && last.Length == 3
      modifies this, pos, last
      ensures Valid() && Same(old(buf), old(inputLen))
      ensures log == ParsePair(old(log), old(pos[0]), old(pos[1]), old(last[1]))
      ensures pos[0] == old(pos[0]) && pos[1] == old(pos[1]) && last[0] == old(last[0])
    {
      pos[2] := 1;
      ReadInt32Field(pos, 2, last, 0);
      last[2] := true;
      ReadPairValue(pos, last);
    }

    /** One round of the pair loop: what is left to parse leads to the same `end`. */
    method ReadNextPair(pos: array<nat>, last: array<bool>, numPairs: nat, ghost end: Log)
      requires Valid() && pos.Length == 3 && pos[0] < 256 && last.Length == 3
      requires 1 <= pos[1] <= numPairs < 256 && ParsePairs(log, pos[0], pos[1], numPairs) == end
      modifies this, pos, last
      ensures Valid() && Same(old(buf), old(inputLen))
      ensures pos[0] == old(pos[0]) && pos[1] == old(pos[1]) + 1 && last[0] == old(last[0])
      ensures ParsePairs(log, pos[0], pos[1], numPairs) == end
    {
      last[1] := pos[1] == numPairs;
      ReadPair(pos, last);
      pos[1] := pos[1] + 1;
    }

    method ReadPairs(pos: array<nat>, last: array<bool>, numPairs: int)
      requires Valid() && pos.Length == 3 && pos[0] < 256 && last.Length == 3 && 0 <= numPairs < 256
      modifies this, pos, last
      ensures Valid() && Same(old(buf), old(inputLen))
      ensures log == ParsePairs(old(log), old(pos[0]), 1, numPairs)
      ensures pos[0] == old(pos[0]) && last[0] == old(last[0])
    {
      pos[1] := 1;
      ghost var end := ParsePairs(log, pos[0], 1, numPairs);
      while pos[1] <= numPairs
        invariant Valid() && Same(old(buf), old(inputLen)) && pos[0] == old(pos[0]) && last[0] == old(last[0])
        invariant 1 <= pos[1] <= numPairs + 1
        invariant ParsePairs(log, pos[0], pos[1], numPairs) == end
        decreases numPairs + 1 - pos[1]
      {
        ReadNextPair(pos, last, numPairs, end);
      }
    }

    method ReadKeyValuePairs(pos: array<nat>, last: array<bool>, numAnnotations: nat)
      requires Valid() && pos.Length == 3 && pos[0] < 256 && last.Length == 3
      modifies this, pos, last
      ensures Valid() && Same(old(buf), old(inputLen))
      ensures log == ParseKeyValuePairs(old(log), old(pos[0]), numAnnotations)
      ensures pos[0] == old(pos[0]) && pos[1] == 1 && pos[2] == 1
      ensures last[0] == old(last[0]) && !last[1] && !last[2]
    {
      var numPairs := ReadNextByte();
      ReadPairs(pos, last, numPairs);
      ReadAnnotations(numAnnotations, -1);
      pos[1], pos[2] := 1, 1;
      last[1], last[2] := false, false;
    }

    method ReadNode(pos: array<nat>, last: array<bool>)
      requires Valid() && pos.Length == 3 && pos[0] < 256 && pos[1] < 256 && last.Length == 3
      modifies this, pos, last
      ensures Valid() && Same(old(buf), old(inputLen))
      ensures log == ParseNode(old(log), old(pos[0]), old(pos[1]), old(last[1]))
      ensures pos[0] == old(pos[0]) && pos[1] == old(pos[1]) && last[0] == old(last[0])
    {
      pos[2] := 1;
      ReadInt32Field(pos, 2, last, 0);
      pos[2] := 2;
      last[2] := true;
      ReadBlobField(pos, 2, last, 0, true);
    }

    /** One round of the node loop: what is left to parse leads to the same `end`. */
    method ReadNextNode(pos: array<nat>, last: array<bool>, numNodes: nat, ghost end: Log)
      requires Valid() && pos.Length == 3 && pos[0] < 256 && last.Length == 3
      requires 1 <= pos[1] <= numNodes < 256 && ParseNodes(log, pos[0], pos[1], numNodes) == end
      modifies this, pos, last
      ensures Valid() && Same(old(buf), old(inputLen))
      ensures pos[0] == old(pos[0]) && pos[1] == old(pos[1]) + 1 && last[0] == old(last[0])
      ensures ParseNodes(log, pos[0], pos[1], numNodes) == end
    {
      last[1] := pos[1] == numNodes;
      ReadNode(pos, last);
      pos[1] := pos[1] + 1;
    }

    method ReadNodes(pos: array<nat>, last: array<bool>, numNodes: int)
      requires Valid() && pos.Length == 3 && pos[0] < 256 && last.Length == 3 && 0 <= numNodes < 256
      modifies this, pos, last
      ensures Valid() && Same(old(buf), old(inputLen))
      ensures log == ParseNodes(old(log), old(pos[0]), 1, numNodes)
      ensures pos[0] == old(pos[0]) && last[0] == old(last[0])
    {
      pos[1] := 1;
      ghost var end := ParseNodes(log, pos[0], 1, numNodes);
      while pos[1] <= numNodes
        invariant Valid() && Same(old(buf), old(inputLen)) && pos[0] == old(pos[0]) && last[0] == old(last[0])
        invariant 1 <= pos[1] <= numNodes + 1
        invariant ParseNodes(log, pos[0], pos[1], numNodes) == end
        decreases numNodes + 1 - pos[1]
      {
        ReadNextNode(pos, last, numNodes, end);
      }
    }

    method RecordChain(firstUidInChainIndex: nat)
      requires Valid()
      modifies this
      ensures Valid() && Same(old(buf), old(inputLen))
      ensures log == EndChain(old(log), firstUidInChainIndex)
    {
      if PastInt8(|values|) {
        valid := false;
      } else if |values| - 1 > firstUidInChainIndex {
        chainStart, chainEnd := firstUidInChainIndex, |values| - 1;
      }
      log := EndChain(log, firstUidInChainIndex);
    }

    method ReadAttributionChain(pos: array<nat>, last: array<bool>, numAnnotations: nat)
      requires Valid() && pos.Length == 3 && pos[0] < 256 && last.Length == 3
      modifies this, pos, last
      ensures Valid() && Same(old(buf), old(inputLen))
      ensures log == ParseAttributionChain(old(log), old(pos[0]), numAnnotations)
      ensures pos[0] == old(pos[0]) && pos[1] == 1 && pos[2] == 1
      ensures last[0] == old(last[0]) && !last[1] && !last[2]
    {
      var firstUidInChainIndex := |values|;
      var numNodes := ReadNextByte();
      ReadNodes(pos, last, numNodes);
      RecordChain(firstUidInChainIndex);
      if valid {
        ReadAnnotations(numAnnotations, firstUidInChainIndex);
      }
      pos[1], pos[2] := 1, 1;
      last[1], last[2] := false, false;
    }

    method ReadField(pos: array<nat>, last: array<bool>)
      requires Valid() && Positions(pos) && last.Length == 3 && pos[1] == 1 && pos[2] == 1 && !last[1]
      modifies this, pos, last
      ensures Valid() && Same(old(buf), old(inputLen))
      ensures log == ParseField(old(log), old(pos[0]))
      ensures pos[0] == old(pos[0]) && pos[1] == 1 && pos[2] == 1 && !last[1]
    {
      var typeInfo := ReadNextByte();
      var t, n := TypeId(typeInfo), NumAnnotations(typeInfo);
      if t == BOOL_TYPE {
        ReadBoolField(pos, 0, last, n);
      } else if t == INT32_TYPE {
        ReadInt32Field(pos, 0, last, n);
      } else if t == INT64_TYPE {
        ReadInt64Field(pos, 0, last, n);
      } else if t == FLOAT_TYPE {
        ReadFloatField(pos, 0, last, n);
      } else if t == BYTE_ARRAY_TYPE {
        ReadBlobField(pos, 0, last, n, false);
      } else if t == STRING_TYPE {
        ReadBlobField(pos, 0, last, n, true);
      } else if t == KEY_VALUE_PAIRS_TYPE {
        ReadKeyValuePairs(pos, last, n);
      } else if t == ATTRIBUTION_CHAIN_TYPE {
        ReadAttributionChain(pos, last, n);
      } else if t == ERROR_TYPE {
        var _ := ReadNextInt32();
        valid := false;
        log := Fail(log);
      } else {
        valid := false;
        log := Fail(log);
      }
    }

    method ReadTypeInfo(expected: Byte) returns (typeInfo: Byte)
      requires Valid()
      modifies this
      ensures Valid() && Same(old(buf), old(inputLen))
      ensures typeInfo == ReadByte(old(log)).0
      ensures log == CheckType(ReadByte(old(log)).1, typeInfo, expected)
    {
      typeInfo := ReadNextByte();
      if TypeId(typeInfo) != expected { valid := false; log := Fail(log); }
    }

    method ReadCount() returns (numElements: Byte)
      requires Valid()
      modifies this
      ensures Valid() && Same(old(buf), old(inputLen))
      ensures (log, numElements) == ParseCount(old(log))
    {
      var _ := ReadTypeInfo(OBJECT_TYPE);
      numElements := ReadNextByte();
      if numElements < 2 || numElements > 127 { valid := false; log := Fail(log); }
    }

    method ReadTimestamp()
      requires Valid()
      modifies this
      ensures Valid() && Same(old(buf), old(inputLen))
      ensures log == ParseTimestamp(old(log))
    {
      var _ := ReadTypeInfo(INT64_TYPE);
      timestamp := ReadNextInt64();
      log := log.(ev := log.ev.(timestamp := timestamp));
    }

    method ReadAtomId()
      requires Valid()
      modifies this
      ensures Valid() && Same(old(buf), old(inputLen))
      ensures log == ParseAtomId(old(log))
    {
      var typeInfo := ReadTypeInfo(INT32_TYPE);
      tag := ReadNextInt32();
      log := log.(ev := log.ev.(tag := tag));
      ReadAnnotations(NumAnnotations(typeInfo), -1);
    }

    method ReadHeader() returns (numElements: nat)
      requires Valid()
      modifies this
      ensures Valid() && Same(old(buf), old(inputLen))
      ensures (log, numElements) == ParseHeader(old(log)) && numElements < 256
    {
      var n: int := ReadCount();
      ReadTimestamp();
      ReadAtomId();
      numElements := (n - 2) % 256;
    }

    method CheckConsumed()
      requires Valid()
      modifies this
      ensures Valid() && Same(old(buf), old(inputLen)) && log == Finish(old(log))
    {
      if remainingLen != 0 { valid := false; log := Fail(log); }
    }

    /** One round of the field loop: what is left to parse leads to the same `end`. */
    method ReadNextField(pos: array<nat>, last: array<bool>, numElements: nat, ghost end: Log)
      requires numElements < 256
      requires Valid() && pos.Length == 3 && last.Length == 3 && pos[1] == 1 && pos[2] == 1 && !last[1]
      requires 1 <= pos[0] <= numElements && valid && ParseFields(log, pos[0], numElements) == end
      modifies this, pos, last
      ensures Valid() && Same(old(buf), old(inputLen))
      ensures pos[0] == old(pos[0]) + 1 && pos[1] == 1 && pos[2] == 1 && !last[1]
      ensures ParseFields(log, pos[0], numElements) == end
    {
      last[0] := pos[0] == numElements;
      ReadField(pos, last);
      pos[0] := pos[0] + 1;
    }

    method ReadFields(pos: array<nat>, last: array<bool>, numElements: nat)
      requires numElements < 256
      requires Valid() && pos.Length == 3 && last.Length == 3
      requires pos[0] == 1 && pos[1] == 1 && pos[2] == 1 && !last[1]
      modifies this, pos, last
      ensures Valid() && Same(old(buf), old(inputLen))
      ensures log == ParseFields(old(log), 1, numElements)
    {
      ghost var end := ParseFields(log, 1, numElements);
      while pos[0] <= numElements && valid
        invariant Valid() && Same(old(buf), old(inputLen)) && pos[1] == 1 && pos[2] == 1 && !last[1]
        invariant 1 <= pos[0] <= numElements + 1
        invariant ParseFields(log, pos[0], numElements) == end
        decreases numElements + 1 - pos[0]
      {
        ReadNextField(pos, last, numElements, end);
      }
    }

    method Begin(bytes: seq<Byte>)
      modifies this
      ensures Valid() && Same(bytes, |bytes| % TWO32)
      ensures log == Log(Unread(bytes), old(valid), old(Ev()))
    {
      buf, cursor, remainingLen, inputLen := bytes, 0, |bytes| % TWO32, |bytes| % TWO32;
      log := Log(Unread(bytes), valid, Ev());
      assert Unread(bytes) == buf[cursor..inputLen];
    }

    /** Parses a whole buffer; the answer and everything stored are what `ParseLog` says, and
        the cursor and the remaining length still add up to the (32-bit) input length. */
    method ParseBytes(bytes: seq<Byte>) returns (ok: bool)
      modifies this
      ensures Valid() && Same(bytes, |bytes| % TWO32)
      ensures log == ParseLog(Log(Unread(bytes), old(valid), old(Ev()))) && ok == valid
    {
      Begin(bytes);
      var n := ReadHeader();
      var pos := new nat[3](_ => 1);
      var last := new bool[3](_ => false);
      ReadFields(pos, last, n);
      CheckConsumed();
      ok := valid;
    }
  }
}
