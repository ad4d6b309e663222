/** `AStatsEvent` as the record it is: a growing byte buffer and counters, updated in place.
    Each call is proved to do what the writer functions of `EventWriter` say. */
module StatsEventBuffer {
  import opened Bits
  import opened LogParser
  import opened EventWriter

  class StatsEvent {
    var buf: array<Byte>
    var lastFieldPos: nat
    var numBytesWritten: nat
    var numElements: nat
    var atomId: UInt32
    var errors: nat
    var built: bool
    ghost var ev: Ev

    ghost predicate Valid()
      reads this, buf
    {
      && MAX_PUSH_EVENT_PAYLOAD <= buf.Length <= MAX_PULL_EVENT_PAYLOAD
      && numBytesWritten <= buf.Length
      && ev == Ev(buf[..numBytesWritten], lastFieldPos, numElements, atomId, errors)
      && (forall i :: numBytesWritten <= i < END_ATOM_ID ==> buf[i] == 0)
    }

    constructor (timestamp: Int64)
      ensures Valid() && fresh(buf) && ev == Obtain(timestamp) && !built
    {
      lastFieldPos, numBytesWritten, numElements, atomId, errors, built := 0, 2, 0, 0, 0, false;
      buf := new Byte[MAX_PUSH_EVENT_PAYLOAD](_ => 0);
      new;
      buf[0] := OBJECT_TYPE;
      ev := Ev([OBJECT_TYPE, 0], 0, 0, 0, 0);
      assert buf[..2] == [OBJECT_TYPE, 0];
      WriteInt64(timestamp);
    }

    /** Answers whether `size` more bytes would pass the limit; otherwise makes room for them. */
    method Overflows(size: nat) returns (r: bool)
      requires Valid()
      modifies this
      ensures Valid() && (buf == old(buf) || fresh(buf)) && built == old(built)
      ensures r <==> |old(ev).bytes| + size > MAX_PULL_EVENT_PAYLOAD
      ensures r ==> ev == WithError(old(ev), ERROR_OVERFLOW)
      ensures !r ==> ev == old(ev) && numBytesWritten + size <= buf.Length
    {
      var totalBytesNeeded := numBytesWritten + size;
      if totalBytesNeeded > MAX_PULL_EVENT_PAYLOAD {
        errors := Or(errors, ERROR_OVERFLOW);
        ev := WithError(ev, ERROR_OVERFLOW);
        return true;
      }
      if buf.Length < MAX_PULL_EVENT_PAYLOAD && totalBytesNeeded > buf.Length {
        var bufSize := 2 * buf.Length;
        while bufSize <= totalBytesNeeded
          invariant bufSize > buf.Length
          decreases totalBytesNeeded - bufSize
        {
          bufSize := 2 * bufSize;
        }
        if bufSize > MAX_PULL_EVENT_PAYLOAD {
          bufSize := MAX_PULL_EVENT_PAYLOAD;
        }
        Realloc(bufSize);
      }
      return false;
    }

    method Realloc(bufSize: nat)
      requires Valid() && buf.Length <= bufSize <= MAX_PULL_EVENT_PAYLOAD
      modifies this
      ensures Valid() && fresh(buf) && buf.Length == bufSize && ev == old(ev) && built == old(built)
      ensures numBytesWritten == old(numBytesWritten)
    {
      var grown := new Byte[bufSize](_ => 0);
      forall i | 0 <= i < buf.Length {
        grown[i] := buf[i];
      }
      assert grown[..numBytesWritten] == buf[..numBytesWritten];
      buf := grown;
    }

    method AppendBytes(bytes: seq<Byte>)
      requires Valid()
      modifies this, buf
      ensures Valid() && (buf == old(buf) || fresh(buf)) && built == old(built)
      ensures ev == Append(old(ev), bytes)
    {
      var full := Overflows(|bytes|);
      if !full {
        Copy(bytes);
      }
    }

    method Copy(bytes: seq<Byte>)
      requires Valid() && numBytesWritten + |bytes| <= buf.Length
      modifies this, buf
      ensures Valid() && buf == old(buf) && built == old(built)
      ensures ev == old(ev).(bytes := old(ev).bytes + bytes)
    {
      var n := numBytesWritten;
      forall i | 0 <= i < |bytes| {
        buf[n + i] := bytes[i];
      }
      numBytesWritten := n + |bytes|;
      assert buf[..n + |bytes|] == old(ev).bytes + bytes;
      ev := ev.(bytes := ev.bytes + bytes);
    }

    method Start(typeId: Byte)
      requires Valid()
      modifies this, buf
      ensures Valid() && (buf == old(buf) || fresh(buf)) && built == old(built)
      ensures ev == StartField(old(ev), typeId)
    {
      lastFieldPos := numBytesWritten;
      ev := ev.(lastFieldPos := |ev.bytes|);
      AppendBytes([typeId]);
      numElements := numElements + 1;
      ev := ev.(numElements := ev.numElements + 1);
    }

    method AppendChars(chars: seq<Byte>)
      requires Valid()
      modifies this, buf
      ensures Valid() && (buf == old(buf) || fresh(buf)) && built == old(built)
      ensures ev == AppendString(old(ev), chars)
    {
      var size := StrLen(chars);
      if size >= MAX_PULL_EVENT_PAYLOAD {
        errors := Or(errors, ERROR_STRING_NOT_NULL_TERMINATED);
        ev := WithError(ev, ERROR_STRING_NOT_NULL_TERMINATED);
        return;
      }
      AppendBytes(Bytes32(size));
      AppendBytes(chars[..size]);
    }

    method WriteInt32(value: Int32)
      requires Valid()
      modifies this, buf
      ensures Valid() && (buf == old(buf) || fresh(buf)) && built == old(built)
      ensures ev == WriteElem(old(ev), Int32E(value))
    {
      Start(INT32_TYPE);
      AppendBytes(Bytes32(value));
    }

    method WriteInt64(value: Int64)
      requires Valid()
      modifies this, buf
      ensures Valid() && (buf == old(buf) || fresh(buf)) && built == old(built)
      ensures ev == WriteElem(old(ev), Int64E(value))
    {
      Start(INT64_TYPE);
      AppendBytes(Bytes64(value));
    }

    method WriteFloat(bits: UInt32)
      requires Valid()
      modifies this, buf
      ensures Valid() && (buf == old(buf) || fresh(buf)) && built == old(built)
      ensures ev == WriteElem(old(ev), FloatE(bits))
    {
      Start(FLOAT_TYPE);
      AppendBytes(Bytes32(bits));
    }

    method WriteBool(value: bool)
      requires Valid()
      modifies this, buf
      ensures Valid() && (buf == old(buf) || fresh(buf)) && built == old(built)
      ensures ev == WriteElem(old(ev), BoolE(value))
    {
      Start(BOOL_TYPE);
      AppendBytes([BoolByte(value)]);
    }

    method WriteByteArray(bytes: seq<Byte>)
      requires Valid()
      modifies this, buf
      ensures Valid() && (buf == old(buf) || fresh(buf)) && built == old(built)
      ensures ev == WriteElem(old(ev), BytesE(bytes))
    {
      Start(BYTE_ARRAY_TYPE);
      AppendBytes(Bytes32(|bytes|));
      if |bytes| > 0 {
        AppendBytes(bytes);
      }
    }

    method WriteString(chars: seq<Byte>)
      requires Valid()
      modifies this, buf
      ensures Valid() && (buf == old(buf) || fresh(buf)) && built == old(built)
      ensures ev == WriteElem(old(ev), StringE(chars))
    {
      Start(STRING_TYPE);
      AppendChars(chars);
    }

    method WriteAttributionChain(nodes: seq<Node>)
      requires Valid()
      modifies this, buf
      ensures Valid() && (buf == old(buf) || fresh(buf)) && built == old(built)
      ensures ev == WriteElem(old(ev), ChainE(nodes))
    {
      if |nodes| > MAX_BYTE_VALUE {
        errors := Or(errors, ERROR_ATTRIBUTION_CHAIN_TOO_LONG);
        ev := WithError(ev, ERROR_ATTRIBUTION_CHAIN_TOO_LONG);
        return;
      }
      Start(ATTRIBUTION_CHAIN_TYPE);
      AppendBytes([|nodes|]);
      WriteNodes(nodes);
    }

    method WriteNodes(nodes: seq<Node>)
      requires Valid()
      modifies this, buf
      ensures Valid() && (buf == old(buf) || fresh(buf)) && built == old(built)
      ensures ev == AppendNodes(old(ev), nodes)
    {
      ghost var end := AppendNodes(ev, nodes);
      assert nodes[0..] == nodes;
      for i := 0 to |nodes|
        invariant Valid() && (buf == old(buf) || fresh(buf)) && built == old(built)
        invariant AppendNodes(ev, nodes[i..]) == end
      {
        assert nodes[i..][0] == nodes[i] && nodes[i..][1..] == nodes[i + 1..];
        AppendBytes(Bytes32(nodes[i].uid));
        AppendChars(nodes[i].tag);
      }
    }

    method SetAtom(id: UInt32)
      requires Valid()
      modifies this, buf
      ensures Valid() && (buf == old(buf) || fresh(buf)) && built == old(built)
      ensures ev == SetId(old(ev), id)
    {
      if atomId != 0 {
        return;
      }
      if numElements != 1 {
        errors := Or(errors, ERROR_ATOM_ID_INVALID_POSITION);
        ev := WithError(ev, ERROR_ATOM_ID_INVALID_POSITION);
        return;
      }
      atomId := id;
      ev := ev.(atomId := id);
      WriteInt32(ToInt32(id));
    }

    method CountAnnotation()
      requires Valid()
      modifies this, buf
      ensures Valid() && buf == old(buf) && built == old(built)
      ensures ev == IncrementAnnotationCount(old(ev))
    {
      if lastFieldPos >= numBytesWritten {
        return;
      }
      var fieldType := buf[lastFieldPos] % 16;
      var oldAnnotationCount := buf[lastFieldPos] / 16;
      var newAnnotationCount := oldAnnotationCount + 1;
      if newAnnotationCount > MAX_ANNOTATION_COUNT {
        errors := Or(errors, ERROR_TOO_MANY_ANNOTATIONS);
        ev := WithError(ev, ERROR_TOO_MANY_ANNOTATIONS);
        return;
      }
      buf[lastFieldPos] := newAnnotationCount * 16 + fieldType;
      assert buf[..numBytesWritten] == ev.bytes[lastFieldPos := newAnnotationCount * 16 + fieldType];
      ev := IncrementAnnotationCount(ev);
    }

    method AddAnn(a: Ann)
      requires Valid()
      modifies this, buf
      ensures Valid() && (buf == old(buf) || fresh(buf)) && built == old(built)
      ensures ev == AddAnnotation(old(ev), a)
    {
      if numElements < 2 {
        errors := Or(errors, ERROR_ANNOTATION_DOES_NOT_FOLLOW_FIELD);
        ev := WithError(ev, ERROR_ANNOTATION_DOES_NOT_FOLLOW_FIELD);
        return;
      }
      if a.id > MAX_BYTE_VALUE {
        errors := Or(errors, ERROR_ANNOTATION_ID_TOO_LARGE);
        ev := WithError(ev, ERROR_ANNOTATION_ID_TOO_LARGE);
        return;
      }
      AppendBytes([a.id]);
      match a {
        case BoolAnn(_, b) =>
          AppendBytes([BOOL_TYPE]);
          AppendBytes([BoolByte(b)]);
        case IntAnn(_, v) =>
          AppendBytes([INT32_TYPE]);
          AppendBytes(Bytes32(v));
      }
      CountAnnotation();
    }

    method CheckErrors(push: bool)
      requires Valid()
      modifies this
      ensures Valid() && buf == old(buf) && built == old(built)
      ensures ev == CheckBuild(old(ev), push)
    {
      if numElements > MAX_BYTE_VALUE { errors := Or(errors, ERROR_TOO_MANY_FIELDS); }
      if 0 == atomId { errors := Or(errors, ERROR_NO_ATOM_ID); }
      if push && numBytesWritten > MAX_PUSH_EVENT_PAYLOAD { errors := Or(errors, ERROR_OVERFLOW); }
      ev := CheckBuild(ev, push);
    }

    /** Replaces everything after the atom id by the error mask. */
    method Discard()
      requires Valid()
      modifies this, buf
      ensures Valid() && (buf == old(buf) || fresh(buf)) && built == old(built)
      ensures ev == DiscardWithErrors(old(ev))
    {
      ghost var header := HeaderBytes(ev.bytes);
      assert buf[..END_ATOM_ID] == header;
      numElements := 2;
      buf[POS_ATOM_ID] := INT32_TYPE;
      numBytesWritten := END_ATOM_ID;
      assert buf[..END_ATOM_ID] == header[POS_ATOM_ID := INT32_TYPE];
      ev := ev.(numElements := 2, bytes := header[POS_ATOM_ID := INT32_TYPE]);
      Start(ERROR_TYPE);
      AppendBytes(Bytes32(errors));
    }

    method SetNumElements()
      requires Valid()
      modifies this, buf
      ensures Valid() && buf == old(buf) && built == old(built)
      ensures ev == (if POS_NUM_ELEMENTS < |old(ev).bytes|
                     then old(ev).(bytes := old(ev).bytes[POS_NUM_ELEMENTS := old(ev).numElements % 256]) else old(ev))
    {
      if POS_NUM_ELEMENTS < numBytesWritten {
        buf[POS_NUM_ELEMENTS] := numElements % 256;
        assert buf[..numBytesWritten] == ev.bytes[POS_NUM_ELEMENTS := numElements % 256];
        ev := ev.(bytes := ev.bytes[POS_NUM_ELEMENTS := numElements % 256]);
      }
    }

    method BuildBuffer(push: bool)
      requires Valid()
      modifies this, buf
      ensures Valid() && (buf == old(buf) || fresh(buf)) && built == old(built)
      ensures ev == BuildInternal(old(ev), push)
    {
      CheckErrors(push);
      if errors != 0 {
        Discard();
      }
      SetNumElements();
    }

    method Finish()
      requires Valid()
      modifies this, buf
      ensures Valid() && (buf == old(buf) || fresh(buf)) && built
      ensures ev == if old(built) then old(ev) else BuildInternal(old(ev), false)
    {
      if built {
        return;
      }
      BuildBuffer(false);
      built := true;
    }
  }
}
