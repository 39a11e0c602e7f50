/** The nanopb decoder (pb_decode.c): an input stream with a limit, substreams for what
    has a length in front, and the bitmap of required fields. */
module PbDecoding {
  import opened Options
  import opened Coding
  import opened PbWire
  import opened PbMessages
  import opened PbCommon
  import opened PbRequired
  import opened PbRoundTrip
  import Filters

  /** One byte of the loop of pb_decode_varint. */
  lemma Varint64Step(s: Bytes, p: nat, sum: nat, scale: nat, value: nat, shifted: nat)
    requires VarintProgress(s, 10, p, sum, scale) && p < 10 && p < |s| && value == Truncate(sum, true)
    requires shifted == (if s[p] < 128 then s[p] else s[p] - 128) * scale
    ensures Truncate(value + shifted, true) == Truncate(sum + shifted, true)
    ensures s[p] < 128 ==> GetVarint64(s) == Some((Truncate(sum + shifted, true), s[p + 1..]))
    ensures s[p] >= 128 ==> VarintProgress(s, 10, p + 1, sum + shifted, scale * 128)
  {
    VarintStep(s, 10, p, sum, scale);
    TruncatedSum(sum, shifted, true);
  }

  class IStream {
    const buf: Bytes
    var pos: nat
    var bytesLeft: nat

    ghost predicate Valid()
      reads this
    {
      pos + bytesLeft <= |buf|
    }

    /** What may still be read. */
    ghost function Rest(): Bytes
      requires Valid()
      reads this
    {
      buf[pos..pos + bytesLeft]
    }

    ghost function End(): nat
      reads this
    {
      pos + bytesLeft
    }

    /** The stream was read up to `rest`, and its end stayed where it was. */
    twostate predicate ReadTo(rest: Bytes)
      requires Valid()
      reads this
    {
      Rest() == rest && End() == old(End())
    }

    constructor (buf: Bytes, pos: nat, bytesLeft: nat)
      requires pos + bytesLeft <= |buf|
      ensures this.buf == buf && this.pos == pos && this.bytesLeft == bytesLeft
    {
      this.buf, this.pos, this.bytesLeft := buf, pos, bytesLeft;
    }

    method Read(count: nat) returns (ok: bool, data: Bytes)
      requires Valid()
      modifies this
      ensures Valid() && End() <= old(End()) && (ok <==> count <= |old(Rest())|)
      ensures ok ==> data == old(Rest())[..count] && ReadTo(old(Rest())[count..])
      ensures !ok ==> Rest() == old(Rest()) && End() == old(End())
    {
      if bytesLeft < count {
        return false, [];
      }
      ghost var before := Rest();
      data := buf[pos..pos + count];
      pos, bytesLeft := pos + count, bytesLeft - count;
      assert data == before[..count] && Rest() == before[count..];
      return true, data;
    }

    method ReadByte() returns (ok: bool, byte: Byte)
      requires Valid()
      modifies this
      ensures Valid() && End() <= old(End()) && (ok <==> old(Rest()) != [])
      ensures ok ==> byte == old(Rest())[0] && ReadTo(old(Rest())[1..])
      ensures !ok ==> Rest() == old(Rest()) && End() == old(End())
    {
      if bytesLeft == 0 {
        return false, 0;
      }
      ghost var before := Rest();
      byte := buf[pos];
      pos, bytesLeft := pos + 1, bytesLeft - 1;
      assert Rest() == before[1..];
      return true, byte;
    }

    /** pb_decode_varint32, with a bit position of eight bits. */
    method DecodeVarint32() returns (ok: bool, value: nat)
      requires Valid()
      modifies this
      ensures Valid() && End() <= old(End()) && (ok <==> ReadVarint32(old(Rest())).Some?)
      ensures ok ==> ReadVarint32(old(Rest())).value.0 == value && ReadTo(ReadVarint32(old(Rest())).value.1)
    {
      ghost var s := Rest();
      var byte;
      ok, byte := ReadByte();
      if !ok || byte < 128 {
        return ok, byte;
      }
      var bitpos: nat, result: nat := 7, byte - 128;
      while true
        invariant Valid() && End() == old(End()) && Varint32Tail(Rest(), bitpos, result) == ReadVarint32(s)
        decreases |Rest()|
      {
        ok, byte := ReadByte();
        if !ok {
          return false, 0;
        }
        if bitpos >= 32 {
          var signExtension: Byte := if bitpos < 63 then 0xff else 0x01;
          if byte % 128 != 0 && (result < 0x8000_0000 || byte != signExtension) {
            return false, 0;
          }
        } else {
          result := OrByte(result, byte % 128, bitpos);
        }
        bitpos := Advanced(bitpos);
        if byte < 128 {
          break;
        }
      }
      if bitpos == 35 && byte >= 16 {
        return false, 0;
      }
      return true, result;
    }

    /** pb_decode_varint: at most ten bytes, bits beyond the 64th are shifted out. */
    method DecodeVarint() returns (ok: bool, value: nat)
      requires Valid()
      modifies this
      ensures Valid() && End() <= old(End()) && (ok <==> GetVarint64(old(Rest())).Some?)
      ensures ok ==> GetVarint64(old(Rest())).value.0 == value && ReadTo(GetVarint64(old(Rest())).value.1)
    {
      ghost var s := Rest();
      ghost var sum: nat, p: nat := 0, 0;
      var bitpos: nat, scale: nat := 0, 1;
      value := 0;
      assert s[0..] == s;
      while true
        invariant Valid() && End() == old(End()) && bitpos == 7 * p && p <= |s| && Rest() == s[p..]
        invariant VarintProgress(s, 10, p, sum, scale) && value == Truncate(sum, true)
        decreases |Rest()|
      {
        if bitpos >= 64 {
          return false, 0;
        }
        var byte;
        ok, byte := ReadByte();
        if !ok {
          return false, 0;
        }
        var shifted: nat := (if byte < 128 then byte else byte - 128) * scale;
        Varint64Step(s, p, sum, scale, value, shifted);
        value := Truncate(value + shifted, true);
        sum, p := sum + shifted, p + 1;
        bitpos, scale := bitpos + 7, scale * 128;
        if byte < 128 {
          return true, value;
        }
      }
    }

    method DecodeTag() returns (ok: bool, eof: bool, wireType: nat, tag: nat)
      requires Valid()
      modifies this
      ensures Valid() && End() <= old(End()) && (eof <==> ReadTag(old(Rest())).End?)
      ensures ok <==> ReadTag(old(Rest())).Tag?
      ensures eof ==> End() == old(End())
      ensures ok ==> ReadTag(old(Rest())) == Tag(tag, wireType, Rest()) && ReadTo(ReadTag(old(Rest())).rest)
    {
      if bytesLeft == 0 {
        return false, true, 0, 0;
      }
      var temp;
      ok, temp := DecodeVarint32();
      if !ok {
        return false, false, 0, 0;
      }
      if temp == 0 {
        return false, true, 0, 0;
      }
      return true, false, temp % 8, temp / 8;
    }

    method SkipVarintBytes() returns (ok: bool)
      requires Valid()
      modifies this
      ensures Valid() && End() <= old(End()) && (ok <==> SkipVarint(old(Rest())).Some?)
      ensures ok ==> ReadTo(SkipVarint(old(Rest())).value)
    {
      ghost var s := Rest();
      while true
        invariant Valid() && End() == old(End()) && SkipVarint(Rest()) == SkipVarint(s)
        decreases |Rest()|
      {
        var byte;
        ok, byte := ReadByte();
        if !ok || byte < 128 {
          return;
        }
      }
    }

    method SkipUnknown(wireType: nat) returns (ok: bool)
      requires Valid()
      modifies this
      ensures Valid() && End() <= old(End()) && (ok <==> SkipField(wireType, old(Rest())).Some?)
      ensures ok ==> ReadTo(SkipField(wireType, old(Rest())).value)
    {
      var skipped;
      if wireType == WT_VARINT {
        ok := SkipVarintBytes();
      } else if wireType == WT_64BIT {
        ok, skipped := Read(8);
      } else if wireType == WT_STRING {
        var size;
        ok, size := DecodeVarint32();
        if ok {
          ok, skipped := Read(size);
        }
      } else if wireType == WT_32BIT {
        ok, skipped := Read(4);
      } else {
        ok := false;
      }
    }

    /** A substream takes the bytes of its length off this stream, which must not be read
        until the substream is closed. */
    method MakeSubstream() returns (ok: bool, sub: IStream)
      requires Valid()
      modifies this
      ensures Valid() && End() <= old(End()) && (ok <==> ReadString(old(Rest())).Some?)
      ensures ok ==> fresh(sub) && sub.buf == buf && sub.Valid() && sub.Rest() == ReadString(old(Rest())).value.0
      ensures ok ==> sub.End() + bytesLeft == old(End()) && sub.pos == pos
      ensures ok ==> buf[sub.End()..old(End())] == ReadString(old(Rest())).value.1
    {
      var size;
      ok, size := DecodeVarint32();
      sub := this;
      if !ok || bytesLeft < size {
        return false, this;
      }
      ghost var rest := Rest();
      sub := new IStream(buf, pos, size);
      bytesLeft := bytesLeft - size;
      assert sub.Rest() == rest[..size] && buf[sub.End()..old(End())] == rest[size..];
    }

    /** Whatever the substream has not read is skipped: the position and what is left of
        this stream add up to what they did before the substream was made. */
    method CloseSubstream(sub: IStream)
      requires sub != this && sub.Valid() && sub.buf == buf && sub.End() + bytesLeft <= |buf|
      modifies this, sub
      ensures Valid() && pos == old(sub.End()) && bytesLeft == old(bytesLeft)
    {
      if sub.bytesLeft > 0 {
        var _, _ := sub.Read(sub.bytesLeft);
      }
      pos := sub.pos;
    }

    // ----- values

    /** The decoders of bytes, strings and bytes of a fixed length. */
    method DecodeBlob(lt: LType) returns (ok: bool, v: Value)
      requires Valid() && (lt.BytesUpTo? || lt.StringIn? || lt.FixedBytes?)
      modifies this
      ensures Valid() && End() <= old(End()) && (ok <==> ReadBlob(lt, old(Rest())).Some?)
      ensures ok ==> ReadBlob(lt, old(Rest())).value.0 == v && ReadTo(ReadBlob(lt, old(Rest())).value.1)
    {
      var size;
      v := Blob([]);
      ok, size := DecodeVarint32();
      if !ok {
        return;
      }
      if lt.FixedBytes? && size == 0 {
        v := Blob(seq(lt.length, _ => 0));
        assert Rest()[0..] == Rest();
        return;
      }
      ok := match lt
        case BytesUpTo(max) => size <= max
        case StringIn(room) => size < room
        case FixedBytes(length) => size == length
        case _ => false;
      if !ok {
        return;
      }
      var data;
      ok, data := Read(size);
      v := Blob(data);
    }

    /** The decoders of integers. */
    method DecodeNumber(lt: LType) returns (ok: bool, v: Value)
      requires Valid() && Packable(lt)
      modifies this
      ensures Valid() && End() <= old(End()) && (ok <==> DecodeScalar(lt, old(Rest())).Some?)
      ensures ok ==> DecodeScalar(lt, old(Rest())).value.0 == v && ReadTo(DecodeScalar(lt, old(Rest())).value.1)
    {
      v := Int(0);
      var value: nat, data: Bytes;
      match lt
      case Bool =>
        ok, value := DecodeVarint32();
        v := Int(if value != 0 then 1 else 0);
      case SignedInt(width) =>
        ok, value := DecodeVarint();
        var n := if width == 8 then Signed64(value) else Signed32(value);
        ok := ok && SignedFits(width, n);
        v := Int(n);
      case UnsignedInt(width) =>
        ok, value := DecodeVarint();
        ok := ok && UnsignedFits(width, value);
        v := Int(value);
      case ZigZagInt(width) =>
        ok, value := DecodeVarint();
        ok := ok && SignedFits(width, UnZigZag(value));
        v := Int(UnZigZag(value));
      case Fixed32 =>
        ok, data := Read(4);
        v := Int(FromFixed(data));
      case Fixed64 =>
        ok, data := Read(8);
        v := Int(FromFixed(data));
    }

    method DecodeAny(lt: LType, base: seq<Slot>) returns (ok: bool, v: Value)
      requires Valid() && TypeOk(lt) && (lt.SubMessage? ==> |base| == |lt.fields|)
      modifies this
      ensures Valid() && End() <= old(End()) && (ok <==> DecodeValue(lt, old(Rest()), base).Some?)
      ensures ok ==>
        DecodeValue(lt, old(Rest()), base).value.0 == v && ReadTo(DecodeValue(lt, old(Rest()), base).value.1)
      decreases |Rest()|, 0
    {
      if Packable(lt) {
        ok, v := DecodeNumber(lt);
      } else if lt.SubMessage? {
        ok, v := DecodeSubMessage(lt.fields, base);
      } else {
        ok, v := DecodeBlob(lt);
      }
    }

    method DecodeSubMessage(fields: seq<Field>, base: seq<Slot>) returns (ok: bool, v: Value)
      requires Valid() && DescriptorOk(fields) && |base| == |fields|
      modifies this
      ensures Valid() && End() <= old(End())
      ensures var r := DecodeValue(SubMessage(fields), old(Rest()), base);
              (ok <==> r.Some?) && (ok ==> r.value.0 == v && ReadTo(r.value.1))
      decreases |Rest()|, -1
    {
      v := Int(0);
      var sub;
      ok, sub := MakeSubstream();
      if !ok {
        return;
      }
      var status, slots := sub.DecodeNoInit(fields, base);
      CloseSubstream(sub);
      return status, Message(slots);
    }

    /** decode_static_field for a repeated field. */
    method DecodeRepeated(f: Field, wireType: nat, vs: seq<Value>) returns (ok: bool, items: seq<Value>)
      requires Valid() && f.htype.Repeated? && TypeOk(f.ltype)
      modifies this
      ensures Valid() && End() <= old(End())
      ensures var r := DecodeArray(f, wireType, old(Rest()), vs);
              (ok <==> r.Some?) && (ok ==> r.value.0 == items && ReadTo(r.value.1))
      decreases |Rest()|, 1
    {
      if wireType == WT_STRING && Packable(f.ltype) {
        ok, items := DecodePackedArray(f, vs);
        return;
      }
      if |vs| >= f.htype.arraySize {
        return false, vs;
      }
      var v;
      ok, v := DecodeAny(f.ltype, Base(f, Many(vs)));
      items := vs + [v];
    }

    method DecodePackedArray(f: Field, vs: seq<Value>) returns (ok: bool, items: seq<Value>)
      requires Valid() && f.htype.Repeated? && Packable(f.ltype)
      modifies this
      ensures Valid() && End() <= old(End())
      ensures var r := DecodeArray(f, WT_STRING, old(Rest()), vs);
              (ok <==> r.Some?) && (ok ==> r.value.0 == items && ReadTo(r.value.1))
    {
      items := vs;
      var sub;
      ok, sub := MakeSubstream();
      if !ok {
        return;
      }
      var status;
      status, items := sub.DecodePackedItems(f.ltype, vs, f.htype.arraySize);
      if sub.bytesLeft != 0 {
        return false, items;
      }
      CloseSubstream(sub);
      return status, items;
    }

    /** Elements are read while there are bytes and room. */
    method DecodePackedItems(lt: LType, vs: seq<Value>, arraySize: nat) returns (status: bool, items: seq<Value>)
      requires Valid() && Packable(lt)
      modifies this
      ensures Valid() && End() <= old(End()) && (status ==> End() == old(End()))
      ensures status && bytesLeft == 0 <==> DecodePacked(lt, old(Rest()), vs, arraySize).Some?
      ensures status && bytesLeft == 0 ==> DecodePacked(lt, old(Rest()), vs, arraySize) == Some(items)
    {
      ghost var s := Rest();
      status, items := true, vs;
      while bytesLeft > 0 && |items| < arraySize
        invariant Valid() && End() == old(End())
        invariant DecodePacked(lt, Rest(), items, arraySize) == DecodePacked(lt, s, vs, arraySize)
        decreases |Rest()|
      {
        ghost var now := Rest();
        DecodeScalarConsumes(lt, now);
        var v;
        status, v := DecodeNumber(lt);
        if !status {
          return;
        }
        items := items + [v];
      }
    }

    /** decode_static_field */
    method DecodeStatic(f: Field, wireType: nat, slot: Slot) returns (ok: bool, slot': Slot)
      requires Valid() && TypeOk(f.ltype)
      modifies this
      ensures Valid() && End() <= old(End())
      ensures var r := DecodeSlot(f, wireType, old(Rest()), slot);
              (ok <==> r.Some?) && (ok ==> r.value.0 == slot' && ReadTo(r.value.1))
      decreases |Rest()|, 2
    {
      if f.htype.Repeated? {
        var vs;
        ok, vs := DecodeRepeated(f, wireType, if slot.Many? then slot.values else []);
        slot' := Many(vs);
      } else {
        var v;
        ok, v := DecodeAny(f.ltype, Base(f, slot));
        slot' := Set(v);
      }
    }

    /** pb_decode_noinit */
    method DecodeNoInit(fields: seq<Field>, slots: seq<Slot>) returns (ok: bool, slots': seq<Slot>)
      requires Valid() && DescriptorOk(fields) && |slots| == |fields|
      modifies this
      ensures Valid() && End() <= old(End())
      ensures var r := DecodeMessage(fields, old(Rest()), slots);
              (ok <==> r.Some?) && (ok ==> r.value == slots' && End() == old(End()))
      decreases |Rest()|, 4
    {
      var fieldsSeen := new nat[2] [0, 0];
      NothingSeen(fieldsSeen[..], fields);
      var iter := new FieldIter(fields);
      ghost var seen;
      ok, slots', seen := DecodeLoop(fields, slots, fieldsSeen, iter);
      if ok {
        var count := CountRequired(iter);
        MissingByIndex(fields, seen);
        ok := AllSeen(fieldsSeen, count, IndicesOf(fields, seen));
      }
    }

    /** pb_decode */
    method Decode(fields: seq<Field>) returns (ok: bool, slots: seq<Slot>)
      requires Valid() && DescriptorOk(fields)
      modifies this
      ensures Valid() && End() <= old(End())
      ensures var r := DecodeMessage(fields, old(Rest()), Defaults(fields));
              (ok <==> r.Some?) && (ok ==> r.value == slots && End() == old(End()))
    {
      ok, slots := DecodeNoInit(fields, Defaults(fields));
    }

    /** A field of the descriptor: its bit is set before it is decoded. */
    method DecodeFound(
      fields: seq<Field>, wireType: nat, slots: seq<Slot>, fieldsSeen: array<nat>, iter: FieldIter,
      ghost seen: set<nat>)
      returns (ok: bool, slots': seq<Slot>)
      requires Valid() && DescriptorOk(fields) && |slots| == |fields| > 0 && iter.Valid() && iter.fields == fields
      requires Holds(fieldsSeen[..], IndicesOf(fields, seen))
      modifies this, fieldsSeen
      ensures Valid() && End() <= old(End())
      ensures var r := DecodeSlot(fields[iter.pos], wireType, old(Rest()), slots[iter.pos]);
              && (ok <==> r.Some?)
              && (ok ==> slots' == Store(fields, slots, iter.pos, r.value.0) && ReadTo(r.value.1))
      ensures ok ==> Holds(fieldsSeen[..], IndicesOf(fields, seen + {iter.pos}))
      decreases |Rest()|, 3
    {
      var i := iter.pos;
      IndexSeen(fields, seen, i);
      if fields[i].htype.Required? && iter.requiredFieldIndex < MAX_REQUIRED_FIELDS {
        MarkSeen(fieldsSeen, iter.requiredFieldIndex, IndicesOf(fields, seen));
      }
      assert FieldOk(fields[i]);
      var slot;
      ok, slot := DecodeStatic(fields[i], wireType, slots[i]);
      slots' := if ok then Store(fields, slots, i, slot) else slots;
    }

    /** The loop over the fields in the stream. */
    method DecodeLoop(fields: seq<Field>, slots: seq<Slot>, fieldsSeen: array<nat>, iter: FieldIter)
      returns (ok: bool, now: seq<Slot>, ghost seen: set<nat>)
      requires Valid() && DescriptorOk(fields) && |slots| == |fields| && iter.Valid() && iter.fields == fields
      requires Holds(fieldsSeen[..], {})
      modifies this, fieldsSeen, iter
      ensures Valid() && End() <= old(End()) && iter.Valid()
      ensures var r := DecodeFields(fields, old(Rest()), slots, {});
              (ok <==> r.Some?) && (ok ==> r.value == (now, seen) && End() == old(End()))
      ensures ok ==> Holds(fieldsSeen[..], IndicesOf(fields, seen))
      decreases |Rest()|, 3
    {
      ghost var s := Rest();
      now, seen := slots, {};
      while bytesLeft > 0
        invariant Valid() && End() == old(End()) && iter.Valid() && |now| == |fields|
        invariant DecodeFields(fields, Rest(), now, seen) == DecodeFields(fields, s, slots, {})
        invariant Holds(fieldsSeen[..], IndicesOf(fields, seen)) && |Rest()| <= |s|
        decreases |Rest()|
      {
        ReadTagConsumes(Rest());
        var eof, wireType, tag;
        ok, eof, wireType, tag := DecodeTag();
        if !ok {
          return eof, now, seen;
        }
        var found := iter.Find(tag);
        if !found {
          ok := SkipUnknown(wireType);
          if !ok {
            return;
          }
        } else {
          ghost var i := iter.pos;
          assert Find(fields, tag) == i;
          ok, now := DecodeFound(fields, wireType, now, fieldsSeen, iter, seen);
          if !ok {
            return;
          }
          seen := seen + {i};
        }
      }
      return true, now, seen;
    }
  }

  lemma NothingSeen(words: seq<nat>, fields: seq<Field>)
    requires words == [0, 0]
    ensures Holds(words, {}) && IndicesOf(fields, {}) == {}
  {
    forall r | 0 <= r < MAX_REQUIRED_FIELDS ensures !Filters.TestBit(words[r / 32], r % 32) {
      Filters.NoBits(r % 32);
    }
  }
}
