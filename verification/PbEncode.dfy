/** The nanopb encoder (pb_encode.c): an output stream that writes to a buffer or only
    counts, and encoders that run twice over what has a length in front. */
module PbEncoding {
  import opened Options
  import opened Coding
  import opened PbWire
  import opened PbMessages
  import opened PbCommon

  // ----- what a structure can hold at all

  /** Sizes are size_t values. */
  predicate Small(b: Option<Bytes>) {
    b.Some? ==> |b.value| < WORD64
  }

  predicate ScalarStorable(lt: LType, v: Value) {
    match lt
    case Bool => v.Int?
    case SignedInt(w) => v.Int? && SignedFits(w, v.n)
    case UnsignedInt(w) => v.Int? && UnsignedFits(w, v.n)
    case ZigZagInt(w) => v.Int? && SignedFits(w, v.n)
    case Fixed32 => v.Int? && 0 <= v.n < WORD32
    case Fixed64 => v.Int? && 0 <= v.n < WORD64
    case FixedBytes(length) => v.Blob? && |v.bytes| == length < WORD64
    case _ => v.Blob? && |v.bytes| < WORD64
  }

  predicate Storable(lt: LType, v: Value)
    decreases lt
  {
    match lt
    case SubMessage(fields) => v.Message? && AllStorable(fields, v.slots) && Small(EncodeFields(fields, v.slots))
    case _ => ScalarStorable(lt, v)
  }

  predicate SlotStorable(f: Field, slot: Slot)
    decreases f
  {
    f.tag < WORD32 &&
    match f.htype
    case Required => slot.Set? && Storable(f.ltype, slot.value)
    case Repeated(_) =>
      && slot.Many? && Small(EncodeElements(f.ltype, [], slot.values))
      && forall i :: 0 <= i < |slot.values| ==> Storable(f.ltype, slot.values[i])
    case _ => slot.Unset? || (slot.Set? && Storable(f.ltype, slot.value))
  }

  predicate AllStorable(fields: seq<Field>, slots: seq<Slot>)
    decreases fields
  {
    |slots| == |fields| && forall i :: 0 <= i < |fields| ==> SlotStorable(fields[i], slots[i])
  }

  // ----- what writing comes to

  /** A stream: whether it only counts, its room, what it wrote, and how much. */
  datatype Written = Written(sizing: bool, maxSize: nat, out: Bytes, count: nat)

  ghost predicate StreamOk(w: Written) {
    w.sizing || w.count <= w.maxSize
  }

  ghost function Plus(w: Written, data: Bytes): Written {
    w.(out := if w.sizing then w.out else w.out + data, count := w.count + |data|)
  }

  /** Writing `data`, if there is any to write, from `w` to `w'`: it succeeds if and only
      if there is something to write and room for it; nothing is ever written beyond
      the room. */
  ghost predicate Wrote(w: Written, data: Option<Bytes>, ok: bool, w': Written) {
    && StreamOk(w') && w'.sizing == w.sizing && w'.maxSize == w.maxSize && w.out <= w'.out && w.count <= w'.count
    && (ok <==> data.Some? && StreamOk(Plus(w, data.value)))
    && (ok ==> w' == Plus(w, data.value))
    && (w.sizing ==> w'.out == w.out)
    && (!w.sizing ==> |w'.out| - |w.out| == w'.count - w.count)
  }

  ghost function Join(a: Option<Bytes>, b: Option<Bytes>): Option<Bytes> {
    if a.Some? && b.Some? then Some(a.value + b.value) else None
  }

  lemma PlusPlus(w: Written, a: Bytes, b: Bytes)
    ensures Plus(Plus(w, a), b) == Plus(w, a + b)
  {
    assert w.out + a + b == w.out + (a + b);
  }

  /** One write after another. */
  lemma WroteBoth(w: Written, a: Option<Bytes>, w1: Written, b: Option<Bytes>, ok: bool, w2: Written)
    requires Wrote(w, a, true, w1) && Wrote(w1, b, ok, w2)
    ensures Wrote(w, Join(a, b), ok, w2)
  {
    if b.Some? {
      PlusPlus(w, a.value, b.value);
    }
  }

  /** When the first of several fails, all of it fails. */
  lemma WroteFailed(w: Written, a: Option<Bytes>, w1: Written, b: Option<Bytes>)
    requires Wrote(w, a, false, w1)
    ensures Wrote(w, Join(a, b), false, w1)
  {
  }

  // ----- varints of the loop in pb_encode_varint

  /** Seven bits a byte, each marked as if more followed. */
  function Marked(v: nat): (r: Bytes)
    ensures v > 0 ==> r != []
  {
    if v == 0 then [] else [v % 128 + 128] + Marked(v / 128)
  }

  lemma {:induction false} UnmarkLast(v: nat)
    requires v > 0
    ensures var m := Marked(v);
            m[|m| - 1] >= 128 && Varint(v) == m[|m| - 1 := m[|m| - 1] - 128]
  {
    if v >= 128 {
      UnmarkLast(v / 128);
    } else {
      assert Marked(v) == [v + 128];
    }
  }

  lemma {:induction false} MarkedStep(done: Bytes, v: nat)
    requires v > 0
    ensures done + Marked(v) == done + [v % 128 + 128] + Marked(v / 128)
  {
  }

  lemma {:induction false} TerminatedIs(s: Bytes, size: nat, k: nat)
    requires k <= size && k <= |s| && forall i :: 0 <= i < k ==> s[i] != 0
    requires k == size || k == |s| || s[k] == 0
    ensures Terminated(s, size) == s[..k]
  {
    if k > 0 {
      TerminatedIs(s[1..], size - 1, k - 1);
      assert s[..k] == [s[0]] + s[1..][..k - 1];
    }
  }

  // ----- parts of an encoding

  lemma JoinAssociates(a: Option<Bytes>, b: Option<Bytes>, c: Option<Bytes>)
    ensures Join(Join(a, b), c) == Join(a, Join(b, c))
  {
    if a.Some? && b.Some? && c.Some? {
      assert a.value + b.value + c.value == a.value + (b.value + c.value);
    }
  }

  ghost function Prefixed(prefix: Bytes, lt: LType, v: Value): Option<Bytes> {
    Join(Some(prefix), EncodeValue(lt, v))
  }

  lemma {:induction false} ElementsStep(lt: LType, prefix: Bytes, vs: seq<Value>, i: nat)
    requires i < |vs|
    ensures EncodeElements(lt, prefix, vs[i..])
      == Join(Prefixed(prefix, lt, vs[i]), EncodeElements(lt, prefix, vs[i + 1..]))
  {
    assert vs[i..][0] == vs[i] && vs[i..][1..] == vs[i + 1..];
  }

  lemma FieldsStep(fields: seq<Field>, slots: seq<Slot>, i: nat)
    requires i < |fields| == |slots|
    ensures EncodeFields(fields[i..], slots[i..])
         == Join(EncodeSlot(fields[i], slots[i]), EncodeFields(fields[i + 1..], slots[i + 1..]))
  {
    assert fields[i..][0] == fields[i] && fields[i..][1..] == fields[i + 1..];
    assert slots[i..][0] == slots[i] && slots[i..][1..] == slots[i + 1..];
  }

  lemma {:induction false} FixedSizes(lt: LType, vs: seq<Value>)
    requires forall i :: 0 <= i < |vs| ==> ScalarStorable(lt, vs[i])
    ensures lt.Fixed32? ==> EncodeElements(lt, [], vs).Some? && |EncodeElements(lt, [], vs).value| == 4 * |vs|
    ensures lt.Fixed64? ==> EncodeElements(lt, [], vs).Some? && |EncodeElements(lt, [], vs).value| == 8 * |vs|
  {
    if vs != [] {
      FixedSizes(lt, vs[1..]);
    }
  }

  /** A loop in the middle of its work: `w0` was the stream at its start, the first part
      is written, `todo` is left. */
  ghost predicate InLoop(w0: Written, total: Option<Bytes>, todo: Option<Bytes>, w: Written) {
    exists done: Bytes :: InLoopAfter(w0, done, total, todo, w)
  }

  ghost predicate InLoopAfter(w0: Written, done: Bytes, total: Option<Bytes>, todo: Option<Bytes>, w: Written) {
    StreamOk(w) && w == Plus(w0, done) && total == Join(Some(done), todo)
  }

  lemma LoopStarts(w: Written, total: Option<Bytes>)
    requires StreamOk(w)
    ensures InLoop(w, total, total, w)
  {
    assert w.out + [] == w.out;
    assert total.Some? ==> [] + total.value == total.value;
    assert InLoopAfter(w, [], total, total, w);
  }

  /** One more part of the work, done or failed. */
  lemma LoopStep(
    w0: Written, total: Option<Bytes>, part: Option<Bytes>, todo: Option<Bytes>, w: Written, ok: bool, w': Written)
    requires InLoop(w0, total, Join(part, todo), w) && Wrote(w, part, ok, w')
    ensures ok ==> InLoop(w0, total, todo, w')
    ensures !ok ==> Wrote(w0, total, false, w')
  {
    var done :| InLoopAfter(w0, done, total, Join(part, todo), w);
    if ok {
      PlusPlus(w0, done, part.value);
      JoinAssociates(Some(done), part, todo);
      assert InLoopAfter(w0, done + part.value, total, todo, w');
    } else {
      WroteFailed(w, part, w', todo);
      if total.Some? {
        PlusPlus(w0, done, Join(part, todo).value);
      }
    }
  }

  lemma LoopEnds(w0: Written, total: Option<Bytes>, w: Written)
    requires InLoop(w0, total, Some([]), w)
    ensures Wrote(w0, total, true, w)
  {
    var done :| InLoopAfter(w0, done, total, Some([]), w);
    assert done + [] == done;
  }

  lemma TenBytes(v: nat, i: nat)
    requires i <= 10 && 0 < v < Pow(128, 10 - i)
    ensures i < 10 && v / 128 < Pow(128, 10 - (i + 1))
  {
    if i < 10 {
      assert Pow(128, 10 - i) == 128 * Pow(128, 10 - (i + 1));
    }
  }

  // ----- the stream

  class OStream {
    const sizing: bool
    const maxSize: nat
    var out: Bytes
    var bytesWritten: nat

    ghost function State(): Written
      reads this
    {
      Written(sizing, maxSize, out, bytesWritten)
    }

    ghost predicate Valid()
      reads this
    {
      StreamOk(State())
    }

    /** pb_ostream_from_buffer, or a substream that goes on behind `out`. */
    constructor ToBuffer(out: Bytes, maxSize: nat)
      ensures State() == Written(false, maxSize, out, 0)
    {
      sizing, this.maxSize, this.out, bytesWritten := false, maxSize, out, 0;
    }

    /** PB_OSTREAM_SIZING */
    constructor Sizing()
      ensures State() == Written(true, 0, [], 0)
    {
      sizing, maxSize, out, bytesWritten := true, 0, [], 0;
    }

    method Write(buf: Bytes) returns (ok: bool)
      requires Valid()
      modifies this
      ensures Wrote(old(State()), Some(buf), ok, State())
    {
      if |buf| > 0 && !sizing {
        if bytesWritten + |buf| > maxSize {
          return false;
        }
        out := out + buf;
      }
      bytesWritten := bytesWritten + |buf|;
      return true;
    }

    /** pb_write without data, of a stream that only counts. */
    method Count(ghost data: Bytes, size: nat)
      requires Valid() && sizing && size == |data|
      modifies this
      ensures Wrote(old(State()), Some(data), true, State())
    {
      bytesWritten := bytesWritten + size;
    }

    method EncodeVarint(value: nat) returns (ok: bool)
      requires Valid() && value < WORD64
      modifies this
      ensures Wrote(old(State()), Some(Varint(value)), ok, State())
    {
      if value <= 0x7f {
        ok := Write([value]);
        return;
      }
      var buffer := VarintBuffer(value);
      ok := Write(buffer);
    }

    /** Ten bytes are enough for any 64-bit number. */
    static method VarintBuffer(value: nat) returns (bytes: Bytes)
      requires 0 < value < WORD64
      ensures bytes == Varint(value)
    {
      var buffer := new Byte[10];
      var i: nat, v: nat := 0, value;
      VarintBounds();
      while v > 0
        invariant i <= 10 && v < Pow(128, 10 - i)
        invariant buffer[..i] + Marked(v) == Marked(value)
      {
        TenBytes(v, i);
        ghost var done := buffer[..i];
        MarkedStep(done, v);
        buffer[i] := v % 128 + 128;
        assert buffer[..i + 1] == done + [v % 128 + 128];
        i, v := i + 1, v / 128;
      }
      ghost var marked := buffer[..i];
      assert marked + [] == marked;
      UnmarkLast(value);
      buffer[i - 1] := buffer[i - 1] - 128;
      bytes := buffer[..i];
      assert bytes == marked[i - 1 := marked[i - 1] - 128];
    }

    method EncodeTag(wireType: nat, tag: nat) returns (ok: bool)
      requires Valid() && wireType < 8 && tag < WORD32
      modifies this
      ensures Wrote(old(State()), Some(TagBytes(tag, wireType)), ok, State())
    {
      ok := EncodeVarint(8 * tag + wireType);
    }

    method EncodeString(buf: Bytes) returns (ok: bool)
      requires Valid() && |buf| < WORD64
      modifies this
      ensures Wrote(old(State()), Some(StringBytes(buf)), ok, State())
    {
      ghost var before := State();
      ok := EncodeVarint(|buf|);
      if !ok {
        WroteFailed(before, Some(Varint(|buf|)), State(), Some(buf));
        return;
      }
      ghost var mid := State();
      ok := Write(buf);
      WroteBoth(before, Some(Varint(|buf|)), mid, Some(buf), ok, State());
    }

    /** The encoders of values that are not messages. */
    method EncodeScalarValue(lt: LType, v: Value) returns (ok: bool)
      requires Valid() && !lt.SubMessage? && ScalarStorable(lt, v)
      modifies this
      ensures Wrote(old(State()), EncodeScalar(lt, v), ok, State())
    {
      match lt
      case Bool => ok := EncodeVarint(if v.n != 0 then 1 else 0);
      case SignedInt(_) => ok := EncodeVarint(Unsigned64(v.n));
      case UnsignedInt(_) => ok := EncodeVarint(v.n);
      case ZigZagInt(_) => ok := EncodeVarint(ZigZag(v.n));
      case Fixed32 => ok := Write(Fixed(v.n, 4));
      case Fixed64 => ok := Write(Fixed(v.n, 8));
      case BytesUpTo(max) =>
        if |v.bytes| > max {
          return false;
        }
        ok := EncodeString(v.bytes);
      case StringIn(size) =>
        var k := 0;
        while k < size && k < |v.bytes| && v.bytes[k] != 0
          invariant k <= size && k <= |v.bytes| && forall i :: 0 <= i < k ==> v.bytes[i] != 0
        {
          k := k + 1;
        }
        TerminatedIs(v.bytes, size, k);
        ok := EncodeString(v.bytes[..k]);
      case FixedBytes(_) => ok := EncodeString(v.bytes);
    }

    method EncodeOne(lt: LType, tag: Option<nat>, v: Value) returns (ok: bool)
      requires Valid() && Storable(lt, v) && (tag.Some? ==> tag.value < WORD32)
      modifies this
      ensures Wrote(old(State()),
                    Prefixed(if tag.Some? then TagBytes(tag.value, WireType(lt)) else [], lt, v), ok, State())
      decreases lt, 1
    {
      ghost var w := State();
      ghost var prefix := if tag.Some? then TagBytes(tag.value, WireType(lt)) else [];
      if tag.Some? {
        ok := EncodeTag(WireType(lt), tag.value);
        if !ok {
          WroteFailed(w, Some(prefix), State(), EncodeValue(lt, v));
          return;
        }
      }
      ghost var w1 := State();
      assert Wrote(w, Some(prefix), true, w1);
      if lt.SubMessage? {
        ok := EncodeSubmessage(lt.fields, v.slots);
      } else {
        ok := EncodeScalarValue(lt, v);
      }
      WroteBoth(w, Some(prefix), w1, EncodeValue(lt, v), ok, State());
    }

    /** The message is encoded twice: once to learn its size, then behind its size. */
    method EncodeSubmessage(fields: seq<Field>, slots: seq<Slot>) returns (ok: bool)
      requires Valid() && AllStorable(fields, slots) && Small(EncodeFields(fields, slots))
      modifies this
      ensures var data := EncodeFields(fields, slots);
              Wrote(old(State()), if data.Some? then Some(StringBytes(data.value)) else None, ok, State())
      decreases fields, 5
    {
      ghost var w := State();
      ghost var data := EncodeFields(fields, slots);
      var sizeStream := new OStream.Sizing();
      ok := sizeStream.Encode(fields, slots);
      if !ok {
        return;
      }
      var size := sizeStream.bytesWritten;
      ok := EncodeVarint(size);
      if !ok {
        WroteFailed(w, Some(Varint(size)), State(), data);
        return;
      }
      ghost var w1 := State();
      if sizing {
        Count(data.value, size);
        WroteBoth(w, Some(Varint(size)), w1, data, true, State());
        return;
      }
      if bytesWritten + size > maxSize {
        WroteBoth(w, Some(Varint(size)), w1, data, false, State());
        return false;
      }
      var substream := new OStream.ToBuffer(out, size);
      var status := substream.Encode(fields, slots);
      bytesWritten := bytesWritten + substream.bytesWritten;
      out := substream.out;
      if substream.bytesWritten != size {
        return false;
      }
      WroteBoth(w, Some(Varint(size)), w1, data, status, State());
      return status;
    }

    /** The loops over the elements of an array. */
    method EncodeAll(lt: LType, tag: Option<nat>, vs: seq<Value>) returns (ok: bool)
      requires Valid() && (tag.Some? ==> tag.value < WORD32) && forall i :: 0 <= i < |vs| ==> Storable(lt, vs[i])
      modifies this
      ensures Wrote(old(State()),
                    EncodeElements(lt, if tag.Some? then TagBytes(tag.value, WireType(lt)) else [], vs), ok, State())
      decreases lt, 2
    {
      ghost var w := State();
      ghost var prefix := if tag.Some? then TagBytes(tag.value, WireType(lt)) else [];
      ghost var total := EncodeElements(lt, prefix, vs);
      LoopStarts(w, total);
      assert vs[0..] == vs;
      var i := 0;
      while i < |vs|
        invariant i <= |vs| && Valid() && InLoop(w, total, EncodeElements(lt, prefix, vs[i..]), State())
      {
        ghost var now := State();
        ElementsStep(lt, prefix, vs, i);
        ok := EncodeOne(lt, tag, vs[i]);
        LoopStep(w, total, Prefixed(prefix, lt, vs[i]), EncodeElements(lt, prefix, vs[i + 1..]), now, ok, State());
        if !ok {
          return;
        }
        i := i + 1;
      }
      LoopEnds(w, total, State());
      return true;
    }

    /** encode_array: a packed array is measured first, by counting or by multiplying. */
    method EncodeRepeated(f: Field, vs: seq<Value>) returns (ok: bool)
      requires Valid() && f.htype.Repeated? && SlotStorable(f, Many(vs))
      modifies this
      ensures Wrote(old(State()), EncodeArray(f, vs), ok, State())
      decreases f, 3
    {
      if |vs| == 0 {
        ok := Write([]);
        return;
      }
      if |vs| > f.htype.arraySize {
        return false;
      }
      if Packable(f.ltype) {
        ok := EncodePacked(f, vs);
      } else {
        ok := EncodeAll(f.ltype, Some(f.tag), vs);
      }
    }

    method EncodePacked(f: Field, vs: seq<Value>) returns (ok: bool)
      requires Valid() && f.htype.Repeated? && SlotStorable(f, Many(vs)) && 0 < |vs| <= f.htype.arraySize
      requires Packable(f.ltype)
      modifies this
      ensures Wrote(old(State()), EncodeArray(f, vs), ok, State())
      decreases f, 2
    {
      ghost var w := State();
      ghost var data := EncodeElements(f.ltype, [], vs);
      ghost var tag := Some(TagBytes(f.tag, WT_STRING));
      ok := EncodeTag(WT_STRING, f.tag);
      if !ok {
        WroteFailed(w, tag, State(), if data.Some? then Some(StringBytes(data.value)) else None);
        return;
      }
      ghost var w1 := State();
      var size;
      ok, size := PackedSize(f.ltype, vs);
      if !ok {
        return;
      }
      ok := WritePacked(f.ltype, vs, size);
      WroteBoth(w, tag, w1, Some(StringBytes(data.value)), ok, State());
    }

    /** The number of bytes of a packed array without its length. */
    static method PackedSize(lt: LType, vs: seq<Value>) returns (ok: bool, size: nat)
      requires Packable(lt) && forall i :: 0 <= i < |vs| ==> Storable(lt, vs[i])
      ensures ok <==> EncodeElements(lt, [], vs).Some?
      ensures ok ==> size == |EncodeElements(lt, [], vs).value|
      decreases lt, 4
    {
      FixedSizes(lt, vs);
      if lt.Fixed32? {
        return true, 4 * |vs|;
      } else if lt.Fixed64? {
        return true, 8 * |vs|;
      }
      var sizeStream := new OStream.Sizing();
      ok := sizeStream.EncodeAll(lt, None, vs);
      size := sizeStream.bytesWritten;
    }

    method WritePacked(lt: LType, vs: seq<Value>, size: nat) returns (ok: bool)
      requires Valid() && Packable(lt) && forall i :: 0 <= i < |vs| ==> Storable(lt, vs[i])
      requires EncodeElements(lt, [], vs).Some? && size == |EncodeElements(lt, [], vs).value| < WORD64
      modifies this
      ensures Wrote(old(State()), Some(StringBytes(EncodeElements(lt, [], vs).value)), ok, State())
      decreases lt, 5
    {
      ghost var w := State();
      ghost var data := EncodeElements(lt, [], vs);
      ok := EncodeVarint(size);
      if !ok {
        WroteFailed(w, Some(Varint(size)), State(), data);
        return;
      }
      ghost var w1 := State();
      if sizing {
        Count(data.value, size);
      } else {
        ok := EncodeAll(lt, None, vs);
      }
      WroteBoth(w, Some(Varint(size)), w1, data, ok, State());
    }

    /** encode_basic_field */
    method EncodeField(f: Field, slot: Slot) returns (ok: bool)
      requires Valid() && SlotStorable(f, slot)
      modifies this
      ensures Wrote(old(State()), EncodeSlot(f, slot), ok, State())
      decreases f, 4
    {
      match slot
      case Many(vs) => ok := EncodeRepeated(f, vs);
      case Set(v) => ok := EncodeOne(f.ltype, Some(f.tag), v);
      case Unset => ok := Write([]);
    }

    /** pb_encode */
    method Encode(fields: seq<Field>, slots: seq<Slot>) returns (ok: bool)
      requires Valid() && AllStorable(fields, slots)
      modifies this
      ensures Wrote(old(State()), EncodeFields(fields, slots), ok, State())
      decreases fields, 4
    {
      ghost var w := State();
      ghost var total := EncodeFields(fields, slots);
      assert fields[0..] == fields && slots[0..] == slots;
      LoopStarts(w, total);
      if fields == [] {
        LoopEnds(w, total, State());
        return true;
      }
      var iter := new FieldIter(fields);
      var more := true;
      while more
        invariant iter.Valid() && iter.fields == fields && fresh(iter) && Valid()
        invariant more ==> InLoop(w, total, EncodeFields(fields[iter.pos..], slots[iter.pos..]), State())
        invariant !more ==> InLoop(w, total, Some([]), State())
        decreases if more then |fields| - iter.pos else -1
      {
        ghost var now := State();
        var i := iter.pos;
        FieldsStep(fields, slots, i);
        assert SlotStorable(fields[i], slots[i]);
        ok := EncodeField(fields[i], slots[i]);
        LoopStep(
          w, total, EncodeSlot(fields[i], slots[i]), EncodeFields(fields[i + 1..], slots[i + 1..]), now, ok, State());
        if !ok {
          return;
        }
        more := iter.Next();
      }
      LoopEnds(w, total, State());
      return true;
    }
  }

  /** pb_get_encoded_size: counting gives the size that writing takes. */
  method GetEncodedSize(fields: seq<Field>, slots: seq<Slot>) returns (ok: bool, size: nat)
    requires AllStorable(fields, slots)
    ensures ok <==> EncodeFields(fields, slots).Some?
    ensures ok ==> size == |EncodeFields(fields, slots).value|
  {
    var stream := new OStream.Sizing();
    ok := stream.Encode(fields, slots);
    size := stream.bytesWritten;
  }

  /** pb_encode to a buffer of `room` bytes: it succeeds exactly when the size fits, and
      never writes more than the buffer holds. */
  method EncodeToBuffer(fields: seq<Field>, slots: seq<Slot>, room: nat) returns (ok: bool, buffer: Bytes)
    requires AllStorable(fields, slots)
    ensures ok <==> EncodeFields(fields, slots).Some? && |EncodeFields(fields, slots).value| <= room
    ensures ok ==> buffer == EncodeFields(fields, slots).value
    ensures |buffer| <= room
  {
    var stream := new OStream.ToBuffer([], room);
    ok := stream.Encode(fields, slots);
    buffer := stream.out;
    assert ok ==> [] + EncodeFields(fields, slots).value == EncodeFields(fields, slots).value;
  }
}
