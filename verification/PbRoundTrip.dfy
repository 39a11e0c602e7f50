/** Decoding what was encoded from a well-formed message gives the same message. */
module PbRoundTrip {
  import opened Options
  import opened Coding
  import opened PbWire
  import opened PbMessages

  // ----- well-formed descriptors and messages

  predicate DistinctTags(fields: seq<Field>) {
    forall i, j :: 0 <= i < j < |fields| ==> fields[i].tag != fields[j].tag
  }

  predicate TypeOk(lt: LType)
    decreases lt
  {
    lt.SubMessage? ==> DescriptorOk(lt.fields)
  }

  predicate FieldOk(f: Field)
    decreases f
  {
    0 < f.tag < 0x2000_0000 && TypeOk(f.ltype)
  }

  /** Tags are distinct field numbers of the protocol, in every nested message too. */
  predicate DescriptorOk(fields: seq<Field>)
    decreases fields
  {
    DistinctTags(fields) && forall i :: 0 <= i < |fields| ==> FieldOk(fields[i])
  }

  predicate ScalarOk(lt: LType, v: Value) {
    match (lt, v)
    case (Bool, Int(n)) => n == 0 || n == 1
    case (SignedInt(w), Int(n)) => SignedFits(w, n)
    case (UnsignedInt(w), Int(n)) => UnsignedFits(w, n)
    case (ZigZagInt(w), Int(n)) => SignedFits(w, n)
    case (Fixed32, Int(n)) => 0 <= n < WORD32
    case (Fixed64, Int(n)) => 0 <= n < WORD64
    case (BytesUpTo(max), Blob(b)) => |b| <= max
    case (StringIn(size), Blob(b)) => |b| < size && 0 !in b
    case (FixedBytes(length), Blob(b)) => |b| == length
    case _ => false
  }

  /** The value fits the room its type gives it; strings end within theirs. */
  predicate ValueOk(lt: LType, v: Value)
    decreases lt
  {
    match lt
    case SubMessage(fields) => v.Message? && MessageOk(fields, v.slots)
    case _ => ScalarOk(lt, v)
  }

  predicate SlotOk(f: Field, slot: Slot)
    decreases f
  {
    match f.htype
    case Required => slot.Set? && ValueOk(f.ltype, slot.value)
    case Repeated(arraySize) =>
      slot.Many? && |slot.values| <= arraySize &&
      forall i :: 0 <= i < |slot.values| ==> ValueOk(f.ltype, slot.values[i])
    case _ => slot.Unset? || (slot.Set? && ValueOk(f.ltype, slot.value))
  }

  /** At most one member of a union is set. */
  predicate UnionsOk(fields: seq<Field>, slots: seq<Slot>)
    requires |slots| == |fields|
  {
    forall i, j :: 0 <= i < j < |fields| && fields[i].htype.Oneof? && fields[i].htype == fields[j].htype
      ==> slots[i].Unset? || slots[j].Unset?
  }

  predicate MessageOk(fields: seq<Field>, slots: seq<Slot>)
    decreases fields
  {
    && |slots| == |fields| && UnionsOk(fields, slots)
    && forall i :: 0 <= i < |fields| ==> SlotOk(fields[i], slots[i])
  }

  // ----- values

  lemma {:induction false} TerminatedAll(s: Bytes, size: nat)
    requires |s| <= size && 0 !in s
    ensures Terminated(s, size) == s
  {
    if s != [] {
      assert s[0] in s;
      TerminatedAll(s[1..], size - 1);
    }
  }

  lemma {:induction false} FixedReads(n: nat, width: nat, rest: Bytes)
    ensures (Fixed(n, width) + rest)[..width] == Fixed(n, width) && (Fixed(n, width) + rest)[width..] == rest
  {
  }

  lemma SignedRoundTrip(width: nat, n: int, rest: Bytes)
    requires SignedFits(width, n)
    ensures ReadSigned(width, Varint(Unsigned64(n)) + rest) == Some((Int(n), rest))
  {
    Varint64RoundTrip(Unsigned64(n), rest);
    SignExtended(n);
  }

  /** A sign-extended number reads the same from 64 bits and, if it fits, from 32. */
  lemma SignExtended(n: int)
    ensures SignedFits(8, n) ==> Signed64(Unsigned64(n)) == n
    ensures SignedFits(4, n) ==> Signed32(Unsigned64(n)) == n
  {
  }

  lemma ZigZagNumberRoundTrip(width: nat, n: int, rest: Bytes)
    requires SignedFits(width, n)
    ensures ReadZigZag(width, Varint(ZigZag(n)) + rest) == Some((Int(n), rest))
  {
    ZigZagRoundTrip(n, 0);
    Varint64RoundTrip(ZigZag(n), rest);
  }

  lemma {:induction false} FixedNumberRoundTrip(n: nat, width: nat, rest: Bytes)
    requires n < Pow(256, width)
    ensures ReadFixed(width, Fixed(n, width) + rest) == Some((Int(n), rest))
  {
    FixedRoundTrip(n, width);
    FixedReads(n, width, rest);
  }

  lemma NumberRoundTrip(lt: LType, v: Value, b: Bytes, rest: Bytes)
    requires ScalarOk(lt, v) && EncodeScalar(lt, v) == Some(b) && v.Int?
    ensures DecodeScalar(lt, b + rest) == Some((v, rest))
  {
    match lt
    case Bool => ReadVarint32RoundTrip(v.n, rest);
    case SignedInt(w) => SignedRoundTrip(w, v.n, rest);
    case UnsignedInt(_) => Varint64RoundTrip(v.n, rest);
    case ZigZagInt(w) => ZigZagNumberRoundTrip(w, v.n, rest);
    case Fixed32 =>
      FixedBounds();
      FixedNumberRoundTrip(v.n, 4, rest);
    case Fixed64 =>
      FixedBounds();
      FixedNumberRoundTrip(v.n, 8, rest);
    case _ =>
  }

  lemma BlobRoundTrip(lt: LType, v: Value, b: Bytes, rest: Bytes)
    requires ScalarOk(lt, v) && EncodeScalar(lt, v) == Some(b) && v.Blob? && |b| < WORD32
    ensures DecodeScalar(lt, b + rest) == Some((v, rest))
  {
    if lt.StringIn? {
      TerminatedAll(v.bytes, lt.size);
    }
    assert |v.bytes| < |StringBytes(v.bytes)|;
    StringRoundTrip(v.bytes, rest);
    if lt.FixedBytes? && v.bytes == [] {
      assert v.bytes == seq(lt.length, _ => 0);
    }
  }

  lemma ScalarRoundTrip(lt: LType, v: Value, b: Bytes, rest: Bytes)
    requires ScalarOk(lt, v) && EncodeScalar(lt, v) == Some(b) && |b| < WORD32
    ensures DecodeScalar(lt, b + rest) == Some((v, rest))
  {
    if v.Int? {
      NumberRoundTrip(lt, v, b, rest);
    } else {
      BlobRoundTrip(lt, v, b, rest);
    }
  }

  /** A well-formed message can be encoded. */
  lemma {:induction false} Encodable(fields: seq<Field>, slots: seq<Slot>)
    requires MessageOk(fields, slots)
    ensures EncodeFields(fields, slots).Some?
    decreases fields, 2
  {
    if fields != [] {
      assert SlotOk(fields[0], slots[0]);
      SlotEncodable(fields[0], slots[0]);
      RestOk(fields, slots);
      Encodable(fields[1..], slots[1..]);
    }
  }

  lemma {:induction false} RestOk(fields: seq<Field>, slots: seq<Slot>)
    requires MessageOk(fields, slots) && fields != []
    ensures MessageOk(fields[1..], slots[1..])
  {
  }

  lemma {:induction false} SlotEncodable(f: Field, slot: Slot)
    requires SlotOk(f, slot)
    ensures EncodeSlot(f, slot).Some?
    decreases f, 1
  {
    if slot.Set? {
      ValueEncodable(f.ltype, slot.value);
    } else if slot.Many? {
      ElementsEncodable(f.ltype, [], slot.values);
      ElementsEncodable(f.ltype, TagBytes(f.tag, WireType(f.ltype)), slot.values);
    }
  }

  lemma {:induction false} ElementsEncodable(lt: LType, prefix: Bytes, vs: seq<Value>)
    requires forall i :: 0 <= i < |vs| ==> ValueOk(lt, vs[i])
    ensures EncodeElements(lt, prefix, vs).Some?
    decreases lt, |vs|
  {
    if vs != [] {
      ValueEncodable(lt, vs[0]);
      ElementsEncodable(lt, prefix, vs[1..]);
    }
  }

  lemma {:induction false} ValueEncodable(lt: LType, v: Value)
    requires ValueOk(lt, v)
    ensures EncodeValue(lt, v).Some?
    decreases lt, 0
  {
    if lt.SubMessage? {
      Encodable(lt.fields, v.slots);
    }
  }

  // ----- the round trip

  /** What the decoder holds once the first `k` fields are read. */
  function Mixed(fields: seq<Field>, slots: seq<Slot>, k: nat): (r: seq<Slot>)
    requires k <= |slots| == |fields|
    ensures |r| == |fields|
  {
    slots[..k] + Defaults(fields)[k..]
  }

  /** A field read from its tag and what follows. */
  lemma {:induction false} FieldRead(
    fields: seq<Field>, k: nat, wireType: nat, p: Bytes, r: Bytes, slots: seq<Slot>, seen: set<nat>, slot: Slot)
    requires k < |fields| == |slots| && DistinctTags(fields) && 0 < fields[k].tag < 0x2000_0000 && wireType < 8
    requires DecodeSlot(fields[k], wireType, p + r, slots[k]) == Some((slot, r))
    ensures DecodeFields(fields, TagBytes(fields[k].tag, wireType) + p + r, slots, seen)
         == DecodeFields(fields, r, Store(fields, slots, k, slot), seen + {k})
  {
    var tag := TagBytes(fields[k].tag, wireType);
    assert tag + p + r == tag + (p + r);
    TagRoundTrip(fields[k].tag, wireType, p + r);
    assert Find(fields, fields[k].tag) == k;
  }

  lemma {:induction false} FieldValueRoundTrip(f: Field, v: Value, b: Bytes, rest: Bytes, slot: Slot)
    requires TypeOk(f.ltype) && ValueOk(f.ltype, v) && EncodeValue(f.ltype, v) == Some(b) && |b| < WORD32
    requires slot.Unset? || slot.Many?
    ensures DecodeValue(f.ltype, b + rest, Base(f, slot)) == Some((v, rest))
    decreases f, 0
  {
    ValueRoundTrip(f.ltype, v, b, rest);
  }

  lemma {:induction false} ValueRoundTrip(lt: LType, v: Value, b: Bytes, rest: Bytes)
    requires TypeOk(lt) && ValueOk(lt, v) && EncodeValue(lt, v) == Some(b) && |b| < WORD32
    ensures DecodeValue(lt, b + rest, if lt.SubMessage? then Defaults(lt.fields) else []) == Some((v, rest))
    decreases lt
  {
    if lt.SubMessage? {
      var data := EncodeFields(lt.fields, v.slots).value;
      MessageRoundTrip(lt.fields, v.slots, data);
      StringRoundTrip(data, rest);
    } else {
      ScalarRoundTrip(lt, v, b, rest);
    }
  }

  lemma {:induction false} PackedRoundTrip(lt: LType, vs: seq<Value>, before: seq<Value>, arraySize: nat, b: Bytes)
    requires Packable(lt) && EncodeElements(lt, [], vs) == Some(b) && |b| < WORD32
    requires |before| + |vs| <= arraySize && forall i :: 0 <= i < |vs| ==> ValueOk(lt, vs[i])
    ensures DecodePacked(lt, b, before, arraySize) == Some(before + vs)
    decreases |vs|
  {
    if vs == [] {
      assert before + vs == before;
    } else {
      var first := EncodeValue(lt, vs[0]).value;
      var rest := EncodeElements(lt, [], vs[1..]).value;
      assert b == first + rest;
      ScalarRoundTrip(lt, vs[0], first, rest);
      DecodeScalarConsumes(lt, b);
      PackedRoundTrip(lt, vs[1..], before + [vs[0]], arraySize, rest);
      assert before + [vs[0]] + vs[1..] == before + vs;
    }
  }

  /** A packed array read after its tag. */
  lemma {:induction false} PackedArrayRead(f: Field, vs: seq<Value>, b: Bytes, r: Bytes)
    requires f.htype.Repeated? && |vs| <= f.htype.arraySize && Packable(f.ltype)
    requires EncodeElements(f.ltype, [], vs) == Some(b) && |b| < WORD32
    requires forall i :: 0 <= i < |vs| ==> ValueOk(f.ltype, vs[i])
    ensures DecodeSlot(f, WT_STRING, StringBytes(b) + r, Many([])) == Some((Many(vs), r))
  {
    StringRoundTrip(b, r);
    PackedRoundTrip(f.ltype, vs, [], f.htype.arraySize, b);
    assert [] + vs == vs;
  }

  /** One unpacked element, read after its tag. */
  lemma {:induction false} ElementRead(f: Field, vs: seq<Value>, j: nat, b: Bytes, r: Bytes)
    requires f.htype.Repeated? && j < |vs| <= f.htype.arraySize && !Packable(f.ltype)
    requires TypeOk(f.ltype) && ValueOk(f.ltype, vs[j]) && EncodeValue(f.ltype, vs[j]) == Some(b) && |b| < WORD32
    ensures DecodeSlot(f, WireType(f.ltype), b + r, Many(vs[..j])) == Some((Many(vs[..j + 1]), r))
    decreases f, 1
  {
    FieldValueRoundTrip(f, vs[j], b, r, Many(vs[..j]));
    assert vs[..j] + [vs[j]] == vs[..j + 1];
  }

  lemma StoreElement(fields: seq<Field>, slots: seq<Slot>, k: nat, a: Slot, b: Slot)
    requires k < |fields| == |slots| && !fields[k].htype.Oneof?
    ensures Store(fields, slots[k := a], k, b) == slots[k := b]
  {
  }

  /** Unpacked elements come one by one, each behind the tag. */
  lemma ElementsRead(
    fields: seq<Field>, k: nat, vs: seq<Value>, j: nat, b: Bytes, r: Bytes, slots: seq<Slot>, seen: set<nat>)
    returns (seen': set<nat>)
    requires k < |fields| == |slots| && DescriptorOk(fields) && j <= |vs|
    requires fields[k].htype.Repeated? && |vs| <= fields[k].htype.arraySize && !Packable(fields[k].ltype)
    requires forall i :: 0 <= i < |vs| ==> ValueOk(fields[k].ltype, vs[i])
    requires EncodeElements(fields[k].ltype, TagBytes(fields[k].tag, WireType(fields[k].ltype)), vs[j..]) == Some(b)
    requires |b| < WORD32
    ensures seen <= seen'
    ensures DecodeFields(fields, b + r, slots[k := Many(vs[..j])], seen)
      == DecodeFields(fields, r, slots[k := Many(vs)], seen')
    decreases fields, 1, |vs| - j
  {
    var f := fields[k];
    seen' := seen;
    if j == |vs| {
      assert vs[..j] == vs && b + r == r;
    } else {
      assert FieldOk(f) && vs[j..][1..] == vs[j + 1..] && vs[j..][0] == vs[j];
      var tag := TagBytes(f.tag, WireType(f.ltype));
      var first := EncodeValue(f.ltype, vs[j]).value;
      var rest := EncodeElements(f.ltype, tag, vs[j + 1..]).value;
      assert b + r == tag + first + (rest + r);
      ElementRead(f, vs, j, first, rest + r);
      FieldRead(fields, k, WireType(f.ltype), first, rest + r, slots[k := Many(vs[..j])], seen, Many(vs[..j + 1]));
      StoreElement(fields, slots, k, Many(vs[..j]), Many(vs[..j + 1]));
      seen' := ElementsRead(fields, k, vs, j + 1, rest, r, slots, seen + {k});
    }
  }

  lemma {:induction false} StoreMixed(fields: seq<Field>, slots: seq<Slot>, k: nat)
    requires k < |fields| && MessageOk(fields, slots)
    ensures !slots[k].Unset? ==> Store(fields, Mixed(fields, slots, k), k, slots[k]) == Mixed(fields, slots, k + 1)
    ensures slots[k].Unset? ==> Mixed(fields, slots, k + 1) == Mixed(fields, slots, k)
  {
    assert SlotOk(fields[k], slots[k]);
  }

  /** One field of an encoded message. */
  lemma SlotRead(
    fields: seq<Field>, slots: seq<Slot>, k: nat, b: Bytes, r: Bytes, seen: set<nat>) returns (seen': set<nat>)
    requires DescriptorOk(fields) && MessageOk(fields, slots) && k < |fields|
    requires EncodeSlot(fields[k], slots[k]) == Some(b) && |b| < WORD32
    ensures seen <= seen' && (fields[k].htype.Required? ==> k in seen')
    ensures DecodeFields(fields, b + r, Mixed(fields, slots, k), seen)
         == DecodeFields(fields, r, Mixed(fields, slots, k + 1), seen')
    decreases fields, 2
  {
    var f, slot, now := fields[k], slots[k], Mixed(fields, slots, k);
    assert FieldOk(f) && SlotOk(f, slot);
    StoreMixed(fields, slots, k);
    if slot.Unset? {
      assert b + r == r;
      seen' := seen;
    } else if slot.Set? {
      var value := EncodeValue(f.ltype, slot.value).value;
      FieldValueRoundTrip(f, slot.value, value, r, now[k]);
      FieldRead(fields, k, WireType(f.ltype), value, r, now, seen, slot);
      seen' := seen + {k};
    } else {
      seen' := ArrayRead(fields, slots, k, b, r, seen);
    }
  }

  lemma ArrayRead(
    fields: seq<Field>, slots: seq<Slot>, k: nat, b: Bytes, r: Bytes, seen: set<nat>) returns (seen': set<nat>)
    requires DescriptorOk(fields) && MessageOk(fields, slots) && k < |fields| && slots[k].Many?
    requires EncodeSlot(fields[k], slots[k]) == Some(b) && |b| < WORD32
    ensures seen <= seen'
    ensures DecodeFields(fields, b + r, Mixed(fields, slots, k), seen)
         == DecodeFields(fields, r, Mixed(fields, slots, k + 1), seen')
    decreases fields, 1
  {
    var f, vs, now := fields[k], slots[k].values, Mixed(fields, slots, k);
    assert FieldOk(f) && SlotOk(f, slots[k]);
    StoreMixed(fields, slots, k);
    assert now[k] == Many([]) && now[k := Many([])] == now && now[k := Many(vs)] == Mixed(fields, slots, k + 1);
    seen' := seen;
    if vs == [] {
      assert b + r == r;
    } else if Packable(f.ltype) {
      var data := EncodeElements(f.ltype, [], vs).value;
      PackedArrayRead(f, vs, data, r);
      FieldRead(fields, k, WT_STRING, StringBytes(data), r, now, seen, slots[k]);
      seen' := seen + {k};
    } else {
      assert vs[..0] == [] && vs[0..] == vs;
      seen' := ElementsRead(fields, k, vs, 0, b, r, now, seen);
    }
  }

  /** The fields from the `k`th on. */
  lemma FieldsFrom(fields: seq<Field>, slots: seq<Slot>, k: nat, b: Bytes, seen: set<nat>)
    returns (seen': set<nat>)
    requires DescriptorOk(fields) && MessageOk(fields, slots) && k <= |fields|
    requires EncodeFields(fields[k..], slots[k..]) == Some(b) && |b| < WORD32
    ensures seen <= seen' && forall i :: k <= i < |fields| && fields[i].htype.Required? ==> i in seen'
    ensures DecodeFields(fields, b, Mixed(fields, slots, k), seen) == Some((slots, seen'))
    decreases fields, 3, |fields| - k
  {
    if k == |fields| {
      assert Mixed(fields, slots, k) == slots;
      seen' := seen;
    } else {
      assert fields[k..][0] == fields[k] && fields[k..][1..] == fields[k + 1..];
      assert slots[k..][0] == slots[k] && slots[k..][1..] == slots[k + 1..];
      var first := EncodeSlot(fields[k], slots[k]).value;
      var rest := EncodeFields(fields[k + 1..], slots[k + 1..]).value;
      var seen1 := SlotRead(fields, slots, k, first, rest, seen);
      seen' := FieldsFrom(fields, slots, k + 1, rest, seen1);
    }
  }

  lemma {:induction false} MessageRoundTrip(fields: seq<Field>, slots: seq<Slot>, b: Bytes)
    requires DescriptorOk(fields) && MessageOk(fields, slots)
    requires EncodeFields(fields, slots) == Some(b) && |b| < WORD32
    ensures DecodeMessage(fields, b, Defaults(fields)) == Some(slots)
    decreases fields, 4
  {
    assert fields[0..] == fields && slots[0..] == slots;
    assert Mixed(fields, slots, 0) == Defaults(fields);
    var _ := FieldsFrom(fields, slots, 0, b, {});
  }

  /** A well-formed message can be encoded, and decoding gives it back, whatever its
      descriptor: required, optional, repeated and union fields, packed or not, nested
      to any depth. Lengths are read as 32-bit numbers. */
  lemma {:induction false} RoundTrip(fields: seq<Field>, slots: seq<Slot>)
    requires DescriptorOk(fields) && MessageOk(fields, slots)
    ensures EncodeFields(fields, slots).Some?
    ensures var b := EncodeFields(fields, slots).value;
            |b| < WORD32 ==> DecodeMessage(fields, b, Defaults(fields)) == Some(slots)
  {
    Encodable(fields, slots);
    var b := EncodeFields(fields, slots).value;
    if |b| < WORD32 {
      MessageRoundTrip(fields, slots, b);
    }
  }

  lemma {:induction false} TerminatedSize(s: Bytes, size: nat)
    requires |s| == size
    ensures |Terminated(s, size)| <= size && 0 !in Terminated(s, size)
    ensures |Terminated(s, size)| < size <==> 0 in s
  {
    if s != [] && s[0] != 0 {
      TerminatedSize(s[1..], size - 1);
    }
  }

  /** Of a string field that fills its room, the part before the terminator comes back;
      without a terminator the encoder writes all of it, and the decoder refuses that. */
  lemma {:induction false} StringRoundTripIff(size: nat, b: Bytes, rest: Bytes)
    requires |b| == size < WORD32
    ensures var sent := EncodeScalar(StringIn(size), Blob(b));
            && sent.Some?
            && DecodeScalar(StringIn(size), sent.value + rest)
               == if 0 in b then Some((Blob(Terminated(b, size)), rest)) else None
  {
    TerminatedSize(b, size);
    StringRoundTrip(Terminated(b, size), rest);
  }

  // ----- fields of newer descriptors

  lemma {:induction false} VarintSkipped(n: nat, rest: Bytes)
    ensures SkipVarint(Varint(n) + rest) == Some(rest)
  {
    var s := Varint(n) + rest;
    if n < 128 {
      assert s[1..] == rest;
    } else {
      assert s[1..] == Varint(n / 128) + rest;
      VarintSkipped(n / 128, rest);
    }
  }

  lemma {:induction false} ValueSkipped(lt: LType, v: Value, b: Bytes, rest: Bytes)
    requires EncodeValue(lt, v) == Some(b) && |b| < WORD32
    ensures SkipField(WireType(lt), b + rest) == Some(rest)
  {
    if lt.Fixed32? {
      FixedReads(v.n, 4, rest);
    } else if lt.Fixed64? {
      FixedReads(v.n, 8, rest);
    } else if Packable(lt) {
      VarintSkipped(NumberCode(lt, v), rest);
    } else {
      var data := StringData(lt, v);
      StringRoundTrip(data, rest);
    }
  }

  /** The number that stands for a value on the wire. */
  function NumberCode(lt: LType, v: Value): nat
    requires EncodeScalar(lt, v).Some? && Packable(lt) && !lt.Fixed32? && !lt.Fixed64?
  {
    if lt.Bool? then (if v.n != 0 then 1 else 0)
    else if lt.SignedInt? then Unsigned64(v.n)
    else if lt.ZigZagInt? then ZigZag(v.n)
    else v.n
  }

  function StringData(lt: LType, v: Value): Bytes
    requires EncodeValue(lt, v).Some? && !Packable(lt)
  {
    if lt.SubMessage? then EncodeFields(lt.fields, v.slots).value
    else if lt.StringIn? then Terminated(v.bytes, lt.size)
    else v.bytes
  }

  /** A field that the descriptor does not know changes nothing, whatever its type. */
  lemma {:induction false} UnknownFieldSkipped(
    fields: seq<Field>, f: Field, v: Value, b: Bytes, r: Bytes, slots: seq<Slot>, seen: set<nat>)
    requires |slots| == |fields| && 0 < f.tag < 0x2000_0000 && forall i :: 0 <= i < |fields| ==> fields[i].tag != f.tag
    requires EncodeValue(f.ltype, v) == Some(b) && |b| < WORD32
    ensures DecodeFields(fields, TagBytes(f.tag, WireType(f.ltype)) + b + r, slots, seen)
      == DecodeFields(fields, r, slots, seen)
  {
    var tag := TagBytes(f.tag, WireType(f.ltype));
    assert tag + b + r == tag + (b + r);
    TagRoundTrip(f.tag, WireType(f.ltype), b + r);
    ValueSkipped(f.ltype, v, b, r);
    assert Find(fields, f.tag) == |fields|;
  }
}
