/** What decoding comes to whatever the bytes are, well-formed or not: that the result fits its
    room, which members of unions are left, which required fields decide, and how a field that
    occurs more than once is read. */
module PbOutcomes {
  import opened Options
  import opened Coding
  import opened PbWire
  import opened PbMessages
  import opened PbRoundTrip

  // ----- everything fits

  predicate ValueFits(lt: LType, v: Value)
    decreases lt
  {
    match lt
    case SubMessage(fields) => v.Message? && MessageFits(fields, v.slots)
    case StringIn(size) => v.Blob? && |v.bytes| < size
    case _ => ScalarOk(lt, v)
  }

  predicate SlotFits(f: Field, slot: Slot)
    decreases f
  {
    match f.htype
    case Repeated(arraySize) =>
      slot.Many? && |slot.values| <= arraySize &&
      forall i :: 0 <= i < |slot.values| ==> ValueFits(f.ltype, slot.values[i])
    case _ => slot.Unset? || (slot.Set? && ValueFits(f.ltype, slot.value))
  }

  /** Every value is in the room its field has, and at most one member of each union is set, in
      the messages inside too. */
  predicate MessageFits(fields: seq<Field>, slots: seq<Slot>)
    decreases fields
  {
    && |slots| == |fields| && UnionsOk(fields, slots)
    && forall i :: 0 <= i < |fields| ==> SlotFits(fields[i], slots[i])
  }

  lemma {:induction false} DefaultsFit(fields: seq<Field>)
    ensures MessageFits(fields, Defaults(fields))
  {
  }

  lemma {:induction false} BaseFits(f: Field, slot: Slot)
    requires f.ltype.SubMessage? && SlotFits(f, slot)
    ensures MessageFits(f.ltype.fields, Base(f, slot))
  {
    DefaultsFit(f.ltype.fields);
  }

  lemma {:induction false} FixedFits(s: Bytes)
    ensures FromFixed(s) < Pow(256, |s|)
  {
    if s != [] {
      FixedFits(s[1..]);
    }
  }

  lemma {:induction false} ScalarFits(lt: LType, s: Bytes)
    requires !lt.SubMessage? && DecodeScalar(lt, s).Some?
    ensures ValueFits(lt, DecodeScalar(lt, s).value.0)
  {
    FixedBounds();
    if lt.Fixed32? {
      FixedFits(s[..4]);
    } else if lt.Fixed64? {
      FixedFits(s[..8]);
    }
  }

  lemma {:induction false} ReadFits(lt: LType, s: Bytes, base: seq<Slot>)
    requires lt.SubMessage? ==> MessageFits(lt.fields, base)
    requires DecodeValue(lt, s, base).Some?
    ensures ValueFits(lt, DecodeValue(lt, s, base).value.0)
    decreases |s|, 0
  {
    if lt.SubMessage? {
      DecodedFits(lt.fields, ReadString(s).value.0, base);
    } else {
      ScalarFits(lt, s);
    }
  }

  lemma {:induction false} PackedFits(lt: LType, s: Bytes, vs: seq<Value>, arraySize: nat)
    requires !lt.SubMessage? && |vs| <= arraySize && forall i :: 0 <= i < |vs| ==> ValueFits(lt, vs[i])
    requires DecodePacked(lt, s, vs, arraySize).Some?
    ensures var r := DecodePacked(lt, s, vs, arraySize).value;
      |r| <= arraySize && forall i :: 0 <= i < |r| ==> ValueFits(lt, r[i])
    decreases |s|
  {
    if s != [] {
      DecodeScalarConsumes(lt, s);
      ScalarFits(lt, s);
      var (v, rest) := DecodeScalar(lt, s).value;
      PackedFits(lt, rest, vs + [v], arraySize);
    }
  }

  lemma {:induction false} SlotReadFits(f: Field, wireType: nat, s: Bytes, slot: Slot)
    requires SlotFits(f, slot) && DecodeSlot(f, wireType, s, slot).Some?
    ensures SlotFits(f, DecodeSlot(f, wireType, s, slot).value.0)
    decreases |s|, 2
  {
    if f.ltype.SubMessage? {
      BaseFits(f, slot);
    }
    if f.htype.Repeated? && wireType == WT_STRING && Packable(f.ltype) {
      PackedFits(f.ltype, ReadString(s).value.0, slot.values, f.htype.arraySize);
    } else {
      ReadFits(f.ltype, s, Base(f, slot));
    }
  }

  lemma {:induction false} StoredFits(fields: seq<Field>, slots: seq<Slot>, i: nat, slot: Slot)
    requires MessageFits(fields, slots) && i < |fields| && SlotFits(fields[i], slot)
    ensures MessageFits(fields, Store(fields, slots, i, slot))
  {
  }

  lemma {:induction false} LoopFits(fields: seq<Field>, s: Bytes, slots: seq<Slot>, seen: set<nat>)
    requires MessageFits(fields, slots) && DecodeFields(fields, s, slots, seen).Some?
    ensures MessageFits(fields, DecodeFields(fields, s, slots, seen).value.0)
    decreases |s|, 3
  {
    ReadTagConsumes(s);
    var t := ReadTag(s);
    if t.Tag? {
      var i := Find(fields, t.tag);
      if i == |fields| {
        LoopFits(fields, SkipField(t.wireType, t.rest).value, slots, seen);
      } else {
        SlotReadFits(fields[i], t.wireType, t.rest, slots[i]);
        var (slot, next) := DecodeSlot(fields[i], t.wireType, t.rest, slots[i]).value;
        StoredFits(fields, slots, i, slot);
        LoopFits(fields, next, Store(fields, slots, i, slot), seen + {i});
      }
    }
  }

  /** Decoding leaves a message that fits its descriptor as one that does, whatever the bytes. */
  lemma {:induction false} DecodedFits(fields: seq<Field>, s: Bytes, slots: seq<Slot>)
    requires MessageFits(fields, slots) && DecodeMessage(fields, s, slots).Some?
    ensures MessageFits(fields, DecodeMessage(fields, s, slots).value)
    decreases |s|, 4
  {
    LoopFits(fields, s, slots, {});
  }

  /** Whatever bytes are decoded, no value leaves its room, and no two members of a union are set. */
  lemma {:induction false} AlwaysFits(fields: seq<Field>, s: Bytes)
    requires DecodeMessage(fields, s, Defaults(fields)).Some?
    ensures MessageFits(fields, DecodeMessage(fields, s, Defaults(fields)).value)
  {
    DefaultsFit(fields);
    DecodedFits(fields, s, Defaults(fields));
  }

  // ----- required fields

  /** The required fields that have been read are those that are set. */
  ghost predicate SeenIsSet(fields: seq<Field>, slots: seq<Slot>, seen: set<nat>)
    requires |slots| == |fields|
  {
    forall i :: 0 <= i < |fields| && fields[i].htype.Required? ==> (i in seen <==> slots[i].Set?)
  }

  lemma {:induction false} SeenStays(fields: seq<Field>, s: Bytes, slots: seq<Slot>, seen: set<nat>)
    requires |slots| == |fields| && SeenIsSet(fields, slots, seen) && DecodeFields(fields, s, slots, seen).Some?
    ensures var (slots', seen') := DecodeFields(fields, s, slots, seen).value; SeenIsSet(fields, slots', seen')
    decreases |s|
  {
    ReadTagConsumes(s);
    var t := ReadTag(s);
    if t.Tag? {
      var i := Find(fields, t.tag);
      if i == |fields| {
        SeenStays(fields, SkipField(t.wireType, t.rest).value, slots, seen);
      } else {
        var (slot, next) := DecodeSlot(fields[i], t.wireType, t.rest, slots[i]).value;
        SeenStays(fields, next, Store(fields, slots, i, slot), seen + {i});
      }
    }
  }

  ghost function RequiredBelow(fields: seq<Field>, i: nat): set<nat>
    requires i <= |fields|
  {
    set j | 0 <= j < i && fields[j].htype.Required?
  }

  lemma {:induction false} RequiredCount(fields: seq<Field>, i: nat)
    requires i <= |fields|
    ensures RequiredBefore(fields, i) == |RequiredBelow(fields, i)|
  {
    if i > 0 {
      RequiredCount(fields, i - 1);
      if fields[i - 1].htype.Required? {
        assert RequiredBelow(fields, i) == RequiredBelow(fields, i - 1) + {i - 1};
      } else {
        assert RequiredBelow(fields, i) == RequiredBelow(fields, i - 1);
      }
    }
  }

  /** The field is required, and there are fewer than 64 such fields before it. */
  ghost predicate Counts(fields: seq<Field>, i: nat)
    requires i < |fields|
  {
    fields[i].htype.Required? && |RequiredBelow(fields, i)| < 64
  }

  /** Once all fields in the bytes are read, decoding fails exactly if one of the first 64 required
      fields was not set by them. */
  lemma {:induction false} RequiredDecide(fields: seq<Field>, s: Bytes, slots: seq<Slot>, seen: set<nat>)
    requires DecodeFields(fields, s, Defaults(fields), {}) == Some((slots, seen))
    ensures DecodeMessage(fields, s, Defaults(fields))
      == if forall i :: 0 <= i < |fields| && Counts(fields, i) ==> slots[i].Set? then Some(slots) else None
  {
    SeenStays(fields, s, Defaults(fields), {});
    forall i | 0 <= i < |fields|
      ensures Counts(fields, i) <==> fields[i].htype.Required? && RequiredBefore(fields, i) < MAX_REQUIRED_FIELDS
    {
      RequiredCount(fields, i);
    }
  }

  /** How far reading gets does not depend on what was there before. */
  lemma {:induction false} SameRest(f: Field, wireType: nat, s: Bytes, slot: Slot, slot': Slot)
    requires DecodeSlot(f, wireType, s, slot).Some? && DecodeSlot(f, wireType, s, slot').Some?
    ensures DecodeSlot(f, wireType, s, slot).value.1 == DecodeSlot(f, wireType, s, slot').value.1
  {
  }

  lemma {:induction false} SameSeen(fields: seq<Field>, s: Bytes, slots: seq<Slot>, slots': seq<Slot>, seen: set<nat>)
    requires |slots| == |fields| == |slots'|
    requires DecodeFields(fields, s, slots, seen).Some? && DecodeFields(fields, s, slots', seen).Some?
    ensures DecodeFields(fields, s, slots, seen).value.1 == DecodeFields(fields, s, slots', seen).value.1
    decreases |s|
  {
    ReadTagConsumes(s);
    var t := ReadTag(s);
    if t.Tag? {
      var i := Find(fields, t.tag);
      if i == |fields| {
        SameSeen(fields, SkipField(t.wireType, t.rest).value, slots, slots', seen);
      } else {
        SameRest(fields[i], t.wireType, t.rest, slots[i], slots'[i]);
        var (a, next) := DecodeSlot(fields[i], t.wireType, t.rest, slots[i]).value;
        var (b, _) := DecodeSlot(fields[i], t.wireType, t.rest, slots'[i]).value;
        SameSeen(fields, next, Store(fields, slots, i, a), Store(fields, slots', i, b), seen + {i});
      }
    }
  }

  /** A message that is merged into another one must bring its required fields itself. */
  lemma {:induction false} MergedMustBring(fields: seq<Field>, s: Bytes, slots: seq<Slot>)
    requires |slots| == |fields|
    requires DecodeFields(fields, s, slots, {}).Some? && DecodeFields(fields, s, Defaults(fields), {}).Some?
    ensures DecodeMessage(fields, s, slots).Some? <==> DecodeMessage(fields, s, Defaults(fields)).Some?
  {
    SameSeen(fields, s, slots, Defaults(fields), {});
  }

  // ----- fields that occur more than once

  /** Of two members of a union that follow each other on the wire the later one is set, and the
      earlier is not, nor is any other; fields outside of the union stay as they were. */
  lemma LaterMemberWins(
    fields: seq<Field>, i: nat, j: nat, w: nat, p: Bytes, w': nat, q: Bytes, r: Bytes, slots: seq<Slot>,
    seen: set<nat>, a: Slot, b: Slot)
    returns (slots': seq<Slot>)
    requires i < |fields| == |slots| && j < |fields| && i != j && DistinctTags(fields) && w < 8 && w' < 8
    requires 0 < fields[i].tag < 0x2000_0000 && 0 < fields[j].tag < 0x2000_0000
    requires fields[i].htype.Oneof? && fields[i].htype == fields[j].htype
    requires DecodeSlot(fields[i], w, p + (TagBytes(fields[j].tag, w') + q + r), slots[i])
      == Some((a, TagBytes(fields[j].tag, w') + q + r))
    requires DecodeSlot(fields[j], w', q + r, Unset) == Some((b, r))
    ensures |slots'| == |fields| && slots'[j] == b && slots'[i] == Unset
    ensures forall k :: 0 <= k < |fields| && k != j ==>
      slots'[k] == if fields[k].htype == fields[j].htype then Unset else slots[k]
    ensures DecodeFields(fields, TagBytes(fields[i].tag, w) + p + (TagBytes(fields[j].tag, w') + q + r), slots, seen)
      == DecodeFields(fields, r, slots', seen + {i} + {j})
  {
    var first := Store(fields, slots, i, a);
    FieldRead(fields, i, w, p, TagBytes(fields[j].tag, w') + q + r, slots, seen, a);
    assert first[j] == Unset;
    FieldRead(fields, j, w', q, r, first, seen + {i}, b);
    slots' := Store(fields, first, j, b);
  }

  // ----- reading on

  lemma {:induction false} TailOn(s: Bytes, b: Bytes, bitpos: nat, result: nat)
    requires Varint32Tail(s, bitpos, result).Some?
    ensures var (n, rest) := Varint32Tail(s, bitpos, result).value;
      Varint32Tail(s + b, bitpos, result) == Some((n, rest + b))
    decreases |s|
  {
    assert (s + b)[0] == s[0] && (s + b)[1..] == s[1..] + b;
    if s[0] >= 128 {
      TailOn(s[1..], b, Advanced(bitpos), if bitpos >= 32 then result else OrByte(result, s[0] % 128, bitpos));
    }
  }

  lemma Varint32On(s: Bytes, b: Bytes)
    requires ReadVarint32(s).Some?
    ensures var (n, rest) := ReadVarint32(s).value; ReadVarint32(s + b) == Some((n, rest + b))
  {
    assert (s + b)[0] == s[0] && (s + b)[1..] == s[1..] + b;
    if s[0] >= 128 {
      TailOn(s[1..], b, 7, s[0] - 128);
    }
  }

  lemma {:induction false} VarintOn(s: Bytes, b: Bytes, n: nat)
    requires ReadVarint(s, n).Some?
    ensures var (v, rest) := ReadVarint(s, n).value; ReadVarint(s + b, n) == Some((v, rest + b))
  {
    assert (s + b)[0] == s[0] && (s + b)[1..] == s[1..] + b;
    if s[0] >= 128 {
      VarintOn(s[1..], b, n - 1);
    }
  }

  lemma StringOn(s: Bytes, b: Bytes)
    requires ReadString(s).Some?
    ensures var (data, rest) := ReadString(s).value; ReadString(s + b) == Some((data, rest + b))
  {
    Varint32On(s, b);
    var (size, rest) := ReadVarint32(s).value;
    assert (rest + b)[..size] == rest[..size] && (rest + b)[size..] == rest[size..] + b;
  }

  lemma {:induction false} SkipVarintOn(s: Bytes, b: Bytes)
    requires SkipVarint(s).Some?
    ensures SkipVarint(s + b) == Some(SkipVarint(s).value + b)
  {
    assert (s + b)[0] == s[0] && (s + b)[1..] == s[1..] + b;
    if s[0] >= 128 {
      SkipVarintOn(s[1..], b);
    }
  }

  lemma SkipOn(wireType: nat, s: Bytes, b: Bytes)
    requires SkipField(wireType, s).Some?
    ensures SkipField(wireType, s + b) == Some(SkipField(wireType, s).value + b)
  {
    if wireType == WT_VARINT {
      SkipVarintOn(s, b);
    } else if wireType == WT_STRING {
      StringOn(s, b);
    } else {
      var n := if wireType == WT_64BIT then 8 else 4;
      assert (s + b)[n..] == s[n..] + b;
    }
  }

  lemma FixedOn(width: nat, s: Bytes, b: Bytes)
    requires ReadFixed(width, s).Some?
    ensures var (v, rest) := ReadFixed(width, s).value; ReadFixed(width, s + b) == Some((v, rest + b))
  {
    assert (s + b)[..width] == s[..width] && (s + b)[width..] == s[width..] + b;
  }

  lemma ScalarOn(lt: LType, s: Bytes, b: Bytes)
    requires DecodeScalar(lt, s).Some?
    ensures var (v, rest) := DecodeScalar(lt, s).value; DecodeScalar(lt, s + b) == Some((v, rest + b))
  {
    match lt
    case Bool => Varint32On(s, b);
    case SignedInt(_) => VarintOn(s, b, 10);
    case UnsignedInt(_) => VarintOn(s, b, 10);
    case ZigZagInt(_) => VarintOn(s, b, 10);
    case Fixed32 => FixedOn(4, s, b);
    case Fixed64 => FixedOn(8, s, b);
    case _ => StringOn(s, b);
  }

  lemma {:induction false} ValueOn(lt: LType, s: Bytes, base: seq<Slot>, b: Bytes)
    requires (lt.SubMessage? ==> |base| == |lt.fields|) && DecodeValue(lt, s, base).Some?
    ensures var (v, rest) := DecodeValue(lt, s, base).value; DecodeValue(lt, s + b, base) == Some((v, rest + b))
  {
    if lt.SubMessage? {
      StringOn(s, b);
    } else {
      ScalarOn(lt, s, b);
    }
  }

  lemma {:induction false} ArrayOn(f: Field, wireType: nat, s: Bytes, vs: seq<Value>, b: Bytes)
    requires f.htype.Repeated? && DecodeArray(f, wireType, s, vs).Some?
    ensures var (vs', rest) := DecodeArray(f, wireType, s, vs).value;
      DecodeArray(f, wireType, s + b, vs) == Some((vs', rest + b))
  {
    if wireType == WT_STRING && Packable(f.ltype) {
      StringOn(s, b);
    } else {
      ValueOn(f.ltype, s, Base(f, Many(vs)), b);
    }
  }

  lemma {:induction false} SlotOn(f: Field, wireType: nat, s: Bytes, slot: Slot, b: Bytes)
    requires DecodeSlot(f, wireType, s, slot).Some?
    ensures var (slot', rest) := DecodeSlot(f, wireType, s, slot).value;
      DecodeSlot(f, wireType, s + b, slot) == Some((slot', rest + b))
  {
    if f.htype.Repeated? {
      ArrayOn(f, wireType, s, if slot.Many? then slot.values else [], b);
    } else {
      ValueOn(f.ltype, s, Base(f, slot), b);
    }
  }

  /** The fields of `s` end where `s` does, and not at a zero in front of more bytes. */
  ghost predicate AllRead(fields: seq<Field>, s: Bytes, slots: seq<Slot>)
    requires |slots| == |fields|
    decreases |s|
  {
    ReadTagConsumes(s);
    s == [] ||
    match ReadTag(s)
    case Tag(tag, wireType, rest) =>
      var i := Find(fields, tag);
      if i == |fields| then SkipField(wireType, rest).Some? && AllRead(fields, SkipField(wireType, rest).value, slots)
      else
        var r := DecodeSlot(fields[i], wireType, rest, slots[i]);
        r.Some? && AllRead(fields, r.value.1, Store(fields, slots, i, r.value.0))
    case _ => false
  }

  /** Reading two encodings one behind the other is reading the second into what the first gave. */
  lemma {:induction false} ReadsOn(fields: seq<Field>, a: Bytes, b: Bytes, slots: seq<Slot>, seen: set<nat>)
    requires |slots| == |fields| && AllRead(fields, a, slots)
    ensures DecodeFields(fields, a, slots, seen).Some?
    ensures var (m, seen') := DecodeFields(fields, a, slots, seen).value;
      DecodeFields(fields, a + b, slots, seen) == DecodeFields(fields, b, m, seen')
    decreases |a|
  {
    ReadTagConsumes(a);
    if a == [] {
      assert a + b == b;
    } else {
      Varint32On(a, b);
      var t := ReadTag(a);
      assert ReadTag(a + b) == Tag(t.tag, t.wireType, t.rest + b);
      var i := Find(fields, t.tag);
      if i == |fields| {
        SkipOn(t.wireType, t.rest, b);
        ReadsOn(fields, SkipField(t.wireType, t.rest).value, b, slots, seen);
      } else {
        SlotOn(fields[i], t.wireType, t.rest, slots[i], b);
        var (slot, next) := DecodeSlot(fields[i], t.wireType, t.rest, slots[i]).value;
        ReadsOn(fields, next, b, Store(fields, slots, i, slot), seen + {i});
      }
    }
  }

  // ----- submessages that occur more than once

  lemma {:induction false} SeenOnly(fields: seq<Field>, s: Bytes, slots: seq<Slot>, seen: set<nat>, seen': set<nat>)
    requires |slots| == |fields| && seen <= seen' && DecodeFields(fields, s, slots, seen).Some?
    ensures var r, r' := DecodeFields(fields, s, slots, seen), DecodeFields(fields, s, slots, seen');
      r'.Some? && r'.value.0 == r.value.0 && r.value.1 <= r'.value.1
    decreases |s|
  {
    ReadTagConsumes(s);
    var t := ReadTag(s);
    if t.Tag? {
      var i := Find(fields, t.tag);
      if i == |fields| {
        SeenOnly(fields, SkipField(t.wireType, t.rest).value, slots, seen, seen');
      } else {
        var (slot, next) := DecodeSlot(fields[i], t.wireType, t.rest, slots[i]).value;
        SeenOnly(fields, next, Store(fields, slots, i, slot), seen + {i}, seen' + {i});
      }
    }
  }

  /** Merging `y` into what `x` gave is decoding `x` with `y` behind it. */
  lemma {:induction false} MessagesMerge(
    fields: seq<Field>, x: Bytes, y: Bytes, slots: seq<Slot>, m: seq<Slot>, m': seq<Slot>)
    requires |slots| == |fields| && AllRead(fields, x, slots)
    requires DecodeMessage(fields, x, slots) == Some(m) && DecodeMessage(fields, y, m) == Some(m')
    ensures DecodeMessage(fields, x + y, slots) == Some(m')
  {
    ReadsOn(fields, x, y, slots, {});
    var seen := DecodeFields(fields, x, slots, {}).value.1;
    SeenOnly(fields, y, m, {}, seen);
  }

  lemma {:induction false} SubmessageRead(f: Field, x: Bytes, r: Bytes, slot: Slot, m: seq<Slot>)
    requires f.ltype.SubMessage? && !f.htype.Repeated? && |x| < WORD32
    requires DecodeMessage(f.ltype.fields, x, Base(f, slot)) == Some(m)
    ensures DecodeSlot(f, WT_STRING, StringBytes(x) + r, slot) == Some((Set(Message(m)), r))
  {
    StringRoundTrip(x, r);
  }

  lemma StoredTwice(fields: seq<Field>, slots: seq<Slot>, k: nat, a: Slot, b: Slot)
    requires k < |fields| == |slots|
    ensures Store(fields, Store(fields, slots, k, a), k, b) == Store(fields, slots, k, b)
    ensures Store(fields, slots, k, a)[k] == a
  {
  }

  /** A required or optional submessage that comes twice is the one whose bytes are those of both. */
  lemma {:induction false} SubmessagesMerge(
    fields: seq<Field>, k: nat, x: Bytes, y: Bytes, r: Bytes, slots: seq<Slot>, seen: set<nat>, m: seq<Slot>,
    m': seq<Slot>)
    requires k < |fields| == |slots| && DistinctTags(fields) && 0 < fields[k].tag < 0x2000_0000
    requires fields[k].ltype.SubMessage? && (fields[k].htype.Required? || fields[k].htype.Optional?)
    requires |x + y| < WORD32 && AllRead(fields[k].ltype.fields, x, Base(fields[k], slots[k]))
    requires DecodeMessage(fields[k].ltype.fields, x, Base(fields[k], slots[k])) == Some(m)
    requires DecodeMessage(fields[k].ltype.fields, y, m) == Some(m')
    ensures var tag := TagBytes(fields[k].tag, WT_STRING);
      DecodeFields(fields, tag + StringBytes(x) + (tag + StringBytes(y) + r), slots, seen)
      == DecodeFields(fields, tag + StringBytes(x + y) + r, slots, seen)
  {
    var f, tag := fields[k], TagBytes(fields[k].tag, WT_STRING);
    var behind := tag + StringBytes(y) + r;
    var one, both := Set(Message(m)), Set(Message(m'));
    SubmessageRead(f, x, behind, slots[k], m);
    FieldRead(fields, k, WT_STRING, StringBytes(x), behind, slots, seen, one);
    StoredTwice(fields, slots, k, one, both);
    SubmessageRead(f, y, r, one, m');
    FieldRead(fields, k, WT_STRING, StringBytes(y), r, Store(fields, slots, k, one), seen + {k}, both);
    MessagesMerge(f.ltype.fields, x, y, Base(f, slots[k]), m, m');
    SubmessageRead(f, x + y, r, slots[k], m');
    FieldRead(fields, k, WT_STRING, StringBytes(x + y), r, slots, seen, both);
    assert seen + {k} + {k} == seen + {k};
  }

  /** Of any other field that is not repeated the last occurrence counts; a member of a union that
      is a message starts from its defaults again. */
  lemma {:induction false} LastOneCounts(
    fields: seq<Field>, k: nat, w: nat, p: Bytes, w': nat, q: Bytes, r: Bytes, slots: seq<Slot>, seen: set<nat>,
    a: Slot, b: Slot)
    requires k < |fields| == |slots| && DistinctTags(fields) && 0 < fields[k].tag < 0x2000_0000 && w < 8 && w' < 8
    requires !fields[k].htype.Repeated? && (fields[k].ltype.SubMessage? ==> fields[k].htype.Oneof?)
    requires DecodeSlot(fields[k], w, p + (TagBytes(fields[k].tag, w') + q + r), slots[k])
      == Some((a, TagBytes(fields[k].tag, w') + q + r))
    requires DecodeSlot(fields[k], w', q + r, Unset) == Some((b, r))
    ensures DecodeFields(fields, TagBytes(fields[k].tag, w) + p + (TagBytes(fields[k].tag, w') + q + r), slots, seen)
      == DecodeFields(fields, TagBytes(fields[k].tag, w') + q + r, slots, seen)
  {
    var f := fields[k];
    assert Base(f, a) == Base(f, Unset) == Base(f, slots[k]);
    var first := Store(fields, slots, k, a);
    FieldRead(fields, k, w, p, TagBytes(f.tag, w') + q + r, slots, seen, a);
    FieldRead(fields, k, w', q, r, first, seen + {k}, b);
    FieldRead(fields, k, w', q, r, slots, seen, b);
    StoredTwice(fields, slots, k, a, b);
    assert seen + {k} + {k} == seen + {k};
  }
}
