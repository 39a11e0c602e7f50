/** Protocol Buffers messages as nanopb encodes and decodes them: typed values driven
    by a descriptor, nested to any depth. */
module PbMessages {
  import opened Options
  import opened Coding
  import opened PbWire

  /** `width` is the size in bytes of the integer that holds the value, `max`, `size`
      and `length` the room for bytes, for a string with its terminator, and for
      bytes of a fixed length. */
  datatype LType =
    | Bool | SignedInt(width: nat) | UnsignedInt(width: nat) | ZigZagInt(width: nat) | Fixed32 | Fixed64
    | BytesUpTo(max: nat) | StringIn(size: nat) | FixedBytes(length: nat) | SubMessage(fields: seq<Field>)

  datatype HType = Required | Optional | Repeated(arraySize: nat) | Oneof(group: nat)

  datatype Field = Field(tag: nat, ltype: LType, htype: HType)

  datatype Value = Int(n: int) | Blob(bytes: Bytes) | Message(slots: seq<Slot>)

  /** What a structure holds for a field; `Unset` is a false has-flag, a union that
      holds another member, or a required field not read yet. */
  datatype Slot = Unset | Set(value: Value) | Many(values: seq<Value>)

  const MAX_REQUIRED_FIELDS: nat := 64

  /** LTYPE <= PB_LTYPE_LAST_PACKABLE */
  predicate Packable(lt: LType) {
    lt.Bool? || lt.SignedInt? || lt.UnsignedInt? || lt.ZigZagInt? || lt.Fixed32? || lt.Fixed64?
  }

  /** Half the number of values of an integer of `width` bytes; 0 for other widths. */
  function Half(width: nat): nat {
    if width == 1 then 0x80 else if width == 2 then 0x8000 else if width == 4 then 0x8000_0000
    else if width == 8 then 0x8000_0000_0000_0000 else 0
  }

  predicate SignedFits(width: nat, n: int) {
    -(Half(width) as int) <= n < Half(width)
  }

  predicate UnsignedFits(width: nat, n: int) {
    0 <= n < 2 * Half(width)
  }

  function WireType(lt: LType): (w: nat)
    ensures w < 8
  {
    match lt
    case Bool => WT_VARINT
    case SignedInt(_) => WT_VARINT
    case UnsignedInt(_) => WT_VARINT
    case ZigZagInt(_) => WT_VARINT
    case Fixed32 => WT_32BIT
    case Fixed64 => WT_64BIT
    case _ => WT_STRING
  }

  // ----- encoding

  /** What a C string shows of its `size` bytes. */
  function Terminated(s: Bytes, size: nat): Bytes {
    if size == 0 || s == [] || s[0] == 0 then [] else [s[0]] + Terminated(s[1..], size - 1)
  }

  /** The encoders of values that are not messages; none for a value the type cannot hold. */
  function EncodeScalar(lt: LType, v: Value): Option<Bytes> {
    match (lt, v)
    case (Bool, Int(n)) => Some(Varint(if n != 0 then 1 else 0))
    case (SignedInt(w), Int(n)) => if SignedFits(w, n) then Some(Varint(Unsigned64(n))) else None
    case (UnsignedInt(w), Int(n)) => if UnsignedFits(w, n) then Some(Varint(n)) else None
    case (ZigZagInt(w), Int(n)) => if SignedFits(w, n) then Some(Varint(ZigZag(n))) else None
    case (Fixed32, Int(n)) => if 0 <= n < WORD32 then Some(Fixed(n, 4)) else None
    case (Fixed64, Int(n)) => if 0 <= n < WORD64 then Some(Fixed(n, 8)) else None
    case (BytesUpTo(max), Blob(b)) => if |b| <= max then Some(StringBytes(b)) else None
    case (StringIn(size), Blob(b)) => Some(StringBytes(Terminated(b, size)))
    case (FixedBytes(length), Blob(b)) => if |b| == length then Some(StringBytes(b)) else None
    case _ => None
  }

  function EncodeValue(lt: LType, v: Value): Option<Bytes>
    decreases lt, 0
  {
    match lt
    case SubMessage(fields) =>
      if !v.Message? then None
      else
        (match EncodeFields(fields, v.slots)
         case None => None
         case Some(b) => Some(StringBytes(b)))
    case _ => EncodeScalar(lt, v)
  }

  /** The elements of an array, each behind `prefix`. */
  function EncodeElements(lt: LType, prefix: Bytes, vs: seq<Value>): Option<Bytes>
    decreases lt, |vs|
  {
    if vs == [] then Some([])
    else
      match (EncodeValue(lt, vs[0]), EncodeElements(lt, prefix, vs[1..]))
      case (Some(b), Some(rest)) => Some(prefix + b + rest)
      case _ => None
  }

  /** encode_array: packed where the type allows it. */
  function EncodeArray(f: Field, vs: seq<Value>): Option<Bytes>
    requires f.htype.Repeated?
    decreases f, 0
  {
    if vs == [] then Some([])
    else if |vs| > f.htype.arraySize then None
    else if Packable(f.ltype) then
      match EncodeElements(f.ltype, [], vs)
      case None => None
      case Some(b) => Some(TagBytes(f.tag, WT_STRING) + StringBytes(b))
    else EncodeElements(f.ltype, TagBytes(f.tag, WireType(f.ltype)), vs)
  }

  /** encode_basic_field */
  function EncodeSlot(f: Field, slot: Slot): Option<Bytes>
    decreases f, 1
  {
    match (f.htype, slot)
    case (Repeated(_), Many(vs)) => EncodeArray(f, vs)
    case (Repeated(_), _) => None
    case (Required, Unset) => None
    case (_, Unset) => Some([])
    case (_, Set(v)) =>
      (match EncodeValue(f.ltype, v)
       case None => None
       case Some(b) => Some(TagBytes(f.tag, WireType(f.ltype)) + b))
    case _ => None
  }

  /** pb_encode: the fields in the order of the descriptor. */
  function EncodeFields(fields: seq<Field>, slots: seq<Slot>): Option<Bytes>
    decreases fields
  {
    if |slots| != |fields| then None
    else if fields == [] then Some([])
    else
      match (EncodeSlot(fields[0], slots[0]), EncodeFields(fields[1..], slots[1..]))
      case (Some(b), Some(rest)) => Some(b + rest)
      case _ => None
  }

  // ----- decoding

  /** pb_dec_varint: narrow integers are first cut to 32 bits, then must fit. */
  function ReadSigned(width: nat, s: Bytes): Option<(Value, Bytes)> {
    match GetVarint64(s)
    case None => None
    case Some((u, rest)) =>
      var n := if width == 8 then Signed64(u) else Signed32(u);
      if SignedFits(width, n) then Some((Int(n), rest)) else None
  }

  function ReadUnsigned(width: nat, s: Bytes): Option<(Value, Bytes)> {
    match GetVarint64(s)
    case None => None
    case Some((u, rest)) => if UnsignedFits(width, u) then Some((Int(u), rest)) else None
  }

  function ReadZigZag(width: nat, s: Bytes): Option<(Value, Bytes)> {
    match GetVarint64(s)
    case None => None
    case Some((u, rest)) => if SignedFits(width, UnZigZag(u)) then Some((Int(UnZigZag(u)), rest)) else None
  }

  function ReadFixed(width: nat, s: Bytes): Option<(Value, Bytes)> {
    if |s| < width then None else Some((Int(FromFixed(s[..width])), s[width..]))
  }

  /** An empty string stands for fixed-length bytes that are all zero. */
  function ReadBlob(lt: LType, s: Bytes): Option<(Value, Bytes)> {
    match ReadString(s)
    case None => None
    case Some((data, rest)) =>
      match lt
      case BytesUpTo(max) => if |data| <= max then Some((Blob(data), rest)) else None
      case StringIn(size) => if |data| < size then Some((Blob(data), rest)) else None
      case FixedBytes(length) =>
        if data == [] then Some((Blob(seq(length, _ => 0)), rest))
        else if |data| == length then Some((Blob(data), rest)) else None
      case _ => None
  }

  /** The decoders of values that are not messages. */
  function DecodeScalar(lt: LType, s: Bytes): Option<(Value, Bytes)> {
    match lt
    case Bool =>
      (match ReadVarint32(s)
       case None => None
       case Some((n, rest)) => Some((Int(if n != 0 then 1 else 0), rest)))
    case SignedInt(w) => ReadSigned(w, s)
    case UnsignedInt(w) => ReadUnsigned(w, s)
    case ZigZagInt(w) => ReadZigZag(w, s)
    case Fixed32 => ReadFixed(4, s)
    case Fixed64 => ReadFixed(8, s)
    case SubMessage(_) => None
    case _ => ReadBlob(lt, s)
  }

  lemma DecodeScalarConsumes(lt: LType, s: Bytes)
    ensures var r := DecodeScalar(lt, s);
            r.Some? ==> |r.value.1| < |s| && r.value.1 == s[|s| - |r.value.1|..]
  {
    ReadVarint32Consumes(s);
    ReadVarintConsumes(s, 10);
  }

  /** pb_message_set_to_defaults */
  function Defaults(fields: seq<Field>): (slots: seq<Slot>)
    ensures |slots| == |fields|
  {
    seq(|fields|, i requires 0 <= i < |fields| => if fields[i].htype.Repeated? then Many([]) else Unset)
  }

  /** The contents that a submessage is decoded into: a required or optional one that
      was there before is merged with, others start from their defaults. */
  function Base(f: Field, slot: Slot): (slots: seq<Slot>)
    ensures f.ltype.SubMessage? ==> |slots| == |f.ltype.fields|
  {
    if !f.ltype.SubMessage? then []
    else if (f.htype.Required? || f.htype.Optional?) && slot.Set? && slot.value.Message?
            && |slot.value.slots| == |f.ltype.fields| then slot.value.slots
    else Defaults(f.ltype.fields)
  }

  function DecodeValue(lt: LType, s: Bytes, base: seq<Slot>): (r: Option<(Value, Bytes)>)
    requires lt.SubMessage? ==> |base| == |lt.fields|
    ensures r.Some? ==> |r.value.1| < |s| && r.value.1 == s[|s| - |r.value.1|..]
    decreases |s|, 0
  {
    match lt
    case SubMessage(fields) =>
      (match ReadString(s)
       case None => None
       case Some((data, rest)) =>
         match DecodeMessage(fields, data, base)
         case None => None
         case Some(slots) => Some((Message(slots), rest)))
    case _ =>
      DecodeScalarConsumes(lt, s);
      DecodeScalar(lt, s)
  }

  /** A packed array must end when it is full. */
  function DecodePacked(lt: LType, s: Bytes, vs: seq<Value>, arraySize: nat): Option<seq<Value>>
    decreases |s|
  {
    if s == [] then Some(vs)
    else if |vs| >= arraySize then None
    else
      DecodeScalarConsumes(lt, s);
      match DecodeScalar(lt, s)
      case None => None
      case Some((v, rest)) => DecodePacked(lt, rest, vs + [v], arraySize)
  }

  function DecodeArray(f: Field, wireType: nat, s: Bytes, vs: seq<Value>): (r: Option<(seq<Value>, Bytes)>)
    requires f.htype.Repeated?
    ensures r.Some? ==> |r.value.1| < |s| && r.value.1 == s[|s| - |r.value.1|..]
    decreases |s|, 1
  {
    if wireType == WT_STRING && Packable(f.ltype) then
      match ReadString(s)
      case None => None
      case Some((data, rest)) =>
        match DecodePacked(f.ltype, data, vs, f.htype.arraySize)
        case None => None
        case Some(vs') => Some((vs', rest))
    else if |vs| >= f.htype.arraySize then None
    else
      match DecodeValue(f.ltype, s, Base(f, Many(vs)))
      case None => None
      case Some((v, rest)) => Some((vs + [v], rest))
  }

  /** decode_static_field */
  function DecodeSlot(f: Field, wireType: nat, s: Bytes, slot: Slot): (r: Option<(Slot, Bytes)>)
    ensures r.Some? ==> |r.value.1| < |s| && r.value.1 == s[|s| - |r.value.1|..]
    decreases |s|, 2
  {
    if f.htype.Repeated? then
      match DecodeArray(f, wireType, s, if slot.Many? then slot.values else [])
      case None => None
      case Some((vs, rest)) => Some((Many(vs), rest))
    else
      match DecodeValue(f.ltype, s, Base(f, slot))
      case None => None
      case Some((v, rest)) => Some((Set(v), rest))
  }

  /** Setting a member of a union ends the others. */
  function Store(fields: seq<Field>, slots: seq<Slot>, i: nat, slot: Slot): (r: seq<Slot>)
    requires i < |slots| == |fields|
    ensures |r| == |slots|
  {
    seq(|slots|, j requires 0 <= j < |slots| =>
      if j == i then slot
      else if fields[i].htype.Oneof? && fields[j].htype == fields[i].htype then Unset else slots[j])
  }

  /** pb_field_iter_find; tags are distinct. */
  function Find(fields: seq<Field>, tag: nat): (i: nat)
    ensures i <= |fields| && (i < |fields| ==> fields[i].tag == tag)
    ensures forall j :: 0 <= j < i ==> fields[j].tag != tag
  {
    if fields == [] || fields[0].tag == tag then 0 else 1 + Find(fields[1..], tag)
  }

  /** The loop of pb_decode_noinit; `seen` are the fields that occurred. */
  function DecodeFields(
    fields: seq<Field>, s: Bytes, slots: seq<Slot>, seen: set<nat>): (r: Option<(seq<Slot>, set<nat>)>)
    requires |slots| == |fields|
    ensures r.Some? ==> |r.value.0| == |slots|
    decreases |s|, 3
  {
    ReadTagConsumes(s);
    match ReadTag(s)
    case End => Some((slots, seen))
    case BadTag => None
    case Tag(tag, wireType, rest) =>
      var i := Find(fields, tag);
      if i == |fields| then
        match SkipField(wireType, rest)
        case None => None
        case Some(next) => DecodeFields(fields, next, slots, seen)
      else
        match DecodeSlot(fields[i], wireType, rest, slots[i])
        case None => None
        case Some((slot, next)) => DecodeFields(fields, next, Store(fields, slots, i, slot), seen + {i})
  }

  /** How many required fields come before field `i`. */
  function RequiredBefore(fields: seq<Field>, i: nat): (n: nat)
    requires i <= |fields|
    ensures n <= i
  {
    if i == 0 then 0 else RequiredBefore(fields, i - 1) + (if fields[i - 1].htype.Required? then 1 else 0)
  }

  /** The decoder keeps track of the first 64 required fields. */
  predicate NoneMissing(fields: seq<Field>, seen: set<nat>) {
    forall i :: 0 <= i < |fields| && fields[i].htype.Required? && RequiredBefore(fields, i) < MAX_REQUIRED_FIELDS
      ==> i in seen
  }

  /** pb_decode_noinit */
  function DecodeMessage(fields: seq<Field>, s: Bytes, slots: seq<Slot>): (r: Option<seq<Slot>>)
    requires |slots| == |fields|
    ensures r.Some? ==> |r.value| == |slots|
    decreases |s|, 4
  {
    match DecodeFields(fields, s, slots, {})
    case None => None
    case Some((slots', seen)) => if NoneMissing(fields, seen) then Some(slots') else None
  }
}
