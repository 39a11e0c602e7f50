/** What the readers and the encoder of nanopb accept, over all bytes and all values: numbers of
    every width, strings, wide varints, unknown fields, and messages that can be encoded. */
module PbReadings {
  import opened Options
  import opened Coding
  import opened PbWire
  import opened PbMessages
  import opened PbRoundTrip
  import opened PbOutcomes

  // ----- numbers

  predicate IntegerWidth(width: nat) {
    width == 1 || width == 2 || width == 4 || width == 8
  }

  lemma WidthPowers()
    ensures Pow(256, 1) == 0x100 && Pow(256, 2) == 0x1_0000 && Pow(256, 4) == WORD32 && Pow(256, 8) == WORD64
  {
    FixedBounds();
    assert Pow(256, 1) == 256;
  }

  /** The casts to signed types. */
  lemma Congruent(u: nat, n: int)
    ensures Signed32(u) == n <==> (u - n) % WORD32 == 0 && -0x8000_0000 <= n < 0x8000_0000
    ensures u < WORD64 ==>
      (Signed64(u) == n <==> (u - n) % WORD64 == 0 && -0x8000_0000_0000_0000 <= n < 0x8000_0000_0000_0000)
  {
  }

  /** A signed integer of any width is read from a varint exactly if it is congruent to it, modulo
      2^64 for eight bytes and modulo 2^32 for fewer, and fits its width. */
  lemma SignedReadIff(width: nat, s: Bytes, n: int, rest: Bytes)
    requires IntegerWidth(width)
    ensures DecodeScalar(SignedInt(width), s) == Some((Int(n), rest)) <==>
      && GetVarint64(s).Some? && GetVarint64(s).value.1 == rest
      && (GetVarint64(s).value.0 - n) % Pow(256, if width == 8 then 8 else 4) == 0
      && 0 <= 2 * n + Pow(256, width) < 2 * Pow(256, width)
  {
    WidthPowers();
    if GetVarint64(s).Some? {
      Congruent(GetVarint64(s).value.0, n);
    }
  }

  lemma {:induction false} UnsignedReadIff(width: nat, s: Bytes, n: int, rest: Bytes)
    requires IntegerWidth(width)
    ensures DecodeScalar(UnsignedInt(width), s) == Some((Int(n), rest)) <==>
      n >= 0 && GetVarint64(s) == Some((n, rest)) && n < Pow(256, width)
  {
    WidthPowers();
  }

  lemma {:induction false} ZigZagReadIff(width: nat, s: Bytes, n: int, rest: Bytes)
    requires IntegerWidth(width)
    ensures DecodeScalar(ZigZagInt(width), s) == Some((Int(n), rest)) <==>
      && GetVarint64(s) == Some((if n < 0 then -2 * n - 1 else 2 * n, rest))
      && 0 <= 2 * n + Pow(256, width) < 2 * Pow(256, width)
  {
    WidthPowers();
  }

  // ----- strings and bytes

  /** Length-prefixed data is read if and only if there is room for it, for a string with its
      terminator; bytes of a fixed length must have that length, or none. */
  lemma BlobReadIff(lt: LType, data: Bytes, rest: Bytes)
    requires (lt.BytesUpTo? || lt.StringIn? || lt.FixedBytes?) && |data| < WORD32
    ensures var r := DecodeScalar(lt, StringBytes(data) + rest);
      && (r.Some? <==>
          match lt
          case BytesUpTo(max) => |data| <= max
          case StringIn(size) => |data| + 1 <= size
          case FixedBytes(length) => |data| in {0, length}
          case _ => false)
      && (r.Some? && data != [] ==> r == Some((Blob(data), rest)))
      && (r.Some? && data == [] ==> r.value.1 == rest && r.value.0.Blob? && forall b <- r.value.0.bytes :: b == 0)
  {
    StringRoundTrip(data, rest);
  }

  // ----- the end of a message

  /** A zero in place of a tag ends the message, whatever is behind it. */
  lemma {:induction false} ZeroEnds(fields: seq<Field>, s: Bytes, slots: seq<Slot>, seen: set<nat>)
    requires |slots| == |fields| && ReadVarint32(s).Some? && ReadVarint32(s).value.0 == 0
    ensures DecodeFields(fields, s, slots, seen) == DecodeFields(fields, [], slots, seen) == Some((slots, seen))
  {
  }

  // ----- unknown fields

  /** All bytes of a varint but the last have the high bit set. */
  ghost predicate VarintShape(s: Bytes) {
    s != [] && s[|s| - 1] < 128 && forall i :: 0 <= i < |s| - 1 ==> s[i] >= 128
  }

  lemma {:induction false} SkipsVarint(s: Bytes, next: Bytes)
    requires VarintShape(s)
    ensures SkipVarint(s + next) == Some(next)
    decreases |s|
  {
    if |s| > 1 {
      assert (s + next)[1..] == s[1..] + next;
      SkipsVarint(s[1..], next);
    } else {
      assert (s + next)[1..] == next;
    }
  }

  lemma {:induction false} SkippedVarint(s: Bytes)
    requires SkipVarint(s).Some?
    ensures VarintShape(s[..|s| - |SkipVarint(s).value|])
  {
    if s[0] >= 128 {
      SkippedVarint(s[1..]);
      var head := s[1..][..|s[1..]| - |SkipVarint(s[1..]).value|];
      assert s[..|s| - |SkipVarint(s).value|] == [s[0]] + head;
    }
  }

  /** What an unknown field takes: a varint of any length, a length and as many bytes, or a fixed number of
      bytes; other wire types cannot be skipped. */
  ghost predicate Skippable(wireType: nat, s: Bytes) {
    || (wireType == 0 && VarintShape(s))
    || (wireType == 1 && |s| == 8)
    || (wireType == 2 && ReadVarint32(s).Some? && ReadVarint32(s).value.0 == |ReadVarint32(s).value.1|)
    || (wireType == 5 && |s| == 4)
  }

  lemma SkipsWhole(wireType: nat, s: Bytes, next: Bytes)
    requires Skippable(wireType, s)
    ensures SkipField(wireType, s + next) == Some(next)
  {
    if wireType == 0 {
      SkipsVarint(s, next);
    } else if wireType == 2 {
      Varint32On(s, next);
      var rest := ReadVarint32(s).value.1;
      assert (rest + next)[..|rest|] == rest && (rest + next)[|rest|..] == next;
    } else {
      assert (s + next)[|s|..] == next;
    }
  }

  /** A varint is read the same without what is behind it. */
  lemma {:induction false} TailAlone(s: Bytes, bitpos: nat, result: nat, n: nat, rest: Bytes, more: Bytes)
    requires Varint32Tail(s + more, bitpos, result) == Some((n, rest)) && |rest| >= |more|
    ensures Varint32Tail(s, bitpos, result) == Some((n, rest[..|rest| - |more|]))
    decreases |s|
  {
    TailConsumes(s + more, bitpos, result);
    assert s != [] && (s + more)[0] == s[0] && (s + more)[1..] == s[1..] + more;
    if s[0] >= 128 {
      var r := if bitpos >= 32 then result else OrByte(result, s[0] % 128, bitpos);
      TailAlone(s[1..], Advanced(bitpos), r, n, rest, more);
    } else {
      assert rest[..|rest| - |more|] == s[1..];
    }
  }

  lemma VarintAlone(s: Bytes, n: nat, rest: Bytes, more: Bytes)
    requires ReadVarint32(s + more) == Some((n, rest)) && |rest| >= |more|
    ensures ReadVarint32(s) == Some((n, rest[..|rest| - |more|]))
  {
    ReadVarint32Consumes(s + more);
    assert s != [] && (s + more)[0] == s[0] && (s + more)[1..] == s[1..] + more;
    if s[0] >= 128 {
      TailAlone(s[1..], 7, s[0] - 128, n, rest, more);
    } else {
      assert rest[..|rest| - |more|] == s[1..];
    }
  }

  lemma SkippedWhole(wireType: nat, s: Bytes, next: Bytes, head: Bytes)
    requires SkipField(wireType, s) == Some(next) && head == s[..|s| - |next|]
    ensures s == head + next && Skippable(wireType, head)
  {
    assert s == head + next;
    if wireType == WT_VARINT {
      SkippedVarint(s);
    } else if wireType == WT_STRING {
      var (n, rest) := ReadVarint32(s).value;
      VarintAlone(head, n, rest, next);
    }
  }

  /** A field is skipped exactly over what it takes. */
  lemma SkippedIff(wireType: nat, head: Bytes, next: Bytes)
    ensures SkipField(wireType, head + next) == Some(next) <==> Skippable(wireType, head)
  {
    if Skippable(wireType, head) {
      SkipsWhole(wireType, head, next);
    }
    if SkipField(wireType, head + next) == Some(next) {
      assert (head + next)[..|head|] == head;
      SkippedWhole(wireType, head + next, next, head);
    }
  }

  /** A field that is not in the descriptor changes nothing, if it can be skipped; if it cannot, decoding fails. */
  lemma {:induction false} UnknownRead(
    fields: seq<Field>, tag: nat, wireType: nat, s: Bytes, slots: seq<Slot>, seen: set<nat>)
    requires |slots| == |fields| && 0 < tag < 0x2000_0000 && wireType < 8
    requires forall i :: 0 <= i < |fields| ==> fields[i].tag != tag
    ensures var r := DecodeFields(fields, TagBytes(tag, wireType) + s, slots, seen);
      if exists k :: 0 <= k <= |s| && Skippable(wireType, s[..k]) then
        exists k :: 0 <= k <= |s| && Skippable(wireType, s[..k]) && r == DecodeFields(fields, s[k..], slots, seen)
      else r == None
  {
    TagRoundTrip(tag, wireType, s);
    assert Find(fields, tag) == |fields|;
    if SkipField(wireType, s).Some? {
      var next := SkipField(wireType, s).value;
      SkippedWhole(wireType, s, next, s[..|s| - |next|]);
      assert s[|s| - |next|..] == next;
    } else {
      forall k | 0 <= k <= |s| ensures !Skippable(wireType, s[..k]) {
        assert s == s[..k] + s[k..];
        SkippedIff(wireType, s[..k], s[k..]);
      }
    }
  }

  // ----- numbers wider than 32 bits

  lemma Quotient(v: nat, d: nat, q: nat, r: nat)
    requires r < d && v == d * q + r
    ensures v / d == q && v % d == r
  {
    var p := v / d - q;
    assert v % d == r - d * p;
  }

  /** Cutting at a digit to the base 128, and then at `m`. */
  lemma Digits(v: nat, m: nat)
    requires m > 0
    ensures v / (128 * m) == v / 128 / m && v % (128 * m) == v % 128 + 128 * (v / 128 % m)
  {
    var q, r := v / 128 / m, v / 128 % m;
    assert v == 128 * (m * q + r) + v % 128;
    assert 128 * (m * q) == 128 * m * q;
    Quotient(v, 128 * m, q, v % 128 + 128 * r);
  }

  lemma FifthBits(b: nat)
    requires b < 128
    ensures Shifted(b, 28) == Shifted(b % 16, 28) == (b % 16) * 0x1000_0000
  {
    ShiftedBytes(b % 16);
    assert Pow(2, 28) == 0x1000_0000 by {
      BitPowers();
    }
    assert b * 0x1000_0000 == (b % 16) * 0x1000_0000 + (b / 16) * WORD32;
  }

  lemma OrOfFifth(b: nat, result: nat)
    requires b < 128 && result < 0x1000_0000
    ensures OrByte(result, b, 28) == result + (b % 16) * 0x1000_0000
  {
    FifthBits(b);
    assert result < Pow(2, 28) by {
      BitPowers();
    }
    OrOfByte(b % 16, 28, result);
  }

  lemma {:induction false} FifthByte(v: nat, rest: Bytes, result: nat, b: nat, next: nat, sum: nat)
    requires v >= 128 && result < 0x1000_0000 && b == v % 128 && next == v / 128
    requires sum == result + (b % 16) * 0x1000_0000
    ensures Varint32Tail(Varint(v) + rest, 28, result) == Varint32Tail(Varint(next) + rest, 35, sum)
  {
    OrOfFifth(b, result);
    var more := Varint(next) + rest;
    assert Varint(v) + rest == [b + 128] + more;
    ByteStep(b + 128, more, 28, result);
  }

  lemma MiddleByte(
    v: nat, rest: Bytes, bitpos: nat, result: nat, scale: nat, b: nat, next: nat, sum: nat)
    requires v >= 128 && result < scale && b == v % 128 && next == v / 128 && sum == result + b * scale
    requires (bitpos, scale) in {(7, 0x80), (14, 0x4000), (21, 0x20_0000)}
    ensures Varint32Tail(Varint(v) + rest, bitpos, result) == Varint32Tail(Varint(next) + rest, bitpos + 7, sum)
  {
    assert result < Pow(2, bitpos) by {
      BitPowers();
    }
    ShiftedBytes(b);
    TailStep(v, rest, bitpos, result);
  }

  /** The bits from 32 to 34 are lost on the way. */
  lemma FiveDigits(u: nat, low: nat, v: nat, b: nat)
    requires u == low + 0x1000_0000 * v && low < 0x1000_0000 && b == v % 128
    ensures u / 0x8_0000_0000 == v / 128 && u % WORD32 == low + (b % 16) * 0x1000_0000
  {
    assert u == 0x8_0000_0000 * (v / 128) + (low + 0x1000_0000 * b);
    Quotient(u, 0x8_0000_0000, v / 128, low + 0x1000_0000 * b);
    assert u == WORD32 * (8 * (v / 128) + b / 16) + (low + 0x1000_0000 * (b % 16));
    Quotient(u, WORD32, 8 * (v / 128) + b / 16, low + 0x1000_0000 * (b % 16));
  }

  lemma ThreeBytes(u: nat, rest: Bytes) returns (v: nat, low: nat)
    requires u >= 0x1000_0000
    ensures low < 0x1000_0000 && u == low + 0x1000_0000 * v
    ensures ReadVarint32(Varint(u) + rest) == Varint32Tail(Varint(v) + rest, 28, low)
  {
    var b0, v1 := u % 128, u / 128;
    var b1, v2 := v1 % 128, v1 / 128;
    var b2, v3 := v2 % 128, v2 / 128;
    var b3, v4 := v3 % 128, v3 / 128;
    assert Varint(u) + rest == [b0 + 128] + (Varint(v1) + rest);
    FirstByte(Varint(u) + rest, b0 + 128, Varint(v1) + rest);
    var s1 := b0 + b1 * 0x80;
    MiddleByte(v1, rest, 7, b0, 0x80, b1, v2, s1);
    var s2 := s1 + b2 * 0x4000;
    MiddleByte(v2, rest, 14, s1, 0x4000, b2, v3, s2);
    var s3 := s2 + b3 * 0x20_0000;
    MiddleByte(v3, rest, 21, s2, 0x20_0000, b3, v4, s3);
    v, low := v4, s3;
  }

  lemma {:induction false} LowBytes(u: nat, rest: Bytes)
    requires u >= 0x8_0000_0000
    ensures ReadVarint32(Varint(u) + rest) == Varint32Tail(Varint(u / 0x8_0000_0000) + rest, 35, u % WORD32)
  {
    var v, low := ThreeBytes(u, rest);
    FiveDigits(u, low, v, v % 128);
    FifthByte(v, rest, low, v % 128, v / 128, u % WORD32);
  }

  /** From bit `bitpos` on every seven bits are all zero or all one, and bit 63 is set. */
  predicate SignBits(v: nat, bitpos: nat)
    decreases v
  {
    if bitpos >= 63 then v == 1 else v > 1 && v % 128 in {0, 127} && SignBits(v / 128, bitpos + 7)
  }

  lemma SevenBits(n: int)
    ensures n >= 0 ==> Pow(2, n + 7) == 128 * Pow(2, n)
    ensures Pow(2, 1) == 2
  {
    assert Pow(2, 1) == 2;
    if n >= 0 {
      assert Pow(2, n + 7) == 2 * Pow(2, n + 6) && Pow(2, n + 6) == 2 * Pow(2, n + 5);
      assert Pow(2, n + 5) == 2 * Pow(2, n + 4) && Pow(2, n + 4) == 2 * Pow(2, n + 3);
      assert Pow(2, n + 3) == 2 * Pow(2, n + 2) && Pow(2, n + 2) == 2 * Pow(2, n + 1);
    }
  }

  lemma {:induction false} HighBytes(v: nat, rest: Bytes, bitpos: nat, result: nat)
    requires bitpos in {35, 42, 49, 56, 63} && 0 < v < Pow(2, 64 - bitpos)
    ensures Varint32Tail(Varint(v) + rest, bitpos, result)
         == if SignBits(v, bitpos) && result >= 0x8000_0000 then Some((result, rest)) else None
    decreases v
  {
    var b := if v < 128 then v else v % 128 + 128;
    var more := if v < 128 then rest else Varint(v / 128) + rest;
    assert Varint(v) + rest == [b] + more;
    FirstByte(Varint(v) + rest, b, more);
    if v >= 128 {
      SevenBits(57 - bitpos);
      HighBytes(v / 128, rest, bitpos + 7, result);
    }
  }

  lemma SmallPower()
    ensures Pow(2, 29) == 0x2000_0000
  {
    BitPowers();
  }

  lemma {:induction false} WideRead(u: nat, rest: Bytes, v: nat)
    requires 0x8_0000_0000 <= u < WORD64 && v == u / 0x8_0000_0000
    ensures ReadVarint32(Varint(u) + rest)
         == if SignBits(v, 35) && u % WORD32 >= 0x8000_0000 then Some((u % WORD32, rest)) else None
  {
    LowBytes(u, rest);
    SmallPower();
    HighBytes(v, rest, 35, u % WORD32);
  }

  lemma {:induction false} SmallOverflow(u: nat, rest: Bytes)
    requires WORD32 <= u < 0x8_0000_0000
    ensures ReadVarint32(Varint(u) + rest) == None
  {
    var v, low := ThreeBytes(u, rest);
    assert Varint(v) + rest == [v] + rest;
    ByteStep(v, rest, 28, low);
  }

  /** A number of up to 64 bits is read into 32 if and only if it fits, or bits 31 and 63 are set and the
      sevens of bits between 35 and 62 are each all zero or all one; bits 32 to 34 may be anything then. */
  lemma {:induction false} WideVarintIff(u: nat, rest: Bytes)
    requires u < WORD64
    ensures ReadVarint32(Varint(u) + rest)
         == if u < WORD32 || (SignBits(u / 0x8_0000_0000, 35) && u % WORD32 >= 0x8000_0000)
            then Some((u % WORD32, rest)) else None
  {
    assert u / 0x8_0000_0000 == 0 <==> u < 0x8_0000_0000;
    if u < WORD32 {
      ReadVarint32RoundTrip(u, rest);
    } else if u < 0x8_0000_0000 {
      SmallOverflow(u, rest);
    } else {
      WideRead(u, rest, u / 0x8_0000_0000);
    }
  }

  /** So a negative number of 32 bits that was written with 64 is read. */
  lemma NegativeRead(n: int, rest: Bytes)
    requires -0x8000_0000 <= n < 0
    ensures ReadVarint32(Varint(Unsigned64(n)) + rest) == Some((n + WORD32, rest))
  {
    var u := Unsigned64(n);
    WideVarintIff(u, rest);
    assert u / 0x8_0000_0000 == 0x1fff_ffff;
    assert SignBits(1, 63) && SignBits(0xff, 56) && SignBits(0x7fff, 49) && SignBits(0x3f_ffff, 42);
  }

  // ----- what can be encoded

  /** The encoder takes what has its room, any number for a bool, and any bytes for a string, which
      it ends itself. */
  predicate ValueTaken(lt: LType, v: Value)
    decreases lt
  {
    match lt
    case SubMessage(fields) => v.Message? && MessageTaken(fields, v.slots)
    case Bool => v.Int?
    case StringIn(_) => v.Blob?
    case _ => ScalarOk(lt, v)
  }

  predicate SlotTaken(f: Field, slot: Slot)
    decreases f
  {
    match f.htype
    case Required => slot.Set? && ValueTaken(f.ltype, slot.value)
    case Repeated(arraySize) =>
      slot.Many? && |slot.values| <= arraySize &&
      forall i :: 0 <= i < |slot.values| ==> ValueTaken(f.ltype, slot.values[i])
    case _ => slot.Unset? || (slot.Set? && ValueTaken(f.ltype, slot.value))
  }

  predicate MessageTaken(fields: seq<Field>, slots: seq<Slot>)
    decreases fields
  {
    |slots| == |fields| && forall i :: 0 <= i < |fields| ==> SlotTaken(fields[i], slots[i])
  }

  lemma {:induction false} ValueTakenIff(lt: LType, v: Value)
    ensures EncodeValue(lt, v).Some? <==> ValueTaken(lt, v)
    decreases lt, 0
  {
    if lt.SubMessage? && v.Message? {
      EncodesIff(lt.fields, v.slots);
    }
  }

  lemma {:induction false} ElementsTakenIff(lt: LType, prefix: Bytes, vs: seq<Value>)
    ensures EncodeElements(lt, prefix, vs).Some? <==> forall i :: 0 <= i < |vs| ==> ValueTaken(lt, vs[i])
    decreases lt, |vs| + 1
  {
    if vs != [] {
      ValueTakenIff(lt, vs[0]);
      ElementsTakenIff(lt, prefix, vs[1..]);
      assert forall i :: 1 <= i < |vs| ==> vs[i] == vs[1..][i - 1];
    }
  }

  lemma {:induction false} SlotTakenIff(f: Field, slot: Slot)
    ensures EncodeSlot(f, slot).Some? <==> SlotTaken(f, slot)
    decreases f
  {
    if slot.Many? {
      ElementsTakenIff(f.ltype, [], slot.values);
      ElementsTakenIff(f.ltype, TagBytes(f.tag, WireType(f.ltype)), slot.values);
    } else if slot.Set? {
      ValueTakenIff(f.ltype, slot.value);
    }
  }

  /** A message is encoded if and only if all its values have their room, its arrays no more elements
      than theirs, and its required fields are set. */
  lemma {:induction false} EncodesIff(fields: seq<Field>, slots: seq<Slot>)
    ensures EncodeFields(fields, slots).Some? <==> MessageTaken(fields, slots)
    decreases fields
  {
    if |slots| == |fields| > 0 {
      SlotTakenIff(fields[0], slots[0]);
      EncodesIff(fields[1..], slots[1..]);
      assert forall i :: 1 <= i < |fields| ==> fields[i] == fields[1..][i - 1] && slots[i] == slots[1..][i - 1];
    }
  }
}
