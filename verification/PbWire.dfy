/** Values on the Protocol Buffers wire, as nanopb writes and reads them: varints of
    32 and 64 bits, zigzag, tags, and the way over fields nobody knows. */
module PbWire {
  import opened Options
  import opened Coding

  const WT_VARINT: nat := 0
  const WT_64BIT: nat := 1
  const WT_STRING: nat := 2
  const WT_32BIT: nat := 5

  // ----- varints of 32 bits

  /** (uint32_t)b << bitpos */
  function Shifted(b: nat, bitpos: nat): nat {
    b * Pow(2, bitpos) % WORD32
  }

  /** a | b */
  function BitOr(a: nat, b: nat): nat
    decreases a + b
  {
    if a == 0 then b else if b == 0 then a
    else (if a % 2 == 1 || b % 2 == 1 then 1 else 0) + 2 * BitOr(a / 2, b / 2)
  }

  /** Numbers without a common bit are or-ed by adding them. */
  lemma {:induction false} OrOfDisjoint(a: nat, m: nat, n: nat)
    requires a < Pow(2, n)
    ensures BitOr(a, m * Pow(2, n)) == a + m * Pow(2, n)
    decreases n
  {
    if n > 0 && a > 0 && m > 0 {
      var b := m * Pow(2, n - 1);
      assert m * Pow(2, n) == 2 * b;
      OrOfDisjoint(a / 2, m, n - 1);
    }
  }

  /** result |= (uint32_t)b << bitpos */
  function OrByte(result: nat, b: nat, bitpos: nat): nat {
    BitOr(result, Shifted(b, bitpos))
  }

  /** (uint_fast8_t)(bitpos + 7), where that type has eight bits */
  function Advanced(bitpos: nat): nat {
    if bitpos < 249 then bitpos + 7 else bitpos - 249
  }

  /** The rest of pb_decode_varint32 after its first byte: `result` is what the bytes
      below bit `bitpos` gave. Bytes beyond bit 32 may only pad, with zeros or with the
      sign of a negative number. The bit position is kept in eight bits. */
  function Varint32Tail(s: Bytes, bitpos: nat, result: nat): Option<(nat, Bytes)>
    decreases |s|
  {
    if s == [] then None
    else if bitpos >= 32 then
      if s[0] % 128 != 0 && (result < 0x8000_0000 || s[0] != (if bitpos < 63 then 0xff else 0x01)) then None
      else if s[0] >= 128 then Varint32Tail(s[1..], Advanced(bitpos), result)
      else Some((result, s[1..]))
    else
      var r := OrByte(result, s[0] % 128, bitpos);
      if s[0] >= 128 then Varint32Tail(s[1..], Advanced(bitpos), r)
      else if bitpos == 28 && s[0] >= 16 then None
      else Some((r, s[1..]))
  }

  function ReadVarint32(s: Bytes): (r: Option<(nat, Bytes)>) {
    if s == [] then None
    else if s[0] < 128 then Some((s[0], s[1..]))
    else Varint32Tail(s[1..], 7, s[0] - 128)
  }

  lemma {:induction false} TailConsumes(s: Bytes, bitpos: nat, result: nat)
    ensures var r := Varint32Tail(s, bitpos, result);
            r.Some? ==> |r.value.1| < |s| && r.value.1 == s[|s| - |r.value.1|..]
    decreases |s|
  {
    if s != [] {
      TailConsumes(s[1..], Advanced(bitpos), if bitpos >= 32 then result else OrByte(result, s[0] % 128, bitpos));
    }
  }

  lemma ReadVarint32Consumes(s: Bytes)
    ensures var r := ReadVarint32(s);
            r.Some? ==> |r.value.1| < |s| && r.value.1 == s[|s| - |r.value.1|..]
  {
    if s != [] {
      TailConsumes(s[1..], 7, s[0] % 128);
    }
  }

  lemma BitPowers()
    ensures Pow(2, 7) == 0x80 && Pow(2, 14) == 0x4000 && Pow(2, 21) == 0x20_0000 && Pow(2, 28) == 0x1000_0000
  {
    assert Pow(2, 1) == 2 && Pow(2, 2) == 4 && Pow(2, 3) == 8 && Pow(2, 4) == 16 && Pow(2, 5) == 32;
    assert Pow(2, 6) == 64 && Pow(2, 7) == 0x80 && Pow(2, 8) == 0x100 && Pow(2, 9) == 0x200 && Pow(2, 10) == 0x400;
    assert Pow(2, 11) == 0x800 && Pow(2, 12) == 0x1000 && Pow(2, 13) == 0x2000 && Pow(2, 14) == 0x4000;
    assert Pow(2, 15) == 0x8000 && Pow(2, 16) == 0x1_0000 && Pow(2, 17) == 0x2_0000 && Pow(2, 18) == 0x4_0000;
    assert Pow(2, 19) == 0x8_0000 && Pow(2, 20) == 0x10_0000 && Pow(2, 21) == 0x20_0000 && Pow(2, 22) == 0x40_0000;
    assert Pow(2, 23) == 0x80_0000 && Pow(2, 24) == 0x100_0000 && Pow(2, 25) == 0x200_0000;
    assert Pow(2, 26) == 0x400_0000 && Pow(2, 27) == 0x800_0000;
  }

  lemma FirstByte(s: Bytes, b: Byte, rest: Bytes)
    requires s == [b] + rest
    ensures s[0] == b && s[1..] == rest
  {
  }

  /** One byte of a varint below bit 32. */
  lemma {:induction false} ByteStep(b: Byte, rest: Bytes, bitpos: nat, result: nat)
    requires bitpos < 32
    ensures Varint32Tail([b] + rest, bitpos, result)
         == if b >= 128 then Varint32Tail(rest, bitpos + 7, OrByte(result, b % 128, bitpos))
            else if bitpos == 28 && b >= 16 then None else Some((OrByte(result, b % 128, bitpos), rest))
  {
    FirstByte([b] + rest, b, rest);
  }

  lemma TailStep(v: nat, rest: Bytes, bitpos: nat, result: nat)
    requires bitpos in {7, 14, 21, 28} && (bitpos == 28 ==> v < 16) && result < Pow(2, bitpos)
    ensures Varint32Tail(Varint(v) + rest, bitpos, result)
         == if v < 128 then Some((result + Shifted(v, bitpos), rest))
            else Varint32Tail(Varint(v / 128) + rest, bitpos + 7, result + Shifted(v % 128, bitpos))
  {
    var b := if v < 128 then v else v % 128 + 128;
    var more := if v < 128 then rest else Varint(v / 128) + rest;
    assert Varint(v) + rest == [b] + more;
    OrOfByte(b % 128, bitpos, result);
    ByteStep(b, more, bitpos, result);
  }

  lemma {:induction false} OrOfByte(b: nat, bitpos: nat, result: nat)
    requires b < 128 && bitpos in {7, 14, 21, 28} && (bitpos == 28 ==> b < 16) && result < Pow(2, bitpos)
    ensures OrByte(result, b, bitpos) == result + Shifted(b, bitpos)
  {
    ShiftedBytes(b);
    BitPowers();
    OrOfDisjoint(result, b, bitpos);
  }

  lemma ShiftedBytes(b: nat)
    requires b < 128
    ensures Shifted(b, 7) == b * 0x80 && Shifted(b, 14) == b * 0x4000 && Shifted(b, 21) == b * 0x20_0000
    ensures b < 16 ==> Shifted(b, 28) == b * 0x1000_0000
  {
    BitPowers();
  }

  /** A varint that fits in 32 bits decodes to its value. */
  lemma {:induction false} ReadVarint32RoundTrip(v: nat, rest: Bytes)
    requires v < WORD32
    ensures ReadVarint32(Varint(v) + rest) == Some((v, rest))
  {
    var s := Varint(v) + rest;
    if v < 128 {
      assert s[0] == v && s[1..] == rest;
    } else {
      assert s[0] == v % 128 + 128 && s[1..] == Varint(v / 128) + rest;
      LaterBytes(v, rest);
    }
  }

  lemma {:induction false} LaterBytes(v: nat, rest: Bytes)
    requires 128 <= v < WORD32
    ensures Varint32Tail(Varint(v / 128) + rest, 7, v % 128) == Some((v, rest))
  {
    var w := v / 128;
    assert v % 128 < Pow(2, 7) by {
      BitPowers();
    }
    ShiftedBytes(w % 128);
    TailStep(w, rest, 7, v % 128);
    if w >= 128 {
      FromThirdByte(w / 128, rest, v % 128 + (w % 128) * 0x80);
    }
  }

  lemma {:induction false} FromThirdByte(v: nat, rest: Bytes, result: nat)
    requires v < 0x4_0000 && result < 0x4000
    ensures Varint32Tail(Varint(v) + rest, 14, result) == Some((result + v * 0x4000, rest))
  {
    assert result < Pow(2, 14) by {
      BitPowers();
    }
    ShiftedBytes(v % 128);
    TailStep(v, rest, 14, result);
    if v >= 128 {
      FromFourthByte(v / 128, rest, result + (v % 128) * 0x4000);
    }
  }

  lemma {:induction false} FromFourthByte(v: nat, rest: Bytes, result: nat)
    requires v < 0x800 && result < 0x20_0000
    ensures Varint32Tail(Varint(v) + rest, 21, result) == Some((result + v * 0x20_0000, rest))
  {
    assert result < Pow(2, 21) by {
      BitPowers();
    }
    ShiftedBytes(v % 128);
    TailStep(v, rest, 21, result);
    if v >= 128 {
      ShiftedBytes(v / 128);
      TailStep(v / 128, rest, 28, result + (v % 128) * 0x20_0000);
    }
  }

  /** `n` bytes that carry no bits. */
  function Padding(n: nat): Bytes {
    if n == 0 then [] else [0x80] + Padding(n - 1)
  }

  function AdvancedBy(bitpos: nat, n: nat): nat
    decreases n
  {
    if n == 0 then bitpos else AdvancedBy(Advanced(bitpos), n - 1)
  }

  lemma {:induction false} PadStep(rest: Bytes, bitpos: nat, result: nat)
    ensures Varint32Tail([0x80] + rest, bitpos, result) == Varint32Tail(rest, Advanced(bitpos), result)
  {
    FirstByte([0x80] + rest, 0x80, rest);
    assert Shifted(0, bitpos) == 0;
    assert OrByte(result, 0, bitpos) == result;
  }

  /** Padding moves the bit position on and changes nothing else. */
  lemma {:induction false} PaddingSkipped(n: nat, rest: Bytes, bitpos: nat, result: nat)
    ensures Varint32Tail(Padding(n) + rest, bitpos, result) == Varint32Tail(rest, AdvancedBy(bitpos, n), result)
  {
    if n == 0 {
      assert Padding(n) + rest == rest;
    } else {
      assert Padding(n) + rest == [0x80] + (Padding(n - 1) + rest);
      PadStep(Padding(n - 1) + rest, bitpos, result);
      PaddingSkipped(n - 1, rest, Advanced(bitpos), result);
    }
  }

  /** The position after `n` bytes is the true one as long as that is below 256, and
      wraps `q` times after that. */
  lemma PositionAfter(bitpos: nat, n: nat) returns (q: nat)
    requires bitpos < 256
    ensures AdvancedBy(bitpos, n) < 256 && AdvancedBy(bitpos, n) + 256 * q == bitpos + 7 * n
    decreases n
  {
    if n == 0 {
      q := 0;
    } else {
      q := PositionAfter(Advanced(bitpos), n - 1);
      if bitpos >= 249 {
        q := q + 1;
      }
    }
  }

  /** Behind padding a one is refused as an overflow if and only if the wrapped position
      is beyond bit 32. */
  lemma {:induction false} OneBehindPadding(n: nat, rest: Bytes)
    ensures var p := AdvancedBy(7, n);
      ReadVarint32([0x80] + (Padding(n) + ([1] + rest))) == if p < 32 then Some((Shifted(1, p), rest)) else None
  {
    var one, p := [1] + rest, AdvancedBy(7, n);
    FirstByte([0x80] + (Padding(n) + one), 0x80, Padding(n) + one);
    PaddingSkipped(n, one, 7, 0);
    FirstByte(one, 1, rest);
    if p < 32 {
      ByteStep(1, rest, p, 0);
    }
  }

  lemma ShiftedOne()
    ensures Shifted(1, 3) == 8
  {
    assert Pow(2, 1) == 2 && Pow(2, 2) == 4 && Pow(2, 3) == 8;
  }

  /** So a bit that stands far beyond the 32nd need not be one: after 37 bytes of padding
      a one counts as bit 3. */
  lemma {:induction false} PositionWraps(n: nat, rest: Bytes)
    requires n == 36
    ensures ReadVarint32([0x80] + (Padding(n) + ([1] + rest))) == Some((8, rest))
  {
    OneBehindPadding(n, rest);
    var q := PositionAfter(7, n);
    assert AdvancedBy(7, n) == 3;
    ShiftedOne();
  }

  // ----- signed numbers in 64 bits

  /** (uint64_t)value */
  function Unsigned64(v: int): nat
    requires -0x8000_0000_0000_0000 <= v < WORD64
  {
    if v < 0 then v + WORD64 else v
  }

  function Signed64(u: nat): int {
    if u >= 0x8000_0000_0000_0000 then u - WORD64 else u
  }

  /** (int32_t)value keeps the low 32 bits. */
  function Signed32(u: nat): int {
    if u % WORD32 >= 0x8000_0000 then u % WORD32 - WORD32 else u % WORD32
  }

  /** ~(value << 1) for negative numbers. */
  function ZigZag(v: int): nat {
    if v < 0 then -2 * v - 1 else 2 * v
  }

  function UnZigZag(u: nat): int {
    if u % 2 == 1 then -(u / 2) - 1 else u / 2
  }

  /** Small numbers of either sign get short codes, every 64-bit code is used once. */
  lemma ZigZagRoundTrip(v: int, u: nat)
    ensures UnZigZag(ZigZag(v)) == v && ZigZag(UnZigZag(u)) == u
    ensures -0x8000_0000_0000_0000 <= v < 0x8000_0000_0000_0000 <==> ZigZag(v) < WORD64
  {
  }

  // ----- tags

  datatype TagResult = Tag(tag: nat, wireType: nat, rest: Bytes) | End | BadTag

  /** pb_decode_tag: nothing left, or a zero, ends the message. */
  function ReadTag(s: Bytes): TagResult {
    if s == [] then End
    else match ReadVarint32(s)
      case None => BadTag
      case Some((t, rest)) => if t == 0 then End else Tag(t / 8, t % 8, rest)
  }

  function TagBytes(tag: nat, wireType: nat): Bytes {
    Varint(8 * tag + wireType)
  }

  lemma TagRoundTrip(tag: nat, wireType: nat, rest: Bytes)
    requires 0 < tag < 0x2000_0000 && wireType < 8
    ensures ReadTag(TagBytes(tag, wireType) + rest) == Tag(tag, wireType, rest)
  {
    ReadVarint32RoundTrip(8 * tag + wireType, rest);
    assert TagBytes(tag, wireType) + rest != [];
  }

  lemma ReadTagConsumes(s: Bytes)
    ensures var r := ReadTag(s); r.Tag? ==> |r.rest| < |s| && r.rest == s[|s| - |r.rest|..]
  {
    ReadVarint32Consumes(s);
  }

  // ----- length-prefixed data and unknown fields

  /** pb_make_string_substream: the data and what follows it. */
  function ReadString(s: Bytes): (r: Option<(Bytes, Bytes)>)
    ensures r.Some? ==> |r.value.0| + |r.value.1| < |s| && r.value.1 == s[|s| - |r.value.1|..]
  {
    ReadVarint32Consumes(s);
    match ReadVarint32(s)
    case None => None
    case Some((size, rest)) => if size <= |rest| then Some((rest[..size], rest[size..])) else None
  }

  function StringBytes(data: Bytes): Bytes {
    Varint(|data|) + data
  }

  lemma StringRoundTrip(data: Bytes, rest: Bytes)
    requires |data| < WORD32
    ensures ReadString(StringBytes(data) + rest) == Some((data, rest))
  {
    assert StringBytes(data) + rest == Varint(|data|) + (data + rest);
    ReadVarint32RoundTrip(|data|, data + rest);
  }

  /** pb_skip_varint: however long. */
  function SkipVarint(s: Bytes): (r: Option<Bytes>)
    ensures r.Some? ==> |r.value| < |s| && r.value == s[|s| - |r.value|..]
  {
    if s == [] then None else if s[0] < 128 then Some(s[1..]) else SkipVarint(s[1..])
  }

  /** pb_skip_field */
  function SkipField(wireType: nat, s: Bytes): (r: Option<Bytes>)
    ensures r.Some? ==> |r.value| < |s| && r.value == s[|s| - |r.value|..]
  {
    if wireType == WT_VARINT then SkipVarint(s)
    else if wireType == WT_64BIT then if |s| < 8 then None else Some(s[8..])
    else if wireType == WT_STRING then
      match ReadString(s)
      case None => None
      case Some((_, rest)) => Some(rest)
    else if wireType == WT_32BIT then if |s| < 4 then None else Some(s[4..])
    else None
  }
}
