/** Byte-level encodings shared by the file formats: fixed-width little-endian
    integers, base-128 varints, length-prefixed strings and the checksum mask. */
module Coding {
  import opened Options

  type Byte = b: nat | b < 256
  type Bytes = seq<Byte>

  const WORD32: nat := 0x1_0000_0000
  const WORD64: nat := 0x1_0000_0000_0000_0000

  /** base^n, for the bounds below. */
  function Pow(base: nat, n: nat): nat {
    if n == 0 then 1 else base * Pow(base, n - 1)
  }

  // ----- fixed width

  /** The `width` low bytes of `v`, least significant first. */
  function Fixed(v: nat, width: nat): (r: Bytes)
    ensures |r| == width
  {
    if width == 0 then [] else [v % 256] + Fixed(v / 256, width - 1)
  }

  function FromFixed(s: Bytes): nat {
    if s == [] then 0 else s[0] + 256 * FromFixed(s[1..])
  }

  lemma {:induction false} FixedRoundTrip(v: nat, width: nat)
    requires v < Pow(256, width)
    ensures FromFixed(Fixed(v, width)) == v
  {
    if width > 0 {
      FixedRoundTrip(v / 256, width - 1);
      assert Fixed(v, width)[1..] == Fixed(v / 256, width - 1);
    }
  }

  lemma FixedBounds()
    ensures Pow(256, 4) == WORD32 && Pow(256, 8) == WORD64
  {
    assert Pow(256, 1) == 256 && Pow(256, 2) == 0x1_0000 && Pow(256, 3) == 0x100_0000;
    assert Pow(256, 4) == WORD32;
    assert Pow(256, 5) == 256 * WORD32 && Pow(256, 6) == 0x1_0000 * WORD32 && Pow(256, 7) == 0x100_0000 * WORD32;
  }

  lemma {:induction false} Fixed32RoundTrip(v: nat)
    requires v < WORD32
    ensures FromFixed(Fixed(v, 4)) == v
  {
    FixedBounds();
    FixedRoundTrip(v, 4);
  }

  lemma {:induction false} Fixed64RoundTrip(v: nat)
    requires v < WORD64
    ensures FromFixed(Fixed(v, 8)) == v
  {
    FixedBounds();
    FixedRoundTrip(v, 8);
  }

  /** Replacing the middle part and adding to the end. */
  lemma Patched(a: Bytes, b: Bytes, c: Bytes, b': Bytes, more: Bytes)
    ensures var s := a + b + c;
            s[..|a|] + b' + s[|a| + |b|..] + more == a + b' + (c + more)
  {
    Parts(a, b, c);
  }

  /** The parts of a concatenation. */
  lemma Parts(a: Bytes, b: Bytes, c: Bytes)
    ensures var s := a + b + c;
            && s[..|a|] == a && s[|a|..|a| + |b|] == b
            && s[|a| + |b|..] == c && s[|a|..] == b + c
  {
  }

  // ----- arrays of fixed 32-bit words

  function Words(ns: seq<nat>): (r: Bytes)
    ensures |r| == 4 * |ns|
  {
    if ns == [] then [] else Words(ns[..|ns| - 1]) + Fixed(ns[|ns| - 1], 4)
  }

  lemma {:induction false} WordAt(ns: seq<nat>, i: nat)
    requires i < |ns|
    ensures Words(ns)[4 * i..4 * i + 4] == Fixed(ns[i], 4)
  {
    var front := ns[..|ns| - 1];
    if i < |ns| - 1 {
      WordAt(front, i);
      assert Words(ns)[4 * i..4 * i + 4] == Words(front)[4 * i..4 * i + 4];
    }
  }

  lemma WordSlice(head: Bytes, words: Bytes, tail: Bytes, j: nat)
    requires 4 * j + 4 <= |words|
    ensures (head + words + tail)[|head| + 4 * j..|head| + 4 * j + 4] == words[4 * j..4 * j + 4]
  {
  }

  // ----- varints

  /** Seven bits a byte, least significant first; the high bit says more follow. */
  function Varint(v: nat): (r: Bytes)
    ensures |r| > 0
  {
    if v < 128 then [v] else [v % 128 + 128] + Varint(v / 128)
  }

  /** Reads a varint of at most `n` bytes; the value is not truncated yet. */
  function ReadVarint(s: Bytes, n: nat): Option<(nat, Bytes)> {
    if n == 0 || s == [] then None
    else if s[0] < 128 then Some((s[0], s[1..]))
    else match ReadVarint(s[1..], n - 1)
      case None => None
      case Some((v, rest)) => Some((s[0] - 128 + 128 * v, rest))
  }

  /** The bits that fit in a word. */
  function Truncate(v: nat, wide: bool): nat {
    if wide then v % WORD64 else v % WORD32
  }

  /** At most five bytes; bits beyond the 32nd are shifted out. */
  function GetVarint32(s: Bytes): Option<(nat, Bytes)> {
    match ReadVarint(s, 5)
    case None => None
    case Some((v, rest)) => Some((Truncate(v, false), rest))
  }

  function GetVarint64(s: Bytes): Option<(nat, Bytes)> {
    match ReadVarint(s, 10)
    case None => None
    case Some((v, rest)) => Some((Truncate(v, true), rest))
  }

  lemma {:induction false} VarintLength(v: nat, n: nat)
    requires n > 0 && v < Pow(128, n)
    ensures |Varint(v)| <= n
  {
    if v >= 128 {
      assert Pow(128, 1) == 128 * Pow(128, 0);
      VarintLength(v / 128, n - 1);
    }
  }

  lemma VarintBounds()
    ensures WORD32 <= Pow(128, 5) == 0x8_0000_0000 && WORD64 <= Pow(128, 10) == 0x40_0000_0000_0000_0000
  {
    assert Pow(128, 1) == 128 && Pow(128, 2) == 0x4000 && Pow(128, 3) == 0x20_0000;
    assert Pow(128, 4) == 0x1000_0000 && Pow(128, 5) == 0x8_0000_0000;
    assert Pow(128, 6) == 128 * Pow(128, 5) && Pow(128, 7) == 128 * Pow(128, 6);
    assert Pow(128, 8) == 128 * Pow(128, 7) && Pow(128, 9) == 128 * Pow(128, 8);
  }

  lemma {:induction false} ReadWrittenVarint(v: nat, rest: Bytes, n: nat)
    requires |Varint(v)| <= n
    ensures ReadVarint(Varint(v) + rest, n) == Some((v, rest))
  {
    var s := Varint(v) + rest;
    if v < 128 {
      assert s[1..] == rest;
    } else {
      assert s[1..] == Varint(v / 128) + rest;
      ReadWrittenVarint(v / 128, rest, n - 1);
    }
  }

  lemma {:induction false} Varint32RoundTrip(v: nat, rest: Bytes)
    requires v < WORD32
    ensures GetVarint32(Varint(v) + rest) == Some((v, rest))
  {
    VarintBounds();
    VarintLength(v, 5);
    ReadWrittenVarint(v, rest, 5);
  }

  lemma {:induction false} Varint64RoundTrip(v: nat, rest: Bytes)
    requires v < WORD64
    ensures GetVarint64(Varint(v) + rest) == Some((v, rest))
  {
    VarintBounds();
    VarintLength(v, 10);
    ReadWrittenVarint(v, rest, 10);
  }

  lemma {:induction false} VarintLonger(v: nat, n: nat)
    requires v >= Pow(128, n)
    ensures |Varint(v)| > n
  {
    if n > 0 {
      assert Pow(128, n) == 128 * Pow(128, n - 1);
      PowAtLeastOne(n - 1);
      VarintLonger(v / 128, n - 1);
    }
  }

  lemma {:induction false} PowAtLeastOne(n: nat)
    ensures Pow(128, n) >= 1
  {
    if n > 0 {
      PowAtLeastOne(n - 1);
    }
  }

  lemma {:induction false} ReadLongVarint(v: nat, rest: Bytes, n: nat)
    requires |Varint(v)| > n
    ensures ReadVarint(Varint(v) + rest, n) == None
  {
    if n > 0 {
      assert (Varint(v) + rest)[1..] == Varint(v / 128) + rest;
      ReadLongVarint(v / 128, rest, n - 1);
    }
  }

  /** Of a number that is too large the low bits are kept, as long as it has no more bytes than a
      word may need; beyond that it is refused. */
  lemma {:induction false} LargeVarints(v: nat, rest: Bytes)
    ensures GetVarint32(Varint(v) + rest) == if v < 0x8_0000_0000 then Some((v % 0x1_0000_0000, rest)) else None
    ensures GetVarint64(Varint(v) + rest)
         == if v < 0x40_0000_0000_0000_0000 then Some((v % 0x1_0000_0000_0000_0000, rest)) else None
  {
    VarintBounds();
    if v < 0x8_0000_0000 {
      VarintLength(v, 5);
      ReadWrittenVarint(v, rest, 5);
    } else {
      VarintLonger(v, 5);
      ReadLongVarint(v, rest, 5);
    }
    if v < 0x40_0000_0000_0000_0000 {
      VarintLength(v, 10);
      ReadWrittenVarint(v, rest, 10);
    } else {
      VarintLonger(v, 10);
      ReadLongVarint(v, rest, 10);
    }
  }

  /** A successful read consumes at least one byte and leaves a suffix. */
  lemma {:induction false} ReadVarintConsumes(s: Bytes, n: nat)
    ensures ReadVarint(s, n).Some? ==>
              |ReadVarint(s, n).value.1| < |s| && ReadVarint(s, n).value.1 == s[|s| - |ReadVarint(s, n).value.1|..]
  {
    if n != 0 && s != [] && s[0] >= 128 {
      ReadVarintConsumes(s[1..], n - 1);
    }
  }

  /** EncodeVarint64: bytes are appended while the value does not fit in seven bits. */
  method EncodeVarint64(value: nat) returns (dst: Bytes)
    requires value < WORD64
    ensures dst == Varint(value)
  {
    var v := value;
    dst := [];
    while v >= 128
      invariant dst + Varint(v) == Varint(value)
    {
      assert dst + ([v % 128 + 128] + Varint(v / 128)) == dst + [v % 128 + 128] + Varint(v / 128);
      dst := dst + [v % 128 + 128];
      v := v / 128;
    }
    dst := dst + [v];
  }

  /** What the decoding loop has when `sum` was read from the first `p` bytes. */
  ghost predicate VarintProgress(s: Bytes, limit: nat, p: nat, sum: nat, scale: nat) {
    && p <= limit && p <= |s|
    && match ReadVarint(s[p..], limit - p)
       case None => ReadVarint(s, limit).None?
       case Some((v, rest)) => ReadVarint(s, limit) == Some((sum + scale * v, rest))
  }

  lemma ShiftedSum(scale: nat, low: nat, v: nat)
    ensures scale * (low + 128 * v) == low * scale + (scale * 128) * v
  {
  }

  lemma {:induction false} VarintStep(s: Bytes, limit: nat, p: nat, sum: nat, scale: nat)
    requires VarintProgress(s, limit, p, sum, scale) && p < limit && p < |s|
    ensures s[p] < 128 ==> ReadVarint(s, limit) == Some((sum + s[p] * scale, s[p + 1..]))
    ensures s[p] >= 128 ==> VarintProgress(s, limit, p + 1, sum + (s[p] - 128) * scale, scale * 128)
  {
    assert s[p..][1..] == s[p + 1..];
    if s[p] >= 128 {
      var next := ReadVarint(s[p + 1..], limit - (p + 1));
      if next.Some? {
        ShiftedSum(scale, s[p] - 128, next.value.0);
      }
    }
  }

  lemma TruncatedSum(a: nat, b: nat, wide: bool)
    ensures Truncate(Truncate(a, wide) + b, wide) == Truncate(a + b, wide)
  {
  }

  lemma VarintNext(s: Bytes, limit: nat, p: nat, sum: nat, scale: nat, shifted: nat, wide: bool)
    requires VarintProgress(s, limit, p, sum, scale) && p < limit && p < |s|
    requires shifted == (if s[p] < 128 then s[p] else s[p] - 128) * scale
    ensures s[p] < 128 ==> ReadVarint(s, limit) == Some((sum + shifted, s[p + 1..]))
    ensures s[p] >= 128 ==> VarintProgress(s, limit, p + 1, sum + shifted, scale * 128)
    ensures Truncate(Truncate(sum, wide) + shifted, wide) == Truncate(sum + shifted, wide)
  {
    VarintStep(s, limit, p, sum, scale);
    TruncatedSum(sum, shifted, wide);
  }

  /** The loop of GetVarint32Ptr (limit 5) and GetVarint64Ptr (limit 10). */
  method GetVarintPtr(s: Bytes, limit: nat, wide: bool) returns (found: bool, value: nat, p: nat)
    ensures found <==> ReadVarint(s, limit).Some?
    ensures found ==>
      p <= |s| && value == Truncate(ReadVarint(s, limit).value.0, wide) && s[p..] == ReadVarint(s, limit).value.1
  {
    found, value, p := false, 0, 0;
    ghost var sum: nat := 0;
    var scale: nat := 1;
    assert s[0..] == s;
    while p < limit && p < |s|
      invariant VarintProgress(s, limit, p, sum, scale)
      invariant value == Truncate(sum, wide)
    {
      var byte := s[p];
      var shifted: nat := (if byte < 128 then byte else byte - 128) * scale;
      VarintNext(s, limit, p, sum, scale, shifted, wide);
      p := p + 1;
      value := Truncate(value + shifted, wide);
      sum := sum + shifted;
      if byte < 128 {
        found := true;
        return;
      }
      scale := scale * 128;
    }
  }

  // ----- length-prefixed strings

  function LengthPrefixed(s: Bytes): Bytes {
    Varint(|s|) + s
  }

  function GetLengthPrefixed(s: Bytes): Option<(Bytes, Bytes)> {
    match GetVarint32(s)
    case None => None
    case Some((n, rest)) => if n <= |rest| then Some((rest[..n], rest[n..])) else None
  }

  lemma LengthPrefixedRoundTrip(s: Bytes, rest: Bytes)
    requires |s| < WORD32
    ensures GetLengthPrefixed(LengthPrefixed(s) + rest) == Some((s, rest))
  {
    assert LengthPrefixed(s) + rest == Varint(|s|) + (s + rest);
    Varint32RoundTrip(|s|, s + rest);
    assert (s + rest)[..|s|] == s && (s + rest)[|s|..] == rest;
  }

  lemma GetLengthPrefixedConsumes(s: Bytes)
    ensures GetLengthPrefixed(s).Some? ==> |GetLengthPrefixed(s).value.1| < |s|
  {
    ReadVarintConsumes(s, 5);
  }

  // ----- the checksum mask

  const MASK_DELTA: nat := 0xa282ead8

  /** Rotate right by 15 bits and add a constant, in 32-bit arithmetic. */
  function Mask(crc: nat): nat
    requires crc < WORD32
  {
    (crc / 0x8000 + (crc % 0x8000) * 0x2_0000 + MASK_DELTA) % WORD32
  }

  function Unmask(masked: nat): nat
    requires masked < WORD32
  {
    var rot := (masked + WORD32 - MASK_DELTA) % WORD32;
    rot / 0x2_0000 + (rot % 0x2_0000) * 0x8000
  }

  lemma MaskRoundTrip(crc: nat)
    requires crc < WORD32
    ensures Mask(crc) < WORD32 && Unmask(Mask(crc)) == crc
  {
    var rot := crc / 0x8000 + (crc % 0x8000) * 0x2_0000;
    assert rot < WORD32;
    assert (Mask(crc) + WORD32 - MASK_DELTA) % WORD32 == rot;
    assert rot / 0x2_0000 == crc % 0x8000;
    assert rot % 0x2_0000 == crc / 0x8000;
  }
}
