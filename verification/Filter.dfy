/** Filters: the bloom filter, and the filter block that holds one filter for every
    2 KB of table file. */
module Filters {
  import opened Coding

  /** A filter policy; `mayMatch` never misses a key the filter was created for. */
  datatype PolicyPair = PolicyPair(create: seq<Bytes> -> Bytes, mayMatch: (Bytes, Bytes) -> bool)

  ghost predicate NoFalseNegatives(p: PolicyPair) {
    forall keys: seq<Bytes>, key: Bytes :: key in keys ==> p.mayMatch(key, p.create(keys))
  }

  type Policy = p: PolicyPair | NoFalseNegatives(p)
    ghost witness PolicyPair(keys => [], (key, filter) => true)

  // ----- the bloom filter

  /** Bit `b` of `x`. */
  predicate TestBit(x: nat, b: nat) {
    if b == 0 then x % 2 == 1 else TestBit(x / 2, b - 1)
  }

  /** x | (1 << b) */
  function SetBit(x: nat, b: nat): nat {
    if b == 0 then x / 2 * 2 + 1 else x % 2 + 2 * SetBit(x / 2, b - 1)
  }

  lemma {:induction false} BitIsSet(x: nat, b: nat, c: nat)
    ensures TestBit(SetBit(x, b), c) <==> b == c || TestBit(x, c)
  {
    if b == 0 {
      assert SetBit(x, 0) / 2 == x / 2;
    } else {
      assert SetBit(x, b) / 2 == SetBit(x / 2, b - 1) && SetBit(x, b) % 2 == x % 2;
      if c > 0 {
        BitIsSet(x / 2, b - 1, c - 1);
      }
    }
  }

  lemma {:induction false} NoBits(b: nat)
    ensures !TestBit(0, b)
  {
    if b > 0 {
      NoBits(b - 1);
    }
  }

  lemma {:induction false} SetBitFits(x: nat, b: nat, n: nat)
    requires b < n && x < Pow(2, n)
    ensures SetBit(x, b) < Pow(2, n)
  {
    if b > 0 {
      SetBitFits(x / 2, b - 1, n - 1);
    }
  }

  lemma ByteBits()
    ensures Pow(2, 8) == 256
  {
    assert Pow(2, 2) == 4 && Pow(2, 4) == 16 && Pow(2, 6) == 64;
  }

  /** Bit `pos` of a bit array stored in bytes. */
  predicate BitOf(arr: Bytes, pos: nat)
    requires pos < |arr| * 8
  {
    TestBit(arr[pos / 8], pos % 8)
  }

  function WithBit(arr: Bytes, pos: nat): (r: Bytes)
    requires pos < |arr| * 8
    ensures |r| == |arr|
  {
    ByteBits();
    SetBitFits(arr[pos / 8], pos % 8, 8);
    arr[pos / 8 := SetBit(arr[pos / 8], pos % 8)]
  }

  lemma WithBitSets(arr: Bytes, pos: nat, q: nat)
    requires pos < |arr| * 8 && q < |arr| * 8
    ensures BitOf(WithBit(arr, pos), q) <==> q == pos || BitOf(arr, q)
  {
    if q / 8 == pos / 8 {
      BitIsSet(arr[pos / 8], pos % 8, q % 8);
    }
  }

  /** The `j`-th probe: a delta is added each time, in 32-bit arithmetic. */
  function Probe(h: nat, delta: nat, j: nat): nat
    decreases j
  {
    if j == 0 then h else Probe((h + delta) % WORD32, delta, j - 1)
  }

  /** The hash rotated right by 17 bits. */
  function Delta(h: nat): nat {
    h / 0x2_0000 + (h % 0x2_0000) * 0x8000
  }

  /** All `k` probes of a hash hit set bits. */
  ghost predicate Hits(arr: Bytes, h: nat, delta: nat, k: nat)
    requires |arr| > 0
  {
    forall j :: 0 <= j < k ==> BitOf(arr, Probe(h, delta, j) % (|arr| * 8))
  }

  /** A growing bit array keeps its hits. */
  ghost predicate Grows(a: Bytes, b: Bytes) {
    |a| == |b| && forall q :: 0 <= q < |a| * 8 && BitOf(a, q) ==> BitOf(b, q)
  }

  lemma HitsKept(a: Bytes, b: Bytes, h: nat, delta: nat, k: nat)
    requires |a| > 0 && Grows(a, b) && Hits(a, h, delta, k)
    ensures Hits(b, h, delta, k)
  {
    forall j | 0 <= j < k ensures BitOf(b, Probe(h, delta, j) % (|b| * 8)) {
      assert BitOf(a, Probe(h, delta, j) % (|a| * 8));
    }
  }

  /** The bits of one key's probes set. */
  function WithProbes(arr: Bytes, h: nat, delta: nat, k: nat): (r: Bytes)
    requires |arr| > 0
    ensures |r| == |arr|
    decreases k
  {
    if k == 0 then arr else WithProbes(WithBit(arr, h % (|arr| * 8)), (h + delta) % WORD32, delta, k - 1)
  }

  function WithKey(hash: Bytes -> nat, k: nat, arr: Bytes, key: Bytes): (r: Bytes)
    requires |arr| > 0
    ensures |r| == |arr|
  {
    WithProbes(arr, hash(key) % WORD32, Delta(hash(key) % WORD32), k)
  }

  function WithKeys(hash: Bytes -> nat, k: nat, arr: Bytes, keys: seq<Bytes>): (r: Bytes)
    requires |arr| > 0
    ensures |r| == |arr|
  {
    if keys == [] then arr else WithKey(hash, k, WithKeys(hash, k, arr, keys[..|keys| - 1]), keys[|keys| - 1])
  }

  /** At least 64 bits, in whole bytes. */
  function FilterBytes(count: nat, bitsPerKey: nat): (r: nat)
    ensures r > 0
  {
    var bits := count * bitsPerKey;
    if bits < 64 then 8 else (bits + 7) / 8
  }

  /** The bit array of all keys, with the number of probes at its end. */
  function BloomFilter(hash: Bytes -> nat, bitsPerKey: nat, k: Byte, keys: seq<Bytes>): (r: Bytes)
    ensures |r| >= 2
  {
    WithKeys(hash, k, seq(FilterBytes(|keys|, bitsPerKey), _ => 0), keys) + [k]
  }

  /** The probing loop of KeyMayMatch. */
  predicate AllSet(arr: Bytes, h: nat, delta: nat, k: nat)
    requires |arr| > 0
    decreases k
  {
    k == 0 || (BitOf(arr, h % (|arr| * 8)) && AllSet(arr, (h + delta) % WORD32, delta, k - 1))
  }

  predicate BloomMatch(hash: Bytes -> nat, key: Bytes, filter: Bytes) {
    if |filter| < 2 then false
    else
      var count := filter[|filter| - 1];
      if count > 30 then true
      else
        var h := hash(key) % WORD32;
        AllSet(filter[..|filter| - 1], h, Delta(h), count)
  }

  lemma {:induction false} ProbesSet(arr: Bytes, h: nat, delta: nat, k: nat)
    requires |arr| > 0
    ensures Grows(arr, WithProbes(arr, h, delta, k)) && Hits(WithProbes(arr, h, delta, k), h, delta, k)
    decreases k
  {
    if k > 0 {
      var pos, next := h % (|arr| * 8), (h + delta) % WORD32;
      var first := WithBit(arr, pos);
      forall q | 0 <= q < |arr| * 8 ensures BitOf(first, q) <==> q == pos || BitOf(arr, q) {
        WithBitSets(arr, pos, q);
      }
      ProbesSet(first, next, delta, k - 1);
      var all := WithProbes(arr, h, delta, k);
      forall j | 0 <= j < k ensures BitOf(all, Probe(h, delta, j) % (|arr| * 8)) {
        if j > 0 {
          assert BitOf(all, Probe(next, delta, j - 1) % (|arr| * 8));
        }
      }
    }
  }

  lemma {:induction false} KeysHit(hash: Bytes -> nat, k: nat, arr: Bytes, keys: seq<Bytes>, key: Bytes)
    requires |arr| > 0 && key in keys
    ensures Hits(WithKeys(hash, k, arr, keys), hash(key) % WORD32, Delta(hash(key) % WORD32), k)
  {
    var front, last := keys[..|keys| - 1], keys[|keys| - 1];
    var before := WithKeys(hash, k, arr, front);
    ProbesSet(before, hash(last) % WORD32, Delta(hash(last) % WORD32), k);
    if key != last {
      assert keys == front + [last];
      KeysHit(hash, k, arr, front, key);
      HitsKept(before, WithKeys(hash, k, arr, keys), hash(key) % WORD32, Delta(hash(key) % WORD32), k);
    }
  }

  lemma {:induction false} MatchesFrom(arr: Bytes, h: nat, delta: nat, k: nat)
    requires |arr| > 0 && Hits(arr, h, delta, k)
    ensures AllSet(arr, h, delta, k)
    decreases k
  {
    if k > 0 {
      assert BitOf(arr, Probe(h, delta, 0) % (|arr| * 8));
      var next := (h + delta) % WORD32;
      forall j | 0 <= j < k - 1 ensures BitOf(arr, Probe(next, delta, j) % (|arr| * 8)) {
        assert Probe(h, delta, j + 1) == Probe(next, delta, j);
        assert BitOf(arr, Probe(h, delta, j + 1) % (|arr| * 8));
      }
      MatchesFrom(arr, next, delta, k - 1);
    }
  }

  /** A bloom filter matches every key it was created for, whatever the hash. */
  lemma BloomMatches(hash: Bytes -> nat, bitsPerKey: nat, k: Byte, keys: seq<Bytes>, key: Bytes)
    requires key in keys
    ensures BloomMatch(hash, key, BloomFilter(hash, bitsPerKey, k, keys))
  {
    var arr := WithKeys(hash, k, seq(FilterBytes(|keys|, bitsPerKey), _ => 0), keys);
    KeysHit(hash, k, seq(FilterBytes(|keys|, bitsPerKey), _ => 0), keys, key);
    assert (arr + [k])[..|arr|] == arr;
    MatchesFrom(arr, hash(key) % WORD32, Delta(hash(key) % WORD32), k);
  }

  // ----- exactly what matches

  /** The bit that probe `j` falls on in an array of `bits` bits. */
  function Spot(h: nat, delta: nat, j: nat, bits: nat): (q: nat)
    requires bits > 0
    ensures q < bits
  {
    Probe(h, delta, j) % bits
  }

  ghost predicate FallsOn(h: nat, delta: nat, k: nat, bits: nat, q: nat)
    requires bits > 0
  {
    exists j :: 0 <= j < k && Spot(h, delta, j, bits) == q
  }

  lemma FallsOnNext(h: nat, delta: nat, k: nat, bits: nat, q: nat)
    requires bits > 0 && k > 0
    ensures FallsOn(h, delta, k, bits, q) <==> h % bits == q || FallsOn((h + delta) % WORD32, delta, k - 1, bits, q)
  {
    var next := (h + delta) % WORD32;
    assert Spot(h, delta, 0, bits) == h % bits;
    if FallsOn(h, delta, k, bits, q) {
      var j :| 0 <= j < k && Spot(h, delta, j, bits) == q;
      if j > 0 {
        assert Spot(next, delta, j - 1, bits) == q;
      }
    }
    if FallsOn(next, delta, k - 1, bits, q) {
      var j :| 0 <= j < k - 1 && Spot(next, delta, j, bits) == q;
      assert Spot(h, delta, j + 1, bits) == q;
    }
  }

  lemma {:induction false} ProbesOnly(arr: Bytes, h: nat, delta: nat, k: nat, q: nat)
    requires 0 < |arr| && q < |arr| * 8
    ensures BitOf(WithProbes(arr, h, delta, k), q) <==> BitOf(arr, q) || FallsOn(h, delta, k, |arr| * 8, q)
    decreases k
  {
    if k > 0 {
      var pos := h % (|arr| * 8);
      WithBitSets(arr, pos, q);
      ProbesOnly(WithBit(arr, pos), (h + delta) % WORD32, delta, k - 1, q);
      FallsOnNext(h, delta, k, |arr| * 8, q);
    }
  }

  /** Some probe of the key falls on bit `q`. */
  ghost predicate KeyOn(hash: Bytes -> nat, k: nat, key: Bytes, bits: nat, q: nat)
    requires bits > 0
  {
    FallsOn(hash(key) % WORD32, Delta(hash(key) % WORD32), k, bits, q)
  }

  /** Some probe of one of the keys does. */
  ghost predicate KeysOn(hash: Bytes -> nat, k: nat, keys: seq<Bytes>, bits: nat, q: nat)
    requires bits > 0
  {
    exists key :: key in keys && KeyOn(hash, k, key, bits, q)
  }

  lemma KeysOnLast(hash: Bytes -> nat, k: nat, keys: seq<Bytes>, bits: nat, q: nat)
    requires keys != [] && bits > 0
    ensures KeysOn(hash, k, keys, bits, q) <==>
      KeysOn(hash, k, keys[..|keys| - 1], bits, q) || KeyOn(hash, k, keys[|keys| - 1], bits, q)
  {
    assert keys == keys[..|keys| - 1] + [keys[|keys| - 1]];
  }

  lemma {:induction false} KeysOnly(hash: Bytes -> nat, k: nat, arr: Bytes, keys: seq<Bytes>, bits: nat, q: nat)
    requires 0 < |arr| && bits == |arr| * 8 && q < bits
    ensures BitOf(WithKeys(hash, k, arr, keys), q) <==> BitOf(arr, q) || KeysOn(hash, k, keys, bits, q)
  {
    if keys != [] {
      var front, last := keys[..|keys| - 1], keys[|keys| - 1];
      KeysOnly(hash, k, arr, front, bits, q);
      ProbesOnly(WithKeys(hash, k, arr, front), hash(last) % WORD32, Delta(hash(last) % WORD32), k, q);
      KeysOnLast(hash, k, keys, bits, q);
    }
  }

  lemma {:induction false} MatchedHits(arr: Bytes, h: nat, delta: nat, k: nat)
    requires |arr| > 0 && AllSet(arr, h, delta, k)
    ensures Hits(arr, h, delta, k)
    decreases k
  {
    if k > 0 {
      var next := (h + delta) % WORD32;
      MatchedHits(arr, next, delta, k - 1);
      forall j | 0 <= j < k ensures BitOf(arr, Probe(h, delta, j) % (|arr| * 8)) {
        if j > 0 {
          assert BitOf(arr, Probe(next, delta, j - 1) % (|arr| * 8));
        }
      }
    }
  }

  /** How large the bit array is: for at least 64 bits, and no whole byte more than asked for. */
  lemma FilterSize(hash: Bytes -> nat, bitsPerKey: nat, k: Byte, keys: seq<Bytes>)
    ensures var bits := 8 * (|BloomFilter(hash, bitsPerKey, k, keys)| - 1);
      && bits >= 64 && bits >= |keys| * bitsPerKey && (bits == 64 || bits < |keys| * bitsPerKey + 8)
  {
  }

  lemma {:induction false} SpotSet(hash: Bytes -> nat, k: nat, size: nat, keys: seq<Bytes>, bits: nat, q: nat)
    requires size > 0 && bits == size * 8 && q < bits
    ensures BitOf(WithKeys(hash, k, seq(size, _ => 0), keys), q) <==> KeysOn(hash, k, keys, bits, q)
  {
    KeysOnly(hash, k, seq(size, _ => 0), keys, bits, q);
    NoBits(q % 8);
  }

  lemma {:induction false} MatchesArray(hash: Bytes -> nat, key: Bytes, arr: Bytes, k: Byte)
    requires |arr| > 0 && k <= 30
    ensures BloomMatch(hash, key, arr + [k]) <==> AllSet(arr, hash(key) % WORD32, Delta(hash(key) % WORD32), k)
  {
    assert (arr + [k])[..|arr|] == arr;
  }

  /** A bloom filter matches a key if and only if each bit on which a probe of the key falls is one
      on which a probe of the filter's keys falls. */
  lemma BloomMatchesIff(
    hash: Bytes -> nat, bitsPerKey: nat, k: Byte, keys: seq<Bytes>, key: Bytes, bits: nat)
    requires 1 <= k <= 30 && bits == 8 * (|BloomFilter(hash, bitsPerKey, k, keys)| - 1)
    ensures BloomMatch(hash, key, BloomFilter(hash, bitsPerKey, k, keys)) <==>
      forall q :: 0 <= q < bits && KeyOn(hash, k, key, bits, q) ==> KeysOn(hash, k, keys, bits, q)
  {
    var size := FilterBytes(|keys|, bitsPerKey);
    var arr := WithKeys(hash, k, seq(size, _ => 0), keys);
    MatchesArray(hash, key, arr, k);
    AllSetIff(arr, hash(key) % WORD32, Delta(hash(key) % WORD32), k, bits);
    forall q | 0 <= q < bits ensures BitOf(arr, q) <==> KeysOn(hash, k, keys, bits, q) {
      SpotSet(hash, k, size, keys, bits, q);
    }
  }

  lemma {:induction false} AllSetIff(arr: Bytes, h: nat, delta: nat, k: nat, bits: nat)
    requires |arr| > 0 && bits == |arr| * 8
    ensures AllSet(arr, h, delta, k) <==> forall q :: 0 <= q < bits && FallsOn(h, delta, k, bits, q) ==> BitOf(arr, q)
  {
    if AllSet(arr, h, delta, k) {
      MatchedHits(arr, h, delta, k);
    } else {
      if forall q :: 0 <= q < bits && FallsOn(h, delta, k, bits, q) ==> BitOf(arr, q) {
        forall j | 0 <= j < k ensures BitOf(arr, Probe(h, delta, j) % (|arr| * 8)) {
          assert FallsOn(h, delta, k, bits, Spot(h, delta, j, bits));
        }
        MatchesFrom(arr, h, delta, k);
      }
    }
  }

  /** The filter of no keys matches nothing. */
  lemma NoKeysNoMatch(hash: Bytes -> nat, bitsPerKey: nat, k: Byte, key: Bytes)
    requires 1 <= k <= 30
    ensures !BloomMatch(hash, key, BloomFilter(hash, bitsPerKey, k, []))
  {
    var bits := 8 * (|BloomFilter(hash, bitsPerKey, k, [])| - 1);
    var h := hash(key) % WORD32;
    BloomMatchesIff(hash, bitsPerKey, k, [], key, bits);
    assert KeyOn(hash, k, key, bits, Spot(h, Delta(h), 0, bits));
  }

  /** The bloom filter as the policy of filter blocks and tables. */
  function Bloom(hash: Bytes -> nat, bitsPerKey: nat, k: Byte): PolicyPair {
    PolicyPair(keys => BloomFilter(hash, bitsPerKey, k, keys), (key, filter) => BloomMatch(hash, key, filter))
  }

  lemma BloomIsPolicy(hash: Bytes -> nat, bitsPerKey: nat, k: Byte)
    ensures NoFalseNegatives(Bloom(hash, bitsPerKey, k))
  {
    var p := Bloom(hash, bitsPerKey, k);
    forall keys: seq<Bytes>, key: Bytes | key in keys ensures p.mayMatch(key, p.create(keys)) {
      BloomMatches(hash, bitsPerKey, k, keys, key);
    }
  }

  lemma {:induction false} KeysNext(hash: Bytes -> nat, k: nat, arr: Bytes, keys: seq<Bytes>, i: nat)
    requires |arr| > 0 && i < |keys|
    ensures WithKeys(hash, k, arr, keys[..i + 1]) == WithKey(hash, k, WithKeys(hash, k, arr, keys[..i]), keys[i])
  {
    assert keys[..i + 1][..i] == keys[..i] && keys[..i + 1][i] == keys[i];
  }

  lemma AppendedMatches(
    hash: Bytes -> nat, bitsPerKey: nat, k: Byte, keys: seq<Bytes>, dst: Bytes, r: Bytes)
    requires r == dst + BloomFilter(hash, bitsPerKey, k, keys)
    ensures forall key :: key in keys ==> BloomMatch(hash, key, r[|dst|..])
  {
    assert r[|dst|..] == BloomFilter(hash, bitsPerKey, k, keys);
    forall key | key in keys ensures BloomMatch(hash, key, r[|dst|..]) {
      BloomMatches(hash, bitsPerKey, k, keys, key);
    }
  }

  class BloomFilterPolicy {
    const hash: Bytes -> nat
    const bitsPerKey: nat
    const k: Byte

    constructor (hash: Bytes -> nat, bitsPerKey: nat, k: Byte)
      requires 1 <= k <= 30
      ensures this.hash == hash && this.bitsPerKey == bitsPerKey && this.k == k
    {
      this.hash := hash;
      this.bitsPerKey := bitsPerKey;
      this.k := k;
    }

    /** Appends the filter of the keys, which matches every one of them. */
    method CreateFilter(keys: seq<Bytes>, dst: Bytes) returns (r: Bytes)
      ensures r == dst + BloomFilter(hash, bitsPerKey, k, keys)
      ensures forall key :: key in keys ==> BloomMatch(hash, key, r[|dst|..])
    {
      var bits := |keys| * bitsPerKey;
      if bits < 64 {
        bits := 64;
      }
      var bytes: nat := (bits + 7) / 8;
      bits := bytes * 8;
      ghost var zeros: Bytes := seq(FilterBytes(|keys|, bitsPerKey), _ => 0);
      var arr: Bytes := seq(bytes, _ => 0);
      assert arr == zeros;
      var i := 0;
      while i < |keys|
        invariant 0 <= i <= |keys| && |arr| == bytes
        invariant arr == WithKeys(hash, k, zeros, keys[..i])
      {
        var h: nat := hash(keys[i]) % WORD32;
        var delta := Delta(h);
        ghost var goal := WithKey(hash, k, arr, keys[i]);
        var j: nat := 0;
        while j < k
          invariant 0 <= j <= k && |arr| == bytes
          invariant goal == WithProbes(arr, h, delta, k - j)
        {
          var bitpos := h % bits;
          arr := WithBit(arr, bitpos);
          h := (h + delta) % WORD32;
          j := j + 1;
        }
        KeysNext(hash, k, zeros, keys, i);
        i := i + 1;
      }
      assert keys[..|keys|] == keys;
      r := dst + arr + [k];
      assert r == dst + BloomFilter(hash, bitsPerKey, k, keys);
      AppendedMatches(hash, bitsPerKey, k, keys, dst, r);
    }

    method KeyMayMatch(key: Bytes, filter: Bytes) returns (r: bool)
      ensures r == BloomMatch(hash, key, filter)
    {
      var len := |filter|;
      if len < 2 {
        return false;
      }
      var arr := filter[..len - 1];
      var bits := (len - 1) * 8;
      var count: nat := filter[len - 1];
      if count > 30 {
        return true;
      }
      var h: nat := hash(key) % WORD32;
      var delta := Delta(h);
      ghost var goal := AllSet(arr, h, delta, count);
      var j: nat := 0;
      while j < count
        invariant 0 <= j <= count && goal == AllSet(arr, h, delta, count - j)
      {
        if !BitOf(arr, h % bits) {
          return false;
        }
        h := (h + delta) % WORD32;
        j := j + 1;
      }
      return true;
    }
  }

  // ----- the filter block

  const BASE_LG: Byte := 11
  const BASE: nat := 2048

  function Concat(fs: seq<Bytes>): Bytes {
    if fs == [] then [] else Concat(fs[..|fs| - 1]) + fs[|fs| - 1]
  }

  /** Where each piece begins in the concatenation. */
  function Starts(fs: seq<Bytes>): (r: seq<nat>)
    ensures |r| == |fs|
  {
    if fs == [] then [] else Starts(fs[..|fs| - 1]) + [|Concat(fs[..|fs| - 1])|]
  }

  lemma {:induction false} PieceAt(fs: seq<Bytes>, i: nat, lo: nat, hi: nat)
    requires i < |fs| && lo == Starts(fs)[i] && hi == (Starts(fs) + [|Concat(fs)|])[i + 1]
    ensures lo <= hi <= |Concat(fs)| && Concat(fs)[lo..hi] == fs[i]
  {
    var front := fs[..|fs| - 1];
    if i < |fs| - 1 {
      PieceAt(front, i, lo, hi);
      assert Concat(fs)[lo..hi] == Concat(front)[lo..hi];
    }
  }

  lemma {:induction false} LastPiece(fs: seq<Bytes>, x: Bytes)
    ensures Concat(fs + [x]) == Concat(fs) + x && Starts(fs + [x]) == Starts(fs) + [|Concat(fs)|]
  {
    assert (fs + [x])[..|fs|] == fs;
  }

  /** The filter of one 2 KB slot; nothing for a slot without keys. */
  function SlotFilter(p: Policy, keys: seq<Bytes>): Bytes {
    if keys == [] then [] else p.create(keys)
  }

  function SlotFilters(p: Policy, slots: seq<seq<Bytes>>): (r: seq<Bytes>)
    ensures |r| == |slots|
    ensures forall i :: 0 <= i < |slots| ==> r[i] == SlotFilter(p, slots[i])
  {
    if slots == [] then [] else SlotFilters(p, slots[..|slots| - 1]) + [SlotFilter(p, slots[|slots| - 1])]
  }

  /** FilterBlockReader::KeyMayMatch: anything unreadable may match. */
  predicate MayMatch(p: Policy, contents: Bytes, blockOffset: nat, key: Bytes) {
    var n := |contents|;
    if n < 5 then true
    else
      var lastWord := FromFixed(contents[n - 5..n - 1]);
      if lastWord > n - 5 then true
      else
        var num := (n - 5 - lastWord) / 4;
        PowPositive(contents[n - 1]);
        var index: nat := blockOffset / Pow(2, contents[n - 1]);
        if index >= num then true else SlotMayMatch(p, contents, lastWord, lastWord + index * 4, key)
  }

  /** The test of one slot, whose offset is stored at `at`. */
  predicate SlotMayMatch(p: Policy, contents: Bytes, arrayOffset: nat, at: nat, key: Bytes)
    requires arrayOffset <= at && at + 8 <= |contents|
  {
    var start := FromFixed(contents[at..at + 4]);
    var limit := FromFixed(contents[at + 4..at + 8]);
    if start <= limit <= arrayOffset then p.mayMatch(key, contents[start..limit]) else start != limit
  }

  lemma {:induction false} PowPositive(n: nat)
    ensures Pow(2, n) > 0
  {
    if n > 0 {
      PowPositive(n - 1);
    }
  }

  lemma BaseIsPower()
    ensures Pow(2, BASE_LG) == BASE
  {
    ByteBits();
    assert Pow(2, 9) == 512 && Pow(2, 10) == 1024;
  }

  function Contents(p: Policy, slots: seq<seq<Bytes>>): Bytes {
    var fs := SlotFilters(p, slots);
    Concat(fs) + Words(Starts(fs)) + Fixed(|Concat(fs)|, 4) + [BASE_LG]
  }

  lemma TailSlice(head: Bytes, words: Bytes, end: Bytes, lg: Byte)
    requires |end| == 4
    ensures var all := head + words + end + [lg];
            && |all| == |head| + |words| + 5 && all[|all| - 1] == lg && head <= all
            && all[|all| - 5..|all| - 1] == end && all == head + words + (end + [lg])
  {
  }

  lemma {:induction false} StartBound(fs: seq<Bytes>, i: nat)
    requires i < |fs|
    ensures Starts(fs)[i] <= |Concat(fs)|
  {
    PieceAt(fs, i, Starts(fs)[i], (Starts(fs) + [|Concat(fs)|])[i + 1]);
  }

  /** An entry of the offset array read back. */
  lemma {:induction false} WordRead(fs: seq<Bytes>, i: nat, words: Bytes)
    requires i < |fs| && |Concat(fs)| < WORD32 && words == Words(Starts(fs))
    ensures FromFixed(words[4 * i..4 * i + 4]) == Starts(fs)[i]
  {
    WordAt(Starts(fs), i);
    StartBound(fs, i);
    Fixed32RoundTrip(Starts(fs)[i]);
  }

  /** The filter of a slot is where its offsets say. */
  lemma {:induction false} FilterAt(
    p: Policy, slots: seq<seq<Bytes>>, i: nat, lo: nat, hi: nat, all: Bytes, head: Bytes)
    requires i < |slots| && head == Concat(SlotFilters(p, slots)) && head <= all
    requires lo == Starts(SlotFilters(p, slots))[i] && hi == (Starts(SlotFilters(p, slots)) + [|head|])[i + 1]
    ensures lo <= hi <= |head| && all[lo..hi] == if slots[i] == [] then [] else p.create(slots[i])
  {
    PieceAt(SlotFilters(p, slots), i, lo, hi);
    assert all[lo..hi] == head[lo..hi];
  }

  /** The bytes the reader finds at the end of the contents and in entry `i` of `n`. */
  ghost predicate ArrayRead(n: nat, i: nat, all: Bytes, size: nat, end: Bytes, start: Bytes, limit: Bytes) {
    && i < n && |all| == size + 4 * n + 5 && all[|all| - 1] == BASE_LG
    && all[|all| - 5..|all| - 1] == end
    && all[size + i * 4..size + i * 4 + 4] == start
    && all[size + i * 4 + 4..size + i * 4 + 8] == limit
  }

  lemma ArrayIsRead(
    n: nat, i: nat, head: Bytes, words: Bytes, end: Bytes, start: Bytes, limit: Bytes)
    requires i < n && |words| == 4 * n && |end| == 4 && words[4 * i..4 * i + 4] == start
    requires if i + 1 < n then words[4 * i + 4..4 * i + 8] == limit else limit == end
    ensures ArrayRead(n, i, head + words + end + [BASE_LG], |head|, end, start, limit)
  {
    var tail := end + [BASE_LG];
    TailSlice(head, words, end, BASE_LG);
    WordSlice(head, words, tail, i);
    if i + 1 < n {
      WordSlice(head, words, tail, i + 1);
    }
  }

  lemma {:induction false} ReadMatches(
    p: Policy, n: nat, blockOffset: nat, key: Bytes, all: Bytes, size: nat, end: Bytes, start: Bytes, limit: Bytes,
    lo: nat, hi: nat)
    requires ArrayRead(n, blockOffset / BASE, all, size, end, start, limit)
    requires FromFixed(end) == size && FromFixed(start) == lo && FromFixed(limit) == hi
    requires lo <= hi <= size
    ensures MayMatch(p, all, blockOffset, key) <==> p.mayMatch(key, all[lo..hi])
  {
    BaseIsPower();
  }

  lemma {:induction false} ReadBeyond(
    p: Policy, n: nat, blockOffset: nat, key: Bytes, all: Bytes, size: nat, end: Bytes)
    requires |all| == size + 4 * n + 5 && all[|all| - 1] == BASE_LG && all[|all| - 5..|all| - 1] == end
    requires FromFixed(end) == size && blockOffset / BASE >= n
    ensures MayMatch(p, all, blockOffset, key)
  {
    BaseIsPower();
  }

  lemma {:induction false} BehindSlots(p: Policy, slots: seq<seq<Bytes>>, blockOffset: nat, key: Bytes, all: Bytes)
    requires |Concat(SlotFilters(p, slots))| < WORD32 && all == Contents(p, slots) && blockOffset / BASE >= |slots|
    ensures MayMatch(p, all, blockOffset, key)
  {
    var fs := SlotFilters(p, slots);
    var head, words := Concat(fs), Words(Starts(fs));
    var end := Fixed(|head|, 4);
    Fixed32RoundTrip(|head|);
    TailSlice(head, words, end, BASE_LG);
    ReadBeyond(p, |fs|, blockOffset, key, all, |head|, end);
  }

  lemma {:induction false} WithinSlots(p: Policy, slots: seq<seq<Bytes>>, blockOffset: nat, key: Bytes, all: Bytes)
    requires |Concat(SlotFilters(p, slots))| < WORD32 && all == Contents(p, slots) && blockOffset / BASE < |slots|
    ensures MayMatch(p, all, blockOffset, key) <==>
      p.mayMatch(key, if slots[blockOffset / BASE] == [] then [] else p.create(slots[blockOffset / BASE]))
  {
    var fs, i := SlotFilters(p, slots), blockOffset / BASE;
    var head, words := Concat(fs), Words(Starts(fs));
    var lo, hi := Starts(fs)[i], (Starts(fs) + [|head|])[i + 1];
    var end := Fixed(|head|, 4);
    var start := words[4 * i..4 * i + 4];
    var limit := if i + 1 < |fs| then words[4 * i + 4..4 * i + 8] else end;
    Fixed32RoundTrip(|head|);
    WordRead(fs, i, words);
    if i + 1 < |fs| {
      WordRead(fs, i + 1, words);
    }
    ArrayIsRead(|fs|, i, head, words, end, start, limit);
    TailSlice(head, words, end, BASE_LG);
    FilterAt(p, slots, i, lo, hi, all, head);
    ReadMatches(p, |fs|, blockOffset, key, all, |head|, end, start, limit, lo, hi);
  }

  /** What a test comes to: the filter of the slot decides, an empty one for a slot without keys, and
      behind the slots everything may match. */
  lemma {:induction false} SlotDecides(p: Policy, slots: seq<seq<Bytes>>, blockOffset: nat, key: Bytes, all: Bytes)
    requires |Concat(SlotFilters(p, slots))| < WORD32 && all == Contents(p, slots)
    ensures MayMatch(p, all, blockOffset, key) <==>
      || blockOffset / BASE >= |slots|
      || p.mayMatch(key, if slots[blockOffset / BASE] == [] then [] else p.create(slots[blockOffset / BASE]))
  {
    if blockOffset / BASE < |slots| {
      WithinSlots(p, slots, blockOffset, key, all);
    } else {
      BehindSlots(p, slots, blockOffset, key, all);
    }
  }

  /** Every key of a slot may match at any block offset of that slot. */
  lemma {:induction false} SlotKeyMatches(p: Policy, slots: seq<seq<Bytes>>, blockOffset: nat, key: Bytes, all: Bytes)
    requires blockOffset / BASE < |slots| && key in slots[blockOffset / BASE]
    requires |Concat(SlotFilters(p, slots))| < WORD32 && all == Contents(p, slots)
    ensures MayMatch(p, all, blockOffset, key)
  {
    SlotDecides(p, slots, blockOffset, key, all);
    assert p.mayMatch(key, p.create(slots[blockOffset / BASE]));
  }

  // ----- the builder

  /** A data block's file offset and the keys added for it. */
  datatype Block = Block(offset: nat, keys: seq<Bytes>)

  /** The keys of all blocks of slot `i`, in the order they came. */
  ghost function KeysIn(bs: seq<Block>, i: nat): seq<Bytes> {
    if bs == [] then []
    else
      var last := bs[|bs| - 1];
      KeysIn(bs[..|bs| - 1], i) + (if last.offset / BASE == i then last.keys else [])
  }

  function KeysOf(slots: seq<seq<Bytes>>, i: nat): seq<Bytes> {
    if i < |slots| then slots[i] else []
  }

  /** Each slot has the keys of its blocks and no others. */
  ghost predicate Sorted(bs: seq<Block>, slots: seq<seq<Bytes>>) {
    forall i: nat :: KeysIn(bs, i) == KeysOf(slots, i)
  }

  lemma EmptySlot(bs: seq<Block>, slots: seq<seq<Bytes>>)
    ensures Sorted(bs, slots) <==> Sorted(bs, slots + [[]])
  {
    assert forall i: nat :: KeysOf(slots + [[]], i) == KeysOf(slots, i);
  }

  lemma EmptyBlock(bs: seq<Block>, slots: seq<seq<Bytes>>, offset: nat)
    requires Sorted(bs, slots)
    ensures Sorted(bs + [Block(offset, [])], slots)
  {
    var all := bs + [Block(offset, [])];
    forall i: nat ensures KeysIn(all, i) == KeysOf(slots, i) {
      assert all[..|all| - 1] == bs;
      assert KeysIn(bs, i) + [] == KeysIn(bs, i);
    }
  }

  lemma OneKeyMore(
    bs: seq<Block>, slots: seq<seq<Bytes>>, pending: seq<Bytes>, key: Bytes, bs': seq<Block>)
    requires bs != [] && Sorted(bs, slots + [pending]) && bs[|bs| - 1].offset / BASE == |slots|
    requires bs' == bs[..|bs| - 1] + [Block(bs[|bs| - 1].offset, bs[|bs| - 1].keys + [key])]
    ensures Sorted(bs', slots + [pending + [key]])
  {
    var front, last := bs[..|bs| - 1], bs[|bs| - 1];
    forall i: nat ensures KeysIn(bs', i) == KeysOf(slots + [pending + [key]], i) {
      assert bs'[..|bs'| - 1] == front;
      assert KeysIn(bs, i) == KeysOf(slots + [pending], i);
      if i == |slots| {
        assert KeysIn(front, i) + (last.keys + [key]) == (KeysIn(front, i) + last.keys) + [key];
      }
    }
  }

  lemma {:induction false} BlockKeys(bs: seq<Block>, b: nat, key: Bytes)
    requires b < |bs| && key in bs[b].keys
    ensures key in KeysIn(bs, bs[b].offset / BASE)
  {
    if b < |bs| - 1 {
      BlockKeys(bs[..|bs| - 1], b, key);
    }
  }

  /** What a finished filter block answers. */
  ghost predicate Answers(p: Policy, slots: seq<seq<Bytes>>, bs: seq<Block>, all: Bytes) {
    && (forall blockOffset: nat, key :: MayMatch(p, all, blockOffset, key) <==>
          || blockOffset / BASE >= |slots|
          || p.mayMatch(key,
               if KeysIn(bs, blockOffset / BASE) == [] then [] else p.create(KeysIn(bs, blockOffset / BASE))))
    && forall i, k :: 0 <= i < |bs| && k in bs[i].keys ==> MayMatch(p, all, bs[i].offset, k)
  }

  /** No key of a block is missed, and a slot answers with the filter of its blocks' keys. */
  lemma {:induction false} AllMatch(p: Policy, slots: seq<seq<Bytes>>, bs: seq<Block>, all: Bytes)
    requires Sorted(bs, slots) && |Concat(SlotFilters(p, slots))| < WORD32 && all == Contents(p, slots)
    ensures Answers(p, slots, bs, all)
  {
    forall blockOffset: nat, key
      ensures MayMatch(p, all, blockOffset, key) <==>
        || blockOffset / BASE >= |slots|
        || p.mayMatch(key,
             if KeysIn(bs, blockOffset / BASE) == [] then [] else p.create(KeysIn(bs, blockOffset / BASE)))
    {
      SlotDecides(p, slots, blockOffset, key, all);
      assert KeysIn(bs, blockOffset / BASE) == KeysOf(slots, blockOffset / BASE);
    }
    forall i, k | 0 <= i < |bs| && k in bs[i].keys ensures MayMatch(p, all, bs[i].offset, k) {
      BlockKeys(bs, i, k);
      assert KeysIn(bs, bs[i].offset / BASE) == KeysOf(slots, bs[i].offset / BASE);
      SlotKeyMatches(p, slots, bs[i].offset, k, all);
    }
  }

  class FilterBlockBuilder {
    const policy: Policy
    var keys: Bytes
    var start: seq<nat>
    var result: Bytes
    var filterOffsets: seq<nat>
    ghost var slots: seq<seq<Bytes>>
    ghost var pending: seq<Bytes>
    ghost var blocks: seq<Block>

    ghost predicate Built()
      reads this
    {
      && keys == Concat(pending) && start == Starts(pending)
      && result == Concat(SlotFilters(policy, slots))
      && filterOffsets == Starts(SlotFilters(policy, slots))
    }

    /** Every key added so far is in the slot of its block, and nowhere else. */
    ghost predicate Valid()
      reads this
    {
      && Built() && Sorted(blocks, slots + [pending])
      && if blocks == [] then slots == [] && pending == [] else blocks[|blocks| - 1].offset / BASE == |slots|
    }

    constructor (policy: Policy)
      ensures Valid() && blocks == [] && this.policy == policy
    {
      this.policy := policy;
      keys, start, result, filterOffsets := [], [], [], [];
      slots, pending, blocks := [], [], [];
    }

    /** Called for each data block, with offsets that never decrease. */
    method StartBlock(blockOffset: nat)
      requires Valid() && (blocks != [] ==> blocks[|blocks| - 1].offset <= blockOffset)
      modifies this
      ensures Valid() && blocks == old(blocks) + [Block(blockOffset, [])]
    {
      var filterIndex := blockOffset / BASE;
      while filterIndex > |filterOffsets|
        invariant Built() && |slots| <= filterIndex && blocks == old(blocks)
        invariant Sorted(blocks, slots + [pending])
        decreases filterIndex - |filterOffsets|
      {
        EmptySlot(blocks, slots + [pending]);
        GenerateFilter();
      }
      EmptyBlock(blocks, slots + [pending], blockOffset);
      blocks := blocks + [Block(blockOffset, [])];
    }

    method AddKey(key: Bytes)
      requires Valid() && blocks != []
      modifies this
      ensures Valid()
      ensures var last := old(blocks)[|old(blocks)| - 1];
              blocks == old(blocks)[..|old(blocks)| - 1] + [last.(keys := last.keys + [key])]
    {
      ghost var last := blocks[|blocks| - 1];
      ghost var blocks' := blocks[..|blocks| - 1] + [last.(keys := last.keys + [key])];
      OneKeyMore(blocks, slots, pending, key, blocks');
      start := start + [|keys|];
      keys := keys + key;
      LastPiece(pending, key);
      pending := pending + [key];
      blocks := blocks';
    }

    method GenerateFilter()
      requires Built()
      modifies this
      ensures Built() && slots == old(slots) + [old(pending)] && pending == [] && blocks == old(blocks)
    {
      assert (slots + [pending])[..|slots|] == slots;
      var numKeys := |start|;
      if numKeys == 0 {
        filterOffsets := filterOffsets + [|result|];
        slots := slots + [pending];
        assert result + [] == result;
        return;
      }
      start := start + [|keys|];
      var tmpKeys := ListKeys(keys, start, numKeys, pending);
      filterOffsets := filterOffsets + [|result|];
      result := result + policy.create(tmpKeys);
      keys := [];
      start := [];
      slots := slots + [pending];
      pending := [];
    }

    /** The list of keys out of the flattened structure. */
    static method ListKeys(keys: Bytes, start: seq<nat>, numKeys: nat, ghost list: seq<Bytes>)
      returns (tmpKeys: seq<Bytes>)
      requires keys == Concat(list) && start == Starts(list) + [|keys|] && numKeys == |list|
      ensures tmpKeys == list
    {
      tmpKeys := [];
      var i := 0;
      while i < numKeys
        invariant 0 <= i <= numKeys && tmpKeys == list[..i]
      {
        PieceAt(list, i, start[i], start[i + 1]);
        tmpKeys := tmpKeys + [keys[start[i]..start[i + 1]]];
        i := i + 1;
      }
    }

    /** No key that was added is missed by the finished filter block; each slot up to the last key's
        answers with the filter of its blocks' keys. */
    method Finish() returns (contents: Bytes)
      requires Valid()
      modifies this
      ensures blocks == old(blocks) && forall i: nat :: i >= |slots| ==> KeysIn(blocks, i) == []
      ensures |slots| == old(|slots|) + if KeysIn(blocks, old(|slots|)) == [] then 0 else 1
      ensures |result| < WORD32 ==> Answers(policy, slots, blocks, contents)
    {
      if start != [] {
        EmptySlot(blocks, slots + [pending]);
        GenerateFilter();
      }
      EmptySlot(blocks, slots);
      var arrayOffset := |result|;
      var words := OffsetArray(filterOffsets);
      contents := result + words + Fixed(arrayOffset, 4) + [BASE_LG];
      if |result| < WORD32 {
        AllMatch(policy, slots, blocks, contents);
      }
    }

    static method OffsetArray(filterOffsets: seq<nat>) returns (words: Bytes)
      ensures words == Words(filterOffsets)
    {
      words := [];
      var i := 0;
      while i < |filterOffsets|
        invariant 0 <= i <= |filterOffsets| && words == Words(filterOffsets[..i])
      {
        assert filterOffsets[..i + 1][..i] == filterOffsets[..i];
        words := words + Fixed(filterOffsets[i], 4);
        i := i + 1;
      }
      assert filterOffsets[..|filterOffsets|] == filterOffsets;
    }
  }
}
