/** Blocks: prefix-compressed entries with restart points, the builder and the
    iterator. */
module Blocks {
  import opened Options
  import opened Coding

  datatype KV = KV(key: Bytes, value: Bytes)

  // ----- one entry

  datatype Decoded = Decoded(shared: nat, nonShared: nat, valueLength: nat, used: nat)

  /** The three lengths, one byte each if they are small. */
  function ReadLengths(s: Bytes): (r: Option<Decoded>)
    ensures r.Some? ==> 0 < r.value.used <= |s|
  {
    if |s| < 3 then None
    else if s[0] < 128 && s[1] < 128 && s[2] < 128 then Some(Decoded(s[0], s[1], s[2], 3))
    else
      match ReadThree(s)
      case None => None
      case Some((shared, nonShared, valueLength, rest)) =>
        ReadThreeConsumes(s);
        Some(Decoded(shared, nonShared, valueLength, |s| - |rest|))
  }

  /** DecodeEntry: the lengths, if there seems to be room for the key delta and the value.
      The sum of the two is a 32-bit one and may wrap around. */
  function DecodeEntry(s: Bytes): (r: Option<Decoded>)
    ensures r.Some? ==> 0 < r.value.used <= |s|
  {
    match ReadLengths(s)
    case None => None
    case Some(d) =>
      if (|s| - d.used) % WORD32 < (d.nonShared + d.valueLength) % WORD32 then None else Some(d)
  }

  /** The key delta and the value of an accepted entry lie inside the block exactly when
      their lengths did not wrap around; then they are at least 4 GB long together. */
  lemma InsideIff(s: Bytes)
    requires |s| < WORD32 && DecodeEntry(s).Some?
    ensures var d := DecodeEntry(s).value;
            d.used + d.nonShared + d.valueLength <= |s| <==> d.nonShared + d.valueLength < WORD32
  {
    var d := DecodeEntry(s).value;
    assert 0 <= |s| - d.used < WORD32;
  }

  /** Lengths that fit are accepted. */
  lemma RoomAccepted(s: Bytes)
    requires |s| < WORD32 && ReadLengths(s).Some?
    requires var d := ReadLengths(s).value; d.used + d.nonShared + d.valueLength <= |s|
    ensures DecodeEntry(s) == ReadLengths(s)
  {
    var d := ReadLengths(s).value;
    assert 0 <= d.nonShared + d.valueLength <= |s| - d.used < WORD32;
  }

  /** An entry that is accepted although it reaches far beyond the block. */
  predicate Overlong(s: Bytes) {
    DecodeEntry(s).Some? && DecodeEntry(s).value.nonShared + DecodeEntry(s).value.valueLength >= WORD32
  }

  /** There are such entries: 4 GB less a byte of key delta and two bytes of value, where
      a single byte is left. */
  lemma OverlongAccepted(b: Byte)
    ensures var s := EntryHead(0, 0xffff_ffff, 2) + [b];
            && Overlong(s) && DecodeEntry(s) == Some(Decoded(0, 0xffff_ffff, 2, |s| - 1))
            && |s| - 1 + 0xffff_ffff + 2 > |s|
  {
    LengthsRoundTrip(0, 0xffff_ffff, 2, [b]);
  }

  function ReadThree(s: Bytes): Option<(nat, nat, nat, Bytes)> {
    match GetVarint32(s)
    case None => None
    case Some((a, s1)) =>
      match GetVarint32(s1)
      case None => None
      case Some((b, s2)) =>
        match GetVarint32(s2)
        case None => None
        case Some((c, s3)) => Some((a, b, c, s3))
  }

  lemma ReadThreeConsumes(s: Bytes)
    ensures ReadThree(s).Some? ==> |ReadThree(s).value.3| < |s|
  {
    ReadVarintConsumes(s, 5);
    if GetVarint32(s).Some? {
      var s1 := GetVarint32(s).value.1;
      ReadVarintConsumes(s1, 5);
      if GetVarint32(s1).Some? {
        ReadVarintConsumes(GetVarint32(s1).value.1, 5);
      }
    }
  }

  function EntryHead(shared: nat, nonShared: nat, valueLength: nat): (r: Bytes)
    ensures |r| > 0
  {
    Varint(shared) + Varint(nonShared) + Varint(valueLength)
  }

  lemma ThreeRoundTrip(a: nat, b: nat, c: nat, rest: Bytes)
    requires a < WORD32 && b < WORD32 && c < WORD32
    ensures ReadThree(EntryHead(a, b, c) + rest) == Some((a, b, c, rest))
  {
    var s := EntryHead(a, b, c) + rest;
    assert s == Varint(a) + (Varint(b) + (Varint(c) + rest));
    Varint32RoundTrip(a, Varint(b) + (Varint(c) + rest));
    Varint32RoundTrip(b, Varint(c) + rest);
    Varint32RoundTrip(c, rest);
  }

  lemma {:induction false} SmallOrLarge(n: nat)
    ensures |Varint(n)| > 0
    ensures if n < 128 then Varint(n) == [n] else Varint(n)[0] >= 128
  {
  }

  lemma LengthsRoundTrip(a: nat, b: nat, c: nat, rest: Bytes)
    requires a < WORD32 && b < WORD32 && c < WORD32
    ensures ReadLengths(EntryHead(a, b, c) + rest) == Some(Decoded(a, b, c, |EntryHead(a, b, c)|))
  {
    var s := EntryHead(a, b, c) + rest;
    SmallOrLarge(a);
    SmallOrLarge(b);
    SmallOrLarge(c);
    ThreeRoundTrip(a, b, c, rest);
    if a < 128 && b < 128 && c < 128 {
      assert EntryHead(a, b, c) == [a, b, c];
    } else if a >= 128 {
      assert s[0] == Varint(a)[0];
    } else if b >= 128 {
      assert s[1] == Varint(b)[0];
    } else {
      assert s[2] == Varint(c)[0];
    }
  }

  /** Either way of decoding gives back what the builder wrote. */
  lemma EntryRoundTrip(a: nat, b: nat, c: nat, rest: Bytes)
    requires a < WORD32 && b < WORD32 && c < WORD32 && b + c <= |rest|
    requires |EntryHead(a, b, c) + rest| < WORD32
    ensures DecodeEntry(EntryHead(a, b, c) + rest) == Some(Decoded(a, b, c, |EntryHead(a, b, c)|))
  {
    LengthsRoundTrip(a, b, c, rest);
    RoomAccepted(EntryHead(a, b, c) + rest);
  }

  // ----- the shape of a block

  /** Entry offsets `off`, one more than the entries, and the indices `rs` of the
      entries at restart points. */
  datatype Layout = Layout(es: seq<KV>, off: seq<nat>, rs: seq<nat>)

  /** The key that entry `i` is a delta of. */
  function KeyBefore(es: seq<KV>, i: nat): Bytes
    requires i <= |es|
  {
    if i == 0 then [] else es[i - 1].key
  }

  /** Entry `i` is at its offset, and inside the block. */
  ghost predicate EntryOk(body: Bytes, l: Layout, i: nat)
    requires i < |l.es| && |l.off| == |l.es| + 1
  {
    && l.off[i] <= |body| && l.off[i + 1] <= |body|
    && var d := ReadLengths(body[l.off[i]..]);
    && d.Some? && l.off[i + 1] == l.off[i] + d.value.used + d.value.nonShared + d.value.valueLength
    && var at := l.off[i] + d.value.used;
    && d.value.shared <= |KeyBefore(l.es, i)|
    && l.es[i].key == KeyBefore(l.es, i)[..d.value.shared] + body[at..at + d.value.nonShared]
    && l.es[i].value == body[at + d.value.nonShared..l.off[i + 1]]
    && (i in l.rs ==> d.value.shared == 0)
  }

  /** The entries fill `body`, and some of them, the first included, are restarts. */
  ghost predicate LayoutOk(body: Bytes, l: Layout) {
    && |l.off| == |l.es| + 1 && l.off[0] == 0 && l.off[|l.es|] == |body|
    && (forall i :: 0 <= i < |l.es| ==> EntryOk(body, l, i))
    && |l.rs| > 0 && l.rs[0] == 0
    && (forall j :: 0 <= j < |l.rs| ==> l.rs[j] <= |l.es| && (l.es != [] ==> l.rs[j] < |l.es|))
    && (forall i, j :: 0 <= i < j < |l.rs| ==> l.rs[i] < l.rs[j])
  }

  /** Offsets increase. */
  lemma OffsetsIncrease(body: Bytes, l: Layout, i: nat, j: nat)
    requires LayoutOk(body, l) && i < j <= |l.es|
    ensures l.off[i] < l.off[j] <= |body|
    decreases j - i
  {
    assert EntryOk(body, l, j - 1);
    if i < j - 1 {
      OffsetsIncrease(body, l, i, j - 1);
    }
  }

  lemma OffsetOrder(body: Bytes, l: Layout, i: nat, j: nat)
    requires LayoutOk(body, l) && i <= |l.es| && j <= |l.es|
    ensures l.off[i] < l.off[j] <==> i < j
    ensures l.off[i] <= |body|
  {
    if i < j {
      OffsetsIncrease(body, l, i, j);
    } else if j < i {
      OffsetsIncrease(body, l, j, i);
    }
    assert i == |l.es| ==> l.off[i] == |body|;
    if i < |l.es| {
      OffsetsIncrease(body, l, i, |l.es|);
    }
  }

  /** Decoding at the offset of an entry, with the key before it or at a restart. */
  lemma ParseOk(body: Bytes, l: Layout, pos: nat, key: Bytes)
    requires LayoutOk(body, l) && |body| < WORD32 && pos < |l.es|
    requires key == KeyBefore(l.es, pos) || (key == [] && pos in l.rs)
    ensures l.off[pos] < l.off[pos + 1] <= |body|
    ensures var d := DecodeEntry(body[l.off[pos]..]);
            && d.Some? && d.value.shared <= |key|
            && var p := l.off[pos] + d.value.used;
            && p + d.value.nonShared + d.value.valueLength == l.off[pos + 1]
            && key[..d.value.shared] + body[p..p + d.value.nonShared] == l.es[pos].key
            && body[p + d.value.nonShared..l.off[pos + 1]] == l.es[pos].value
  {
    OffsetsIncrease(body, l, pos, pos + 1);
    assert EntryOk(body, l, pos);
    RoomAccepted(body[l.off[pos]..]);
    assert key == [] ==> key[..0] == KeyBefore(l.es, pos)[..0];
  }

  // ----- the iterator

  class BlockIter {
    const body: Bytes
    const points: seq<nat>
    const less: (Bytes, Bytes) -> bool
    var current: nat
    var restartIndex: nat
    var key: Bytes
    var valueAt: nat
    var valueLength: nat
    var corrupt: bool
    /** The source went on with an overlong entry, outside the block; what it does from
        there on is not described. */
    var overrun: bool
    ghost const l: Layout
    ghost var pos: nat

    /** The block is one that a builder wrote. */
    ghost predicate Sound()
    {
      && |body| < WORD32 && LayoutOk(body, l) && |points| == |l.rs|
      && forall j :: 0 <= j < |points| ==> points[j] == l.off[l.rs[j]]
    }

    predicate Valid()
      reads this
    {
      current < |body|
    }

    function NextEntryOffset(): nat
      reads this
    {
      valueAt + valueLength
    }

    ghost predicate HasOverlong()
    {
      exists p: nat :: p < |body| && Overlong(body[p..])
    }

    /** Whatever the block, positions stay inside it, unless one of its entries is overlong. */
    ghost predicate Safe()
      reads this
    {
      && |body| < WORD32 && (overrun ==> HasOverlong())
      && |points| > 0 && restartIndex <= |points|
      && (Valid() ==> restartIndex < |points| && current < NextEntryOffset() <= |body|)
    }

    /** Standing on entry `pos` of a sound block, or on none when `pos` is their number. */
    ghost predicate At()
      reads this
    {
      && Safe()
      && (Sound() ==>
            && !overrun && pos <= |l.es| && (Valid() <==> pos < |l.es|)
            && (pos < |l.es| ==> OnEntry()))
    }

    ghost predicate OnEntry()
      requires |l.off| == |l.es| + 1 && pos < |l.es|
      reads this
    {
      && current == l.off[pos] && key == l.es[pos].key
      && NextEntryOffset() == l.off[pos + 1] && NextEntryOffset() <= |body|
      && l.es[pos].value == body[valueAt..NextEntryOffset()]
      && restartIndex < |points| && points[restartIndex] <= current
      && (restartIndex + 1 < |points| ==> points[restartIndex + 1] >= current)
    }

    /** About to parse entry `pos`. */
    ghost predicate Ready()
      reads this
    {
      && |body| < WORD32 && (overrun ==> HasOverlong())
      && |points| > 0 && restartIndex < |points|
      && (Sound() ==>
            && !overrun && pos <= |l.es| && NextEntryOffset() == l.off[pos]
            && (key == KeyBefore(l.es, pos) || (key == [] && pos in l.rs))
            && points[restartIndex] <= l.off[pos])
    }

    constructor (body: Bytes, points: seq<nat>, less: (Bytes, Bytes) -> bool, ghost l: Layout)
      requires points != [] && |body| < WORD32
      ensures At() && this.body == body && this.points == points && this.less == less && this.l == l
      ensures pos == |l.es| && !corrupt && !overrun
    {
      this.body, this.points, this.less, this.l := body, points, less, l;
      current := |body|;
      restartIndex := |points|;
      key, valueAt, valueLength, corrupt, overrun := [], 0, 0, false, false;
      pos := |l.es|;
    }

    /** The entry to parse next is overlong and accepted. */
    ghost predicate OverlongNext()
      reads this
    {
      && NextEntryOffset() < |body| && Overlong(body[NextEntryOffset()..])
      && DecodeEntry(body[NextEntryOffset()..]).value.shared <= |key|
    }

    /** The entry to parse next cannot be: it does not decode, or shares more than there is. */
    ghost predicate CorruptNext()
      reads this
    {
      && NextEntryOffset() < |body|
      && var d := DecodeEntry(body[NextEntryOffset()..]);
         d.None? || d.value.shared > |key|
    }

    /** Key and value are those of the entry at the current offset, behind the key `before`. */
    ghost predicate Taken(before: Bytes)
      reads this
    {
      && current < |body| && DecodeEntry(body[current..]).Some?
      && var d := DecodeEntry(body[current..]).value;
         && d.shared <= |before| && current + d.used + d.nonShared + d.valueLength <= |body|
         && key == before[..d.shared] + body[current + d.used..current + d.used + d.nonShared]
         && valueAt == current + d.used + d.nonShared && valueLength == d.valueLength
    }

    method Invalidate()
      modifies this
      ensures current == |body| && restartIndex == |points| && pos == |l.es|
      ensures key == old(key) && valueAt == old(valueAt) && valueLength == old(valueLength)
      ensures corrupt == old(corrupt) && overrun == old(overrun)
    {
      current := |body|;
      restartIndex := |points|;
      pos := |l.es|;
    }

    method CorruptionError()
      modifies this
      ensures current == |body| && restartIndex == |points| && corrupt && pos == |l.es| && overrun == old(overrun)
    {
      current := |body|;
      restartIndex := |points|;
      corrupt := true;
      key := [];
      valueAt, valueLength := 0, 0;
      pos := |l.es|;
    }

    static ghost predicate EntryInside(body: Bytes, at: nat, key: Bytes, d: Decoded) {
      && at < |body| && DecodeEntry(body[at..]) == Some(d) && d.shared <= |key| && d.used > 0
      && at + d.used + d.nonShared + d.valueLength <= |body|
    }

    /** The entry at `at`, none if it is corrupt, `beyond` if it is overlong. */
    static method EntryAt(body: Bytes, at: nat, key: Bytes) returns (d: Option<Decoded>, beyond: bool)
      requires at < |body| < WORD32
      ensures beyond <==> Overlong(body[at..]) && DecodeEntry(body[at..]).value.shared <= |key|
      ensures d.Some? && !beyond ==> EntryInside(body, at, key, d.value)
      ensures d.None? ==> DecodeEntry(body[at..]).None? || DecodeEntry(body[at..]).value.shared > |key|
    {
      d, beyond := DecodeEntry(body[at..]), false;
      if d.None? || |key| < d.value.shared {
        return None, false;
      }
      InsideIff(body[at..]);
      beyond := d.value.nonShared + d.value.valueLength >= WORD32;
    }

    /** Reads the next entry, if there is one and it is acceptable. */
    method ParseNextKey() returns (more: bool)
      requires Ready()
      modifies this
      ensures overrun <==> old(overrun) || old(OverlongNext())
      ensures corrupt <==> old(corrupt) || old(CorruptNext())
      ensures more <==> old(NextEntryOffset()) < |body| && !old(CorruptNext()) && !old(OverlongNext())
      ensures more ==> current == old(NextEntryOffset()) && Taken(old(key))
      ensures At() && (more <==> Valid())
      ensures Sound() ==> pos == old(pos) && (more <==> pos < |l.es|) && corrupt == old(corrupt)
      ensures more ==> NextEntryOffset() > old(NextEntryOffset())
    {
      current := NextEntryOffset();
      if Sound() {
        OffsetOrder(body, l, pos, |l.es|);
        if pos < |l.es| {
          ParseOk(body, l, pos, key);
        }
      }
      if current >= |body| {
        Invalidate();
        return false;
      }
      var d, beyond := EntryAt(body, current, key);
      if beyond {
        overrun := true;
        Invalidate();
        return false;
      }
      if d.None? {
        CorruptionError();
        return false;
      }
      TakeEntry(d.value);
      return true;
    }

    method TakeEntry(d: Decoded)
      requires Ready() && current == NextEntryOffset() && EntryInside(body, current, key, d)
      requires Sound() ==> pos < |l.es|
      modifies this
      ensures At() && Valid() && pos == old(pos) && corrupt == old(corrupt) && overrun == old(overrun)
      ensures NextEntryOffset() > old(NextEntryOffset()) && current == old(current) && Taken(old(key))
    {
      if Sound() {
        ParseOk(body, l, pos, key);
      }
      var p := current + d.used;
      key := key[..d.shared] + body[p..p + d.nonShared];
      valueAt, valueLength := p + d.nonShared, d.valueLength;
      restartIndex := AdvanceRestart(restartIndex, current);
    }

    /** The restart region that `offset` falls in, searched from `from` on. */
    method AdvanceRestart(from: nat, offset: nat) returns (index: nat)
      requires from < |points|
      ensures from <= index < |points| && (index + 1 < |points| ==> points[index + 1] >= offset)
      ensures index == from || points[index] < offset
    {
      index := from;
      while index + 1 < |points| && points[index + 1] < offset
        invariant from <= index < |points| && (index == from || points[index] < offset)
        decreases |points| - index
      {
        index := index + 1;
      }
    }

    method SeekToRestartPoint(index: nat)
      requires index < |points| && |body| < WORD32 && (overrun ==> HasOverlong()) && (Sound() ==> !overrun)
      modifies this
      ensures Ready() && (Sound() ==> pos == l.rs[index]) && corrupt == old(corrupt) && overrun == old(overrun)
      ensures restartIndex == index
      ensures NextEntryOffset() == points[index]
    {
      key := [];
      restartIndex := index;
      valueAt, valueLength := points[index], 0;
      if Sound() {
        pos := l.rs[index];
      }
    }

    method Next()
      requires At() && Valid()
      modifies this
      ensures At() && (Sound() ==> pos == old(pos) + 1 && corrupt == old(corrupt))
      ensures corrupt <==> old(corrupt) || old(CorruptNext())
      ensures Valid() ==> current == old(NextEntryOffset()) && Taken(old(key))
    {
      pos := pos + 1;
      if Sound() {
        OffsetsIncrease(body, l, pos - 1, pos);
      }
      var _ := ParseNextKey();
    }

    /** The last restart point before the current entry, from the current region back. */
    method RestartBefore() returns (found: bool, index: nat)
      requires At() && Valid()
      ensures found ==> index < |points| && points[index] < current
      ensures found && Sound() ==> index + 1 < |points| ==> points[index + 1] >= current
      ensures !found ==> points[0] >= current
    {
      index := restartIndex;
      while points[index] >= current
        invariant 0 <= index < |points|
        invariant Sound() ==> index + 1 < |points| ==> points[index + 1] >= current
        decreases index
      {
        if index == 0 {
          return false, 0;
        }
        index := index - 1;
      }
      found := true;
    }

    /** Before the first entry the iterator stands on none. */
    method Prev()
      requires At() && Valid()
      modifies this
      ensures At() && (Sound() ==> pos == (if old(pos) == 0 then |l.es| else old(pos) - 1) && corrupt == old(corrupt))
    {
      var original := current;
      ghost var from := pos;
      var found, index := RestartBefore();
      if !found {
        if Sound() {
          OffsetOrder(body, l, 0, from);
        }
        Invalidate();
        return;
      }
      SeekToRestartPoint(index);
      if Sound() {
        OffsetOrder(body, l, l.rs[index], from);
      }
      ParseUpTo(original, from);
    }

    /** Parses until the end of an entry meets the start of the one at `original`. */
    method ParseUpTo(original: nat, ghost from: nat)
      requires Ready() && (Sound() ==> pos < from < |l.es| && original == l.off[from])
      modifies this
      ensures At() && (Sound() ==> pos == from - 1 && corrupt == old(corrupt))
    {
      var more := ParseNextKey();
      while more && NextEntryOffset() < original
        invariant At() && (more <==> Valid())
        invariant Sound() ==> more && pos < from && corrupt == old(corrupt)
        decreases more, original - NextEntryOffset()
      {
        pos := pos + 1;
        if Sound() {
          OffsetOrder(body, l, pos, from);
          OffsetsIncrease(body, l, pos - 1, pos);
        }
        more := ParseNextKey();
      }
      if Sound() {
        OffsetOrder(body, l, pos + 1, from);
      }
    }

    method SeekToFirst()
      requires At()
      modifies this
      ensures At() && (Sound() ==> pos == 0 && corrupt == old(corrupt))
    {
      SeekToRestartPoint(0);
      var _ := ParseNextKey();
    }

    method SeekToLast()
      requires At()
      modifies this
      ensures At()
      ensures Sound() ==> pos == (if l.es == [] then 0 else |l.es| - 1) && corrupt == old(corrupt)
    {
      SeekToRestartPoint(|points| - 1);
      ParseToEnd();
    }

    method ParseToEnd()
      requires Ready() && (Sound() && l.es != [] ==> pos < |l.es|)
      modifies this
      ensures At()
      ensures Sound() ==> pos == (if l.es == [] then 0 else |l.es| - 1) && corrupt == old(corrupt)
    {
      var more := ParseNextKey();
      while more && NextEntryOffset() < |body|
        invariant At() && (more <==> Valid())
        invariant Sound() ==> (more <==> l.es != []) && (l.es == [] ==> pos == 0) && corrupt == old(corrupt)
        decreases more, |body| - NextEntryOffset()
      {
        pos := pos + 1;
        if Sound() {
          OffsetOrder(body, l, pos, |l.es|);
          OffsetsIncrease(body, l, pos - 1, pos);
        }
        more := ParseNextKey();
      }
      if Sound() && more {
        OffsetOrder(body, l, pos + 1, |l.es|);
      }
    }

    /** Keys before `target` come first. */
    ghost predicate Partitioned(target: Bytes) {
      forall i, j :: 0 <= i < j < |l.es| && less(l.es[j].key, target) ==> less(l.es[i].key, target)
    }

    /** Binary search over the restart points, then a linear scan: the first key that is
        not before the target. */
    method Seek(target: Bytes)
      requires At() && Partitioned(target)
      modifies this
      ensures At()
      ensures Sound() ==>
                && corrupt == old(corrupt)
                && (forall i :: 0 <= i < pos ==> less(l.es[i].key, target))
                && (pos < |l.es| ==> !less(l.es[pos].key, target))
    {
      var left, beyond := FindRestart(target);
      if beyond {
        overrun := true;
        Invalidate();
        return;
      }
      if left < 0 {
        CorruptionError();
        return;
      }
      SeekToRestartPoint(left);
      while true
        invariant Ready() && NextEntryOffset() >= points[left]
        invariant Sound() ==> corrupt == old(corrupt) && forall i :: 0 <= i < pos ==> less(l.es[i].key, target)
        decreases |body| - NextEntryOffset()
      {
        var more := ParseNextKey();
        if !more {
          return;
        }
        if !less(key, target) {
          return;
        }
        pos := pos + 1;
        if Sound() {
          OffsetsIncrease(body, l, pos - 1, pos);
        }
      }
    }

    /** The last restart point whose key is before the target, or the first one;
        negative if a restart point is corrupt, `beyond` if one is overlong. */
    method FindRestart(target: Bytes) returns (left: int, beyond: bool)
      requires |points| > 0 && |body| < WORD32 && Partitioned(target)
      ensures left < |points| && (beyond ==> HasOverlong())
      ensures Sound() ==> !beyond && 0 <= left && forall i :: 0 <= i < l.rs[left] ==> less(l.es[i].key, target)
    {
      left, beyond := 0, false;
      var right := |points| - 1;
      while left < right
        invariant !beyond && 0 <= left <= right < |points|
        invariant Sound() && left > 0 ==> less(l.es[l.rs[left]].key, target)
      {
        var mid := (left + right + 1) / 2;
        var d := if points[mid] <= |body| then DecodeEntry(body[points[mid]..]) else None;
        if Sound() {
          RestartKey(body, l, mid);
        }
        if d.None? || d.value.shared != 0 {
          return -1, false;
        }
        if d.value.nonShared + d.value.valueLength >= WORD32 {
          assert points[mid] < |body| && Overlong(body[points[mid]..]);
          return -1, true;
        }
        InsideIff(body[points[mid]..]);
        var at := points[mid] + d.value.used;
        if less(body[at..at + d.value.nonShared], target) {
          left := mid;
        } else {
          right := mid - 1;
        }
      }
    }
  }

  /** A restart point stores its key in full. */
  lemma RestartKey(body: Bytes, l: Layout, j: nat)
    requires LayoutOk(body, l) && |body| < WORD32 && 0 < j < |l.rs|
    ensures l.rs[j] < |l.es| && l.off[l.rs[j]] <= |body|
    ensures var d := DecodeEntry(body[l.off[l.rs[j]]..]);
            && d.Some? && d.value.shared == 0 && d.value.nonShared + d.value.valueLength < WORD32
            && var at := l.off[l.rs[j]] + d.value.used;
            && at + d.value.nonShared <= |body|
            && body[at..at + d.value.nonShared] == l.es[l.rs[j]].key
  {
    assert l.rs[0] < l.rs[j];
    assert EntryOk(body, l, l.rs[j]);
    assert l.rs[j] in l.rs;
    RoomAccepted(body[l.off[l.rs[j]]..]);
    assert KeyBefore(l.es, l.rs[j])[..0] == [];
  }

  // ----- the builder

  lemma {:induction false} ReadVarintExtends(s: Bytes, n: nat, t: Bytes)
    requires ReadVarint(s, n).Some?
    ensures ReadVarint(s + t, n) == Some((ReadVarint(s, n).value.0, ReadVarint(s, n).value.1 + t))
  {
    assert (s + t)[1..] == s[1..] + t;
    if s[0] >= 128 {
      ReadVarintExtends(s[1..], n - 1, t);
    }
  }

  lemma ReadThreeExtends(s: Bytes, t: Bytes)
    requires ReadThree(s).Some?
    ensures var r := ReadThree(s).value;
            ReadThree(s + t) == Some((r.0, r.1, r.2, r.3 + t))
  {
    ReadVarintExtends(s, 5, t);
    var s1 := GetVarint32(s).value.1;
    ReadVarintExtends(s1, 5, t);
    ReadVarintExtends(GetVarint32(s1).value.1, 5, t);
  }

  /** What follows an entry does not change its lengths. */
  lemma LengthsExtend(s: Bytes, t: Bytes)
    requires ReadLengths(s).Some?
    ensures ReadLengths(s + t) == ReadLengths(s)
  {
    assert forall i :: 0 <= i < 3 ==> (s + t)[i] == s[i];
    if !(s[0] < 128 && s[1] < 128 && s[2] < 128) {
      ReadThreeExtends(s, t);
    }
  }

  lemma EntryStillOk(body: Bytes, l: Layout, i: nat, more: Bytes, l': Layout)
    requires i < |l.es| && |l.off| == |l.es| + 1 && EntryOk(body, l, i)
    requires l.es <= l'.es && l.off <= l'.off && |l'.off| == |l'.es| + 1 && (i in l'.rs ==> i in l.rs)
    ensures EntryOk(body + more, l', i)
  {
    var o := l.off[i];
    assert (body + more)[o..] == body[o..] + more;
    LengthsExtend(body[o..], more);
    var d := ReadLengths(body[o..]).value;
    var at := o + d.used;
    assert (body + more)[at..at + d.nonShared] == body[at..at + d.nonShared];
    assert (body + more)[at + d.nonShared..l.off[i + 1]] == body[at + d.nonShared..l.off[i + 1]];
    assert KeyBefore(l'.es, i) == KeyBefore(l.es, i);
  }

  function EntryBytes(shared: nat, kv: KV): Bytes
    requires shared <= |kv.key|
  {
    EntryHead(shared, |kv.key| - shared, |kv.value|) + (kv.key[shared..] + kv.value)
  }

  lemma NewEntryOk(body: Bytes, kv: KV, shared: nat, l': Layout, all: Bytes)
    requires |kv.key| < WORD32 && |kv.value| < WORD32 && shared <= |kv.key|
    requires |l'.off| == |l'.es| + 1 && |l'.es| > 0 && l'.es[|l'.es| - 1] == kv
    requires all == body + EntryBytes(shared, kv)
    requires l'.off[|l'.es| - 1] == |body| && l'.off[|l'.es|] == |all|
    requires shared <= |KeyBefore(l'.es, |l'.es| - 1)| && KeyBefore(l'.es, |l'.es| - 1)[..shared] == kv.key[..shared]
    requires |l'.es| - 1 in l'.rs ==> shared == 0
    ensures EntryOk(all, l', |l'.es| - 1)
  {
    NewEntryDecodes(body, kv, shared, all);
    assert kv.key[..shared] + kv.key[shared..] == kv.key;
  }

  lemma NewEntryDecodes(body: Bytes, kv: KV, shared: nat, all: Bytes)
    requires |kv.key| < WORD32 && |kv.value| < WORD32 && shared <= |kv.key|
    requires all == body + EntryBytes(shared, kv)
    ensures |body| <= |all|
    ensures var d := ReadLengths(all[|body|..]);
            && d.Some? && d.value.shared == shared && d.value.nonShared == |kv.key| - shared
            && d.value.valueLength == |kv.value|
            && var at := |body| + d.value.used;
            && |all| == at + d.value.nonShared + d.value.valueLength
            && all[at..at + d.value.nonShared] == kv.key[shared..] && all[at + d.value.nonShared..|all|] == kv.value
  {
    var nonShared := |kv.key| - shared;
    var head := EntryHead(shared, nonShared, |kv.value|);
    LengthsRoundTrip(shared, nonShared, |kv.value|, kv.key[shared..] + kv.value);
    EntrySlices(body, head, kv.key[shared..], kv.value, all);
  }

  lemma EntrySlices(body: Bytes, head: Bytes, delta: Bytes, value: Bytes, all: Bytes)
    requires all == body + (head + (delta + value))
    ensures var at := |body| + |head|;
            && |all| == at + |delta| + |value|
            && all[|body|..] == head + (delta + value)
            && all[at..at + |delta|] == delta && all[at + |delta|..|all|] == value
  {
  }

  /** The layout once an entry was added, at a restart point or not. */
  ghost function Grown(l: Layout, kv: KV, end: nat, restart: bool): Layout {
    Layout(l.es + [kv], l.off + [end], if restart && l.es != [] then l.rs + [|l.es|] else l.rs)
  }

  lemma AddKeepsLayout(body: Bytes, l: Layout, kv: KV, shared: nat, restart: bool)
    requires LayoutOk(body, l) && |kv.key| < WORD32 && |kv.value| < WORD32
    requires shared <= |kv.key| && shared <= |KeyBefore(l.es, |l.es|)|
    requires KeyBefore(l.es, |l.es|)[..shared] == kv.key[..shared]
    requires restart || l.es == [] ==> shared == 0
    ensures LayoutOk(body + EntryBytes(shared, kv), Grown(l, kv, |body| + |EntryBytes(shared, kv)|, restart))
  {
    var more := EntryBytes(shared, kv);
    var l' := Grown(l, kv, |body| + |more|, restart);
    forall i | 0 <= i < |l'.es| ensures EntryOk(body + more, l', i) {
      if i < |l.es| {
        EntryStillOk(body, l, i, more, l');
      } else {
        assert KeyBefore(l'.es, i) == KeyBefore(l.es, i);
        NewEntryOk(body, kv, shared, l', body + more);
      }
    }
  }

  /** `n` is the length of the longest prefix that the two have in common. */
  ghost predicate LongestCommon(a: Bytes, b: Bytes, n: nat) {
    && n <= |a| && n <= |b| && a[..n] == b[..n]
    && (n < |a| && n < |b| ==> a[n] != b[n])
  }

  lemma OneLongest(a: Bytes, b: Bytes, n: nat, m: nat)
    requires LongestCommon(a, b, n) && LongestCommon(a, b, m)
    ensures n == m
  {
    NotShorter(a, b, n, m);
    NotShorter(a, b, m, n);
  }

  lemma NotShorter(a: Bytes, b: Bytes, n: nat, m: nat)
    requires LongestCommon(a, b, n) && m <= |a| && m <= |b|
    ensures n < m ==> a[..m] != b[..m]
  {
    if n < m {
      assert a[..m][n] == a[n] && b[..m][n] == b[n];
    }
  }

  /** How many entries the current restart point has, after `n` in all. */
  ghost predicate CountedSince(n: nat, interval: nat, counter: nat)
    requires interval >= 1
  {
    if n == 0 then counter == 0 else counter == (n - 1) % interval + 1
  }

  lemma NextRemainder(n: nat, k: nat)
    requires n > 0 && k > 0
    ensures n % k == if (n - 1) % k == k - 1 then 0 else (n - 1) % k + 1
  {
    var q, r := (n - 1) / k, (n - 1) % k;
    assert n - 1 == k * q + r;
    if r == k - 1 {
      assert n == k * (q + 1) + 0;
      RemainderIs(n, k, q + 1, 0);
    } else {
      assert n == k * q + (r + 1);
      RemainderIs(n, k, q, r + 1);
    }
  }

  lemma RemainderIs(n: nat, k: nat, q: nat, r: nat)
    requires k > 0 && n == k * q + r && r < k
    ensures n % k == r
  {
    var q', r' := n / k, n % k;
    assert n == k * q' + r';
    var d := q' - q;
    assert k * d == k * q' - k * q;
    TimesAtLeast(k, d);
  }

  lemma TimesAtLeast(k: int, d: int)
    requires k > 0
    ensures d >= 1 ==> k * d >= k
    ensures d <= -1 ==> k * d <= -k
  {
    if d >= 1 {
      assert k * d == k + k * (d - 1);
    } else if d <= -1 {
      assert k * d == -k + k * (d + 1);
    }
  }

  /** The new entry is a restart point exactly if the counter has reached the interval. */
  lemma CountOne(n: nat, interval: nat, counter: nat)
    requires interval >= 1 && CountedSince(n, interval, counter)
    ensures counter >= interval <==> n > 0 && n % interval == 0
    ensures CountedSince(n + 1, interval, (if counter >= interval then 0 else counter) + 1)
  {
    if n > 0 {
      NextRemainder(n, interval);
    } else {
      RemainderIs(0, interval, 0, 0);
    }
  }

  class BlockBuilder {
    const interval: nat
    var buffer: Bytes
    var restarts: seq<nat>
    var counter: nat
    var lastKey: Bytes
    ghost var l: Layout

    ghost predicate Valid()
      reads this
    {
      && interval >= 1 && CountedSince(|l.es|, interval, counter)
      && LayoutOk(buffer, l) && PointsAre(restarts, l)
      && lastKey == KeyBefore(l.es, |l.es|)
    }

    constructor (interval: nat)
      requires interval >= 1
      ensures Valid() && l.es == [] && this.interval == interval
    {
      this.interval := interval;
      buffer, restarts, counter, lastKey := [], [0], 0, [];
      l := Layout([], [0], [0]);
    }

    /** Every `interval` entries the key is written whole, at a new restart point; the others leave
        out the longest prefix that they have in common with the key before. */
    method Add(key: Bytes, value: Bytes)
      requires Valid() && |key| < WORD32 && |value| < WORD32
      modifies this
      ensures Valid() && l.es == old(l.es) + [KV(key, value)]
      ensures var n := |old(l.es)|;
        if n % interval == 0 then
          && buffer == old(buffer) + EntryBytes(0, KV(key, value))
          && restarts == old(restarts) + if n == 0 then [] else [|old(buffer)|]
        else
          && restarts == old(restarts)
          && forall shared: nat :: LongestCommon(old(l.es)[n - 1].key, key, shared) ==>
               buffer == old(buffer) + EntryBytes(shared, KV(key, value))
    {
      CountOne(|l.es|, interval, counter);
      var shared: nat := 0;
      var restart := counter >= interval;
      if !restart {
        shared := SharedPrefix(lastKey, key);
      } else {
        restarts := restarts + [|buffer|];
        counter := 0;
      }
      ghost var kv := KV(key, value);
      AddKeepsLayout(buffer, l, kv, shared, restart);
      RestartsGrow(old(restarts), l, kv, |buffer| + |EntryBytes(shared, kv)|, restart);
      var nonShared := |key| - shared;
      var head := Varint(shared) + Varint(nonShared) + Varint(|value|);
      var delta := key[shared..] + value;
      l := Grown(l, kv, |buffer| + |EntryBytes(shared, kv)|, restart);
      buffer := buffer + (head + delta);
      assert lastKey[..shared] + key[shared..] == key;
      lastKey := lastKey[..shared] + key[shared..];
      counter := counter + 1;
    }

    static method SharedPrefix(a: Bytes, b: Bytes) returns (shared: nat)
      ensures LongestCommon(a, b, shared) && forall n: nat :: LongestCommon(a, b, n) ==> n == shared
    {
      shared := 0;
      var minLength := if |a| < |b| then |a| else |b|;
      while shared < minLength && a[shared] == b[shared]
        invariant 0 <= shared <= minLength && a[..shared] == b[..shared]
      {
        shared := shared + 1;
      }
      forall n: nat | LongestCommon(a, b, n) ensures n == shared {
        OneLongest(a, b, n, shared);
      }
    }

    /** The block's bytes: the entries, the restart array and its length. */
    method Finish() returns (contents: Bytes)
      requires Valid()
      ensures contents == buffer + Words(restarts) + Fixed(|restarts|, 4)
    {
      contents := buffer;
      var i := 0;
      while i < |restarts|
        invariant 0 <= i <= |restarts| && contents == buffer + Words(restarts[..i])
      {
        assert restarts[..i + 1][..i] == restarts[..i];
        contents := contents + Fixed(restarts[i], 4);
        i := i + 1;
      }
      assert restarts[..|restarts|] == restarts;
      contents := contents + Fixed(|restarts|, 4);
    }
  }

  /** Restart offsets are those of the restart entries. */
  ghost predicate PointsAre(points: seq<nat>, l: Layout) {
    |points| == |l.rs| && forall j :: 0 <= j < |points| ==> l.rs[j] < |l.off| && points[j] == l.off[l.rs[j]]
  }

  lemma RestartsGrow(points: seq<nat>, l: Layout, kv: KV, end: nat, restart: bool)
    requires PointsAre(points, l) && |l.off| == |l.es| + 1 && (restart ==> l.es != [])
    ensures PointsAre(if restart then points + [l.off[|l.es|]] else points, Grown(l, kv, end, restart))
  {
  }

  // ----- opening a block

  /** The restart array of `n` words at `at`. */
  function PointsOf(contents: Bytes, at: nat, n: nat): (r: seq<nat>)
    requires at + 4 * n <= |contents|
    ensures |r| == n
  {
    if n == 0 then [] else PointsOf(contents, at, n - 1) + [FromFixed(contents[at + 4 * n - 4..at + 4 * n])]
  }

  ghost predicate WordsAt(contents: Bytes, at: nat, ns: seq<nat>) {
    && at + 4 * |ns| <= |contents|
    && forall j :: 0 <= j < |ns| ==> contents[at + 4 * j..at + 4 * j + 4] == Fixed(ns[j], 4)
  }

  lemma {:induction false} WordsInPlace(buffer: Bytes, restarts: seq<nat>, tail: Bytes)
    ensures WordsAt(buffer + Words(restarts) + tail, |buffer|, restarts)
  {
    forall j | 0 <= j < |restarts|
      ensures (buffer + Words(restarts) + tail)[|buffer| + 4 * j..|buffer| + 4 * j + 4] == Fixed(restarts[j], 4)
    {
      WordSlice(buffer, Words(restarts), tail, j);
      WordAt(restarts, j);
    }
  }

  lemma {:induction false} PointsBack(contents: Bytes, at: nat, restarts: seq<nat>, n: nat)
    requires n <= |restarts| && WordsAt(contents, at, restarts)
    requires forall j :: 0 <= j < |restarts| ==> restarts[j] < WORD32
    ensures PointsOf(contents, at, n) == restarts[..n]
  {
    if n > 0 {
      PointsBack(contents, at, restarts, n - 1);
      var j := n - 1;
      assert contents[at + 4 * j..at + 4 * j + 4] == Fixed(restarts[j], 4);
      Fixed32RoundTrip(restarts[j]);
      assert restarts[..n] == restarts[..j] + [restarts[j]];
    }
  }

  /** The words a builder wrote behind its entries. */
  ghost predicate IsFinished(contents: Bytes, buffer: Bytes, restarts: seq<nat>) {
    && contents == buffer + Words(restarts) + Fixed(|restarts|, 4) && |buffer| < WORD32
    && 0 < |restarts| < WORD32 && forall j :: 0 <= j < |restarts| ==> restarts[j] < WORD32
  }

  lemma FinishedTail(contents: Bytes, buffer: Bytes, restarts: seq<nat>)
    requires IsFinished(contents, buffer, restarts)
    ensures |contents| == |buffer| + 4 * |restarts| + 4 && FromFixed(contents[|contents| - 4..]) == |restarts|
    ensures contents[..|buffer|] == buffer
  {
    var end := Fixed(|restarts|, 4);
    Parts(buffer, Words(restarts), end);
    Fixed32RoundTrip(|restarts|);
    assert contents[|contents| - 4..] == end;
  }

  /** What opening a finished block finds. */
  lemma {:induction false} FinishedOpens(contents: Bytes, buffer: Bytes, restarts: seq<nat>)
    requires IsFinished(contents, buffer, restarts)
    ensures |contents| == |buffer| + 4 * |restarts| + 4 && FromFixed(contents[|contents| - 4..]) == |restarts|
    ensures contents[..|buffer|] == buffer && PointsOf(contents, |buffer|, |restarts|) == restarts
  {
    FinishedTail(contents, buffer, restarts);
    WordsInPlace(buffer, restarts, Fixed(|restarts|, 4));
    PointsBack(contents, |buffer|, restarts, |restarts|);
    assert restarts[..|restarts|] == restarts;
  }

  /** Too short to hold the restart array it announces. */
  predicate TooShort(contents: Bytes) {
    |contents| < 4 || 4 * (1 + FromFixed(contents[|contents| - 4..])) > |contents|
  }

  /** Block and Block::NewIterator, which keep the offset in 32 bits: an error for contents
      that are too short for their restart array, and nothing to iterate over without one. */
  method NewIterator(
    contents: Bytes, less: (Bytes, Bytes) -> bool, ghost buffer: Bytes, ghost restarts: seq<nat>, ghost l: Layout)
    returns (it: BlockIter?, error: bool)
    ensures it != null ==> fresh(it) && it.At() && it.less == less && it.l == l && !error
    ensures error <==> TooShort(contents)
    ensures it == null <==> error || FromFixed(contents[|contents| - 4..]) == 0
    ensures IsFinished(contents, buffer, restarts) ==> it != null && it.body == buffer && it.points == restarts
  {
    it, error := null, true;
    var size := |contents|;
    if IsFinished(contents, buffer, restarts) {
      FinishedOpens(contents, buffer, restarts);
    }
    if size < 4 {
      return;
    }
    var numRestarts := FromFixed(contents[size - 4..]);
    var maxRestartsAllowed := (size - 4) / 4;
    if numRestarts > maxRestartsAllowed {
      return;
    }
    error := false;
    if numRestarts == 0 {
      return;
    }
    var restartOffset: nat := size - (1 + numRestarts) * 4;
    restartOffset := restartOffset % WORD32;
    it := new BlockIter(contents[..restartOffset], PointsOf(contents, restartOffset, numRestarts), less, l);
  }

  /** Round trip: a finished block opens as a sound one with the entries that were added,
      so that its iterator walks them in either direction and finds keys among them. */
  lemma FinishedIsSound(b: BlockBuilder, contents: Bytes, it: BlockIter)
    requires b.Valid() && contents == b.buffer + Words(b.restarts) + Fixed(|b.restarts|, 4)
    requires |b.buffer| < WORD32 && |b.restarts| < WORD32
    requires it.body == b.buffer && it.points == b.restarts && it.l == b.l
    ensures IsFinished(contents, b.buffer, b.restarts) && it.Sound()
  {
    forall j | 0 <= j < |b.restarts| ensures b.restarts[j] < WORD32 {
      OffsetOrder(b.buffer, b.l, b.l.rs[j], |b.l.es|);
    }
  }
}
