/** The write-ahead log format: records cut into fragments that never cross a
    32 KB block, the writer that appends them and the reader that puts them back. */
module Log {
  import opened Coding

  const BLOCK: nat := 32768
  const HEADER: nat := 7

  const ZERO: Byte := 0
  const FULL: Byte := 1
  const FIRST: Byte := 2
  const MIDDLE: Byte := 3
  const LAST: Byte := 4
  const END_OF_FILE: Byte := 5
  const BAD: Byte := 6

  /** The four checksum bytes of a header. */
  datatype Sum = Sum(b0: Byte, b1: Byte, b2: Byte, b3: Byte)

  /** The bytes stored for some content, and the reader's test of them. */
  datatype ChecksumPair = ChecksumPair(stored: Bytes -> Sum, matches: (Sum, Bytes) -> bool)

  ghost predicate Accepts(c: ChecksumPair) {
    forall s :: c.matches(c.stored(s), s)
  }

  /** Any checksum that accepts what it stored; the proofs use nothing else about it. */
  type Checksum = c: ChecksumPair | Accepts(c)
    ghost witness ChecksumPair(s => Sum(0, 0, 0, 0), (h, s) => true)

  function BytesOf(v: nat): Sum {
    var f := Fixed(v, 4);
    Sum(f[0], f[1], f[2], f[3])
  }

  function WordOf(h: Sum): nat {
    FromFixed([h.b0, h.b1, h.b2, h.b3]) % WORD32
  }

  /** The engine's: a 32-bit checksum, masked and stored in little-endian order. */
  function Masked(crc: Bytes -> nat): ChecksumPair {
    ChecksumPair(s => BytesOf(Mask(crc(s) % WORD32)), (h: Sum, s) => Unmask(WordOf(h)) == crc(s) % WORD32)
  }

  lemma WordRoundTrip(v: nat)
    requires v < WORD32
    ensures WordOf(BytesOf(v)) == v
  {
    Fixed32RoundTrip(v);
    var f := Fixed(v, 4);
    assert [f[0], f[1], f[2], f[3]] == f;
  }

  /** The engine's checksum is one of those the log theorems speak of. */
  lemma MaskedIsChecksum(crc: Bytes -> nat)
    ensures Accepts(Masked(crc))
  {
    forall s ensures Masked(crc).matches(Masked(crc).stored(s), s) {
      var sum := crc(s) % WORD32;
      MaskRoundTrip(sum);
      WordRoundTrip(Mask(sum));
    }
  }

  // ----- what the writer appends

  function Zeros(n: nat): (r: Bytes)
    ensures |r| == n
  {
    if n == 0 then [] else [0] + Zeros(n - 1)
  }

  /** Byte `i` of the header: checksum, length in two bytes, kind. */
  function HeaderByte(sum: Sum, size: nat, kind: Byte, i: nat): Byte
    requires size <= 0xffff && i < HEADER
  {
    match i
    case 0 => sum.b0
    case 1 => sum.b1
    case 2 => sum.b2
    case 3 => sum.b3
    case 4 => size % 256
    case 5 => size / 256
    case _ => kind
  }

  function HeaderFrom(sum: Sum, size: nat, kind: Byte, i: nat): (r: Bytes)
    requires size <= 0xffff && i <= HEADER
    ensures |r| == HEADER - i
    decreases HEADER - i, size
  {
    if i == HEADER then [] else [HeaderByte(sum, size, kind, i)] + HeaderFrom(sum, size, kind, i + 1)
  }

  lemma {:induction false} HeaderAt(sum: Sum, size: nat, kind: Byte, i: nat, k: nat)
    requires size <= 0xffff && i <= k < HEADER
    ensures HeaderFrom(sum, size, kind, i)[k - i] == HeaderByte(sum, size, kind, k)
    decreases k - i
  {
    if i < k {
      HeaderAt(sum, size, kind, i + 1, k);
    }
  }

  function Header(crc: Checksum, kind: Byte, data: Bytes): (r: Bytes)
    requires |data| <= 0xffff
    ensures |r| == HEADER
  {
    HeaderFrom(crc.stored([kind] + data), |data|, kind, 0)
  }

  /** The seven bytes written out. */
  lemma HeaderIs(crc: Checksum, kind: Byte, data: Bytes)
    requires |data| <= 0xffff
    ensures var sum := crc.stored([kind] + data);
            Header(crc, kind, data) == [sum.b0, sum.b1, sum.b2, sum.b3, |data| % 256, |data| / 256, kind]
  {
    var sum := crc.stored([kind] + data);
    var h := [sum.b0, sum.b1, sum.b2, sum.b3, |data| % 256, |data| / 256, kind];
    forall k | 0 <= k < HEADER ensures Header(crc, kind, data)[k] == h[k] {
      HeaderAt(sum, |data|, kind, 0, k);
    }
  }

  /** Offset of file position `pos` in its block. */
  function InBlock(pos: nat): (r: nat)
    ensures r < BLOCK
  {
    if pos < BLOCK then pos else InBlock(pos - BLOCK)
  }

  lemma {:induction false} InBlockIsRemainder(pos: nat)
    ensures InBlock(pos) == pos % BLOCK
  {
    if pos >= BLOCK {
      InBlockIsRemainder(pos - BLOCK);
    }
  }

  lemma InBlockMoves(pos: nat, n: nat)
    ensures InBlock(pos) + n < BLOCK ==> InBlock(pos + n) == InBlock(pos) + n
    ensures InBlock(pos) + n == BLOCK ==> InBlock(pos + n) == 0
  {
    if pos >= BLOCK {
      InBlockMoves(pos - BLOCK, n);
    }
  }

  /** Room left in the block that holds file position `pos`. */
  function Leftover(pos: nat): (r: nat)
    ensures 1 <= r <= BLOCK
  {
    BLOCK - InBlock(pos)
  }

  function FragmentLength(pos: nat, data: Bytes): (n: nat)
    requires Leftover(pos) >= HEADER
    ensures n <= |data| && HEADER + n <= Leftover(pos)
  {
    if |data| < Leftover(pos) - HEADER then |data| else Leftover(pos) - HEADER
  }

  function FragmentKind(begin: bool, end: bool): Byte {
    if begin && end then FULL else if begin then FIRST else if end then LAST else MIDDLE
  }

  /** The bytes appended at file position `pos` for the rest of a record. */
  function Fragments(crc: Checksum, pos: nat, data: Bytes, begin: bool): (r: Bytes)
    ensures |r| >= HEADER
    decreases |data|, if Leftover(pos) <= HEADER then 1 else 0
  {
    InBlockMoves(pos, Leftover(pos));
    if Leftover(pos) < HEADER then
      Zeros(Leftover(pos)) + Fragments(crc, pos + Leftover(pos), data, begin)
    else
      var n := FragmentLength(pos, data);
      var kind := FragmentKind(begin, n == |data|);
      var here := Header(crc, kind, data[..n]) + data[..n];
      if n == |data| then here else here + Fragments(crc, pos + HEADER + n, data[n..], false)
  }

  /** A log written from position `pos` on. */
  function Written(crc: Checksum, pos: nat, records: seq<Bytes>): Bytes
    decreases |records|
  {
    if records == [] then []
    else
      var r := Fragments(crc, pos, records[0], true);
      r + Written(crc, pos + |r|, records[1..])
  }

  function FirstFragment(crc: Checksum, pos: nat, data: Bytes, begin: bool): Bytes
    requires Leftover(pos) >= HEADER
  {
    var n := FragmentLength(pos, data);
    Header(crc, FragmentKind(begin, n == |data|), data[..n]) + data[..n]
  }

  lemma Regroup(a: Bytes, b: Bytes, c: Bytes)
    ensures a + (b + c) == (a + b) + c
  {
  }

  // ----- a file that takes only so many more bytes

  /** What gets into a file that takes `room` more bytes. */
  function Taken(s: Bytes, room: nat): Bytes {
    if room < |s| then s[..room] else s
  }

  function RoomAfter(room: nat, size: nat): nat {
    if room < size then 0 else room - size
  }

  lemma TakenSum(a: Bytes, b: Bytes, room: nat)
    ensures Taken(a + b, room) == Taken(a, room) + Taken(b, RoomAfter(room, |a|))
  {
  }

  datatype Appended = Appended(dest: Bytes, at: nat, ok: bool)

  /** The rest of a record appended by a writer that takes itself to be at `at`: the file, where
      the writer takes itself to be then, and whether it all got into the file. Nothing more is
      appended behind a fragment that did not fit, but the position moves past it. */
  function Append(crc: Checksum, dest: Bytes, at: nat, data: Bytes, begin: bool, room: nat): Appended
    decreases |data|, if Leftover(at) <= HEADER then 1 else 0
  {
    InBlockMoves(at, Leftover(at));
    if Leftover(at) < HEADER then
      Append(
        crc, dest + Taken(Zeros(Leftover(at)), room), at + Leftover(at), data, begin, RoomAfter(room, Leftover(at)))
    else
      var n := FragmentLength(at, data);
      var after := dest + Taken(Header(crc, FragmentKind(begin, n == |data|), data[..n]) + data[..n], room);
      if n < |data| && HEADER + n <= room then
        Append(crc, after, at + HEADER + n, data[n..], false, RoomAfter(room, HEADER + n))
      else Appended(after, at + HEADER + n, HEADER + n <= room)
  }

  /** The file takes as much of the fragments as there is room for; the writer is where it takes
      itself to be if that is all of them. */
  ghost predicate IsAppended(r: Appended, dest: Bytes, at: nat, all: Bytes, room: nat) {
    && r.dest == dest + Taken(all, room) && r.ok == (|all| <= room)
    && (r.ok ==> r.at == at + |all|)
  }

  lemma AppendedBehind(r: Appended, dest: Bytes, at: nat, here: Bytes, rest: Bytes, room: nat)
    requires IsAppended(r, dest + Taken(here, room), at + |here|, rest, RoomAfter(room, |here|)) && rest != []
    ensures IsAppended(r, dest, at, here + rest, room)
  {
    TakenSum(here, rest, room);
    Regroup(dest, Taken(here, room), Taken(rest, RoomAfter(room, |here|)));
  }

  lemma AppendedNot(r: Appended, dest: Bytes, at: nat, here: Bytes, rest: Bytes, room: nat)
    requires room < |here| && r.dest == dest + Taken(here, room) && !r.ok
    ensures IsAppended(r, dest, at, here + rest, room)
  {
  }

  lemma {:induction false} AppendIs(crc: Checksum, dest: Bytes, at: nat, data: Bytes, begin: bool, room: nat)
    ensures IsAppended(Append(crc, dest, at, data, begin, room), dest, at, Fragments(crc, at, data, begin), room)
    decreases |data|, if Leftover(at) <= HEADER then 1 else 0, 1
  {
    if Leftover(at) < HEADER {
      TrailerIs(crc, dest, at, data, begin, room, at + Leftover(at));
    } else if FragmentLength(at, data) < |data| {
      FragmentIs(crc, dest, at, data, begin, room, FragmentLength(at, data), FirstFragment(crc, at, data, begin));
    } else {
      LastIs(crc, dest, at, data, begin, room);
    }
  }

  lemma {:induction false} LastIs(crc: Checksum, dest: Bytes, at: nat, data: Bytes, begin: bool, room: nat)
    requires Leftover(at) >= HEADER && FragmentLength(at, data) == |data|
    ensures IsAppended(Append(crc, dest, at, data, begin, room), dest, at, Fragments(crc, at, data, begin), room)
  {
  }

  lemma {:induction false} TrailerIs(
    crc: Checksum, dest: Bytes, at: nat, data: Bytes, begin: bool, room: nat, next: nat)
    requires Leftover(at) < HEADER && next == at + Leftover(at)
    ensures IsAppended(Append(crc, dest, at, data, begin, room), dest, at, Fragments(crc, at, data, begin), room)
    decreases |data|, if Leftover(at) <= HEADER then 1 else 0, 0
  {
    InBlockMoves(at, Leftover(at));
    AppendIs(crc, dest + Taken(Zeros(Leftover(at)), room), next, data, begin, RoomAfter(room, Leftover(at)));
    AppendedBehind(
      Append(crc, dest, at, data, begin, room), dest, at, Zeros(Leftover(at)), Fragments(crc, next, data, begin), room);
  }

  lemma {:induction false} FragmentIs(
    crc: Checksum, dest: Bytes, at: nat, data: Bytes, begin: bool, room: nat, n: nat, here: Bytes)
    requires Leftover(at) >= HEADER && n == FragmentLength(at, data) < |data|
    requires here == FirstFragment(crc, at, data, begin)
    ensures IsAppended(Append(crc, dest, at, data, begin, room), dest, at, Fragments(crc, at, data, begin), room)
    decreases |data|, if Leftover(at) <= HEADER then 1 else 0, 0
  {
    var r := Append(crc, dest, at, data, begin, room);
    var rest := Fragments(crc, at + HEADER + n, data[n..], false);
    InBlockMoves(at, HEADER + n);
    if HEADER + n <= room {
      AppendIs(crc, dest + Taken(here, room), at + HEADER + n, data[n..], false, RoomAfter(room, HEADER + n));
      AppendedBehind(r, dest, at, here, rest, room);
    } else {
      AppendedNot(r, dest, at, here, rest, room);
    }
  }

  lemma TrailerStep(
    crc: Checksum, dest: Bytes, at: nat, data: Bytes, begin: bool, room: nat, pad: nat)
    requires pad == if Leftover(at) < HEADER then Leftover(at) else 0
    ensures Append(crc, dest, at, data, begin, room)
         == Append(crc, dest + Taken(Zeros(pad), room), at + pad, data, begin, RoomAfter(room, pad))
  {
    if pad == 0 {
      assert dest + Taken(Zeros(pad), room) == dest;
    }
  }

  lemma EmitStep(
    crc: Checksum, dest: Bytes, at: nat, data: Bytes, begin: bool, room: nat, n: nat, after: Appended)
    requires Leftover(at) >= HEADER && n == FragmentLength(at, data)
    requires after.dest == dest + Taken(Header(crc, FragmentKind(begin, n == |data|), data[..n]) + data[..n], room)
    requires after.at == at + HEADER + n && after.ok == (HEADER + n <= room)
    ensures Append(crc, dest, at, data, begin, room)
         == if n < |data| && after.ok
            then Append(crc, after.dest, after.at, data[n..], false, RoomAfter(room, HEADER + n))
            else after
  {
  }

  /** A fragment, where need be behind a trailer. */
  lemma FragmentStep(
    crc: Checksum, dest: Bytes, at: nat, data: Bytes, begin: bool, room: nat, pad: nat, padded: Bytes, space: nat,
    n: nat, after: Appended)
    requires pad == if Leftover(at) < HEADER then Leftover(at) else 0
    requires padded == dest + Taken(Zeros(pad), room) && space == RoomAfter(room, pad)
    requires Leftover(at + pad) >= HEADER && n == FragmentLength(at + pad, data)
    requires after.dest == padded + Taken(Header(crc, FragmentKind(begin, n == |data|), data[..n]) + data[..n], space)
    requires after.at == at + pad + HEADER + n && after.ok == (HEADER + n <= space)
    ensures Append(crc, dest, at, data, begin, room)
         == if n < |data| && after.ok
            then Append(crc, after.dest, after.at, data[n..], false, RoomAfter(space, HEADER + n))
            else after
  {
    TrailerStep(crc, dest, at, data, begin, room, pad);
    EmitStep(crc, padded, at + pad, data, begin, space, n, after);
  }

  /** A fragment takes some of the record, or a block of its own follows. */
  lemma FragmentTakes(at: nat, pad: nat, data: Bytes)
    requires pad == if Leftover(at) < HEADER then Leftover(at) else 0
    ensures Leftover(at + pad) >= HEADER
    ensures var n := FragmentLength(at + pad, data); n == 0 < |data| ==>
      Leftover(at) <= HEADER < Leftover(at + pad + HEADER + n)
  {
    InBlockMoves(at, pad);
    InBlockMoves(at + pad, HEADER + FragmentLength(at + pad, data));
  }

  /** `at` is where the writer takes itself to be. A failed append puts it further on than
      the file is long. */
  class Writer {
    const crc: Checksum
    var dest: Bytes
    var blockOffset: nat
    ghost var at: nat

    ghost predicate Valid()
      reads this
    {
      blockOffset == InBlock(at) || (blockOffset == BLOCK && InBlock(at) == 0)
    }

    /** Writer(dest, dest_length): appends to a file that may hold something already. */
    constructor (crc: Checksum, dest: Bytes)
      ensures Valid() && this.crc == crc && this.dest == dest && at == |dest|
    {
      this.crc := crc;
      this.dest := dest;
      blockOffset := |dest| % BLOCK;
      at := |dest|;
      InBlockIsRemainder(|dest|);
    }

    /** The file takes `room` more bytes. */
    method AddRecord(slice: Bytes, room: nat) returns (ok: bool)
      requires Valid()
      modifies this
      ensures Valid() && Appended(dest, at, ok) == Append(crc, old(dest), old(at), slice, true, room)
      ensures IsAppended(Appended(dest, at, ok), old(dest), old(at), Fragments(crc, old(at), slice, true), room)
    {
      var left, space, length := slice, room, 0;
      var begin := true;
      var more := true;
      ok := true;
      ghost var goal := Append(crc, dest, at, slice, true, room);
      while more
        invariant Valid() && (more ==> ok)
        invariant goal == if more then Append(crc, dest, at, left, begin, space) else Appended(dest, at, ok)
        decreases more, |left|, if Leftover(at) <= HEADER then 1 else 0
      {
        ok, length, space := AddFragment(left, begin, space);
        left := left[length..];
        begin := false;
        more := ok && |left| > 0;
      }
      AppendIs(crc, old(dest), old(at), slice, true, room);
    }

    /** As much of the record as fits into one block. */
    method AddFragment(left: Bytes, begin: bool, room: nat) returns (ok: bool, length: nat, space: nat)
      requires Valid()
      modifies this
      ensures Valid() && length <= |left|
      ensures Append(crc, old(dest), old(at), left, begin, room)
           == if length < |left| && ok then Append(crc, dest, at, left[length..], false, space)
             else Appended(dest, at, ok)
      ensures length == 0 < |left| ==> Leftover(old(at)) <= HEADER < Leftover(at)
    {
      ghost var pad := if Leftover(at) < HEADER then Leftover(at) else 0;
      FragmentTakes(at, pad, left);
      space := SwitchBlock(room);
      ghost var padded, had := dest, space;
      var avail := BLOCK - blockOffset - HEADER;
      length := if |left| < avail then |left| else avail;
      ok, space := EmitPhysicalRecord(FragmentKind(begin, length == |left|), left[..length], space);
      FragmentStep(crc, old(dest), old(at), left, begin, room, pad, padded, had, length, Appended(dest, at, ok));
    }

    /** Fills the trailer and starts a new block when no header fits. */
    method SwitchBlock(room: nat) returns (space: nat)
      requires Valid()
      modifies this
      ensures Valid() && blockOffset + HEADER <= BLOCK && blockOffset == InBlock(at)
      ensures var pad := if Leftover(old(at)) < HEADER then Leftover(old(at)) else 0;
        && dest == old(dest) + Taken(Zeros(pad), room) && at == old(at) + pad && space == RoomAfter(room, pad)
    {
      InBlockMoves(at, Leftover(at));
      space := room;
      var leftover := BLOCK - blockOffset;
      if leftover < HEADER {
        if leftover > 0 {
          dest := dest + Taken(Zeros(leftover), room);
          space := RoomAfter(room, leftover);
          at := at + leftover;
        }
        blockOffset := 0;
      }
      assert dest + [] == dest;
    }

    /** The offset moves on whether or not the bytes got into the file. */
    method EmitPhysicalRecord(kind: Byte, data: Bytes, room: nat) returns (ok: bool, space: nat)
      requires blockOffset + HEADER + |data| <= BLOCK && Valid()
      modifies this
      ensures ok == (HEADER + |data| <= room) && space == RoomAfter(room, HEADER + |data|)
      ensures dest == old(dest) + Taken(Header(crc, kind, data) + data, room)
      ensures at == old(at) + HEADER + |data| && blockOffset == old(blockOffset) + HEADER + |data| && Valid()
    {
      InBlockMoves(at, HEADER + |data|);
      var sum := crc.stored([kind] + data);
      var buf := [sum.b0, sum.b1, sum.b2, sum.b3, |data| % 256, |data| / 256, kind];
      HeaderIs(crc, kind, data);
      dest := dest + Taken(buf + data, room);
      ok, space := HEADER + |data| <= room, RoomAfter(room, HEADER + |data|);
      blockOffset := blockOffset + HEADER + |data|;
      at := at + HEADER + |data|;
    }
  }

  // ----- what the reader sees

  /** End of the part of the block holding `p` that the file has. */
  function BlockEnd(file: Bytes, p: nat): (e: nat)
    requires p <= |file|
    ensures p <= e <= |file|
  {
    if p + Leftover(p) <= |file| then p + Leftover(p) else |file|
  }

  /** One physical record, the position after it, and the bytes reported lost. */
  datatype Physical = Physical(kind: Byte, data: Bytes, next: nat, drops: seq<nat>)

  /** Interprets the unread part of a block; `whole` says the block is complete. */
  function Parse(crc: Checksum, buffer: Bytes, whole: bool): (r: Physical)
    requires |buffer| >= HEADER
    ensures 0 < r.next <= |buffer|
  {
    var length: nat := buffer[4] as int + 256 * (buffer[5] as int);
    var kind := buffer[6];
    if HEADER + length > |buffer| then
      if whole then Physical(BAD, [], |buffer|, [|buffer|]) else Physical(END_OF_FILE, [], |buffer|, [])
    else if kind == ZERO && length == 0 then Physical(BAD, [], |buffer|, [])
    else if !crc.matches(Sum(buffer[0], buffer[1], buffer[2], buffer[3]), buffer[6..HEADER + length]) then
      Physical(BAD, [], |buffer|, [|buffer|])
    else Physical(kind, buffer[HEADER..HEADER + length], HEADER + length, [])
  }

  /** ReadPhysicalRecord at position `p`. */
  function ReadPhysical(crc: Checksum, file: Bytes, p: nat): (r: Physical)
    requires p <= |file|
    ensures p <= r.next <= |file| && (r.kind != END_OF_FILE ==> p < r.next)
    decreases |file| - p
  {
    var e := BlockEnd(file, p);
    if e - p < HEADER then
      if e == |file| then Physical(END_OF_FILE, [], e, []) else ReadPhysical(crc, file, e)
    else
      var r := Parse(crc, file[p..e], InBlock(e) == 0);
      r.(next := p + r.next)
  }

  /** What one physical record does to the record being collected. */
  datatype Scan =
    | Done(found: bool, record: Bytes, drops: seq<nat>)
    | More(inRecord: bool, scratch: Bytes, drops: seq<nat>)

  /** Bytes lost when a record begins while another is unfinished. */
  function Unfinished(inRecord: bool, scratch: Bytes): seq<nat> {
    if inRecord && scratch != [] then [|scratch|] else []
  }

  function Scanned(kind: Byte, data: Bytes, inRecord: bool, scratch: Bytes): (r: Scan)
    ensures kind == END_OF_FILE ==> r.Done? && !r.found
    ensures r.Done? && r.found ==> kind != END_OF_FILE
  {
    if kind == END_OF_FILE then Done(false, [], [])
    else if kind == FULL then Done(true, data, Unfinished(inRecord, scratch))
    else if kind == FIRST then More(true, data, Unfinished(inRecord, scratch))
    else if kind == MIDDLE then
      if inRecord then More(true, scratch + data, []) else More(false, scratch, [|data|])
    else if kind == LAST then
      if inRecord then Done(true, scratch + data, []) else More(false, scratch, [|data|])
    else if kind == BAD then
      if inRecord then More(false, [], [|scratch|]) else More(false, scratch, [])
    else More(false, [], [|data| + (if inRecord then |scratch| else 0)])
  }

  datatype Logical = Logical(found: bool, record: Bytes, next: nat, drops: seq<nat>)

  function Dropping(drops: seq<nat>, r: Logical): Logical {
    r.(drops := drops + r.drops)
  }

  /** ReadRecord at position `p`, with the fragments collected so far. */
  function ReadLogical(crc: Checksum, file: Bytes, p: nat, inRecord: bool, scratch: Bytes): (r: Logical)
    requires p <= |file|
    ensures p <= r.next <= |file| && (r.found ==> p < r.next)
    decreases |file| - p
  {
    var f := ReadPhysical(crc, file, p);
    match Scanned(f.kind, f.data, inRecord, scratch)
    case Done(found, record, drops) => Logical(found, record, f.next, f.drops + drops)
    case More(inRecord', scratch', drops) =>
      Dropping(f.drops + drops, ReadLogical(crc, file, f.next, inRecord', scratch'))
  }

  /** Calling ReadRecord until it fails. */
  function ReadAll(crc: Checksum, file: Bytes, p: nat): (seq<Bytes>, seq<nat>)
    requires p <= |file|
    decreases |file| - p
  {
    var r := ReadLogical(crc, file, p, false, []);
    if r.found then
      var rest := ReadAll(crc, file, r.next);
      ([r.record] + rest.0, r.drops + rest.1)
    else ([], r.drops)
  }

  /** One turn of the loop of ReadRecord, with the losses reported so far. */
  lemma {:induction false} ScanStep(
    crc: Checksum, file: Bytes, p: nat, inRecord: bool, scratch: Bytes, lost: seq<nat>, f: Physical, step: Scan)
    requires p <= |file| && f == ReadPhysical(crc, file, p) && step == Scanned(f.kind, f.data, inRecord, scratch)
    ensures Dropping(lost, ReadLogical(crc, file, p, inRecord, scratch)) ==
            match step
            case Done(found, record, drops) => Logical(found, record, f.next, lost + f.drops + drops)
            case More(inRecord', scratch', drops) =>
              Dropping(lost + f.drops + drops, ReadLogical(crc, file, f.next, inRecord', scratch'))
  {
    assert lost + (f.drops + step.drops) == lost + f.drops + step.drops;
    if step.More? {
      var rest := ReadLogical(crc, file, f.next, step.inRecord, step.scratch).drops;
      assert lost + ((f.drops + step.drops) + rest) == (lost + f.drops + step.drops) + rest;
    }
  }

  /** Nothing is read from the end of a block too short for a header. */
  lemma {:induction false} SkipTrailer(crc: Checksum, file: Bytes, p: nat, e: nat)
    requires p <= e <= |file| && e - p < HEADER && InBlock(e) == 0
    requires p == e || e == BlockEnd(file, p)
    ensures ReadPhysical(crc, file, p) == ReadPhysical(crc, file, e)
  {
  }

  lemma {:induction false} ParseHere(crc: Checksum, file: Bytes, p: nat, e: nat)
    requires p + HEADER <= e <= |file| && e == BlockEnd(file, p)
    ensures ReadPhysical(crc, file, p)
         == var r := Parse(crc, file[p..e], InBlock(e) == 0); r.(next := p + r.next)
  {
  }

  /** The buffer holds the unread part of the last block that was read. */
  ghost predicate BufferOk(file: Bytes, buffer: Bytes, end: nat, eof: bool) {
    && |buffer| <= end <= |file|
    && buffer == file[end - |buffer|..end]
    && (buffer != [] ==> end == BlockEnd(file, end - |buffer|))
    && (if eof then end == |file| && (buffer != [] ==> InBlock(end) != 0) else InBlock(end) == 0)
  }

  lemma {:induction false} BufferRefilled(file: Bytes, end: nat, size: nat)
    requires end <= |file| && InBlock(end) == 0
    requires size == if |file| - end < BLOCK then |file| - end else BLOCK
    ensures BufferOk(file, file[end..end + size], end + size, size < BLOCK)
  {
    InBlockMoves(end, size);
  }

  lemma BufferAdvanced(file: Bytes, buffer: Bytes, end: nat, eof: bool, used: nat)
    requires BufferOk(file, buffer, end, eof) && used <= |buffer|
    ensures BufferOk(file, buffer[used..], end, eof)
  {
    InBlockMoves(end - |buffer|, used);
  }

  class Reader {
    const crc: Checksum
    const file: Bytes
    var buffer: Bytes
    var endOfBuffer: nat
    var eof: bool
    var drops: seq<nat>

    ghost predicate Valid()
      reads `buffer, `endOfBuffer, `eof
    {
      BufferOk(file, buffer, endOfBuffer, eof)
    }

    /** Position of the next byte to interpret. */
    ghost function Pos(): nat
      requires Valid()
      reads `buffer, `endOfBuffer, `eof
    {
      endOfBuffer - |buffer|
    }

    constructor (crc: Checksum, file: Bytes)
      ensures Valid() && this.crc == crc && this.file == file
      ensures Pos() == 0 && drops == []
    {
      this.crc := crc;
      this.file := file;
      buffer := [];
      endOfBuffer := 0;
      eof := false;
      drops := [];
    }

    method ReadPhysicalRecord() returns (kind: Byte, data: Bytes)
      requires Valid()
      modifies this
      ensures Valid()
      ensures var f := ReadPhysical(crc, file, old(Pos()));
              kind == f.kind && data == f.data && Pos() == f.next && drops == old(drops) + f.drops
    {
      var some := Fill();
      if !some {
        return END_OF_FILE, [];
      }
      ParseHere(crc, file, Pos(), endOfBuffer);
      var used, drop;
      kind, data, used, drop := ParseHeader(crc, buffer, !eof);
      Advance(used);
      drops := drops + drop;
    }

    method Advance(used: nat)
      requires Valid() && used <= |buffer|
      modifies `buffer
      ensures Valid() && Pos() == old(Pos()) + used
    {
      BufferAdvanced(file, buffer, endOfBuffer, eof, used);
      buffer := buffer[used..];
    }

    /** Skips trailers and reads blocks until a header is in the buffer. */
    method Fill() returns (some: bool)
      requires Valid()
      modifies `buffer, `endOfBuffer, `eof
      ensures Valid()
      ensures some ==> |buffer| >= HEADER && ReadPhysical(crc, file, Pos()) == ReadPhysical(crc, file, old(Pos()))
      ensures !some ==> ReadPhysical(crc, file, old(Pos())) == Physical(END_OF_FILE, [], Pos(), [])
    {
      ghost var goal := ReadPhysical(crc, file, Pos());
      while |buffer| < HEADER
        invariant Valid() && ReadPhysical(crc, file, Pos()) == goal
        decreases if eof then 0 else 1, |file| - endOfBuffer
      {
        if !eof {
          SkipTrailer(crc, file, Pos(), endOfBuffer);
          ReadBlock();
        } else {
          buffer := [];
          return false;
        }
      }
      return true;
    }

    /** The last read was a full block, so what is left of it is a trailer to skip. */
    method ReadBlock()
      requires Valid() && !eof
      modifies `buffer, `endOfBuffer, `eof
      ensures Valid() && Pos() == old(endOfBuffer) && (!eof ==> endOfBuffer > old(endOfBuffer))
    {
      var size := if |file| - endOfBuffer < BLOCK then |file| - endOfBuffer else BLOCK;
      BufferRefilled(file, endOfBuffer, size);
      buffer := file[endOfBuffer..endOfBuffer + size];
      endOfBuffer := endOfBuffer + size;
      if size < BLOCK {
        eof := true;
      }
    }

    /** The part of ReadPhysicalRecord that interprets the buffer. */
    static method ParseHeader(crc: Checksum, buffer: Bytes, whole: bool)
      returns (kind: Byte, data: Bytes, used: nat, drop: seq<nat>)
      requires |buffer| >= HEADER
      ensures Physical(kind, data, used, drop) == Parse(crc, buffer, whole)
    {
      var a, b := buffer[4], buffer[5];
      kind := buffer[6];
      var length := a as int + 256 * (b as int);
      if HEADER + length > |buffer| {
        var size := |buffer|;
        if whole {
          return BAD, [], size, [size];
        }
        return END_OF_FILE, [], size, [];
      }
      if kind == ZERO && length == 0 {
        return BAD, [], |buffer|, [];
      }
      if !crc.matches(Sum(buffer[0], buffer[1], buffer[2], buffer[3]), buffer[6..HEADER + length]) {
        var size := |buffer|;
        return BAD, [], size, [size];
      }
      return kind, buffer[HEADER..HEADER + length], HEADER + length, [];
    }

    method ReadRecord() returns (found: bool, record: Bytes)
      requires Valid()
      modifies this
      ensures Valid()
      ensures var r := ReadLogical(crc, file, old(Pos()), false, []);
              found == r.found && record == r.record && Pos() == r.next && drops == old(drops) + r.drops
    {
      var scratch: Bytes := [];
      var inRecord := false;
      ghost var goal := Dropping(drops, ReadLogical(crc, file, Pos(), false, []));
      while true
        invariant Valid() && goal == Dropping(drops, ReadLogical(crc, file, Pos(), inRecord, scratch))
        decreases |file| - Pos()
      {
        ghost var f := ReadPhysical(crc, file, Pos());
        ScanStep(crc, file, Pos(), inRecord, scratch, drops, f, Scanned(f.kind, f.data, inRecord, scratch));
        var kind, fragment := ReadPhysicalRecord();
        var step := Collect(kind, fragment, inRecord, scratch);
        drops := drops + step.drops;
        if step.Done? {
          return step.found, step.record;
        }
        inRecord, scratch := step.inRecord, step.scratch;
      }
    }

    /** The switch of ReadRecord. */
    static method Collect(kind: Byte, fragment: Bytes, inRecord: bool, scratch: Bytes) returns (step: Scan)
      ensures step == Scanned(kind, fragment, inRecord, scratch)
    {
      var lost: seq<nat> := [];
      if kind == FULL {
        if inRecord && scratch != [] {
          lost := [|scratch|];
        }
        step := Done(true, fragment, lost);
      } else if kind == FIRST {
        if inRecord && scratch != [] {
          lost := [|scratch|];
        }
        step := More(true, fragment, lost);
      } else if kind == MIDDLE {
        if !inRecord {
          step := More(inRecord, scratch, [|fragment|]);
        } else {
          step := More(inRecord, scratch + fragment, lost);
        }
      } else if kind == LAST {
        if !inRecord {
          step := More(inRecord, scratch, [|fragment|]);
        } else {
          step := Done(true, scratch + fragment, lost);
        }
      } else if kind == END_OF_FILE {
        step := Done(false, [], lost);
      } else if kind == BAD {
        if inRecord {
          step := More(false, [], [|scratch|]);
        } else {
          step := More(inRecord, scratch, lost);
        }
      } else {
        step := More(false, [], [|fragment| + (if inRecord then |scratch| else 0)]);
      }
    }
  }
}
