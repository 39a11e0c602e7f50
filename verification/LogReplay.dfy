/** What the log reader returns for a log that was written, whole or cut short by
    a crash. */
module LogReplay {
  import opened Coding
  import opened Log

  /** `whole` has the bytes `s` at position `p`. */
  ghost predicate At(whole: Bytes, p: nat, s: Bytes)
    decreases |s|
  {
    if s == [] then p <= |whole| else p < |whole| && whole[p] == s[0] && At(whole, p + 1, s[1..])
  }

  lemma {:induction false} AtSlice(whole: Bytes, p: nat, s: Bytes)
    ensures At(whole, p, s) <==> p + |s| <= |whole| && whole[p..p + |s|] == s
    decreases |s|
  {
    if s != [] {
      AtSlice(whole, p + 1, s[1..]);
      if p + |s| <= |whole| {
        assert whole[p..p + |s|][1..] == whole[p + 1..p + |s|];
      }
    }
  }

  lemma {:induction false} AtSplit(whole: Bytes, p: nat, a: Bytes, b: Bytes)
    requires At(whole, p, a + b)
    ensures At(whole, p, a) && At(whole, p + |a|, b)
    decreases |a|
  {
    if a == [] {
      assert a + b == b;
      AtSlice(whole, p, b);
    } else {
      assert (a + b)[1..] == a[1..] + b;
      AtSplit(whole, p + 1, a[1..], b);
    }
  }

  // ----- one fragment

  /** A complete fragment at the start of the buffer is returned as written. */
  lemma FragmentParses(crc: Checksum, buffer: Bytes, whole: bool, kind: Byte, data: Bytes)
    requires |data| <= 0xffff && kind != ZERO
    requires Header(crc, kind, data) + data <= buffer
    ensures Parse(crc, buffer, whole) == Physical(kind, data, HEADER + |data|, [])
  {
    var h := Header(crc, kind, data);
    var f := h + data;
    HeaderIs(crc, kind, data);
    assert forall i :: 0 <= i < HEADER ==> buffer[i] == f[i] == h[i];
    assert buffer[..HEADER + |data|] == f;
    assert buffer[6..HEADER + |data|] == f[6..] == [kind] + data;
    assert buffer[HEADER..HEADER + |data|] == f[HEADER..] == data;
  }

  /** A fragment cut short by the end of the file is not reported. */
  lemma TornFragment(crc: Checksum, buffer: Bytes, kind: Byte, data: Bytes)
    requires |data| <= 0xffff && HEADER <= |buffer| < HEADER + |data|
    requires buffer <= Header(crc, kind, data) + data
    ensures Parse(crc, buffer, false) == Physical(END_OF_FILE, [], |buffer|, [])
  {
    var f := Header(crc, kind, data) + data;
    HeaderIs(crc, kind, data);
    assert buffer[4] == f[4] && buffer[5] == f[5];
  }

  lemma PrefixSlice(whole: Bytes, n: nat, p: nat, e: nat, size: nat)
    requires p <= e <= n <= |whole| && p + size <= |whole|
    ensures e - p >= size ==> whole[..n][p..e][..size] == whole[p..p + size]
    ensures e - p <= size ==> whole[..n][p..e] == whole[p..p + size][..e - p]
  {
    assert whole[..n][p..e] == whole[p..e];
    if e - p >= size {
      assert whole[p..e][..size] == whole[p..p + size];
    } else {
      assert whole[p..e] == whole[p..p + size][..e - p];
    }
  }

  lemma {:induction false} FragmentRead(crc: Checksum, whole: Bytes, n: nat, p: nat, kind: Byte, data: Bytes)
    requires p <= n <= |whole| && |data| <= 0xffff && kind != ZERO && HEADER + |data| <= Leftover(p)
    requires At(whole, p, Header(crc, kind, data) + data)
    ensures p + HEADER + |data| <= n ==>
      ReadPhysical(crc, whole[..n], p) == Physical(kind, data, p + HEADER + |data|, [])
    ensures n < p + HEADER + |data| ==>
              && ReadPhysical(crc, whole[..n], p).kind == END_OF_FILE
              && ReadPhysical(crc, whole[..n], p).drops == []
  {
    var e := BlockEnd(whole[..n], p);
    var f := Header(crc, kind, data) + data;
    AtSlice(whole, p, f);
    PrefixSlice(whole, n, p, e, |f|);
    if p + HEADER + |data| <= n {
      assert whole[..n][p..e][..|f|] == f;
      FragmentParses(crc, whole[..n][p..e], InBlock(e) == 0, kind, data);
    } else {
      InBlockMoves(p, e - p);
      if e - p >= HEADER {
        TornFragment(crc, whole[..n][p..e], kind, data);
      }
    }
  }

  // ----- one record

  /** A fragment that completes the record. */
  lemma {:induction false} FragmentEnds(
    crc: Checksum, file: Bytes, p: nat, data: Bytes, next: nat, begin: bool, scratch: Bytes)
    requires p <= |file| && (begin ==> scratch == [])
    requires ReadPhysical(crc, file, p) == Physical(FragmentKind(begin, true), data, next, [])
    ensures ReadLogical(crc, file, p, !begin, scratch) == Logical(true, scratch + data, next, [])
  {
    assert begin ==> scratch + data == data;
    assert Scanned(FragmentKind(begin, true), data, !begin, scratch) == Done(true, scratch + data, []);
  }

  /** A fragment that does not. */
  lemma {:induction false} FragmentContinues(
    crc: Checksum, file: Bytes, p: nat, data: Bytes, next: nat, begin: bool, scratch: Bytes)
    requires p <= |file| && (begin ==> scratch == []) && next <= |file|
    requires ReadPhysical(crc, file, p) == Physical(FragmentKind(begin, false), data, next, [])
    ensures ReadLogical(crc, file, p, !begin, scratch) == ReadLogical(crc, file, next, true, scratch + data)
  {
    assert begin ==> scratch + data == data;
    assert Scanned(FragmentKind(begin, false), data, !begin, scratch) == More(true, scratch + data, []);
    var rest := ReadLogical(crc, file, next, true, scratch + data);
    assert [] + [] + rest.drops == rest.drops;
  }

  lemma {:induction false} EndScanned(crc: Checksum, file: Bytes, p: nat, inRecord: bool, scratch: Bytes)
    requires p <= |file| && ReadPhysical(crc, file, p).kind == END_OF_FILE && ReadPhysical(crc, file, p).drops == []
    ensures !ReadLogical(crc, file, p, inRecord, scratch).found
    ensures ReadLogical(crc, file, p, inRecord, scratch).drops == []
  {
  }

  lemma FragmentsLength(crc: Checksum, p: nat, data: Bytes, begin: bool, len: nat)
    requires Leftover(p) >= HEADER && len == FragmentLength(p, data)
    ensures |Fragments(crc, p, data, begin)|
         == HEADER + len + (if len == |data| then 0 else |Fragments(crc, p + HEADER + len, data[len..], false)|)
  {
  }

  lemma FragmentsSplit(crc: Checksum, p: nat, data: Bytes, begin: bool, len: nat)
    requires Leftover(p) >= HEADER && len == FragmentLength(p, data)
    ensures Fragments(crc, p, data, begin)
         == if len == |data| then FirstFragment(crc, p, data, begin)
            else FirstFragment(crc, p, data, begin) + Fragments(crc, p + HEADER + len, data[len..], false)
  {
  }

  lemma {:induction false} SameRead(crc: Checksum, file: Bytes, p: nat, q: nat, inRecord: bool, scratch: Bytes)
    requires p <= |file| && q <= |file| && ReadPhysical(crc, file, p) == ReadPhysical(crc, file, q)
    ensures ReadLogical(crc, file, p, inRecord, scratch) == ReadLogical(crc, file, q, inRecord, scratch)
  {
  }

  /** `r` is what reading the rest of a record that ends at `end` should give. */
  ghost predicate ReadsBack(r: Logical, n: nat, end: nat, record: Bytes) {
    if end <= n then r == Logical(true, record, end, []) else !r.found && r.drops == []
  }

  lemma {:induction false} LastFragmentRead(
    crc: Checksum, whole: Bytes, file: Bytes, p: nat, data: Bytes, begin: bool, scratch: Bytes, r: Logical)
    requires p <= |file| && file <= whole && At(whole, p, Fragments(crc, p, data, begin))
    requires Leftover(p) >= HEADER && FragmentLength(p, data) == |data|
    requires begin ==> scratch == []
    requires r == ReadLogical(crc, file, p, !begin, scratch)
    ensures ReadsBack(r, |file|, p + HEADER + |data|, scratch + data)
  {
    var kind := FragmentKind(begin, true);
    FragmentsSplit(crc, p, data, begin, |data|);
    assert data[..|data|] == data && whole[..|file|] == file;
    FragmentRead(crc, whole, |file|, p, kind, data);
    if |file| < p + HEADER + |data| {
      EndScanned(crc, file, p, !begin, scratch);
    } else {
      FragmentEnds(crc, file, p, data, p + HEADER + |data|, begin, scratch);
    }
  }

  /** A trailer is skipped, or the file ends in it. */
  lemma TrailerRead(
    crc: Checksum, whole: Bytes, file: Bytes, p: nat, q: nat, data: Bytes, begin: bool, scratch: Bytes, r: Logical)
    requires p <= |file| && file <= whole && At(whole, p, Fragments(crc, p, data, begin))
    requires Leftover(p) < HEADER && q == p + Leftover(p)
    requires r == ReadLogical(crc, file, p, !begin, scratch)
    ensures InBlock(q) == 0 && At(whole, q, Fragments(crc, q, data, begin))
    ensures p + |Fragments(crc, p, data, begin)| == q + |Fragments(crc, q, data, begin)|
    ensures if q <= |file| then r == ReadLogical(crc, file, q, !begin, scratch) else !r.found && r.drops == []
  {
    InBlockMoves(p, Leftover(p));
    AtSplit(whole, p, Zeros(Leftover(p)), Fragments(crc, q, data, begin));
    if q <= |file| {
      SkipTrailer(crc, file, p, q);
      SameRead(crc, file, p, q, !begin, scratch);
    } else {
      EndScanned(crc, file, p, !begin, scratch);
    }
  }

  /** A fragment that fills its block, with more to follow. */
  lemma {:induction false} FullBlockBytes(
    crc: Checksum, whole: Bytes, p: nat, q: nat, data: Bytes, len: nat, begin: bool)
    requires At(whole, p, Fragments(crc, p, data, begin))
    requires Leftover(p) >= HEADER && len == FragmentLength(p, data) < |data| && q == p + HEADER + len
    ensures InBlock(q) == 0
    ensures At(whole, p, Header(crc, FragmentKind(begin, false), data[..len]) + data[..len])
    ensures At(whole, q, Fragments(crc, q, data[len..], false))
  {
    InBlockMoves(p, HEADER + len);
    FragmentsSplit(crc, p, data, begin, len);
    AtSplit(whole, p, FirstFragment(crc, p, data, begin), Fragments(crc, q, data[len..], false));
  }

  lemma {:induction false} FullBlockRead(
    crc: Checksum, whole: Bytes, file: Bytes, p: nat, q: nat, data: Bytes, begin: bool, scratch: Bytes, r: Logical)
    requires p <= |file| && file <= whole && |data| <= 0xffff && HEADER + |data| <= Leftover(p)
    requires q == p + HEADER + |data|
    requires At(whole, p, Header(crc, FragmentKind(begin, false), data) + data)
    requires begin ==> scratch == []
    requires r == ReadLogical(crc, file, p, !begin, scratch)
    ensures if q <= |file| then r == ReadLogical(crc, file, q, true, scratch + data) else !r.found && r.drops == []
  {
    assert whole[..|file|] == file;
    FragmentRead(crc, whole, |file|, p, FragmentKind(begin, false), data);
    if |file| < q {
      EndScanned(crc, file, p, !begin, scratch);
    } else {
      FragmentContinues(crc, file, p, data, q, begin, scratch);
    }
  }

  /** The facts about the next fragment that the induction needs. */
  lemma {:induction false} FullBlock(
    crc: Checksum, whole: Bytes, file: Bytes, p: nat, q: nat, data: Bytes, len: nat, begin: bool, scratch: Bytes,
    r: Logical, end: nat)
    requires p <= |file| && file <= whole && At(whole, p, Fragments(crc, p, data, begin))
    requires Leftover(p) >= HEADER && len == FragmentLength(p, data) < |data| && q == p + HEADER + len
    requires begin ==> scratch == []
    requires r == ReadLogical(crc, file, p, !begin, scratch) && end == p + |Fragments(crc, p, data, begin)|
    ensures len == 0 ==> Leftover(p) <= HEADER && Leftover(q) > HEADER
    ensures At(whole, q, Fragments(crc, q, data[len..], false)) && end == q + |Fragments(crc, q, data[len..], false)|
    ensures if q <= |file|
      then r == ReadLogical(crc, file, q, true, scratch + data[..len])
      else !r.found && r.drops == []
    ensures end > q
  {
    FragmentsLength(crc, p, data, begin, len);
    FullBlockBytes(crc, whole, p, q, data, len, begin);
    FullBlockRead(crc, whole, file, p, q, data[..len], begin, scratch, r);
  }

  lemma {:induction false} RecordRead(
    crc: Checksum, whole: Bytes, file: Bytes, p: nat, data: Bytes, begin: bool, scratch: Bytes, r: Logical, end: nat)
    requires p <= |file| && file <= whole && At(whole, p, Fragments(crc, p, data, begin))
    requires begin ==> scratch == []
    requires r == ReadLogical(crc, file, p, !begin, scratch) && end == p + |Fragments(crc, p, data, begin)|
    ensures ReadsBack(r, |file|, end, scratch + data)
    decreases |data|, if Leftover(p) <= HEADER then 1 else 0
  {
    if Leftover(p) < HEADER {
      var q := p + Leftover(p);
      TrailerRead(crc, whole, file, p, q, data, begin, scratch, r);
      if q <= |file| {
        RecordRead(crc, whole, file, q, data, begin, scratch, r, end);
      }
    } else if FragmentLength(p, data) == |data| {
      FragmentsLength(crc, p, data, begin, |data|);
      LastFragmentRead(crc, whole, file, p, data, begin, scratch, r);
    } else {
      var len := FragmentLength(p, data);
      var q := p + HEADER + len;
      FullBlock(crc, whole, file, p, q, data, len, begin, scratch, r, end);
      if q <= |file| {
        RecordRead(crc, whole, file, q, data[len..], false, scratch + data[..len], r, end);
        Rejoin(scratch, data, len);
      }
    }
  }

  lemma Rejoin(scratch: Bytes, data: Bytes, len: nat)
    requires len <= |data|
    ensures (scratch + data[..len]) + data[len..] == scratch + data
  {
  }

  // ----- whole logs

  /** How many of the records written from `pos` on end at or before `n`. */
  function Whole(crc: Checksum, pos: nat, records: seq<Bytes>, n: nat): (k: nat)
    ensures k <= |records|
    decreases |records|
  {
    if records == [] then 0
    else
      var next := pos + |Fragments(crc, pos, records[0], true)|;
      if next <= n then 1 + Whole(crc, next, records[1..], n) else 0
  }

  lemma {:induction false} WrittenSize(crc: Checksum, pos: nat, records: seq<Bytes>, k: nat)
    requires 0 < k <= |records|
    ensures var size := |Fragments(crc, pos, records[0], true)|;
            |Written(crc, pos, records[..k])| == size + |Written(crc, pos + size, records[1..][..k - 1])|
  {
    assert records[..k][1..] == records[1..][..k - 1];
  }

  lemma {:induction false} WholeFits(crc: Checksum, pos: nat, records: seq<Bytes>, n: nat, k: nat)
    requires pos <= n && k == Whole(crc, pos, records, n)
    ensures pos + |Written(crc, pos, records[..k])| <= n
    decreases |records|
  {
    if k > 0 {
      WholeFits(crc, pos + |Fragments(crc, pos, records[0], true)|, records[1..], n, k - 1);
      WrittenSize(crc, pos, records, k);
    }
  }

  lemma {:induction false} WholeIsLargest(crc: Checksum, pos: nat, records: seq<Bytes>, n: nat, k: nat)
    requires pos <= n && k == Whole(crc, pos, records, n) < |records|
    ensures n < pos + |Written(crc, pos, records[..k + 1])|
    decreases |records|
  {
    if k > 0 {
      WholeIsLargest(crc, pos + |Fragments(crc, pos, records[0], true)|, records[1..], n, k - 1);
    }
    WrittenSize(crc, pos, records, k + 1);
  }

  lemma {:induction false} ReadAllStep(crc: Checksum, file: Bytes, p: nat, r: Logical)
    requires p <= |file| && r == ReadLogical(crc, file, p, false, []) && r.drops == []
    ensures ReadAll(crc, file, p) ==
      if r.found then ([r.record] + ReadAll(crc, file, r.next).0, ReadAll(crc, file, r.next).1) else ([], [])
  {
    if r.found {
      var rest := ReadAll(crc, file, r.next);
      assert r.drops + rest.1 == rest.1;
    }
  }

  lemma FirstAndRest(records: seq<Bytes>, k: nat)
    requires k < |records|
    ensures [records[0]] + records[1..][..k] == records[..k + 1]
  {
  }

  lemma {:induction false} WrittenSplit(crc: Checksum, p: nat, records: seq<Bytes>, first: Bytes, end: nat)
    requires records != [] && first == Fragments(crc, p, records[0], true) && end == p + |first|
    ensures Written(crc, p, records) == first + Written(crc, end, records[1..])
    ensures p + |Written(crc, p, records)| == end + |Written(crc, end, records[1..])|
  {
  }

  /** Reading from `p`, where the first record ends at `end`. */
  lemma {:induction false} FirstRecord(crc: Checksum, whole: Bytes, file: Bytes, p: nat, record: Bytes, end: nat)
    requires p <= |file| && file <= whole && At(whole, p, Fragments(crc, p, record, true))
    requires end == p + |Fragments(crc, p, record, true)|
    ensures end <= |file| ==>
              && ReadAll(crc, file, p).0 == [record] + ReadAll(crc, file, end).0
              && ReadAll(crc, file, p).1 == ReadAll(crc, file, end).1
    ensures |file| < end ==> ReadAll(crc, file, p) == ([], [])
  {
    var r := ReadLogical(crc, file, p, false, []);
    RecordRead(crc, whole, file, p, record, true, [], r, end);
    assert [] + record == record;
    ReadAllStep(crc, file, p, r);
  }

  lemma {:induction false} WholeStep(crc: Checksum, p: nat, records: seq<Bytes>, n: nat, end: nat)
    requires records != [] && end == p + |Fragments(crc, p, records[0], true)|
    ensures Whole(crc, p, records, n) == if end <= n then 1 + Whole(crc, end, records[1..], n) else 0
  {
  }

  /** The first record, and the others behind it. */
  lemma WrittenParts(crc: Checksum, whole: Bytes, p: nat, records: seq<Bytes>) returns (end: nat)
    requires records != [] && At(whole, p, Written(crc, p, records))
    ensures end == p + |Fragments(crc, p, records[0], true)| && At(whole, p, Fragments(crc, p, records[0], true))
    ensures At(whole, end, Written(crc, end, records[1..]))
    ensures p + |Written(crc, p, records)| == end + |Written(crc, end, records[1..])|
  {
    var first := Fragments(crc, p, records[0], true);
    end := p + |first|;
    WrittenSplit(crc, p, records, first, end);
    AtSplit(whole, p, first, Written(crc, end, records[1..]));
  }

  lemma {:induction false} ReplayFrom(crc: Checksum, whole: Bytes, file: Bytes, p: nat, records: seq<Bytes>, k: nat)
    requires p <= |file| && file <= whole && At(whole, p, Written(crc, p, records))
    requires |file| <= p + |Written(crc, p, records)|
    requires k == Whole(crc, p, records, |file|)
    ensures ReadAll(crc, file, p).0 == records[..k]
    ensures ReadAll(crc, file, p).1 == []
    decreases |records|
  {
    if records == [] {
      EndScanned(crc, file, p, false, []);
      ReadAllStep(crc, file, p, ReadLogical(crc, file, p, false, []));
    } else {
      var end := WrittenParts(crc, whole, p, records);
      FirstRecord(crc, whole, file, p, records[0], end);
      WholeStep(crc, p, records, |file|, end);
      if end <= |file| {
        ReplayFrom(crc, whole, file, end, records[1..], k - 1);
        FirstAndRest(records, k - 1);
      }
    }
  }

  lemma {:induction false} CrashReads(crc: Checksum, start: Bytes, records: seq<Bytes>, w: Bytes, n: nat)
    requires w == Written(crc, |start|, records) && |start| <= n <= |start| + |w|
    ensures ReadAll(crc, (start + w)[..n], |start|) == (records[..Whole(crc, |start|, records, n)], [])
  {
    var whole := start + w;
    AtSlice(whole, |start|, w);
    ReplayFrom(crc, whole, whole[..n], |start|, records, Whole(crc, |start|, records, n));
  }

  lemma {:induction false} WholeBounds(crc: Checksum, pos: nat, records: seq<Bytes>, n: nat, k: nat)
    requires pos <= n && k == Whole(crc, pos, records, n)
    ensures pos + |Written(crc, pos, records[..k])| <= n
    ensures k < |records| ==> n < pos + |Written(crc, pos, records[..k + 1])|
  {
    WholeFits(crc, pos, records, n, k);
    if k < |records| {
      WholeIsLargest(crc, pos, records, n, k);
    }
  }

  /** A crash keeps some prefix of the bytes. Whatever the file held before `start`,
      reading from there gives exactly the records that are complete, in order, and
      reports no corruption. */
  lemma {:induction false} CrashPrefix(crc: Checksum, start: Bytes, records: seq<Bytes>, n: nat)
    requires |start| <= n <= |start| + |Written(crc, |start|, records)|
    ensures var k := Whole(crc, |start|, records, n);
            && ReadAll(crc, (start + Written(crc, |start|, records))[..n], |start|) == (records[..k], [])
            && |start| + |Written(crc, |start|, records[..k])| <= n
            && (k < |records| ==> n < |start| + |Written(crc, |start|, records[..k + 1])|)
  {
    WholeBounds(crc, |start|, records, n, Whole(crc, |start|, records, n));
    CrashReads(crc, start, records, Written(crc, |start|, records), n);
  }

  lemma {:induction false} ReadAllHead(crc: Checksum, file: Bytes, p: nat, records: seq<Bytes>, r: Logical)
    requires p <= |file| && ReadAll(crc, file, p) == (records, []) && r == ReadLogical(crc, file, p, false, [])
    ensures r.drops == [] && (r.found <==> records != [])
    ensures r.found ==> r.record == records[0] && ReadAll(crc, file, r.next) == (records[1..], [])
  {
    if r.found {
      var rest := ReadAll(crc, file, r.next);
      assert r.drops + rest.1 == [];
      assert ([r.record] + rest.0)[1..] == rest.0;
    }
  }

  /** Without a crash every record comes back. */
  lemma {:induction false} RoundTrip(crc: Checksum, start: Bytes, records: seq<Bytes>)
    ensures ReadAll(crc, start + Written(crc, |start|, records), |start|) == (records, [])
  {
    var whole := start + Written(crc, |start|, records);
    var k := Whole(crc, |start|, records, |whole|);
    CrashPrefix(crc, start, records, |whole|);
    assert whole[..|whole|] == whole;
    if k < |records| {
      WholeIsLargest(crc, |start|, records, |whole|, k);
      WrittenGrows(crc, |start|, records, k + 1);
    }
    assert records[..|records|] == records;
  }

  lemma {:induction false} WrittenGrows(crc: Checksum, pos: nat, records: seq<Bytes>, k: nat)
    requires k <= |records|
    ensures |Written(crc, pos, records[..k])| <= |Written(crc, pos, records)|
    decreases |records|
  {
    if k > 0 {
      var next := pos + |Fragments(crc, pos, records[0], true)|;
      assert records[..k][1..] == records[1..][..k - 1];
      WrittenGrows(crc, next, records[1..], k - 1);
    }
  }

  lemma {:induction false} WrittenMore(crc: Checksum, pos: nat, records: seq<Bytes>, last: Bytes)
    ensures Written(crc, pos, records + [last])
         == Written(crc, pos, records) + Fragments(crc, pos + |Written(crc, pos, records)|, last, true)
    decreases |records|
  {
    if records == [] {
      OneWritten(crc, pos, last);
      assert records + [last] == [last];
    } else {
      var first := Fragments(crc, pos, records[0], true);
      var end := pos + |first|;
      WrittenSplit(crc, pos, records, first, end);
      assert (records + [last])[1..] == records[1..] + [last];
      WrittenSplit(crc, pos, records + [last], first, end);
      WrittenMore(crc, end, records[1..], last);
      Regroup(first, Written(crc, end, records[1..]), Fragments(crc, pos + |Written(crc, pos, records)|, last, true));
    }
  }

  lemma {:induction false} OneWritten(crc: Checksum, pos: nat, last: Bytes)
    ensures Written(crc, pos, [last]) == Fragments(crc, pos, last, true) && Written(crc, pos, []) == []
  {
    assert [last][1..] == [];
  }

  /** Appending record after record, as one writer or several in turn, writes the log. */
  lemma {:induction false} AppendsWrite(crc: Checksum, start: Bytes, records: seq<Bytes>, last: Bytes)
    ensures start + Written(crc, |start|, records + [last])
         == (start + Written(crc, |start|, records)) +
            Fragments(crc, |start + Written(crc, |start|, records)|, last, true)
  {
    WrittenMore(crc, |start|, records, last);
    Regroup(start, Written(crc, |start|, records),
            Fragments(crc, |start + Written(crc, |start|, records)|, last, true));
  }

  // ----- appends that fail

  /** The first of them is read, and the others follow. */
  lemma ReadsFirst(crc: Checksum, file: Bytes, p: nat, records: seq<Bytes>, end: nat)
    returns (next: nat)
    requires records != [] && p <= end <= |file| && At(file, p, Written(crc, p, records))
    requires end == p + |Written(crc, p, records)|
    ensures p < next <= end && At(file, next, Written(crc, next, records[1..]))
    ensures end == next + |Written(crc, next, records[1..])|
    ensures ReadLogical(crc, file, p, false, []) == Logical(true, records[0], next, [])
  {
    var first := Fragments(crc, p, records[0], true);
    next := p + |first|;
    WrittenSplit(crc, p, records, first, next);
    AtSplit(file, p, first, Written(crc, next, records[1..]));
    RecordRead(crc, file, file, p, records[0], true, [], ReadLogical(crc, file, p, false, []), next);
    assert [] + records[0] == records[0];
  }

  lemma Joined(records: seq<Bytes>, more: seq<Bytes>)
    requires records != []
    ensures [records[0]] + (records[1..] + more) == records + more
  {
  }

  /** Whatever follows them, records that were written whole are read, and reading goes on
      behind them. */
  lemma {:induction false} ReadsThrough(crc: Checksum, file: Bytes, p: nat, records: seq<Bytes>, end: nat)
    requires p <= end <= |file| && At(file, p, Written(crc, p, records)) && end == p + |Written(crc, p, records)|
    ensures ReadAll(crc, file, p).0 == records + ReadAll(crc, file, end).0
    ensures ReadAll(crc, file, p).1 == ReadAll(crc, file, end).1
    decreases |records|
  {
    if records != [] {
      var next := ReadsFirst(crc, file, p, records, end);
      ReadAllStep(crc, file, p, ReadLogical(crc, file, p, false, []));
      ReadsThrough(crc, file, next, records[1..], end);
      Joined(records, ReadAll(crc, file, end).0);
    }
  }

  lemma {:induction false} AtFront(a: Bytes, z: Bytes)
    ensures At(a + z, 0, a)
  {
    AtSlice(a + z, 0, a);
  }

  /** Records in front of a failed append are read, whatever it left and whatever came later. */
  lemma {:induction false} ReadInFrontOfTear(crc: Checksum, records: seq<Bytes>, z: Bytes)
    ensures records <= ReadAll(crc, Written(crc, 0, records) + z, 0).0
  {
    var w := Written(crc, 0, records);
    AtFront(w, z);
    ReadsThrough(crc, w + z, 0, records, |w|);
  }

  /** A whole header that announces more than the file holds: the file ends in front of it. */
  lemma AnnouncesTooMuch(crc: Checksum, buffer: Bytes, kind: Byte, data: Bytes)
    requires |data| <= 0xffff && Header(crc, kind, data) <= buffer && |buffer| < HEADER + |data|
    ensures Parse(crc, buffer, false) == Physical(END_OF_FILE, [], |buffer|, [])
  {
    HeaderIs(crc, kind, data);
    assert buffer[4] == Header(crc, kind, data)[4] && buffer[5] == Header(crc, kind, data)[5];
  }

  lemma {:induction false} EndsAtHeader(crc: Checksum, file: Bytes, p: nat, kind: Byte, data: Bytes)
    requires p <= |file| && |data| <= 0xffff && Header(crc, kind, data) <= file[p..]
    requires |file| - p < HEADER + |data| <= Leftover(p)
    ensures ReadAll(crc, file, p) == ([], [])
  {
    InBlockMoves(p, |file| - p);
    assert file[p..BlockEnd(file, p)] == file[p..];
    AnnouncesTooMuch(crc, file[p..], kind, data);
    EndScanned(crc, file, p, false, []);
  }

  /** An append that fails behind the header of its only fragment. */
  lemma {:induction false} FailedBehindHeader(crc: Checksum, dest: Bytes, a: Bytes, cut: nat)
    requires HEADER <= cut < HEADER + |a| <= Leftover(|dest|)
    ensures Append(crc, dest, |dest|, a, true, cut)
         == Appended(dest + Header(crc, FULL, a) + a[..cut - HEADER], |dest| + HEADER + |a|, false)
  {
    var f := Header(crc, FULL, a) + a;
    assert a[..|a|] == a;
    assert f[..cut] == Header(crc, FULL, a) + a[..cut - HEADER];
    Regroup(dest, Header(crc, FULL, a), a[..cut - HEADER]);
  }

  lemma HeaderBehind(dest: Bytes, header: Bytes, some: Bytes, more: Bytes, file: Bytes)
    requires file == dest + header + some + more
    ensures |dest| <= |file| && header <= file[|dest|..] && |file| == |dest| + |header| + |some| + |more|
    ensures file == dest + (header + some + more)
  {
  }

  /** Less has been written behind a header than it announces. */
  lemma {:induction false} Swallowed(
    crc: Checksum, records: seq<Bytes>, w: Bytes, a: Bytes, some: Bytes, more: Bytes, file: Bytes)
    requires w == Written(crc, 0, records) && HEADER + |a| <= Leftover(|w|) && |some| + |more| < |a|
    requires file == w + Header(crc, FULL, a) + some + more
    ensures ReadAll(crc, file, 0) == (records, [])
  {
    HeaderBehind(w, Header(crc, FULL, a), some, more, file);
    EndsAtHeader(crc, file, |w|, FULL, a);
    AtFront(w, Header(crc, FULL, a) + some + more);
    ReadsThrough(crc, file, 0, records, |w|);
    assert records + [] == records;
  }

  /** The log `records` after the append of `a` failed and got `cut` bytes into the file, and the
      same writer went on with `b`. */
  function WrittenOn(
    crc: Checksum, records: seq<Bytes>, a: Bytes, cut: nat, b: Bytes, room: nat): (Appended, Appended) {
    var w := Written(crc, 0, records);
    var failed := Append(crc, w, |w|, a, true, cut);
    (failed, Append(crc, failed.dest, failed.at, b, true, room))
  }

  /** The bytes that `b` takes there. */
  function Behind(crc: Checksum, records: seq<Bytes>, a: Bytes, b: Bytes): Bytes {
    Fragments(crc, |Written(crc, 0, records)| + HEADER + |a|, b, true)
  }

  lemma {:induction false} WrittenOnIs(
    crc: Checksum, records: seq<Bytes>, w: Bytes, a: Bytes, cut: nat, b: Bytes, room: nat)
    requires w == Written(crc, 0, records) && HEADER <= cut < HEADER + |a| <= Leftover(|w|)
    requires |Behind(crc, records, a, b)| <= room
    ensures var (failed, next) := WrittenOn(crc, records, a, cut, b, room);
      !failed.ok && next.ok && next.dest == w + Header(crc, FULL, a) + a[..cut - HEADER] + Behind(crc, records, a, b)
  {
    FailedBehindHeader(crc, w, a, cut);
    AppendIs(crc, w + Header(crc, FULL, a) + a[..cut - HEADER], |w| + HEADER + |a|, b, true, room);
  }

  /** The same writer goes on after an append that failed behind its header. As long as less has
      been written since than the header announces, nothing of it is read, and nothing is
      reported lost: neither the failed record nor `b`, which was appended without an error. */
  lemma {:induction false} LostBehindTear(crc: Checksum, records: seq<Bytes>, a: Bytes, cut: nat, b: Bytes, room: nat)
    requires HEADER <= cut && HEADER + |a| <= Leftover(|Written(crc, 0, records)|)
    requires cut + |Behind(crc, records, a, b)| < HEADER + |a| && |Behind(crc, records, a, b)| <= room
    ensures var (failed, next) := WrittenOn(crc, records, a, cut, b, room);
      !failed.ok && next.ok && ReadAll(crc, next.dest, 0) == (records, [])
  {
    var w := Written(crc, 0, records);
    WrittenOnIs(crc, records, w, a, cut, b, room);
    Swallowed(crc, records, w, a, a[..cut - HEADER], Behind(crc, records, a, b),
      WrittenOn(crc, records, a, cut, b, room).1.dest);
  }

  // ----- what is found behind the header of a failed append

  /** The bytes found where those of `a` should be pass for them. */
  predicate Passes(crc: Checksum, a: Bytes, found: Bytes)
    requires |a| <= |found|
  {
    crc.matches(crc.stored([FULL] + a), [FULL] + found[..|a|])
  }

  lemma HeaderDecides(crc: Checksum, buffer: Bytes, whole: bool, a: Bytes, found: Bytes)
    requires |a| <= 0xffff && |a| <= |found| && buffer == Header(crc, FULL, a) + found
    ensures Parse(crc, buffer, whole)
         == if Passes(crc, a, found) then Physical(FULL, found[..|a|], HEADER + |a|, [])
            else Physical(BAD, [], |buffer|, [|buffer|])
  {
    var h := Header(crc, FULL, a);
    HeaderIs(crc, FULL, a);
    assert forall i :: 0 <= i < HEADER ==> buffer[i] == h[i];
    DataBehind(h, found, buffer, |a|);
  }

  lemma DataBehind(header: Bytes, found: Bytes, buffer: Bytes, size: nat)
    requires |header| == HEADER && buffer == header + found && size <= |found|
    ensures buffer[HEADER..HEADER + size] == found[..size]
    ensures buffer[6..HEADER + size] == [header[6]] + found[..size]
  {
  }

  lemma BlockFound(file: Bytes, p: nat, header: Bytes, found: Bytes, size: nat, e: nat)
    requires p <= e <= |file| && file[p..] == header + found && |header| + size <= e - p && size <= |found|
    ensures e - p - |header| <= |found| && file[p..e] == header + found[..e - p - |header|]
    ensures found[..e - p - |header|][..size] == found[..size]
  {
    assert file[p..e] == file[p..][..e - p];
  }

  lemma {:induction false} FoundPhysical(crc: Checksum, file: Bytes, p: nat, a: Bytes, found: Bytes)
    requires p <= |file| && HEADER + |a| <= Leftover(p) && |a| <= |found|
    requires file[p..] == Header(crc, FULL, a) + found
    ensures var f := ReadPhysical(crc, file, p);
      if Passes(crc, a, found) then f == Physical(FULL, found[..|a|], p + HEADER + |a|, [])
      else f.kind == BAD && f.drops != []
  {
    var e := BlockEnd(file, p);
    assert |file| - p == HEADER + |found|;
    BlockFound(file, p, Header(crc, FULL, a), found, |a|, e);
    HeaderDecides(crc, file[p..e], InBlock(e) == 0, a, found[..e - p - HEADER]);
  }

  /** Enough has been written behind the header of a failed append: what is found there is read
      as a record if it passes for the one announced, and reported lost if not. */
  lemma {:induction false} FoundBehind(crc: Checksum, file: Bytes, p: nat, a: Bytes, found: Bytes, r: Logical)
    requires p <= |file| && HEADER + |a| <= Leftover(p) && |a| <= |found|
    requires file[p..] == Header(crc, FULL, a) + found
    requires r == ReadLogical(crc, file, p, false, [])
    ensures Passes(crc, a, found) ==> r == Logical(true, found[..|a|], p + HEADER + |a|, [])
    ensures !Passes(crc, a, found) ==> r.drops != []
  {
    FoundPhysical(crc, file, p, a, found);
    var f := ReadPhysical(crc, file, p);
    if Passes(crc, a, found) {
      assert Scanned(FULL, f.data, false, []) == Done(true, f.data, []);
    } else {
      assert Scanned(BAD, f.data, false, []) == More(false, [], []);
    }
  }

  lemma {:induction false} SameFragment(crc: Checksum, p: nat, q: nat, b: Bytes)
    requires HEADER + |b| < Leftover(p) && HEADER + |b| < Leftover(q)
    ensures Fragments(crc, p, b, true) == Fragments(crc, q, b, true) && |Fragments(crc, p, b, true)| == HEADER + |b|
  {
  }

  lemma {:induction false} FullyAppended(crc: Checksum, w: Bytes, at: nat, b: Bytes, room: nat)
    requires |Fragments(crc, at, b, true)| <= room
    ensures Append(crc, w, at, b, true, room).dest == w + Fragments(crc, at, b, true)
    ensures Append(crc, w, at, b, true, room).ok
  {
    AppendIs(crc, w, at, b, true, room);
  }

  lemma {:induction false} NothingAppended(crc: Checksum, w: Bytes, a: Bytes)
    requires HEADER + |a| <= Leftover(|w|)
    ensures Append(crc, w, |w|, a, true, 0) == Appended(w, |w| + HEADER + |a|, false)
  {
    assert w + [] == w;
  }

  lemma {:induction false} NextGotIn(crc: Checksum, w: Bytes, at: nat, b: Bytes, room: nat)
    requires HEADER + |b| < Leftover(|w|) && HEADER + |b| < Leftover(at) && HEADER + |b| <= room
    ensures var next := Append(crc, w, at, b, true, room); next.ok && next.dest == w + Fragments(crc, |w|, b, true)
  {
    SameFragment(crc, |w|, at, b);
    FullyAppended(crc, w, at, b, room);
  }

  lemma {:induction false} WrittenOnNone(
    crc: Checksum, records: seq<Bytes>, a: Bytes, b: Bytes, room: nat, w: Bytes)
    requires w == Written(crc, 0, records) && HEADER + |a| <= Leftover(|w|)
    ensures !WrittenOn(crc, records, a, 0, b, room).0.ok
    ensures WrittenOn(crc, records, a, 0, b, room).1 == Append(crc, w, |w| + HEADER + |a|, b, true, room)
  {
    NothingAppended(crc, w, a);
  }

  lemma {:induction false} OneMoreWritten(crc: Checksum, records: seq<Bytes>, b: Bytes)
    ensures var w := Written(crc, 0, records); Written(crc, 0, records + [b]) == w + Fragments(crc, |w|, b, true)
  {
    AppendsWrite(crc, [], records, b);
    var w, all := Written(crc, 0, records), Written(crc, 0, records + [b]);
    assert [] + w == w && [] + all == all;
  }

  lemma {:induction false} AllRead(crc: Checksum, records: seq<Bytes>)
    ensures ReadAll(crc, Written(crc, 0, records), 0) == (records, [])
  {
    RoundTrip(crc, [], records);
    assert [] + Written(crc, 0, records) == Written(crc, 0, records);
  }

  /** If nothing of a record got into the file, the next one is read where it should have been, as
      long as it fits into the block where the writer takes itself to be. */
  lemma {:induction false} NothingGotIn(crc: Checksum, records: seq<Bytes>, a: Bytes, b: Bytes, room: nat)
    requires HEADER + |a| + HEADER + |b| < Leftover(|Written(crc, 0, records)|) && HEADER + |b| <= room
    ensures var (failed, next) := WrittenOn(crc, records, a, 0, b, room);
      !failed.ok && next.ok && ReadAll(crc, next.dest, 0) == (records + [b], [])
  {
    var w := Written(crc, 0, records);
    InBlockMoves(|w|, HEADER + |a|);
    WrittenOnNone(crc, records, a, b, room, w);
    NextGotIn(crc, w, |w| + HEADER + |a|, b, room);
    OneMoreWritten(crc, records, b);
    AllRead(crc, records + [b]);
  }
}
