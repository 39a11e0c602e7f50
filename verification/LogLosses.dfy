/** What the log reader makes of a file of any bytes: which records it delivers, what it reports
    lost, and how far damage reaches. */
module LogLosses {
  import opened Coding
  import opened Log
  import opened LogReplay

  /** Where the header read at `p` starts: the end of a block too short for one is skipped. */
  function Start(p: nat): nat {
    if Leftover(p) < HEADER then p + Leftover(p) else p
  }

  lemma StartRoom(p: nat)
    ensures p <= Start(p) && Leftover(Start(p)) >= HEADER && Start(Start(p)) == Start(p)
  {
    InBlockMoves(p, Leftover(p));
  }

  /** A sound physical record stands at `p`: its block and the file have all of it, and the
      checksum in front accepts its kind and its data. */
  ghost predicate Stands(crc: Checksum, file: Bytes, p: nat, kind: Byte, data: Bytes, next: nat) {
    var q := Start(p);
    && next == q + HEADER + |data| <= |file| && HEADER + |data| <= Leftover(q)
    && file[q + 4] as int + 256 * (file[q + 5] as int) == |data| && file[q + 6] == kind
    && crc.matches(Sum(file[q], file[q + 1], file[q + 2], file[q + 3]), [kind] + data)
    && file[q + HEADER..next] == data
    && (kind == ZERO ==> data != [])
  }

  /** MIDDLE records and a LAST one, each right behind the other, spell `rest`. */
  ghost predicate Continued(crc: Checksum, file: Bytes, p: nat, end: nat, rest: Bytes)
    decreases |file| - p
  {
    || Stands(crc, file, p, LAST, rest, end)
    || exists data, next ::
         && Stands(crc, file, p, MIDDLE, data, next)
         && data <= rest && p < next && Continued(crc, file, next, end, rest[|data|..])
  }

  /** A FULL record, or a FIRST one that is continued to its LAST, spells `record`. */
  ghost predicate Chain(crc: Checksum, file: Bytes, p: nat, end: nat, record: Bytes) {
    || Stands(crc, file, p, FULL, record, end)
    || exists data, next ::
         && Stands(crc, file, p, FIRST, data, next)
         && data <= record && Continued(crc, file, next, end, record[|data|..])
  }

  // ----- one physical record

  /** The header at `q` and the end of what the file has of its block. */
  function Announced(file: Bytes, q: nat): nat
    requires q + HEADER <= |file|
  {
    file[q + 4] as int + 256 * (file[q + 5] as int)
  }

  lemma {:induction false} ReadsAtStart(crc: Checksum, file: Bytes, p: nat)
    requires p <= |file| && Start(p) <= |file|
    ensures ReadPhysical(crc, file, p) == ReadPhysical(crc, file, Start(p))
  {
    InBlockMoves(p, Leftover(p));
  }

  /** The file ends within the header. */
  lemma {:induction false} EndsWithin(crc: Checksum, file: Bytes, p: nat)
    requires p <= |file| < Start(p) + HEADER
    ensures ReadPhysical(crc, file, p) == Physical(END_OF_FILE, [], |file|, [])
  {
    StartRoom(p);
    if p < Start(p) <= |file| {
      ReadsAtStart(crc, file, p);
    }
  }

  /** The rest of a block, seen as a part of the file. */
  lemma Within(file: Bytes, q: nat, e: nat, from: nat, to: nat)
    requires q <= e <= |file| && from <= to <= e - q
    ensures file[q..e][from..to] == file[q + from..q + to]
  {
    var a, b := file[q..e][from..to], file[q + from..q + to];
    assert |a| == |b| && forall k :: 0 <= k < |a| ==> a[k] == b[k];
  }

  /** What is made of a complete header at `q`. */
  function HeaderSays(crc: Checksum, file: Bytes, q: nat, e: nat, length: nat): Physical
    requires q + HEADER <= e <= |file|
  {
    var kind := file[q + 6];
    if q + HEADER + length > e then
      if InBlock(e) == 0 then Physical(BAD, [], e, [e - q]) else Physical(END_OF_FILE, [], e, [])
    else if kind == ZERO && length == 0 then Physical(BAD, [], e, [])
    else
      var data := file[q + HEADER..q + HEADER + length];
      if crc.matches(Sum(file[q], file[q + 1], file[q + 2], file[q + 3]), [kind] + data) then
        Physical(kind, data, q + HEADER + length, [])
      else Physical(BAD, [], e, [e - q])
  }

  lemma {:induction false} HeaderParsed(crc: Checksum, file: Bytes, q: nat, e: nat, length: nat, r: Physical)
    requires q + HEADER <= e <= |file| && length == Announced(file, q)
    requires r == Parse(crc, file[q..e], InBlock(e) == 0)
    ensures r.(next := q + r.next) == HeaderSays(crc, file, q, e, length)
  {
    if q + HEADER + length <= e {
      Within(file, q, e, 6, HEADER + length);
      Within(file, q, e, HEADER, HEADER + length);
      assert file[q + 6..q + HEADER + length] == [file[q + 6]] + file[q + HEADER..q + HEADER + length];
    }
  }

  lemma {:induction false} HeaderRead(crc: Checksum, file: Bytes, p: nat, q: nat, e: nat, length: nat)
    requires p <= q == Start(p) && q + HEADER <= |file| && e == BlockEnd(file, q) && length == Announced(file, q)
    ensures q + HEADER <= e && ReadPhysical(crc, file, p) == HeaderSays(crc, file, q, e, length)
  {
    StartRoom(p);
    ReadsAtStart(crc, file, p);
    ParseHere(crc, file, q, e);
    HeaderParsed(crc, file, q, e, length, Parse(crc, file[q..e], InBlock(e) == 0));
  }

  /** A sound physical record is what is read, and nothing else is read as one. */
  lemma {:induction false} SoundIsRead(crc: Checksum, file: Bytes, p: nat, kind: Byte, data: Bytes, next: nat)
    requires p <= |file|
    ensures Stands(crc, file, p, kind, data, next) ==> ReadPhysical(crc, file, p) == Physical(kind, data, next, [])
    ensures var f := ReadPhysical(crc, file, p);
            && (f.kind != BAD ==> f.drops == [])
            && (f.kind != BAD && f.kind != END_OF_FILE ==> Stands(crc, file, p, f.kind, f.data, f.next))
  {
    var q := Start(p);
    StartRoom(p);
    if q + HEADER <= |file| {
      HeaderRead(crc, file, p, q, BlockEnd(file, q), Announced(file, q));
    } else {
      EndsWithin(crc, file, p);
    }
  }

  /** Where no sound record stands, the rest of the block is passed over, and reported unless the
      file ends in it or it announces a ZERO record without data. */
  lemma {:induction false} UnsoundIsPassed(crc: Checksum, file: Bytes, p: nat, q: nat, r: Physical)
    requires p <= |file| && q == Start(p) && r == ReadPhysical(crc, file, p)
    requires forall kind, data, next :: !Stands(crc, file, p, kind, data, next)
    ensures r.data == [] && (r.kind == BAD || r.kind == END_OF_FILE) && |r.drops| <= 1
    ensures q <= |file| ==> r.next == BlockEnd(file, q)
    ensures r.kind == END_OF_FILE <==>
            || q + HEADER > |file|
            || (|file| < q + Leftover(q) && |file| < q + HEADER + Announced(file, q))
    ensures r.drops == [] <==>
            || r.kind == END_OF_FILE
            || (file[q + 6] == ZERO && Announced(file, q) == 0)
    ensures r.drops != [] ==> r.drops == [r.next - q]
  {
    StartRoom(p);
    if q + HEADER <= |file| {
      var length: nat := Announced(file, q);
      HeaderRead(crc, file, p, q, BlockEnd(file, q), length);
      InBlockMoves(q, BlockEnd(file, q) - q);
      if q + HEADER + length <= BlockEnd(file, q) {
        assert !Stands(
          crc, file, p, file[q + 6], file[q + HEADER..q + HEADER + length], q + HEADER + length);
      }
    } else {
      EndsWithin(crc, file, p);
    }
  }

  // ----- one logical record

  /** Whatever was being collected, a chain is delivered, and what was being collected is lost. */
  lemma {:induction false} ChainIsDelivered(
    crc: Checksum, file: Bytes, p: nat, end: nat, record: Bytes, inRecord: bool, scratch: Bytes)
    requires p <= |file| && Chain(crc, file, p, end, record)
    ensures ReadLogical(crc, file, p, inRecord, scratch)
         == Logical(true, record, end, if inRecord && scratch != [] then [|scratch|] else [])
  {
    SoundIsRead(crc, file, p, FULL, record, end);
    if !Stands(crc, file, p, FULL, record, end) {
      var data, next :| Stands(crc, file, p, FIRST, data, next) && data <= record &&
                        Continued(crc, file, next, end, record[|data|..]);
      SoundIsRead(crc, file, p, FIRST, data, next);
      ContinuedIsDelivered(crc, file, next, end, record[|data|..], data);
      assert data + record[|data|..] == record;
    }
  }

  lemma NextMiddle(crc: Checksum, file: Bytes, p: nat, end: nat, rest: Bytes)
    returns (data: Bytes, next: nat)
    requires p <= |file| && Continued(crc, file, p, end, rest) && !Stands(crc, file, p, LAST, rest, end)
    ensures p < next <= |file| && ReadPhysical(crc, file, p) == Physical(MIDDLE, data, next, [])
    ensures data <= rest && Continued(crc, file, next, end, rest[|data|..])
  {
    data, next :| Stands(crc, file, p, MIDDLE, data, next) && data <= rest && p < next &&
                  Continued(crc, file, next, end, rest[|data|..]);
    SoundIsRead(crc, file, p, MIDDLE, data, next);
  }

  lemma {:induction false} ContinuedIsDelivered(
    crc: Checksum, file: Bytes, p: nat, end: nat, rest: Bytes, scratch: Bytes)
    requires p <= |file| && Continued(crc, file, p, end, rest)
    ensures ReadLogical(crc, file, p, true, scratch) == Logical(true, scratch + rest, end, [])
    decreases |file| - p
  {
    if Stands(crc, file, p, LAST, rest, end) {
      SoundIsRead(crc, file, p, LAST, rest, end);
      FragmentEnds(crc, file, p, rest, end, false, scratch);
    } else {
      var data, next := NextMiddle(crc, file, p, end, rest);
      FragmentContinues(crc, file, p, data, next, false, scratch);
      ContinuedIsDelivered(crc, file, next, end, rest[|data|..], scratch + data);
      assert scratch + data + rest[|data|..] == scratch + rest;
    }
  }

  /** What is delivered is a chain somewhere ahead, or goes on with what was being collected. */
  lemma {:induction false} DeliveredIsChain(
    crc: Checksum, file: Bytes, p: nat, inRecord: bool, scratch: Bytes, r: Logical)
    requires p <= |file| && r == ReadLogical(crc, file, p, inRecord, scratch) && r.found
    ensures || (exists q :: p <= q <= |file| && Chain(crc, file, q, r.next, r.record))
            || (inRecord && scratch <= r.record && Continued(crc, file, p, r.next, r.record[|scratch|..]))
    decreases |file| - p
  {
    var f := ReadPhysical(crc, file, p);
    SoundIsRead(crc, file, p, f.kind, f.data, f.next);
    match Scanned(f.kind, f.data, inRecord, scratch)
    case Done(_, _, _) =>
      if f.kind == FULL {
        assert Chain(crc, file, p, r.next, r.record);
      } else {
        assert r.record[|scratch|..] == f.data;
      }
    case More(inRecord', scratch', _) =>
      DeliveredIsChain(crc, file, f.next, inRecord', scratch', ReadLogical(crc, file, f.next, inRecord', scratch'));
      if !(exists q :: f.next <= q <= |file| && Chain(crc, file, q, r.next, r.record)) {
        if f.kind == FIRST {
          assert Stands(crc, file, p, FIRST, f.data, f.next);
          assert Chain(crc, file, p, r.next, r.record);
        } else {
          assert r.record[|scratch|..][|f.data|..] == r.record[|scratch'|..];
        }
      }
  }

  /** Reading a whole file, of any bytes, delivers nothing but chains. */
  lemma {:induction false} OnlyChainsDelivered(crc: Checksum, file: Bytes, p: nat, record: Bytes)
    requires p <= |file| && record in ReadAll(crc, file, p).0
    ensures exists q, end :: p <= q <= |file| && Chain(crc, file, q, end, record)
    decreases |file| - p
  {
    var r := ReadLogical(crc, file, p, false, []);
    DeliveredIsChain(crc, file, p, false, [], r);
    if record != r.record {
      OnlyChainsDelivered(crc, file, r.next, record);
    }
  }

  // ----- what is lost

  function Total(sizes: seq<nat>): nat {
    if sizes == [] then 0 else sizes[0] + Total(sizes[1..])
  }

  lemma {:induction false} TotalSum(a: seq<nat>, b: seq<nat>)
    ensures Total(a + b) == Total(a) + Total(b)
  {
    if a == [] {
      assert a + b == b;
    } else {
      assert (a + b)[1..] == a[1..] + b;
      TotalSum(a[1..], b);
    }
  }

  /** The bytes of a physical record that count: its data, or what is reported of a block passed over. */
  function Weight(f: Physical): nat {
    if f.kind == END_OF_FILE then 0 else if f.kind == BAD then Total(f.drops) else |f.data|
  }

  function Payload(crc: Checksum, file: Bytes, p: nat, end: nat): nat
    requires p <= |file|
    decreases |file| - p
  {
    var f := ReadPhysical(crc, file, p);
    if p >= end || f.kind == END_OF_FILE then 0 else Weight(f) + Payload(crc, file, f.next, end)
  }

  lemma {:induction false} PayloadStep(crc: Checksum, file: Bytes, p: nat, end: nat, f: Physical)
    requires p <= |file| && f == ReadPhysical(crc, file, p) && f.next <= end
    ensures Payload(crc, file, p, end)
         == Weight(f) + if f.kind == END_OF_FILE || f.next == end then 0 else Payload(crc, file, f.next, end)
  {
  }

  /** What one physical record adds and takes. */
  lemma ScanBalances(f: Physical, inRecord: bool, scratch: Bytes, step: Scan)
    requires step == Scanned(f.kind, f.data, inRecord, scratch)
    requires (f.kind != BAD ==> f.drops == []) && (!inRecord ==> scratch == [])
    ensures step.More? ==>
      && (!step.inRecord ==> step.scratch == [])
      && |scratch| + Weight(f) == |step.scratch| + Total(f.drops + step.drops)
    ensures step.Done? ==>
      && Weight(f) + (if step.found then |scratch| else 0) == |step.record| + Total(f.drops + step.drops)
  {
    TotalSum(f.drops, step.drops);
  }

  /** MIDDLE records up to the end of the file spell `rest`. */
  ghost predicate Unended(crc: Checksum, file: Bytes, p: nat, rest: Bytes)
    decreases |file| - p
  {
    || (p <= |file| && rest == [] && ReadPhysical(crc, file, p).kind == END_OF_FILE)
    || exists data, next ::
         && Stands(crc, file, p, MIDDLE, data, next)
         && data <= rest && p < next && Unended(crc, file, next, rest[|data|..])
  }

  /** `lost` is a record that the end of the file cuts off: one that begins from `p` on or the
      one being collected. */
  ghost predicate CutOff(crc: Checksum, file: Bytes, p: nat, inRecord: bool, scratch: Bytes, lost: Bytes) {
    || lost == []
    || (inRecord && scratch <= lost && Unended(crc, file, p, lost[|scratch|..]))
    || exists q, data, next ::
         && p <= q && Stands(crc, file, q, FIRST, data, next)
         && data <= lost && Unended(crc, file, next, lost[|data|..])
  }

  lemma {:induction false} CutOffBehind(
    crc: Checksum, file: Bytes, p: nat, inRecord: bool, scratch: Bytes, f: Physical, step: Scan, lost: Bytes)
    requires p <= |file| && f == ReadPhysical(crc, file, p)
    requires step == Scanned(f.kind, f.data, inRecord, scratch) && step.More?
    requires CutOff(crc, file, f.next, step.inRecord, step.scratch, lost)
    ensures CutOff(crc, file, p, inRecord, scratch, lost)
  {
    SoundIsRead(crc, file, p, f.kind, f.data, f.next);
    if step.inRecord && step.scratch <= lost && Unended(crc, file, f.next, lost[|step.scratch|..]) {
      if f.kind == FIRST {
        assert Stands(crc, file, p, FIRST, f.data, f.next);
      } else {
        assert Stands(crc, file, p, MIDDLE, f.data, f.next);
        assert lost[|scratch|..][|f.data|..] == lost[|step.scratch|..];
        assert Unended(crc, file, p, lost[|scratch|..]);
      }
    }
  }

  /** Every such byte is delivered or reported, but those of a record that the end of the file cuts off. */
  lemma LossesAreReported(
    crc: Checksum, file: Bytes, p: nat, inRecord: bool, scratch: Bytes, r: Logical) returns (lost: Bytes)
    requires p <= |file| && r == ReadLogical(crc, file, p, inRecord, scratch) && (!inRecord ==> scratch == [])
    ensures |scratch| + Payload(crc, file, p, r.next) == |r.record| + |lost| + Total(r.drops)
    ensures if r.found then lost == [] else r.record == [] && CutOff(crc, file, p, inRecord, scratch, lost)
    decreases |file| - p
  {
    var f := ReadPhysical(crc, file, p);
    var step := Scanned(f.kind, f.data, inRecord, scratch);
    SoundIsRead(crc, file, p, f.kind, f.data, f.next);
    ScanBalances(f, inRecord, scratch, step);
    PayloadStep(crc, file, p, r.next, f);
    lost := [];
    if step.More? {
      var rest := ReadLogical(crc, file, f.next, step.inRecord, step.scratch);
      lost := LossesAreReported(crc, file, f.next, step.inRecord, step.scratch, rest);
      TotalSum(f.drops + step.drops, rest.drops);
      if !r.found {
        CutOffBehind(crc, file, p, inRecord, scratch, f, step, lost);
      }
    } else if !step.found {
      lost := scratch;
      if inRecord {
        assert Unended(crc, file, p, lost[|scratch|..]);
      }
    }
  }

  // ----- how far damage reaches

  /** No block starts within the rest of another. */
  lemma {:induction false} BoundaryAhead(p: nat, b: nat)
    requires p < b && InBlock(b) == 0
    ensures p + Leftover(p) <= b
  {
    if p >= BLOCK {
      BoundaryAhead(p - BLOCK, b - BLOCK);
    }
  }

  /** A step of the reader in front of a block ends in front of it. */
  lemma {:induction false} StaysInBlock(crc: Checksum, file: Bytes, p: nat, b: nat, f: Physical)
    requires p <= Start(p) < b <= |file| && InBlock(b) == 0 && f == ReadPhysical(crc, file, p)
    requires f.kind == END_OF_FILE ==> !Stands(crc, file, p, f.kind, f.data, f.next)
    ensures f.kind != END_OF_FILE && p < f.next <= b
  {
    var q := Start(p);
    StartRoom(p);
    BoundaryAhead(q, b);
    InBlockMoves(q, Leftover(q));
    HeaderRead(crc, file, p, q, BlockEnd(file, q), Announced(file, q));
  }

  /** No sound record from `p` up to `b` has the kind that the reader takes for the end of the file. */
  ghost predicate NoEndMark(crc: Checksum, file: Bytes, p: nat, b: nat) {
    forall q, data, next :: p <= q < b ==> !Stands(crc, file, q, END_OF_FILE, data, next)
  }

  /** Nothing is read between `p` and the start of the block. */
  lemma {:induction false} ReachesBoundary(
    crc: Checksum, file: Bytes, p: nat, b: nat, end: nat, record: Bytes, inRecord: bool, scratch: Bytes)
    requires p <= b <= |file| && b <= Start(p) && InBlock(b) == 0 && Chain(crc, file, b, end, record)
    ensures ReadLogical(crc, file, p, inRecord, scratch).record == record
    ensures ReadLogical(crc, file, p, inRecord, scratch).found
    ensures ReadLogical(crc, file, p, inRecord, scratch).next == end
  {
    if p < b {
      BoundaryAhead(p, b);
      ReadsAtStart(crc, file, p);
      SameRead(crc, file, p, b, inRecord, scratch);
    }
    ChainIsDelivered(crc, file, b, end, record, inRecord, scratch);
  }

  /** Whatever bytes come before it, a chain at the start of a block is delivered if such records are not
      among them. */
  lemma {:induction false} DamageIsConfined(
    crc: Checksum, file: Bytes, p: nat, b: nat, end: nat, record: Bytes, inRecord: bool, scratch: Bytes, r: Logical)
    requires p <= b <= |file| && InBlock(b) == 0 && Chain(crc, file, b, end, record) && NoEndMark(crc, file, p, b)
    requires r == ReadLogical(crc, file, p, inRecord, scratch)
    ensures r.found && (r.next <= b || (r.record == record && r.next == end))
    decreases b - p
  {
    var f := ReadPhysical(crc, file, p);
    StartRoom(p);
    if Start(p) >= b {
      ReachesBoundary(crc, file, p, b, end, record, inRecord, scratch);
    } else {
      StaysInBlock(crc, file, p, b, f);
      var step := Scanned(f.kind, f.data, inRecord, scratch);
      if step.More? {
        var rest := ReadLogical(crc, file, f.next, step.inRecord, step.scratch);
        DamageIsConfined(crc, file, f.next, b, end, record, step.inRecord, step.scratch, rest);
      }
    }
  }

  /** So reading the whole file delivers it. */
  lemma {:induction false} DamagedLogKeeps(crc: Checksum, file: Bytes, p: nat, b: nat, end: nat, record: Bytes)
    requires p <= b <= |file| && InBlock(b) == 0 && Chain(crc, file, b, end, record) && NoEndMark(crc, file, p, b)
    ensures record in ReadAll(crc, file, p).0
    decreases b - p
  {
    var r := ReadLogical(crc, file, p, false, []);
    DamageIsConfined(crc, file, p, b, end, record, false, [], r);
    if r.next <= b {
      DamagedLogKeeps(crc, file, r.next, b, end, record);
    }
  }

  /** A sound record of that kind ends the reading without a report, whatever comes behind it. */
  lemma {:induction false} EndMarkEnds(
    crc: Checksum, file: Bytes, p: nat, data: Bytes, next: nat, inRecord: bool, scratch: Bytes)
    requires p <= |file| && Stands(crc, file, p, END_OF_FILE, data, next)
    ensures ReadLogical(crc, file, p, inRecord, scratch) == Logical(false, [], next, [])
  {
    SoundIsRead(crc, file, p, END_OF_FILE, data, next);
  }
}
