/** Write batches: their byte form, iteration over it, and recovery of a log of them. */
module WriteBatches {
  import opened Options
  import opened Coding
  import Log
  import LogReplay

  const PREFIX: nat := 12
  const TAG_DELETION: Byte := 0
  const TAG_VALUE: Byte := 1

  datatype Op = Put(key: Bytes, value: Bytes) | Delete(key: Bytes)

  /** Lengths are written as 32-bit varints. */
  predicate Fits(op: Op) {
    |op.key| < WORD32 && (op.Put? ==> |op.value| < WORD32)
  }

  predicate AllFit(ops: seq<Op>) {
    ops == [] || (Fits(ops[0]) && AllFit(ops[1..]))
  }

  function OpBytes(op: Op): (r: Bytes)
    ensures |r| > 0
  {
    match op
    case Put(key, value) => [TAG_VALUE] + LengthPrefixed(key) + LengthPrefixed(value)
    case Delete(key) => [TAG_DELETION] + LengthPrefixed(key)
  }

  function Body(ops: seq<Op>): Bytes {
    if ops == [] then [] else OpBytes(ops[0]) + Body(ops[1..])
  }

  function Rep(sequence: nat, ops: seq<Op>): Bytes {
    Fixed(sequence, 8) + Fixed(|ops|, 4) + Body(ops)
  }

  function Sequence(rep: Bytes): nat
    requires |rep| >= PREFIX
  {
    FromFixed(rep[..8])
  }

  function Count(rep: Bytes): nat
    requires |rep| >= PREFIX
  {
    FromFixed(rep[8..PREFIX])
  }

  // ----- iteration

  /** The operations handed over, and whether iteration ended without corruption. */
  datatype Iteration = Iteration(ops: seq<Op>, ok: bool)

  /** The operation at the start of the input, and what follows it. */
  function ParseOp(input: Bytes): (r: Option<(Op, Bytes)>)
    requires input != []
    ensures r.Some? ==> |r.value.1| < |input|
  {
    GetLengthPrefixedConsumes(input[1..]);
    match GetLengthPrefixed(input[1..])
    case None => None
    case Some((key, rest)) =>
      GetLengthPrefixedConsumes(rest);
      if input[0] == TAG_DELETION then Some((Delete(key), rest))
      else if input[0] != TAG_VALUE then None
      else match GetLengthPrefixed(rest)
        case None => None
        case Some((value, rest')) => Some((Put(key, value), rest'))
  }

  function ParseOps(input: Bytes): Iteration
    decreases |input|
  {
    if input == [] then Iteration([], true)
    else match ParseOp(input)
      case None => Iteration([], false)
      case Some((op, rest)) => var tail := ParseOps(rest); Iteration([op] + tail.ops, tail.ok)
  }

  function Iterated(rep: Bytes): Iteration {
    if |rep| < PREFIX then Iteration([], false)
    else
      var all := ParseOps(rep[PREFIX..]);
      Iteration(all.ops, all.ok && |all.ops| == Count(rep))
  }

  /** WriteBatch::Iterate, with the handler's calls collected. */
  method Iterate(rep: Bytes) returns (handled: seq<Op>, ok: bool)
    ensures Iteration(handled, ok) == Iterated(rep)
  {
    handled := [];
    if |rep| < PREFIX {
      return [], false;
    }
    var input := rep[PREFIX..];
    var found := 0;
    while input != []
      invariant found == |handled|
      invariant ParseOps(rep[PREFIX..]) == Iteration(handled + ParseOps(input).ops, ParseOps(input).ok)
      decreases |input|
    {
      found := found + 1;
      var parsed := ParseOp(input);
      if parsed.None? {
        assert handled + [] == handled;
        return handled, false;
      }
      assert handled + ([parsed.value.0] + ParseOps(parsed.value.1).ops)
        == (handled + [parsed.value.0]) + ParseOps(parsed.value.1).ops;
      handled := handled + [parsed.value.0];
      input := parsed.value.1;
    }
    assert handled + [] == handled;
    ok := found == Count(rep);
  }

  /** An operation stands at the start of the input, with `next` behind it: a tag and one or two strings. */
  ghost predicate Begins(input: Bytes, op: Op, next: Bytes) {
    input != [] &&
    match op
    case Delete(key) => input[0] == 0 && GetLengthPrefixed(input[1..]) == Some((key, next))
    case Put(key, value) =>
      && input[0] == 1
      && exists behind :: GetLengthPrefixed(input[1..]) == Some((key, behind))
                       && GetLengthPrefixed(behind) == Some((value, next))
  }

  lemma BeginsIff(input: Bytes, op: Op, next: Bytes)
    ensures Begins(input, op, next) <==> input != [] && ParseOp(input) == Some((op, next))
  {
  }

  /** These operations stand one behind the other, with `rest` behind them all. */
  ghost predicate Spelt(input: Bytes, ops: seq<Op>, rest: Bytes)
    decreases |ops|
  {
    if ops == [] then input == rest
    else exists next :: Begins(input, ops[0], next) && Spelt(next, ops[1..], rest)
  }

  lemma OpsSpelt(input: Bytes) returns (rest: Bytes)
    ensures Spelt(input, ParseOps(input).ops, rest) && (ParseOps(input).ok <==> rest == [])
    ensures rest != [] ==> forall op, next :: !Begins(rest, op, next)
    decreases |input|
  {
    rest := input;
    if input != [] {
      forall op, next ensures Begins(input, op, next) <==> ParseOp(input) == Some((op, next)) {
        BeginsIff(input, op, next);
      }
      if ParseOp(input).Some? {
        var (op, next) := ParseOp(input).value;
        rest := OpsSpelt(next);
        assert ParseOps(input).ops[1..] == ParseOps(next).ops;
      }
    }
  }

  /** Whatever bytes a batch has, the handler is given the operations that stand behind the header up to
      the first place where none does; the batch is sound if that is its end and its count is theirs. */
  lemma IteratedIs(rep: Bytes) returns (rest: Bytes)
    ensures |rep| < 12 ==> Iterated(rep) == Iteration([], false)
    ensures |rep| >= 12 ==>
      && Spelt(rep[12..], Iterated(rep).ops, rest)
      && (rest != [] ==> forall op, next :: !Begins(rest, op, next))
      && (Iterated(rep).ok <==> rest == [] && Count(rep) == |Iterated(rep).ops|)
  {
    rest := [];
    if |rep| >= 12 {
      rest := OpsSpelt(rep[12..]);
    }
  }

  // ----- round trip

  lemma DeleteRoundTrip(key: Bytes, rest: Bytes)
    requires |key| < WORD32
    ensures ParseOp([TAG_DELETION] + LengthPrefixed(key) + rest) == Some((Delete(key), rest))
  {
    var input := [TAG_DELETION] + LengthPrefixed(key) + rest;
    assert input[1..] == LengthPrefixed(key) + rest;
    LengthPrefixedRoundTrip(key, rest);
  }

  lemma PutRoundTrip(key: Bytes, value: Bytes, k: Bytes, v: Bytes, rest: Bytes)
    requires |key| < WORD32 && |value| < WORD32 && k == LengthPrefixed(key) && v == LengthPrefixed(value)
    ensures ParseOp([TAG_VALUE] + k + v + rest) == Some((Put(key, value), rest))
  {
    var input := [TAG_VALUE] + k + v + rest;
    assert input[1..] == k + (v + rest);
    LengthPrefixedRoundTrip(key, v + rest);
    LengthPrefixedRoundTrip(value, rest);
  }

  lemma OpRoundTrip(op: Op, rest: Bytes)
    requires Fits(op)
    ensures ParseOp(OpBytes(op) + rest) == Some((op, rest))
  {
    match op {
      case Delete(key) => DeleteRoundTrip(key, rest);
      case Put(key, value) => PutRoundTrip(key, value, LengthPrefixed(key), LengthPrefixed(value), rest);
    }
  }

  lemma {:induction false} BodyRoundTrip(ops: seq<Op>)
    requires AllFit(ops)
    ensures ParseOps(Body(ops)) == Iteration(ops, true)
  {
    if ops != [] {
      OpRoundTrip(ops[0], Body(ops[1..]));
      BodyRoundTrip(ops[1..]);
      assert [ops[0]] + ops[1..] == ops;
    }
  }

  /** A batch read back gives its operations, in order, and its sequence number. */
  lemma {:induction false} BatchRoundTrip(sequence: nat, ops: seq<Op>)
    requires AllFit(ops) && sequence < WORD64 && |ops| < WORD32
    ensures var rep := Rep(sequence, ops);
            |rep| >= PREFIX && Iterated(rep) == Iteration(ops, true) && Sequence(rep) == sequence && Count(rep) == |ops|
  {
    Parts(Fixed(sequence, 8), Fixed(|ops|, 4), Body(ops));
    Fixed64RoundTrip(sequence);
    Fixed32RoundTrip(|ops|);
    BodyRoundTrip(ops);
  }

  lemma {:induction false} BodySum(a: seq<Op>, b: seq<Op>)
    ensures Body(a + b) == Body(a) + Body(b)
  {
    if a == [] {
      assert a + b == b;
    } else {
      assert (a + b)[1..] == a[1..] + b;
      BodySum(a[1..], b);
    }
  }

  lemma {:induction false} AllFitSum(a: seq<Op>, b: seq<Op>)
    ensures AllFit(a + b) <==> AllFit(a) && AllFit(b)
  {
    if a == [] {
      assert a + b == b;
    } else {
      assert (a + b)[1..] == a[1..] + b;
      AllFitSum(a[1..], b);
    }
  }

  lemma {:induction false} RepParts(sequence: nat, ops: seq<Op>, rep: Bytes)
    requires |ops| < WORD32 && rep == Rep(sequence, ops)
    ensures |rep| >= PREFIX && Count(rep) == |ops| && rep[PREFIX..] == Body(ops)
  {
    Parts(Fixed(sequence, 8), Fixed(|ops|, 4), Body(ops));
    Fixed32RoundTrip(|ops|);
  }

  /** Patching the sequence number. */
  lemma {:induction false} RepSet(sequence: nat, ops: seq<Op>, n: nat)
    ensures |Rep(sequence, ops)| >= PREFIX && Fixed(n, 8) + Rep(sequence, ops)[8..] == Rep(n, ops)
  {
    Parts(Fixed(sequence, 8), Fixed(|ops|, 4), Body(ops));
    Log.Regroup(Fixed(n, 8), Fixed(|ops|, 4), Body(ops));
  }

  /** Patching the count and appending records. */
  lemma {:induction false} RepAppend(sequence: nat, ops: seq<Op>, more: seq<Op>, rep: Bytes, n: nat, tail: Bytes)
    requires sequence < WORD64 && |ops| < WORD32 && rep == Rep(sequence, ops) && tail == Body(more)
    requires n == |ops| + |more|
    ensures |rep| >= PREFIX
    ensures rep[..8] + Fixed(n, 4) + rep[PREFIX..] + tail == Rep(sequence, ops + more)
  {
    BodySum(ops, more);
    Patched(Fixed(sequence, 8), Fixed(|ops|, 4), Body(ops), Fixed(n, 4), tail);
    var all := ops + more;
    assert |all| == n;
    assert Rep(sequence, all) == Fixed(sequence, 8) + Fixed(n, 4) + Body(all);
  }

  lemma BodyOne(op: Op)
    ensures Body([op]) == OpBytes(op) && (AllFit([op]) <==> Fits(op))
  {
    assert [op][1..] == [];
    assert OpBytes(op) + [] == OpBytes(op);
  }

  class WriteBatch {
    var rep: Bytes
    ghost var sequence: nat
    ghost var ops: seq<Op>

    ghost predicate Valid()
      reads this
    {
      sequence < WORD64 && |ops| < WORD32 && AllFit(ops) && rep == Rep(sequence, ops)
    }

    constructor ()
      ensures Valid() && ops == [] && sequence == 0
    {
      rep := Fixed(0, 8) + Fixed(0, 4);
      sequence := 0;
      ops := [];
      new;
      assert rep + Body([]) == rep;
    }

    method SetSequence(n: nat)
      requires Valid() && n < WORD64
      modifies this
      ensures Valid() && ops == old(ops) && sequence == n
    {
      RepSet(sequence, ops, n);
      rep := Fixed(n, 8) + rep[8..];
      sequence := n;
    }

    /** Put and Delete: the count is patched in place and the record appended. */
    method Add(op: Op)
      requires Valid() && Fits(op) && |ops| + 1 < WORD32
      modifies this
      ensures Valid() && ops == old(ops) + [op] && sequence == old(sequence)
    {
      RepParts(sequence, ops, rep);
      BodyOne(op);
      RepAppend(sequence, ops, [op], rep, |ops| + 1, OpBytes(op));
      AllFitSum(ops, [op]);
      rep := rep[..8] + Fixed(Count(rep) + 1, 4) + rep[PREFIX..];
      rep := rep + OpBytes(op);
      ops := ops + [op];
    }

    method Append(source: WriteBatch)
      requires Valid() && source.Valid() && source != this && |ops| + |source.ops| < WORD32
      modifies this
      ensures Valid() && ops == old(ops) + source.ops && sequence == old(sequence)
    {
      RepParts(sequence, ops, rep);
      RepParts(source.sequence, source.ops, source.rep);
      AllFitSum(ops, source.ops);
      var count := Count(rep) + Count(source.rep);
      var records := source.rep[PREFIX..];
      RepAppend(sequence, ops, source.ops, rep, count, records);
      rep := rep[..8] + Fixed(count, 4) + rep[PREFIX..] + records;
      ops := ops + source.ops;
    }
  }

  // ----- recovery of one log

  /** What InsertInto adds to the memtable: operations numbered from the batch's sequence. */
  datatype Numbered = Numbered(sequence: nat, op: Op)

  function Number(sequence: nat, ops: seq<Op>): seq<Numbered>
    decreases |ops|
  {
    if ops == [] then [] else [Numbered(sequence, ops[0])] + Number(sequence + 1, ops[1..])
  }

  function Last(rep: Bytes): nat
    requires |rep| >= PREFIX
  {
    (Sequence(rep) + Count(rep) + WORD64 - 1) % WORD64
  }

  function Max(a: nat, b: nat): nat {
    if a < b then b else a
  }

  datatype Recovered = Recovered(entries: seq<Numbered>, maxSequence: nat, ok: bool)

  function After(entries: seq<Numbered>, r: Recovered): Recovered {
    r.(entries := entries + r.entries)
  }

  /** RecoverLogFile from position `p`. With paranoid checks any reported corruption
      stops it; otherwise corruption is skipped. */
  function Recover(crc: Log.Checksum, file: Bytes, p: nat, paranoid: bool, max: nat): Recovered
    requires p <= |file|
    decreases |file| - p
  {
    var r := Log.ReadLogical(crc, file, p, false, []);
    if paranoid && r.drops != [] then Recovered([], max, false)
    else if !r.found then Recovered([], max, true)
    else if |r.record| < PREFIX then
      if paranoid then Recovered([], max, false) else Recover(crc, file, r.next, paranoid, max)
    else
      var it := Iterated(r.record);
      var entries := Number(Sequence(r.record), it.ops);
      if paranoid && !it.ok then Recovered(entries, max, false)
      else After(entries, Recover(crc, file, r.next, paranoid, Max(max, Last(r.record))))
  }

  method RecoverLogFile(crc: Log.Checksum, file: Bytes, paranoid: bool, max: nat)
    returns (inserted: seq<Numbered>, maxSequence: nat, ok: bool)
    ensures Recovered(inserted, maxSequence, ok) == Recover(crc, file, 0, paranoid, max)
  {
    var reader := new Log.Reader(crc, file);
    inserted, maxSequence, ok := [], max, true;
    ghost var goal := Recover(crc, file, 0, paranoid, max);
    while true
      invariant fresh(reader) && reader.Valid() && reader.crc == crc && reader.file == file
      invariant goal == After(inserted, Recover(crc, file, reader.Pos(), paranoid, maxSequence))
      decreases |file| - reader.Pos()
    {
      ghost var p := reader.Pos();
      ghost var r := Log.ReadLogical(crc, file, p, false, []);
      var before := reader.drops;
      var found, record := reader.ReadRecord();
      RecoverStep(crc, file, p, paranoid, maxSequence, inserted, r);
      assert reader.drops == before <==> r.drops == [];
      if paranoid && reader.drops != before {
        return inserted, maxSequence, false;
      }
      if !found {
        return inserted, maxSequence, true;
      }
      if |record| < PREFIX {
        if paranoid {
          return inserted, maxSequence, false;
        }
      } else {
        var handled, good := Iterate(record);
        inserted := inserted + Number(Sequence(record), handled);
        if paranoid && !good {
          return inserted, maxSequence, false;
        }
        var last := Last(record);
        if last > maxSequence {
          maxSequence := last;
        }
      }
    }
  }

  /** One turn of the loop of RecoverLogFile. */
  lemma {:induction false} RecoverStep(
    crc: Log.Checksum, file: Bytes, p: nat, paranoid: bool, max: nat, done: seq<Numbered>, r: Log.Logical)
    requires p <= |file| && r == Log.ReadLogical(crc, file, p, false, [])
    ensures After(done, Recover(crc, file, p, paranoid, max)) ==
            if paranoid && r.drops != [] then Recovered(done, max, false)
            else if !r.found then Recovered(done, max, true)
            else if |r.record| < PREFIX then
              if paranoid then Recovered(done, max, false) else After(done, Recover(crc, file, r.next, paranoid, max))
            else
              var more := done + Number(Sequence(r.record), Iterated(r.record).ops);
              if paranoid && !Iterated(r.record).ok then Recovered(more, max, false)
              else After(more, Recover(crc, file, r.next, paranoid, Max(max, Last(r.record))))
  {
    assert done + [] == done;
    if r.found && |r.record| >= PREFIX && !(paranoid && (r.drops != [] || !Iterated(r.record).ok)) {
      var entries := Number(Sequence(r.record), Iterated(r.record).ops);
      AfterBoth(done, entries, Recover(crc, file, r.next, paranoid, Max(max, Last(r.record))));
    }
  }

  lemma AfterBoth(done: seq<Numbered>, entries: seq<Numbered>, r: Recovered)
    ensures After(done, After(entries, r)) == After(done + entries, r)
  {
    assert done + (entries + r.entries) == (done + entries) + r.entries;
  }

  // ----- recovery of any log

  /** What is inserted of the records of a log: of each that has a header, what its operations are. */
  function Inserted(records: seq<Bytes>): seq<Numbered> {
    if records == [] then []
    else
      (if |records[0]| < PREFIX then [] else Number(Sequence(records[0]), Iterated(records[0]).ops))
      + Inserted(records[1..])
  }

  /** The largest number that a record of the log ends with, or `max`. */
  ghost predicate IsLast(records: seq<Bytes>, max: nat, n: nat) {
    && n >= max && (forall r :: r in records && |r| >= PREFIX ==> Last(r) <= n)
    && (n == max || exists r :: r in records && |r| >= PREFIX && n == Last(r))
  }

  lemma LastStep(records: seq<Bytes>, max: nat, n: nat)
    requires records != []
    requires IsLast(records[1..], if |records[0]| < PREFIX then max else Max(max, Last(records[0])), n)
    ensures IsLast(records, max, n)
  {
    assert records == [records[0]] + records[1..];
  }

  /** Recovery of a log file of any bytes, by default: it succeeds, and whatever is damaged it inserts what
      the records have that the reader still returns. */
  lemma {:induction false} AnyLogRecovered(crc: Log.Checksum, file: Bytes, p: nat, max: nat)
    requires p <= |file|
    ensures var records, r := Log.ReadAll(crc, file, p).0, Recover(crc, file, p, false, max);
      r.ok && r.entries == Inserted(records) && IsLast(records, max, r.maxSequence)
    decreases |file| - p
  {
    var r := Log.ReadLogical(crc, file, p, false, []);
    if r.found {
      var records := Log.ReadAll(crc, file, p).0;
      assert records[1..] == Log.ReadAll(crc, file, r.next).0;
      var max' := if |r.record| < PREFIX then max else Max(max, Last(r.record));
      AnyLogRecovered(crc, file, r.next, max');
      LastStep(records, max, Recover(crc, file, r.next, false, max').maxSequence);
    }
  }

  /** With paranoid checks it succeeds if and only if nothing is lost and every batch is sound, and then
      does the same. */
  lemma {:induction false} ParanoidIff(crc: Log.Checksum, file: Bytes, p: nat, max: nat)
    requires p <= |file|
    ensures var (records, drops), r := Log.ReadAll(crc, file, p), Recover(crc, file, p, true, max);
      && (r.ok <==> drops == [] && forall x :: x in records ==> |x| >= PREFIX && Iterated(x).ok)
      && (r.ok ==> r == Recover(crc, file, p, false, max))
    decreases |file| - p
  {
    var r := Log.ReadLogical(crc, file, p, false, []);
    if r.found {
      var records := Log.ReadAll(crc, file, p).0;
      assert records == [r.record] + Log.ReadAll(crc, file, r.next).0;
      ParanoidIff(crc, file, r.next, if |r.record| < PREFIX then max else Max(max, Last(r.record)));
    }
  }

  // ----- recovery of a log of batches

  datatype Batch = Batch(sequence: nat, ops: seq<Op>)

  predicate BatchOk(b: Batch) {
    0 < b.sequence < WORD64 - WORD32 && |b.ops| < WORD32 && AllFit(b.ops)
  }

  function Reps(batches: seq<Batch>): (r: seq<Bytes>)
    ensures |r| == |batches|
  {
    if batches == [] then [] else [Rep(batches[0].sequence, batches[0].ops)] + Reps(batches[1..])
  }

  /** Every operation of the batches under its own sequence number. */
  function Entries(batches: seq<Batch>): seq<Numbered> {
    if batches == [] then [] else Number(batches[0].sequence, batches[0].ops) + Entries(batches[1..])
  }

  /** The last sequence number a batch uses. */
  function LastOf(b: Batch): int {
    b.sequence + |b.ops| - 1
  }

  function LastSequence(batches: seq<Batch>, max: nat): nat {
    if batches == [] then max
    else LastSequence(batches[1..], if max < LastOf(batches[0]) then LastOf(batches[0]) else max)
  }

  lemma {:induction false} RepsAt(batches: seq<Batch>, i: nat)
    requires i < |batches|
    ensures Reps(batches)[i] == Rep(batches[i].sequence, batches[i].ops)
  {
    if i > 0 {
      RepsAt(batches[1..], i - 1);
    }
  }

  lemma {:induction false} RepsTake(batches: seq<Batch>, k: nat)
    requires k <= |batches|
    ensures Reps(batches[..k]) == Reps(batches)[..k]
  {
    forall i | 0 <= i < k ensures Reps(batches[..k])[i] == Reps(batches)[..k][i] {
      RepsAt(batches[..k], i);
      RepsAt(batches, i);
    }
  }

  lemma LastOfRep(b: Batch)
    requires BatchOk(b)
    ensures |Rep(b.sequence, b.ops)| >= PREFIX && Last(Rep(b.sequence, b.ops)) == LastOf(b)
  {
    BatchRoundTrip(b.sequence, b.ops);
  }

  /** Recovery follows the records the reader returns, as long as none is lost. */
  lemma {:induction false} RecoverReads(
    crc: Log.Checksum, file: Bytes, p: nat, paranoid: bool, max: nat, batches: seq<Batch>)
    requires p <= |file| && (forall b :: b in batches ==> BatchOk(b))
    requires Log.ReadAll(crc, file, p) == (Reps(batches), [])
    ensures Recover(crc, file, p, paranoid, max) == Recovered(Entries(batches), LastSequence(batches, max), true)
    decreases |batches|
  {
    var r := Log.ReadLogical(crc, file, p, false, []);
    LogReplay.ReadAllHead(crc, file, p, Reps(batches), r);
    if batches != [] {
      var b := batches[0];
      assert b in batches && Reps(batches)[1..] == Reps(batches[1..]);
      BatchRoundTrip(b.sequence, b.ops);
      LastOfRep(b);
      RecoverReads(crc, file, r.next, paranoid, Max(max, Last(r.record)), batches[1..]);
    }
  }

  /** After a crash that keeps `n` bytes of a log, recovery inserts exactly the entries
      of the batches completely written by then, each under its original sequence
      number, with or without paranoid checks. */
  lemma {:induction false} RecoveredPrefix(crc: Log.Checksum, batches: seq<Batch>, n: nat, paranoid: bool, max: nat)
    requires forall b :: b in batches ==> BatchOk(b)
    requires n <= |Log.Written(crc, 0, Reps(batches))|
    ensures var k := LogReplay.Whole(crc, 0, Reps(batches), n);
            && Recover(crc, Log.Written(crc, 0, Reps(batches))[..n], 0, paranoid, max)
               == Recovered(Entries(batches[..k]), LastSequence(batches[..k], max), true)
            && |Log.Written(crc, 0, Reps(batches[..k]))| <= n
            && (k < |batches| ==> n < |Log.Written(crc, 0, Reps(batches[..k + 1]))|)
  {
    var records := Reps(batches);
    var written := Log.Written(crc, 0, records);
    var k := LogReplay.Whole(crc, 0, records, n);
    LogReplay.CrashPrefix(crc, [], records, n);
    assert [] + written == written;
    RepsTake(batches, k);
    if k < |batches| {
      RepsTake(batches, k + 1);
    }
    RecoverReads(crc, written[..n], 0, paranoid, max, batches[..k]);
  }

  // ----- recovery of a log after a failed append

  lemma AfterAll(a: seq<Numbered>, b: seq<Numbered>, r: Recovered)
    ensures After(a, After(b, r)) == After(a + b, r)
  {
    assert a + (b + r.entries) == (a + b) + r.entries;
  }

  lemma RecoversFirst(
    crc: Log.Checksum, file: Bytes, p: nat, paranoid: bool, max: nat, b: Batch, next: nat)
    requires BatchOk(b) && p < next <= |file|
    requires Log.ReadLogical(crc, file, p, false, []) == Log.Logical(true, Rep(b.sequence, b.ops), next, [])
    ensures Recover(crc, file, p, paranoid, max)
         == After(
           Number(b.sequence, b.ops), Recover(crc, file, next, paranoid, if max < LastOf(b) then LastOf(b) else max))
  {
    BatchRoundTrip(b.sequence, b.ops);
    LastOfRep(b);
  }

  /** Whatever follows them, batches that were logged whole are recovered, and recovery goes on
      behind them. */
  lemma {:induction false} RecoversThrough(
    crc: Log.Checksum, file: Bytes, p: nat, paranoid: bool, max: nat, batches: seq<Batch>, end: nat)
    requires p <= end <= |file| && forall b :: b in batches ==> BatchOk(b)
    requires LogReplay.At(file, p, Log.Written(crc, p, Reps(batches)))
    requires end == p + |Log.Written(crc, p, Reps(batches))|
    ensures Recover(crc, file, p, paranoid, max)
         == After(Entries(batches), Recover(crc, file, end, paranoid, LastSequence(batches, max)))
    decreases |batches|
  {
    if batches == [] {
      assert [] + Recover(crc, file, end, paranoid, max).entries == Recover(crc, file, end, paranoid, max).entries;
    } else {
      var b := batches[0];
      var next := LogReplay.ReadsFirst(crc, file, p, Reps(batches), end);
      assert b in batches && Reps(batches)[1..] == Reps(batches[1..]);
      var max' := if max < LastOf(b) then LastOf(b) else max;
      RecoversFirst(crc, file, p, paranoid, max, b, next);
      RecoversThrough(crc, file, next, paranoid, max', batches[1..], end);
      AfterAll(Number(b.sequence, b.ops), Entries(batches[1..]),
        Recover(crc, file, end, paranoid, LastSequence(batches, max)));
    }
  }

  /** The batches in front of a failed append are recovered, whatever it left in the file and
      whatever was appended later. */
  lemma {:induction false} RecoveredInFrontOfTear(
    crc: Log.Checksum, batches: seq<Batch>, z: Bytes, paranoid: bool, max: nat)
    requires forall b :: b in batches ==> BatchOk(b)
    ensures Entries(batches) <= Recover(crc, Log.Written(crc, 0, Reps(batches)) + z, 0, paranoid, max).entries
  {
    var w := Log.Written(crc, 0, Reps(batches));
    LogReplay.AtFront(w, z);
    RecoversThrough(crc, w + z, 0, paranoid, max, batches, |w|);
  }

  /** Those behind it may be gone, although nothing failed when they were appended, and nothing
      is reported: less has been written since the append of `a` failed than its header
      announces. */
  lemma LostBehindTear(
    crc: Log.Checksum, batches: seq<Batch>, a: Batch, cut: nat, b: Batch, room: nat, paranoid: bool, max: nat)
    requires forall x :: x in batches ==> BatchOk(x)
    requires Log.HEADER <= cut
    requires Log.HEADER + |Rep(a.sequence, a.ops)| <= Log.Leftover(|Log.Written(crc, 0, Reps(batches))|)
    requires var later := |LogReplay.Behind(crc, Reps(batches), Rep(a.sequence, a.ops), Rep(b.sequence, b.ops))|;
      later <= room && cut + later < Log.HEADER + |Rep(a.sequence, a.ops)|
    ensures var (failed, next) := LogReplay.WrittenOn(crc, Reps(batches), Rep(a.sequence, a.ops), cut,
      Rep(b.sequence, b.ops), room);
      && !failed.ok && next.ok
      && Recover(crc, next.dest, 0, paranoid, max) == Recovered(Entries(batches), LastSequence(batches, max), true)
  {
    var repA, repB := Rep(a.sequence, a.ops), Rep(b.sequence, b.ops);
    LogReplay.LostBehindTear(crc, Reps(batches), repA, cut, repB, room);
    RecoverReads(crc, LogReplay.WrittenOn(crc, Reps(batches), repA, cut, repB, room).1.dest, 0, paranoid, max, batches);
  }
}
