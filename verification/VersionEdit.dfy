/** Version edits and their byte form in the manifest. */
module VersionEdits {
  import opened Options
  import opened Coding

  const NUM_LEVELS: nat := 7

  datatype FileMeta<K> = FileMeta(number: nat, size: nat, smallest: K, largest: K)

  datatype Pointer<K> = Pointer(level: nat, key: K)
  datatype Deleted = Deleted(level: nat, number: nat)
  datatype Added<K> = Added(level: nat, file: FileMeta<K>)

  /** `deleted` is a set kept in order. */
  datatype VersionEdit<K> = VersionEdit(
    comparator: Option<Bytes>, logNumber: Option<nat>, prevLogNumber: Option<nat>, nextFile: Option<nat>,
    lastSequence: Option<nat>,
    pointers: seq<Pointer<K>>, deleted: seq<Deleted>, added: seq<Added<K>>)

  /** A fresh edit. */
  const EMPTY: VersionEdit<Bytes> := VersionEdit(None, None, None, None, None, [], [], [])

  /** VersionEdit::Clear, which leaves the compaction pointers. */
  function Cleared(e: VersionEdit<Bytes>): VersionEdit<Bytes> {
    EMPTY.(pointers := e.pointers)
  }

  // ----- the fields of the encoding

  datatype Field =
    | ComparatorField(name: Bytes) | LogNumberField(n: nat) | PrevLogNumberField(n: nat)
    | NextFileField(n: nat) | LastSequenceField(n: nat)
    | PointerField(p: Pointer<Bytes>) | DeletedField(d: Deleted) | AddedField(a: Added<Bytes>)

  function TagOf(f: Field): nat {
    match f
    case ComparatorField(_) => 1
    case LogNumberField(_) => 2
    case NextFileField(_) => 3
    case LastSequenceField(_) => 4
    case PointerField(_) => 5
    case DeletedField(_) => 6
    case AddedField(_) => 7
    case PrevLogNumberField(_) => 9
  }

  function Payload(f: Field): Bytes {
    match f
    case ComparatorField(name) => LengthPrefixed(name)
    case LogNumberField(n) => Varint(n)
    case PrevLogNumberField(n) => Varint(n)
    case NextFileField(n) => Varint(n)
    case LastSequenceField(n) => Varint(n)
    case PointerField(p) => Varint(p.level) + LengthPrefixed(p.key)
    case DeletedField(d) => Varint(d.level) + Varint(d.number)
    case AddedField(a) =>
      Varint(a.level) + (Varint(a.file.number)
        + (Varint(a.file.size) + (LengthPrefixed(a.file.smallest) + LengthPrefixed(a.file.largest))))
  }

  function FieldBytes(f: Field): (r: Bytes)
    ensures |r| > 0
  {
    Varint(TagOf(f)) + Payload(f)
  }

  /** Numbers fit their widths and levels exist. */
  predicate FieldFits(f: Field) {
    match f
    case ComparatorField(name) => |name| < WORD32
    case LogNumberField(n) => n < WORD64
    case PrevLogNumberField(n) => n < WORD64
    case NextFileField(n) => n < WORD64
    case LastSequenceField(n) => n < WORD64
    case PointerField(p) => p.level < NUM_LEVELS && |p.key| < WORD32
    case DeletedField(d) => d.level < NUM_LEVELS && d.number < WORD64
    case AddedField(a) =>
      && a.level < NUM_LEVELS && a.file.number < WORD64 && a.file.size < WORD64
      && |a.file.smallest| < WORD32 && |a.file.largest| < WORD32
  }

  function GetLevel(s: Bytes): Option<(nat, Bytes)> {
    match GetVarint32(s)
    case None => None
    case Some((v, rest)) => if v < NUM_LEVELS then Some((v, rest)) else None
  }

  /** The payload of a known tag. */
  function GetPayload(tag: nat, s: Bytes): Option<(Field, Bytes)> {
    match tag
    case 1 =>
      (match GetLengthPrefixed(s)
       case None => None
       case Some((name, rest)) => Some((ComparatorField(name), rest)))
    case 2 => (match GetVarint64(s) case None => None case Some((n, rest)) => Some((LogNumberField(n), rest)))
    case 9 => (match GetVarint64(s) case None => None case Some((n, rest)) => Some((PrevLogNumberField(n), rest)))
    case 3 => (match GetVarint64(s) case None => None case Some((n, rest)) => Some((NextFileField(n), rest)))
    case 4 => (match GetVarint64(s) case None => None case Some((n, rest)) => Some((LastSequenceField(n), rest)))
    case 5 => GetPointer(s)
    case 6 => GetDeleted(s)
    case 7 => GetAdded(s)
    case _ => None
  }

  function GetPointer(s: Bytes): Option<(Field, Bytes)> {
    match GetLevel(s)
    case None => None
    case Some((level, s1)) =>
      match GetLengthPrefixed(s1)
      case None => None
      case Some((key, s2)) => Some((PointerField(Pointer(level, key)), s2))
  }

  function GetDeleted(s: Bytes): Option<(Field, Bytes)> {
    match GetLevel(s)
    case None => None
    case Some((level, s1)) =>
      match GetVarint64(s1)
      case None => None
      case Some((number, s2)) => Some((DeletedField(Deleted(level, number)), s2))
  }

  function GetAdded(s: Bytes): Option<(Field, Bytes)> {
    match GetLevel(s)
    case None => None
    case Some((level, s1)) =>
      match GetVarint64(s1)
      case None => None
      case Some((number, s2)) =>
        match GetVarint64(s2)
        case None => None
        case Some((size, s3)) =>
          match GetLengthPrefixed(s3)
          case None => None
          case Some((smallest, s4)) =>
            match GetLengthPrefixed(s4)
            case None => None
            case Some((largest, s5)) => Some((AddedField(Added(level, FileMeta(number, size, smallest, largest))), s5))
  }

  // ----- round trip of one field

  lemma {:induction false} LevelRoundTrip(level: nat, rest: Bytes)
    requires level < NUM_LEVELS
    ensures GetLevel(Varint(level) + rest) == Some((level, rest))
  {
    Varint32RoundTrip(level, rest);
  }

  lemma PointerRoundTrip(p: Pointer<Bytes>, rest: Bytes)
    requires FieldFits(PointerField(p))
    ensures GetPointer(Payload(PointerField(p)) + rest) == Some((PointerField(p), rest))
  {
    var key := LengthPrefixed(p.key);
    assert Varint(p.level) + key + rest == Varint(p.level) + (key + rest);
    LevelRoundTrip(p.level, key + rest);
    LengthPrefixedRoundTrip(p.key, rest);
  }

  lemma DeletedRoundTrip(d: Deleted, rest: Bytes)
    requires FieldFits(DeletedField(d))
    ensures GetDeleted(Payload(DeletedField(d)) + rest) == Some((DeletedField(d), rest))
  {
    assert Varint(d.level) + Varint(d.number) + rest == Varint(d.level) + (Varint(d.number) + rest);
    LevelRoundTrip(d.level, Varint(d.number) + rest);
    Varint64RoundTrip(d.number, rest);
  }

  lemma Shift(a: Bytes, b: Bytes, rest: Bytes)
    ensures (a + b) + rest == a + (b + rest)
  {
  }

  lemma AddedRoundTrip(a: Added<Bytes>, rest: Bytes)
    requires FieldFits(AddedField(a))
    ensures GetAdded(Payload(AddedField(a)) + rest) == Some((AddedField(a), rest))
  {
    var f := a.file;
    var keys := LengthPrefixed(f.smallest) + LengthPrefixed(f.largest);
    var sized := Varint(f.size) + keys;
    var numbered := Varint(f.number) + sized;
    Shift(Varint(a.level), numbered, rest);
    LevelRoundTrip(a.level, numbered + rest);
    Shift(Varint(f.number), sized, rest);
    Varint64RoundTrip(f.number, sized + rest);
    Shift(Varint(f.size), keys, rest);
    Varint64RoundTrip(f.size, keys + rest);
    Shift(LengthPrefixed(f.smallest), LengthPrefixed(f.largest), rest);
    LengthPrefixedRoundTrip(f.smallest, LengthPrefixed(f.largest) + rest);
    LengthPrefixedRoundTrip(f.largest, rest);
  }

  lemma PayloadRoundTrip(f: Field, rest: Bytes)
    requires FieldFits(f)
    ensures GetPayload(TagOf(f), Payload(f) + rest) == Some((f, rest))
  {
    match f
    case ComparatorField(name) => LengthPrefixedRoundTrip(name, rest);
    case LogNumberField(n) => Varint64RoundTrip(n, rest);
    case PrevLogNumberField(n) => Varint64RoundTrip(n, rest);
    case NextFileField(n) => Varint64RoundTrip(n, rest);
    case LastSequenceField(n) => Varint64RoundTrip(n, rest);
    case PointerField(p) => PointerRoundTrip(p, rest);
    case DeletedField(d) => DeletedRoundTrip(d, rest);
    case AddedField(a) => AddedRoundTrip(a, rest);
  }

  // ----- whole edits

  /** A set kept in order, as std::set is: by level, then number. */
  predicate Earlier(a: Deleted, b: Deleted) {
    a.level < b.level || (a.level == b.level && a.number < b.number)
  }

  function Insert(ds: seq<Deleted>, d: Deleted): seq<Deleted> {
    if ds == [] then [d]
    else if ds[0] == d then ds
    else if Earlier(d, ds[0]) then [d] + ds
    else [ds[0]] + Insert(ds[1..], d)
  }

  ghost predicate InOrder(ds: seq<Deleted>) {
    forall i, j :: 0 <= i < j < |ds| ==> Earlier(ds[i], ds[j])
  }

  /** Inserting adds the one element and keeps the order, so that no element is there twice. */
  lemma {:induction false} InsertIs(ds: seq<Deleted>, d: Deleted)
    requires InOrder(ds)
    ensures InOrder(Insert(ds, d)) && forall x :: x in Insert(ds, d) <==> x in ds || x == d
  {
    if ds != [] && ds[0] != d && !Earlier(d, ds[0]) {
      InsertIs(ds[1..], d);
      assert ds == [ds[0]] + ds[1..];
      assert forall x :: x in ds[1..] ==> Earlier(ds[0], x);
      var more := Insert(ds[1..], d);
      assert forall j :: 0 <= j < |more| ==> more[j] in more && Earlier(ds[0], more[j]);
    }
  }

  /** What one decoded field does to the edit. */
  function Set(e: VersionEdit<Bytes>, f: Field): VersionEdit<Bytes> {
    match f
    case ComparatorField(name) => e.(comparator := Some(name))
    case LogNumberField(n) => e.(logNumber := Some(n))
    case PrevLogNumberField(n) => e.(prevLogNumber := Some(n))
    case NextFileField(n) => e.(nextFile := Some(n))
    case LastSequenceField(n) => e.(lastSequence := Some(n))
    case PointerField(p) => e.(pointers := e.pointers + [p])
    case DeletedField(d) => e.(deleted := Insert(e.deleted, d))
    case AddedField(a) => e.(added := e.added + [a])
  }

  function SetAll(e: VersionEdit<Bytes>, fs: seq<Field>): VersionEdit<Bytes>
    decreases |fs|
  {
    if fs == [] then e else SetAll(Set(e, fs[0]), fs[1..])
  }

  function Concat(fs: seq<Field>): Bytes {
    if fs == [] then [] else FieldBytes(fs[0]) + Concat(fs[1..])
  }

  function One(present: bool, f: Field): seq<Field> {
    if present then [f] else []
  }

  function Number(o: Option<nat>): nat {
    if o.Some? then o.value else 0
  }

  function PointerFields(ps: seq<Pointer<Bytes>>): (r: seq<Field>)
    ensures |r| == |ps| && forall i :: 0 <= i < |ps| ==> r[i] == PointerField(ps[i])
  {
    seq(|ps|, i requires 0 <= i < |ps| => PointerField(ps[i]))
  }

  function DeletedFields(ds: seq<Deleted>): (r: seq<Field>)
    ensures |r| == |ds| && forall i :: 0 <= i < |ds| ==> r[i] == DeletedField(ds[i])
  {
    seq(|ds|, i requires 0 <= i < |ds| => DeletedField(ds[i]))
  }

  function AddedFields(as': seq<Added<Bytes>>): (r: seq<Field>)
    ensures |r| == |as'| && forall i :: 0 <= i < |as'| ==> r[i] == AddedField(as'[i])
  {
    seq(|as'|, i requires 0 <= i < |as'| => AddedField(as'[i]))
  }

  function HeadFields(e: VersionEdit<Bytes>): seq<Field> {
    One(e.comparator.Some?, ComparatorField(if e.comparator.Some? then e.comparator.value else []))
    + One(e.logNumber.Some?, LogNumberField(Number(e.logNumber)))
    + One(e.prevLogNumber.Some?, PrevLogNumberField(Number(e.prevLogNumber)))
    + One(e.nextFile.Some?, NextFileField(Number(e.nextFile)))
    + One(e.lastSequence.Some?, LastSequenceField(Number(e.lastSequence)))
  }

  /** The fields in the order EncodeTo writes them. */
  function Fields(e: VersionEdit<Bytes>): seq<Field> {
    HeadFields(e) + PointerFields(e.pointers) + DeletedFields(e.deleted) + AddedFields(e.added)
  }

  function Encoded(e: VersionEdit<Bytes>): Bytes {
    Concat(Fields(e))
  }

  method EncodeTo(e: VersionEdit<Bytes>) returns (dst: Bytes)
    ensures dst == Encoded(e)
  {
    var comparator := ComparatorField(if e.comparator.Some? then e.comparator.value else []);
    ghost var f0 := One(e.comparator.Some?, comparator);
    ghost var f1 := f0 + One(e.logNumber.Some?, LogNumberField(Number(e.logNumber)));
    ghost var f2 := f1 + One(e.prevLogNumber.Some?, PrevLogNumberField(Number(e.prevLogNumber)));
    ghost var f3 := f2 + One(e.nextFile.Some?, NextFileField(Number(e.nextFile)));
    ghost var f4 := HeadFields(e) + PointerFields(e.pointers);
    assert [] + f0 == f0;
    dst := AppendOne([], [], e.comparator.Some?, comparator);
    dst := AppendOne(dst, f0, e.logNumber.Some?, LogNumberField(Number(e.logNumber)));
    dst := AppendOne(dst, f1, e.prevLogNumber.Some?, PrevLogNumberField(Number(e.prevLogNumber)));
    dst := AppendOne(dst, f2, e.nextFile.Some?, NextFileField(Number(e.nextFile)));
    dst := AppendOne(dst, f3, e.lastSequence.Some?, LastSequenceField(Number(e.lastSequence)));
    dst := AppendAll(dst, HeadFields(e), PointerFields(e.pointers));
    dst := AppendAll(dst, f4, DeletedFields(e.deleted));
    dst := AppendAll(dst, f4 + DeletedFields(e.deleted), AddedFields(e.added));
  }

  method AppendOne(dst: Bytes, ghost before: seq<Field>, present: bool, f: Field) returns (r: Bytes)
    requires dst == Concat(before)
    ensures r == Concat(before + One(present, f))
  {
    OneMore(before, present, f);
    r := if present then dst + FieldBytes(f) else dst;
  }

  method AppendAll(dst: Bytes, ghost before: seq<Field>, fs: seq<Field>) returns (r: Bytes)
    requires dst == Concat(before)
    ensures r == Concat(before + fs)
  {
    r := dst;
    var i := 0;
    assert before + fs[..0] == before;
    while i < |fs|
      invariant 0 <= i <= |fs| && r == Concat(before + fs[..i])
    {
      NextAppended(before, fs, i);
      r := r + FieldBytes(fs[i]);
      i := i + 1;
    }
    assert fs[..|fs|] == fs;
  }

  lemma {:induction false} NextAppended(before: seq<Field>, fs: seq<Field>, i: nat)
    requires i < |fs|
    ensures Concat(before + fs[..i + 1]) == Concat(before + fs[..i]) + FieldBytes(fs[i])
  {
    assert before + fs[..i + 1] == (before + fs[..i]) + [fs[i]];
    OneMore(before + fs[..i], true, fs[i]);
  }

  lemma {:induction false} ConcatSum(a: seq<Field>, b: seq<Field>)
    ensures Concat(a + b) == Concat(a) + Concat(b)
  {
    if a == [] {
      assert a + b == b;
    } else {
      var first, rest := FieldBytes(a[0]), Concat(a[1..]);
      assert (a + b)[0] == a[0] && (a + b)[1..] == a[1..] + b;
      ConcatSum(a[1..], b);
      Shift(first, rest, Concat(b));
    }
  }

  lemma ConcatOne(f: Field)
    ensures Concat([f]) == FieldBytes(f)
  {
    assert [f][1..] == [];
    assert FieldBytes(f) + [] == FieldBytes(f);
  }

  lemma {:induction false} OneMore(a: seq<Field>, present: bool, f: Field)
    ensures Concat(a + One(present, f)) == if present then Concat(a) + FieldBytes(f) else Concat(a)
  {
    if present {
      ConcatSum(a, [f]);
      ConcatOne(f);
    } else {
      assert a + [] == a;
    }
  }

  // ----- decoding

  lemma PayloadConsumes(tag: nat, s: Bytes)
    ensures GetPayload(tag, s).Some? ==> |GetPayload(tag, s).value.1| <= |s|
  {
    ReadVarintConsumes(s, 10);
    ReadVarintConsumes(s, 5);
    GetLengthPrefixedConsumes(s);
    if GetLevel(s).Some? {
      var s1 := GetLevel(s).value.1;
      ReadVarintConsumes(s1, 10);
      GetLengthPrefixedConsumes(s1);
      if tag == 7 && GetVarint64(s1).Some? {
        AddedConsumes(GetVarint64(s1).value.1);
      }
    }
  }

  lemma AddedConsumes(s2: Bytes)
    ensures GetVarint64(s2).Some? ==>
              var s3 := GetVarint64(s2).value.1;
              && |s3| <= |s2|
              && (GetLengthPrefixed(s3).Some? ==>
                    var s4 := GetLengthPrefixed(s3).value.1;
                    && |s4| <= |s3|
                    && (GetLengthPrefixed(s4).Some? ==> |GetLengthPrefixed(s4).value.1| <= |s4|))
  {
    ReadVarintConsumes(s2, 10);
    if GetVarint64(s2).Some? {
      var s3 := GetVarint64(s2).value.1;
      GetLengthPrefixedConsumes(s3);
      if GetLengthPrefixed(s3).Some? {
        GetLengthPrefixedConsumes(GetLengthPrefixed(s3).value.1);
      }
    }
  }

  datatype DecodeResult = DecodeResult(edit: VersionEdit<Bytes>, ok: bool)

  function DecodeFields(e: VersionEdit<Bytes>, s: Bytes): DecodeResult
    decreases |s|
  {
    match GetVarint32(s)
    case None => DecodeResult(e, s == [])
    case Some((tag, rest)) =>
      ReadVarintConsumes(s, 5);
      PayloadConsumes(tag, rest);
      match GetPayload(tag, rest)
      case None => DecodeResult(e, false)
      case Some((f, rest')) => DecodeFields(Set(e, f), rest')
  }

  /** VersionEdit::DecodeFrom on an edit object `e`. */
  function Decoded(e: VersionEdit<Bytes>, src: Bytes): DecodeResult {
    DecodeFields(Cleared(e), src)
  }

  method DecodeFrom(e: VersionEdit<Bytes>, src: Bytes) returns (edit: VersionEdit<Bytes>, ok: bool)
    ensures DecodeResult(edit, ok) == Decoded(e, src)
  {
    edit := Cleared(e);
    var input := src;
    while true
      invariant DecodeFields(edit, input) == Decoded(e, src)
      decreases |input|
    {
      var tag := GetVarint32(input);
      if tag.None? {
        return edit, input == [];
      }
      ReadVarintConsumes(input, 5);
      var (number, rest) := tag.value;
      PayloadConsumes(number, rest);
      var field := GetPayload(number, rest);
      if field.None? {
        return edit, false;
      }
      edit := Set(edit, field.value.0);
      input := field.value.1;
    }
  }

  /** A field stands at the start of the input, with `next` behind it. */
  ghost predicate Begins(s: Bytes, f: Field, next: Bytes) {
    exists behind :: GetVarint32(s) == Some((TagOf(f), behind)) && GetPayload(TagOf(f), behind) == Some((f, next))
  }

  ghost predicate Spelt(s: Bytes, fs: seq<Field>, rest: Bytes)
    decreases |fs|
  {
    if fs == [] then s == rest else exists next :: Begins(s, fs[0], next) && Spelt(next, fs[1..], rest)
  }

  lemma PayloadTag(tag: nat, s: Bytes)
    ensures GetPayload(tag, s).Some? ==> TagOf(GetPayload(tag, s).value.0) == tag
  {
  }

  /** Whatever bytes an edit is decoded from, it gets the fields that stand in them up to the first place
      where none does; decoding succeeds if that is the end. */
  lemma DecodedIs(e: VersionEdit<Bytes>, s: Bytes) returns (fs: seq<Field>, rest: Bytes)
    ensures Spelt(s, fs, rest) && DecodeFields(e, s) == DecodeResult(SetAll(e, fs), rest == [])
    ensures rest != [] ==> forall f, next :: !Begins(rest, f, next)
    decreases |s|
  {
    fs, rest := [], s;
    if GetVarint32(s).Some? {
      var (tag, behind) := GetVarint32(s).value;
      ReadVarintConsumes(s, 5);
      PayloadConsumes(tag, behind);
      PayloadTag(tag, behind);
      if GetPayload(tag, behind).Some? {
        var (f, next) := GetPayload(tag, behind).value;
        var more;
        more, rest := DecodedIs(Set(e, f), next);
        fs := [f] + more;
        assert fs[1..] == more;
      }
    }
  }

  // ----- round trip

  ghost predicate AllFit(fs: seq<Field>) {
    forall f :: f in fs ==> FieldFits(f)
  }

  lemma {:induction false} FieldsRoundTrip(e: VersionEdit<Bytes>, fs: seq<Field>)
    requires AllFit(fs)
    ensures DecodeFields(e, Concat(fs)) == DecodeResult(SetAll(e, fs), true)
    decreases |fs|
  {
    if fs != [] {
      var f, rest := fs[0], Concat(fs[1..]);
      Shift(Varint(TagOf(f)), Payload(f), rest);
      Varint32RoundTrip(TagOf(f), Payload(f) + rest);
      PayloadRoundTrip(f, rest);
      FieldsRoundTrip(Set(e, f), fs[1..]);
    }
  }

  lemma {:induction false} SetAllSum(e: VersionEdit<Bytes>, a: seq<Field>, b: seq<Field>)
    ensures SetAll(e, a + b) == SetAll(SetAll(e, a), b)
    decreases |a|
  {
    if a == [] {
      assert a + b == b;
    } else {
      assert (a + b)[1..] == a[1..] + b;
      SetAllSum(Set(e, a[0]), a[1..], b);
    }
  }

  lemma {:induction false} SetPointers(e: VersionEdit<Bytes>, ps: seq<Pointer<Bytes>>)
    ensures SetAll(e, PointerFields(ps)) == e.(pointers := e.pointers + ps)
    decreases |ps|
  {
    if ps == [] {
      assert e.pointers + [] == e.pointers;
    } else {
      assert PointerFields(ps)[1..] == PointerFields(ps[1..]);
      SetPointers(e.(pointers := e.pointers + [ps[0]]), ps[1..]);
      assert e.pointers + [ps[0]] + ps[1..] == e.pointers + ps;
    }
  }

  lemma {:induction false} SetAdded(e: VersionEdit<Bytes>, as': seq<Added<Bytes>>)
    ensures SetAll(e, AddedFields(as')) == e.(added := e.added + as')
    decreases |as'|
  {
    if as' == [] {
      assert e.added + [] == e.added;
    } else {
      assert AddedFields(as')[1..] == AddedFields(as'[1..]);
      SetAdded(e.(added := e.added + [as'[0]]), as'[1..]);
      assert e.added + [as'[0]] + as'[1..] == e.added + as';
    }
  }

  lemma {:induction false} InsertLast(ds: seq<Deleted>, d: Deleted)
    requires forall i :: 0 <= i < |ds| ==> Earlier(ds[i], d)
    ensures Insert(ds, d) == ds + [d]
  {
    if ds != [] {
      InsertLast(ds[1..], d);
    }
  }

  lemma {:induction false} SetDeleted(e: VersionEdit<Bytes>, ds: seq<Deleted>)
    requires InOrder(e.deleted + ds)
    ensures SetAll(e, DeletedFields(ds)) == e.(deleted := e.deleted + ds)
    decreases |ds|
  {
    if ds == [] {
      assert e.deleted + [] == e.deleted;
    } else {
      assert DeletedFields(ds)[1..] == DeletedFields(ds[1..]);
      assert (e.deleted + ds)[|e.deleted|] == ds[0];
      forall i | 0 <= i < |e.deleted| ensures Earlier(e.deleted[i], ds[0]) {
        assert (e.deleted + ds)[i] == e.deleted[i];
      }
      InsertLast(e.deleted, ds[0]);
      assert e.deleted + [ds[0]] + ds[1..] == e.deleted + ds;
      SetDeleted(e.(deleted := e.deleted + [ds[0]]), ds[1..]);
    }
  }

  lemma {:induction false} SetOne(e: VersionEdit<Bytes>, a: seq<Field>, present: bool, f: Field)
    ensures SetAll(e, a + One(present, f)) == if present then Set(SetAll(e, a), f) else SetAll(e, a)
  {
    SetAllSum(e, a, One(present, f));
  }

  lemma SetHead(e: VersionEdit<Bytes>, to: VersionEdit<Bytes>)
    ensures SetAll(Cleared(e), HeadFields(to)) == to.(pointers := e.pointers, deleted := [], added := [])
  {
    var x := Cleared(e);
    var c := ComparatorField(if to.comparator.Some? then to.comparator.value else []);
    var f0 := One(to.comparator.Some?, c);
    var f1 := f0 + One(to.logNumber.Some?, LogNumberField(Number(to.logNumber)));
    var f2 := f1 + One(to.prevLogNumber.Some?, PrevLogNumberField(Number(to.prevLogNumber)));
    var f3 := f2 + One(to.nextFile.Some?, NextFileField(Number(to.nextFile)));
    assert [] + f0 == f0;
    SetOne(x, [], to.comparator.Some?, c);
    SetOne(x, f0, to.logNumber.Some?, LogNumberField(Number(to.logNumber)));
    SetOne(x, f1, to.prevLogNumber.Some?, PrevLogNumberField(Number(to.prevLogNumber)));
    SetOne(x, f2, to.nextFile.Some?, NextFileField(Number(to.nextFile)));
    SetOne(x, f3, to.lastSequence.Some?, LastSequenceField(Number(to.lastSequence)));
  }

  lemma SetFields(e: VersionEdit<Bytes>, edit: VersionEdit<Bytes>)
    requires InOrder(edit.deleted)
    ensures SetAll(Cleared(e), Fields(edit)) == edit.(pointers := e.pointers + edit.pointers)
  {
    var head, ps, ds, as' := HeadFields(edit), PointerFields(edit.pointers), DeletedFields(edit.deleted),
      AddedFields(edit.added);
    var x := Cleared(e);
    SetAllSum(x, head + ps + ds, as');
    SetAllSum(x, head + ps, ds);
    SetAllSum(x, head, ps);
    SetHead(e, edit);
    var x1 := edit.(pointers := e.pointers, deleted := [], added := []);
    SetPointers(x1, edit.pointers);
    var x2 := x1.(pointers := e.pointers + edit.pointers);
    assert [] + edit.deleted == edit.deleted;
    SetDeleted(x2, edit.deleted);
    assert [] + edit.added == edit.added;
    SetAdded(x2.(deleted := edit.deleted), edit.added);
  }

  /** Decoding an encoded edit gives it back, except that compaction pointers already in
      the object stay in front: the edit comes back unchanged exactly when there were none. */
  lemma EditRoundTrip(e: VersionEdit<Bytes>, edit: VersionEdit<Bytes>)
    requires AllFit(Fields(edit)) && InOrder(edit.deleted)
    ensures Decoded(e, Encoded(edit)) == DecodeResult(edit.(pointers := e.pointers + edit.pointers), true)
    ensures Decoded(e, Encoded(edit)).edit == edit <==> e.pointers == []
  {
    FieldsRoundTrip(Cleared(e), Fields(edit));
    SetFields(e, edit);
    if e.pointers + edit.pointers == edit.pointers {
      assert |e.pointers| == 0;
    }
    if e.pointers == [] {
      assert e.pointers + edit.pointers == edit.pointers;
    }
  }
}
