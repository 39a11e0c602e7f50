/** Recovery of the version set: the manifest log is read back and its edits are
    applied in one builder. */
module Manifest {
  import opened Options
  import opened Coding
  import opened VersionEdits
  import opened VersionBuilders
  import Log
  import LogReplay

  // ----- edits seen from one level

  function DeletedAt(ds: seq<Deleted>, level: nat): set<nat> {
    set d | d in ds && d.level == level :: d.number
  }

  function AddedAt(as': seq<Added<Bytes>>, level: nat): seq<File> {
    if as' == [] then []
    else AddedAt(as'[..|as'| - 1], level) + (if as'[|as'| - 1].level == level then [as'[|as'| - 1].file] else [])
  }

  function AtLevel(e: VersionEdit<Bytes>, level: nat): LevelEdit {
    LevelEdit(DeletedAt(e.deleted, level), AddedAt(e.added, level))
  }

  predicate LevelsExist(e: VersionEdit<Bytes>) {
    && (forall i :: 0 <= i < |e.deleted| ==> e.deleted[i].level < NUM_LEVELS)
    && (forall i :: 0 <= i < |e.added| ==> e.added[i].level < NUM_LEVELS)
  }

  function ApplyEdit(o: Order, levels: seq<LevelState>, e: VersionEdit<Bytes>): (r: seq<LevelState>)
    ensures |r| == |levels| && forall l :: 0 <= l < |levels| ==> r[l] == ApplyLevel(o, levels[l], AtLevel(e, l))
  {
    seq(|levels|, l requires 0 <= l < |levels| => ApplyLevel(o, levels[l], AtLevel(e, l)))
  }

  // ----- the builder

  class Builder {
    const before: (Bytes, Bytes) -> bool
    const base: seq<seq<File>>
    var levels: seq<LevelState>

    constructor (o: Order, base: seq<seq<File>>)
      requires |base| == NUM_LEVELS
      ensures before == o && this.base == base && levels == seq(NUM_LEVELS, _ => FRESH)
    {
      before := o;
      this.base := base;
      levels := seq(NUM_LEVELS, _ => FRESH);
    }

    method Apply(edit: VersionEdit<Bytes>, ghost o: Order)
      requires o == before && |levels| == NUM_LEVELS && LevelsExist(edit)
      modifies this
      ensures levels == ApplyEdit(o, old(levels), edit)
    {
      var deleted := ApplyDeletes(levels, edit.deleted);
      levels := ApplyAdds(before, deleted, edit.added, o);
    }

    static method ApplyDeletes(levels: seq<LevelState>, ds: seq<Deleted>) returns (now: seq<LevelState>)
      requires |levels| == NUM_LEVELS && forall i :: 0 <= i < |ds| ==> ds[i].level < NUM_LEVELS
      ensures |now| == NUM_LEVELS
      ensures forall l :: 0 <= l < NUM_LEVELS ==> now[l] == levels[l].(deleted := levels[l].deleted + DeletedAt(ds, l))
    {
      now := levels;
      var i := 0;
      while i < |ds|
        invariant 0 <= i <= |ds| && |now| == NUM_LEVELS
        invariant forall l :: 0 <= l < NUM_LEVELS ==>
          now[l] == levels[l].(deleted := levels[l].deleted + DeletedAt(ds[..i], l))
      {
        var d := ds[i];
        forall l | 0 <= l < NUM_LEVELS
          ensures DeletedAt(ds[..i + 1], l) == DeletedAt(ds[..i], l) + (if l == d.level then {d.number} else {})
        {
          assert ds[..i + 1] == ds[..i] + [d];
        }
        now := now[d.level := now[d.level].(deleted := now[d.level].deleted + {d.number})];
        i := i + 1;
      }
      assert ds[..|ds|] == ds;
    }

    static method ApplyAdds(
      before: (Bytes, Bytes) -> bool, levels: seq<LevelState>, as': seq<Added<Bytes>>, ghost o: Order)
      returns (now: seq<LevelState>)
      requires o == before && |levels| == NUM_LEVELS && forall i :: 0 <= i < |as'| ==> as'[i].level < NUM_LEVELS
      ensures |now| == NUM_LEVELS
      ensures forall l :: 0 <= l < NUM_LEVELS ==> now[l] == Grown(o, levels[l], AddedAt(as', l))
    {
      now := levels;
      var i := 0;
      while i < |as'|
        invariant 0 <= i <= |as'| && |now| == NUM_LEVELS
        invariant forall l :: 0 <= l < NUM_LEVELS ==> now[l] == Grown(o, levels[l], AddedAt(as'[..i], l))
      {
        var a := as'[i];
        forall l | 0 <= l < NUM_LEVELS
          ensures AddedAt(as'[..i + 1], l) == AddedAt(as'[..i], l) + (if l == a.level then [a.file] else [])
        {
          assert as'[..i + 1][..i] == as'[..i];
        }
        GrownMore(o, levels[a.level], AddedAt(as'[..i], a.level), a.file);
        forall l | 0 <= l < NUM_LEVELS && l != a.level ensures AddedAt(as'[..i + 1], l) == AddedAt(as'[..i], l) {
          assert AddedAt(as'[..i], l) + [] == AddedAt(as'[..i], l);
        }
        var st := now[a.level];
        now := now[a.level := LevelState(st.deleted - {a.file.number}, InsertFile(before, st.added, a.file))];
        i := i + 1;
      }
      assert as'[..|as'|] == as';
    }

    /** Every level: base and added files merged, without the deleted ones. */
    method SaveTo(ghost o: Order) returns (v: seq<seq<File>>)
      requires o == before && |levels| == |base| == NUM_LEVELS
      ensures |v| == NUM_LEVELS && forall l :: 0 <= l < NUM_LEVELS ==> v[l] == Saved(o, base[l], levels[l])
    {
      v := [];
      var level := 0;
      while level < NUM_LEVELS
        invariant 0 <= level <= NUM_LEVELS && |v| == level
        invariant forall l :: 0 <= l < level ==> v[l] == Saved(o, base[l], levels[l])
      {
        var files := SaveLevel(base[level], levels[level], o);
        v := v + [files];
        level := level + 1;
      }
    }

    method SaveLevel(baseFiles: seq<File>, st: LevelState, ghost o: Order) returns (files: seq<File>)
      requires o == before
      ensures files == Saved(o, baseFiles, st)
    {
      files := [];
      var b, a := 0, 0;
      while a < |st.added|
        invariant 0 <= b <= |baseFiles| && 0 <= a <= |st.added|
        invariant files + Keep(Merge(o, baseFiles[b..], st.added[a..]), st.deleted) == Saved(o, baseFiles, st)
      {
        var f := st.added[a];
        while b < |baseFiles| && !FileBefore(before, f, baseFiles[b])
          invariant 0 <= b <= |baseFiles| && a < |st.added| && f == st.added[a]
          invariant files + Keep(Merge(o, baseFiles[b..], st.added[a..]), st.deleted) == Saved(o, baseFiles, st)
        {
          MergeBase(o, baseFiles[b..], st.added[a..], files, st.deleted);
          files := MaybeAddFile(files, baseFiles[b], st.deleted);
          assert baseFiles[b..][1..] == baseFiles[b + 1..];
          b := b + 1;
        }
        MergeAdded(o, baseFiles[b..], st.added[a..], files, st.deleted);
        files := MaybeAddFile(files, f, st.deleted);
        assert st.added[a..][1..] == st.added[a + 1..];
        a := a + 1;
      }
      while b < |baseFiles|
        invariant 0 <= b <= |baseFiles|
        invariant files + Keep(baseFiles[b..], st.deleted) == Saved(o, baseFiles, st)
      {
        KeepFirst(baseFiles[b..], files, st.deleted);
        files := MaybeAddFile(files, baseFiles[b], st.deleted);
        assert baseFiles[b..][1..] == baseFiles[b + 1..];
        b := b + 1;
      }
    }

    static method MaybeAddFile(files: seq<File>, f: File, deleted: set<nat>) returns (r: seq<File>)
      ensures r == files + (if f.number in deleted then [] else [f])
    {
      if f.number in deleted {
        r := files;
      } else {
        r := files + [f];
      }
    }
  }

  ghost function Grown(o: Order, st: LevelState, fs: seq<File>): LevelState {
    LevelState(st.deleted - Numbers(fs), InsertAll(o, st.added, fs))
  }

  lemma {:induction false} InsertAllLast(o: Order, fs: seq<File>, more: seq<File>, f: File)
    ensures InsertAll(o, fs, more + [f]) == InsertFile(o, InsertAll(o, fs, more), f)
    decreases |more|
  {
    if more == [] {
      assert [] + [f] == [f] && [f][1..] == [];
    } else {
      assert (more + [f])[1..] == more[1..] + [f];
      InsertAllLast(o, InsertFile(o, fs, more[0]), more[1..], f);
    }
  }

  lemma {:induction false} GrownMore(o: Order, st: LevelState, fs: seq<File>, f: File)
    ensures var g := Grown(o, st, fs);
            Grown(o, st, fs + [f]) == LevelState(g.deleted - {f.number}, InsertFile(o, g.added, f))
  {
    InsertAllLast(o, st.added, fs, f);
    assert Numbers(fs + [f]) == Numbers(fs) + {f.number};
  }

  lemma Regroup(a: seq<File>, b: seq<File>, c: seq<File>)
    ensures a + (b + c) == (a + b) + c
  {
  }

  lemma {:induction false} KeepFirst(fs: seq<File>, done: seq<File>, deleted: set<nat>)
    requires fs != []
    ensures done + Keep(fs, deleted)
      == (done + (if fs[0].number in deleted then [] else [fs[0]])) + Keep(fs[1..], deleted)
  {
    Regroup(done, if fs[0].number in deleted then [] else [fs[0]], Keep(fs[1..], deleted));
  }

  lemma {:induction false} MergeBase(o: Order, base: seq<File>, added: seq<File>, done: seq<File>, deleted: set<nat>)
    requires base != [] && added != [] && !FileBefore(o, added[0], base[0])
    ensures done + Keep(Merge(o, base, added), deleted)
         == (done + (if base[0].number in deleted then [] else [base[0]])) + Keep(Merge(o, base[1..], added), deleted)
  {
    var m := Merge(o, base, added);
    assert m[1..] == Merge(o, base[1..], added);
    KeepFirst(m, done, deleted);
  }

  lemma {:induction false} MergeAdded(o: Order, base: seq<File>, added: seq<File>, done: seq<File>, deleted: set<nat>)
    requires added != [] && (base == [] || FileBefore(o, added[0], base[0]))
    ensures done + Keep(Merge(o, base, added), deleted)
         == (done + (if added[0].number in deleted then [] else [added[0]])) + Keep(Merge(o, base, added[1..]), deleted)
  {
    var m := Merge(o, base, added);
    assert m[1..] == Merge(o, base, added[1..]);
    KeepFirst(m, done, deleted);
  }

  // ----- recovery

  /** What recovery has gathered from the edits read so far. */
  datatype Progress = Progress(
    levels: seq<LevelState>, logNumber: Option<nat>, prevLogNumber: Option<nat>, nextFile: Option<nat>,
    lastSequence: Option<nat>)

  function Newer(old': Option<nat>, seen: Option<nat>): Option<nat> {
    if seen.Some? then seen else old'
  }

  function Note(o: Order, p: Progress, e: VersionEdit<Bytes>): Progress {
    Progress(ApplyEdit(o, p.levels, e), Newer(p.logNumber, e.logNumber), Newer(p.prevLogNumber, e.prevLogNumber),
             Newer(p.nextFile, e.nextFile), Newer(p.lastSequence, e.lastSequence))
  }

  function NoteAll(o: Order, p: Progress, es: seq<VersionEdit<Bytes>>): Progress
    decreases |es|
  {
    if es == [] then p else NoteAll(o, Note(o, p, es[0]), es[1..])
  }

  predicate SameComparator(e: VersionEdit<Bytes>, name: Bytes) {
    e.comparator.Some? ==> e.comparator.value == name
  }

  /** The reading loop of VersionSet::Recover from position `pos`; none on corruption. */
  function Replay(o: Order, crc: Log.Checksum, file: Bytes, pos: nat, name: Bytes, p: Progress): Option<Progress>
    requires pos <= |file|
    decreases |file| - pos
  {
    var r := Log.ReadLogical(crc, file, pos, false, []);
    if r.drops != [] then None
    else if !r.found then Some(p)
    else
      var d := Decoded(EMPTY, r.record);
      if !d.ok || !SameComparator(d.edit, name) then None
      else Replay(o, crc, file, r.next, name, Note(o, p, d.edit))
  }

  datatype Recovered = Recovered(
    version: seq<seq<File>>, logNumber: nat, prevLogNumber: nat, nextFile: nat, lastSequence: nat)

  const START: Progress := Progress(seq(NUM_LEVELS, _ => FRESH), None, None, None, None)

  /** The recovered version set, if the manifest names what it must. */
  ghost predicate IsRecovered(o: Order, p: Progress, r: Recovered)
    requires |p.levels| == NUM_LEVELS
  {
    && p.nextFile.Some? && p.logNumber.Some? && p.lastSequence.Some?
    && r.logNumber == p.logNumber.value && r.nextFile == p.nextFile.value && r.lastSequence == p.lastSequence.value
    && r.prevLogNumber == (if p.prevLogNumber.Some? then p.prevLogNumber.value else 0)
    && |r.version| == NUM_LEVELS && forall l :: 0 <= l < NUM_LEVELS ==> r.version[l] == Saved(o, [], p.levels[l])
  }

  lemma {:induction false} DecodedLevels(e: VersionEdit<Bytes>, s: Bytes)
    requires LevelsExist(e)
    ensures LevelsExist(DecodeFields(e, s).edit)
    decreases |s|
  {
    if GetVarint32(s).Some? {
      var (tag, rest) := GetVarint32(s).value;
      ReadVarintConsumes(s, 5);
      PayloadConsumes(tag, rest);
      if GetPayload(tag, rest).Some? {
        var (f, rest') := GetPayload(tag, rest).value;
        if f.DeletedField? {
          InsertLevels(e.deleted, f.d);
        }
        DecodedLevels(Set(e, f), rest');
      }
    }
  }

  lemma {:induction false} InsertLevels(ds: seq<Deleted>, d: Deleted)
    requires d.level < NUM_LEVELS && forall i :: 0 <= i < |ds| ==> ds[i].level < NUM_LEVELS
    ensures forall i :: 0 <= i < |Insert(ds, d)| ==> Insert(ds, d)[i].level < NUM_LEVELS
  {
    if ds != [] {
      InsertLevels(ds[1..], d);
    }
  }

  method Recover(before: (Bytes, Bytes) -> bool, crc: Log.Checksum, file: Bytes, name: Bytes, ghost o: Order)
    returns (r: Option<Recovered>)
    requires o == before
    ensures var p := Replay(o, crc, file, 0, name, START);
            match r
            case None => p.None? || p.value.nextFile.None? || p.value.logNumber.None? || p.value.lastSequence.None?
            case Some(got) => p.Some? && |p.value.levels| == NUM_LEVELS && IsRecovered(o, p.value, got)
  {
    var reader := new Log.Reader(crc, file);
    var builder := new Builder(before, seq(NUM_LEVELS, _ => []));
    var logNumber, prevLogNumber, nextFile, lastSequence: Option<nat> := None, None, None, None;
    ghost var p := START;
    while true
      invariant fresh(reader) && reader.Valid() && reader.crc == crc && reader.file == file
      invariant fresh(builder) && builder.before == o && builder.base == seq(NUM_LEVELS, _ => [])
      invariant |builder.levels| == NUM_LEVELS
      invariant p == Progress(builder.levels, logNumber, prevLogNumber, nextFile, lastSequence)
      invariant Replay(o, crc, file, 0, name, START) == Replay(o, crc, file, reader.Pos(), name, p)
      decreases |file| - reader.Pos()
    {
      var drops := reader.drops;
      ghost var read := Log.ReadLogical(crc, file, reader.Pos(), false, []);
      var found, record := reader.ReadRecord();
      assert reader.drops == drops <==> read.drops == [];
      if reader.drops != drops {
        return None;
      }
      if !found {
        break;
      }
      var edit, ok := DecodeFrom(EMPTY, record);
      if !ok || !SameComparator(edit, name) {
        return None;
      }
      DecodedLevels(Cleared(EMPTY), record);
      p := Note(o, p, edit);
      builder.Apply(edit, o);
      logNumber := Newer(logNumber, edit.logNumber);
      prevLogNumber := Newer(prevLogNumber, edit.prevLogNumber);
      nextFile := Newer(nextFile, edit.nextFile);
      lastSequence := Newer(lastSequence, edit.lastSequence);
    }
    if nextFile.None? || logNumber.None? || lastSequence.None? {
      return None;
    }
    var version := builder.SaveTo(o);
    return Some(Recovered(version, logNumber.value, if prevLogNumber.Some? then prevLogNumber.value else 0,
                          nextFile.value, lastSequence.value));
  }

  // ----- recovery gives what the running database had

  function Encodings(es: seq<VersionEdit<Bytes>>): (r: seq<Bytes>)
    ensures |r| == |es| && forall i :: 0 <= i < |es| ==> r[i] == Encoded(es[i])
  {
    seq(|es|, i requires 0 <= i < |es| => Encoded(es[i]))
  }

  function Project(es: seq<VersionEdit<Bytes>>, level: nat): (r: seq<LevelEdit>)
    ensures |r| == |es| && forall i :: 0 <= i < |es| ==> r[i] == AtLevel(es[i], level)
  {
    seq(|es|, i requires 0 <= i < |es| => AtLevel(es[i], level))
  }

  /** An edit that was logged: its numbers fit, its deletions are a set in order, and it
      names no other comparator. */
  ghost predicate EditOk(e: VersionEdit<Bytes>, name: Bytes) {
    AllFit(Fields(e)) && InOrder(e.deleted) && SameComparator(e, name)
  }

  lemma {:induction false} ReplayEdits(
    o: Order, crc: Log.Checksum, file: Bytes, pos: nat, name: Bytes, p: Progress, es: seq<VersionEdit<Bytes>>)
    requires pos <= |file| && Log.ReadAll(crc, file, pos) == (Encodings(es), [])
    requires forall i :: 0 <= i < |es| ==> EditOk(es[i], name)
    ensures Replay(o, crc, file, pos, name, p) == Some(NoteAll(o, p, es))
    decreases |es|
  {
    var r := Log.ReadLogical(crc, file, pos, false, []);
    LogReplay.ReadAllHead(crc, file, pos, Encodings(es), r);
    if es != [] {
      EditRoundTrip(EMPTY, es[0]);
      assert Encodings(es)[1..] == Encodings(es[1..]);
      ReplayEdits(o, crc, file, r.next, name, Note(o, p, es[0]), es[1..]);
    }
  }

  lemma {:induction false} LevelsOf(o: Order, p: Progress, es: seq<VersionEdit<Bytes>>, level: nat)
    requires level < |p.levels|
    ensures level < |NoteAll(o, p, es).levels|
    ensures NoteAll(o, p, es).levels[level] == ApplyAll(o, p.levels[level], Project(es, level))
    decreases |es|
  {
    if es != [] {
      assert Project(es, level)[1..] == Project(es[1..], level);
      LevelsOf(o, Note(o, p, es[0]), es[1..], level);
    }
  }

  /** After a crash that keeps `n` bytes of the manifest, recovery has gone through exactly
      the edits that were completely logged by then. */
  lemma {:induction false} RecoveryReplaysPrefix(
    o: Order, crc: Log.Checksum, name: Bytes, es: seq<VersionEdit<Bytes>>, n: nat)
    requires forall i :: 0 <= i < |es| ==> EditOk(es[i], name)
    requires n <= |Log.Written(crc, 0, Encodings(es))|
    ensures var k := LogReplay.Whole(crc, 0, Encodings(es), n);
            k <= |es| && Replay(o, crc, Log.Written(crc, 0, Encodings(es))[..n], 0, name, START)
              == Some(NoteAll(o, START, es[..k]))
  {
    var records := Encodings(es);
    var written := Log.Written(crc, 0, records);
    var k := LogReplay.Whole(crc, 0, records, n);
    LogReplay.CrashPrefix(crc, [], records, n);
    assert [] + written == written;
    assert records[..k] == Encodings(es[..k]);
    ReplayEdits(o, crc, written[..n], 0, name, START, es[..k]);
  }

  /** On a level it rebuilds the very list of files the running database had, with each
      edit applied on top of the version before, if and only if the edits of that level
      are reproducible, as they are when no number is reused. */
  lemma {:induction false} RecoveryRebuildsVersion(o: Order, es: seq<VersionEdit<Bytes>>, level: nat)
    requires level < NUM_LEVELS
    ensures var p := NoteAll(o, START, es);
            && level < |p.levels|
            && (Saved(o, [], p.levels[level]) == StepAll(o, [], Project(es, level)) <==>
                 Reproducible(Project(es, level)))
    ensures AddedOnce({}, Project(es, level)) ==> Reproducible(Project(es, level))
  {
    LevelsOf(o, START, es, level);
    OneBuilderIff(o, Project(es, level));
    if AddedOnce({}, Project(es, level)) {
      OneBuilderIsEnough(o, Project(es, level));
    }
  }

  // ----- which files it ends with

  ghost predicate Adds(e: VersionEdit<Bytes>, level: nat, f: File) {
    Added(level, f) in e.added
  }

  /** The edit deletes the number from the level and does not add it there again. */
  ghost predicate Removes(e: VersionEdit<Bytes>, level: nat, n: nat) {
    && Deleted(level, n) in e.deleted
    && forall a :: a in e.added && a.level == level ==> a.file.number != n
  }

  /** The edit adds no two files with one number to the level. */
  ghost predicate AddsApart(e: VersionEdit<Bytes>, level: nat) {
    forall i, j :: 0 <= i < j < |e.added| && e.added[i].level == level == e.added[j].level ==>
      e.added[i].file.number != e.added[j].file.number
  }

  lemma {:induction false} AddedMembers(as': seq<Added<Bytes>>, level: nat, f: File)
    ensures f in AddedAt(as', level) <==> Added(level, f) in as'
  {
    if as' != [] {
      AddedMembers(as'[..|as'| - 1], level, f);
      assert as' == as'[..|as'| - 1] + [as'[|as'| - 1]];
    }
  }

  lemma {:induction false} AddedApart(as': seq<Added<Bytes>>, level: nat)
    requires forall i, j :: 0 <= i < j < |as'| && as'[i].level == level == as'[j].level ==>
      as'[i].file.number != as'[j].file.number
    ensures VersionBuilders.DistinctNumbers(AddedAt(as', level))
  {
    if as' != [] {
      var front := as'[..|as'| - 1];
      AddedApart(front, level);
      forall i | 0 <= i < |AddedAt(front, level)| && as'[|as'| - 1].level == level
        ensures AddedAt(front, level)[i].number != as'[|as'| - 1].file.number
      {
        AddedMembers(front, level, AddedAt(front, level)[i]);
      }
    }
  }

  lemma {:induction false} EditAtLevel(e: VersionEdit<Bytes>, level: nat, f: File)
    requires AddsApart(e, level)
    ensures Kills(AtLevel(e, level), f.number) <==> Removes(e, level, f.number)
    ensures FirstLike(AtLevel(e, level).added, f) == Some(f) <==> Adds(e, level, f)
  {
    var fs := AddedAt(e.added, level);
    AddedMembers(e.added, level, f);
    AddedApart(e.added, level);
    if f in fs {
      DistinctFirst(fs, f);
    }
    forall g ensures g in fs <==> Added(level, g) in e.added {
      AddedMembers(e.added, level, g);
    }
    if f.number in Numbers(fs) {
      var g :| g in fs && g.number == f.number;
      assert Added(level, g) in e.added;
    }
    forall a | a in e.added && a.level == level && a.file.number == f.number ensures f.number in Numbers(fs) {
      assert Added(level, a.file) == a && a.file in fs;
    }
  }

  ghost predicate NeverRemoved(es: seq<VersionEdit<Bytes>>, level: nat, n: nat, from: nat) {
    forall j :: from <= j < |es| ==> !Removes(es[j], level, n)
  }

  /** Some edit adds the file, and none behind it removes its number. */
  ghost predicate Stays(es: seq<VersionEdit<Bytes>>, level: nat, f: File) {
    exists i :: 0 <= i < |es| && Adds(es[i], level, f) && NeverRemoved(es, level, f.number, i + 1)
  }

  lemma StaysFirst(es: seq<VersionEdit<Bytes>>, level: nat, f: File)
    requires es != []
    ensures Stays(es, level, f) <==>
      Stays(es[1..], level, f) || (Adds(es[0], level, f) && NeverRemoved(es[1..], level, f.number, 0))
    ensures NeverRemoved(es, level, f.number, 0) <==>
      !Removes(es[0], level, f.number) && NeverRemoved(es[1..], level, f.number, 0)
  {
    var rest := es[1..];
    if Stays(es, level, f) {
      var i :| 0 <= i < |es| && Adds(es[i], level, f) && NeverRemoved(es, level, f.number, i + 1);
      assert forall j :: i <= j < |rest| ==> rest[j] == es[j + 1];
      if i > 0 {
        assert rest[i - 1] == es[i] && NeverRemoved(rest, level, f.number, i);
      }
    }
    if Stays(rest, level, f) {
      var i :| 0 <= i < |rest| && Adds(rest[i], level, f) && NeverRemoved(rest, level, f.number, i + 1);
      forall j | i + 2 <= j < |es| ensures !Removes(es[j], level, f.number) {
        assert rest[j - 1] == es[j];
      }
      assert es[i + 1] == rest[i] && NeverRemoved(es, level, f.number, i + 2);
    }
    forall j | 1 <= j < |es| ensures es[j] == rest[j - 1] {
    }
    if NeverRemoved(rest, level, f.number, 0) && Adds(es[0], level, f) {
      assert NeverRemoved(es, level, f.number, 1);
    }
  }

  lemma {:induction false} SteppedFiles(
    o: Order, v: seq<File>, es: seq<VersionEdit<Bytes>>, level: nat, f: File)
    requires NonDecreasing(o, v) && forall i :: 0 <= i < |es| ==> AddsApart(es[i], level)
    ensures f in StepAll(o, v, Project(es, level)) <==>
      (f in v && NeverRemoved(es, level, f.number, 0)) || Stays(es, level, f)
    decreases |es|
  {
    if es != [] {
      var e := AtLevel(es[0], level);
      var v' := Saved(o, v, ApplyLevel(o, FRESH, e));
      EditAtLevel(es[0], level, f);
      VersionCounts(o, v, e, f);
      assert f in v' <==> multiset(v')[f] > 0;
      assert f in v <==> multiset(v)[f] > 0;
      KillsNone(e, f);
      assert Project(es, level)[1..] == Project(es[1..], level) && Project(es, level)[0] == e;
      SteppedFiles(o, v', es[1..], level, f);
      StaysFirst(es, level, f);
    }
  }

  /** Where the edits of a level are reproducible, the recovered level has exactly the files that
      some edit adds there and that no later one removes. */
  lemma {:induction false} RecoveredFiles(o: Order, es: seq<VersionEdit<Bytes>>, level: nat, f: File)
    requires level < NUM_LEVELS && forall i :: 0 <= i < |es| ==> AddsApart(es[i], level)
    requires Reproducible(Project(es, level))
    ensures var p := NoteAll(o, START, es);
      level < |p.levels| && (f in Saved(o, [], p.levels[level]) <==> Stays(es, level, f))
  {
    RecoveryRebuildsVersion(o, es, level);
    SteppedFiles(o, [], es, level, f);
  }

  // ----- which numbers it goes on with

  /** Edit `i` is the last one that has the number, and says `n`; or no edit has it. */
  ghost predicate LastSays(es: seq<VersionEdit<Bytes>>, number: VersionEdit<Bytes> -> Option<nat>, n: Option<nat>) {
    if n.None? then forall i :: 0 <= i < |es| ==> number(es[i]).None?
    else exists i :: 0 <= i < |es| && number(es[i]) == n && forall j :: i < j < |es| ==> number(es[j]).None?
  }

  /** `last` is what a later edit says, or else what an earlier one said. */
  lemma LastOfMore(
    es: seq<VersionEdit<Bytes>>, e: VersionEdit<Bytes>, number: VersionEdit<Bytes> -> Option<nat>, n: Option<nat>)
    requires LastSays(es, number, n)
    ensures LastSays(es + [e], number, if number(e).Some? then number(e) else n)
  {
    var all := es + [e];
    assert all[|es|] == e && forall i :: 0 <= i < |es| ==> all[i] == es[i];
    if number(e).None? && n.Some? {
      var i :| 0 <= i < |es| && number(es[i]) == n && forall j :: i < j < |es| ==> number(es[j]).None?;
      assert number(all[i]) == n;
    }
  }

  lemma {:induction false} NoteAllOne(o: Order, p: Progress, es: seq<VersionEdit<Bytes>>)
    requires es != []
    ensures NoteAll(o, p, es) == Note(o, NoteAll(o, p, es[..|es| - 1]), es[|es| - 1])
    decreases |es|
  {
    var front := es[..|es| - 1];
    if front == [] {
      assert es[1..] == [];
    } else {
      assert es[1..][..|es[1..]| - 1] == front[1..];
      NoteAllOne(o, Note(o, p, es[0]), es[1..]);
    }
  }

  /** Each of the four numbers is the one that the last edit with such a number gives. */
  lemma {:induction false} LastEditDecides(o: Order, es: seq<VersionEdit<Bytes>>)
    ensures var p := NoteAll(o, START, es);
      && LastSays(es, (e: VersionEdit<Bytes>) => e.logNumber, p.logNumber)
      && LastSays(es, (e: VersionEdit<Bytes>) => e.prevLogNumber, p.prevLogNumber)
      && LastSays(es, (e: VersionEdit<Bytes>) => e.nextFile, p.nextFile)
      && LastSays(es, (e: VersionEdit<Bytes>) => e.lastSequence, p.lastSequence)
    decreases |es|
  {
    if es != [] {
      var front, e := es[..|es| - 1], es[|es| - 1];
      var p := NoteAll(o, START, front);
      LastEditDecides(o, front);
      NoteAllOne(o, START, es);
      assert es == front + [e];
      LastOfMore(front, e, (e: VersionEdit<Bytes>) => e.logNumber, p.logNumber);
      LastOfMore(front, e, (e: VersionEdit<Bytes>) => e.prevLogNumber, p.prevLogNumber);
      LastOfMore(front, e, (e: VersionEdit<Bytes>) => e.nextFile, p.nextFile);
      LastOfMore(front, e, (e: VersionEdit<Bytes>) => e.lastSequence, p.lastSequence);
    }
  }

  /** The recovered version set goes on with the last numbers that the edits name, not with those
      of an earlier one. */
  lemma {:induction false} RecoveredNumbers(o: Order, es: seq<VersionEdit<Bytes>>, r: Recovered)
    requires var p := NoteAll(o, START, es); |p.levels| == NUM_LEVELS && IsRecovered(o, p, r)
    ensures LastSays(es, (e: VersionEdit<Bytes>) => e.logNumber, Some(r.logNumber))
    ensures LastSays(es, (e: VersionEdit<Bytes>) => e.nextFile, Some(r.nextFile))
    ensures LastSays(es, (e: VersionEdit<Bytes>) => e.lastSequence, Some(r.lastSequence))
    ensures LastSays(es, (e: VersionEdit<Bytes>) => e.prevLogNumber, Some(r.prevLogNumber))
      || (r.prevLogNumber == 0 && LastSays(es, (e: VersionEdit<Bytes>) => e.prevLogNumber, None))
  {
    LastEditDecides(o, es);
  }

  // ----- the manifest behind a failed append

  /** Records that were written whole are gone through, whatever follows them. */
  lemma {:induction false} ReplayThrough(
    o: Order, crc: Log.Checksum, file: Bytes, pos: nat, name: Bytes, p: Progress, es: seq<VersionEdit<Bytes>>, end: nat)
    requires pos <= end <= |file| && LogReplay.At(file, pos, Log.Written(crc, pos, Encodings(es)))
    requires end == pos + |Log.Written(crc, pos, Encodings(es))|
    requires forall i :: 0 <= i < |es| ==> EditOk(es[i], name)
    ensures Replay(o, crc, file, pos, name, p) == Replay(o, crc, file, end, name, NoteAll(o, p, es))
    decreases |es|
  {
    if es != [] {
      var next := LogReplay.ReadsFirst(crc, file, pos, Encodings(es), end);
      EditRoundTrip(EMPTY, es[0]);
      assert Encodings(es)[1..] == Encodings(es[1..]);
      ReplayThrough(o, crc, file, next, name, Note(o, p, es[0]), es[1..], end);
    }
  }

  /** A manifest file in which the append of `a` failed behind its header, with `found` behind
      that header now: the rest of what got in and whatever was appended later. */
  predicate TornManifest(crc: Log.Checksum, es: seq<VersionEdit<Bytes>>, a: Bytes, found: Bytes, file: Bytes) {
    var w := Log.Written(crc, 0, Encodings(es));
    Log.HEADER + |a| <= Log.Leftover(|w|) && file == w + Log.Header(crc, Log.FULL, a) + found
  }

  lemma TornFile(w: Bytes, header: Bytes, found: Bytes, file: Bytes)
    requires file == w + header + found
    ensures |w| <= |file| && file[|w|..] == header + found && file == w + (header + found)
  {
  }

  lemma {:induction false} ReplayToTear(
    o: Order, crc: Log.Checksum, es: seq<VersionEdit<Bytes>>, name: Bytes, a: Bytes, found: Bytes, file: Bytes,
    w: Bytes)
    requires TornManifest(crc, es, a, found, file) && w == Log.Written(crc, 0, Encodings(es))
    requires forall i :: 0 <= i < |es| ==> EditOk(es[i], name)
    ensures |w| <= |file| && file[|w|..] == Log.Header(crc, Log.FULL, a) + found
    ensures Replay(o, crc, file, 0, name, START) == Replay(o, crc, file, |w|, name, NoteAll(o, START, es))
  {
    TornFile(w, Log.Header(crc, Log.FULL, a), found, file);
    LogReplay.AtFront(w, Log.Header(crc, Log.FULL, a) + found);
    ReplayThrough(o, crc, file, 0, name, START, es, |w|);
  }

  lemma {:induction false} EndReplayed(o: Order, crc: Log.Checksum, file: Bytes, pos: nat, name: Bytes, p: Progress)
    requires pos <= |file| && Log.ReadAll(crc, file, pos) == ([], [])
    ensures Replay(o, crc, file, pos, name, p) == Some(p)
  {
    LogReplay.ReadAllHead(crc, file, pos, [], Log.ReadLogical(crc, file, pos, false, []));
  }

  /** As long as less is found than the header announces, recovery ends in front of it, as if
      nothing had been appended since. */
  lemma {:induction false} TornUnread(
    o: Order, crc: Log.Checksum, es: seq<VersionEdit<Bytes>>, name: Bytes, a: Bytes, found: Bytes, file: Bytes)
    requires TornManifest(crc, es, a, found, file) && |found| < |a|
    requires forall i :: 0 <= i < |es| ==> EditOk(es[i], name)
    ensures Replay(o, crc, file, 0, name, START) == Some(NoteAll(o, START, es))
  {
    var w := Log.Written(crc, 0, Encodings(es));
    ReplayToTear(o, crc, es, name, a, found, file, w);
    LogReplay.EndsAtHeader(crc, file, |w|, Log.FULL, a);
    EndReplayed(o, crc, file, |w|, name, NoteAll(o, START, es));
  }

  lemma {:induction false} LossFails(o: Order, crc: Log.Checksum, file: Bytes, pos: nat, name: Bytes, p: Progress)
    requires pos <= |file| && Log.ReadLogical(crc, file, pos, false, []).drops != []
    ensures Replay(o, crc, file, pos, name, p) == None
  {
  }

  lemma {:induction false} RecordReplayed(
    o: Order, crc: Log.Checksum, file: Bytes, pos: nat, name: Bytes, p: Progress, record: Bytes, next: nat)
    requires pos < next <= |file| && Log.ReadLogical(crc, file, pos, false, []) == Log.Logical(true, record, next, [])
    ensures var d := Decoded(EMPTY, record);
      Replay(o, crc, file, pos, name, p)
      == if !d.ok || !SameComparator(d.edit, name) then None else Replay(o, crc, file, next, name, Note(o, p, d.edit))
  {
  }

  /** Once enough is found, recovery fails, unless that passes for the record announced. */
  lemma {:induction false} TornFails(
    o: Order, crc: Log.Checksum, es: seq<VersionEdit<Bytes>>, name: Bytes, a: Bytes, found: Bytes, file: Bytes)
    requires TornManifest(crc, es, a, found, file) && |a| <= |found| && !LogReplay.Passes(crc, a, found)
    requires forall i :: 0 <= i < |es| ==> EditOk(es[i], name)
    ensures Replay(o, crc, file, 0, name, START) == None
  {
    var w := Log.Written(crc, 0, Encodings(es));
    ReplayToTear(o, crc, es, name, a, found, file, w);
    LogReplay.FoundBehind(crc, file, |w|, a, found, Log.ReadLogical(crc, file, |w|, false, []));
    LossFails(o, crc, file, |w|, name, NoteAll(o, START, es));
  }

  /** If it does, recovery goes on with it. */
  lemma {:induction false} TornRead(
    o: Order, crc: Log.Checksum, es: seq<VersionEdit<Bytes>>, name: Bytes, a: Bytes, found: Bytes, file: Bytes,
    next: nat)
    requires TornManifest(crc, es, a, found, file) && |a| <= |found| && LogReplay.Passes(crc, a, found)
    requires next == |Log.Written(crc, 0, Encodings(es))| + Log.HEADER + |a|
    requires forall i :: 0 <= i < |es| ==> EditOk(es[i], name)
    ensures next <= |file|
    ensures var d := Decoded(EMPTY, found[..|a|]);
      Replay(o, crc, file, 0, name, START)
      == if !d.ok || !SameComparator(d.edit, name) then None
         else Replay(o, crc, file, next, name, Note(o, NoteAll(o, START, es), d.edit))
  {
    var w := Log.Written(crc, 0, Encodings(es));
    ReplayToTear(o, crc, es, name, a, found, file, w);
    LogReplay.FoundBehind(crc, file, |w|, a, found, Log.ReadLogical(crc, file, |w|, false, []));
    assert |file| == |w| + Log.HEADER + |found|;
    RecordReplayed(o, crc, file, |w|, name, NoteAll(o, START, es), found[..|a|], next);
  }

  /** So, of bytes that do not pass for the record: recovery fails exactly once as much as the
      header announces has been written behind it, by appends that failed or not; until then it
      goes through exactly the records before. */
  lemma {:induction false} TornFailsIff(
    o: Order, crc: Log.Checksum, es: seq<VersionEdit<Bytes>>, name: Bytes, a: Bytes, found: Bytes, file: Bytes)
    requires TornManifest(crc, es, a, found, file)
    requires forall i :: 0 <= i < |es| ==> EditOk(es[i], name)
    requires |a| <= |found| ==> !LogReplay.Passes(crc, a, found)
    ensures Replay(o, crc, file, 0, name, START) == None <==> |a| <= |found|
    ensures Replay(o, crc, file, 0, name, START) != None ==>
      Replay(o, crc, file, 0, name, START) == Some(NoteAll(o, START, es))
  {
    if |found| < |a| {
      TornUnread(o, crc, es, name, a, found, file);
    } else {
      TornFails(o, crc, es, name, a, found, file);
    }
  }
}
