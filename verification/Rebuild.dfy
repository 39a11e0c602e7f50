/** The records of a manifest file over whole runs: no table comes to a level twice, so that the
    one builder of a recovery rebuilds the very levels that the records describe. */
module Rebuilds {
  import opened Options
  import opened Keys
  import opened Version
  import opened Inputs
  import opened Selection
  import opened Compaction
  import opened Install
  import opened Flush
  import opened Disks
  import opened Durability
  import opened Coding
  import L = Lsm
  import VE = VersionEdits
  import VB = VersionBuilders
  import M = Manifest

  // ----- the records of the current manifest file

  /** What NewDB writes. */
  const NEW_DB: Edit := Edit({}, {}, 0, 2, 0, {})

  /** What the first record of a new manifest file holds. */
  function SnapshotEdit(mf: Manifest): Edit {
    Edit({}, mf.files, mf.logNumber, mf.nextFile, mf.lastSequence, {})
  }

  /** What recovery writes behind it: the tables it made of the logs. */
  ghost function FreshEdit(r: Fresh): Edit {
    Edit({}, PlacedAt(0, r.fresh'), r.newLog, r.nextFile, r.last, {})
  }

  /** The records in the manifest file that CURRENT names, as far as it is read, after `step`. */
  ghost function Recorded(edits: seq<Edit>, s: State, step: Step): seq<Edit> {
    if step.Restarting? && step.x.RecoverStep? then [SnapshotEdit(s.disk.manifest), FreshEdit(step.x.recovery)]
    else if step.Calling? && step.c.LandsStep? && step.c.read && Running(s, step.i)
      && s.up.value.calls[step.i].Logging? then
      edits + [s.up.value.calls[step.i].edit]
    else edits
  }

  /** `records[k]` are those records in state `k` of the run. */
  ghost predicate IsRecording(run: seq<State>, steps: seq<Step>, records: seq<seq<Edit>>) {
    && |run| == |steps| + 1 == |records| && records[0] == [NEW_DB]
    && forall i :: 0 <= i < |steps| ==> records[i + 1] == Recorded(records[i], run[i], steps[i])
  }

  /** The places that the records fill, one record after another. */
  ghost function Filled(files: set<Place>, edits: seq<Edit>): set<Place>
    decreases |edits|
  {
    if edits == [] then files else Filled(files - edits[0].deleted + edits[0].added, edits[1..])
  }

  ghost function Ever(edits: seq<Edit>): set<Place> {
    set e, p | e in edits && p in e.added :: p
  }

  // ----- the invariant

  /** A number stands for one table. */
  ghost predicate One(files: set<FileMeta>) {
    forall f, g :: f in files && g in files && f.number == g.number ==> f == g
  }

  /** A table stands at one place. */
  ghost predicate OnePlace(ps: set<Place>) {
    forall p, q :: p in ps && q in ps && p.file.number == q.file.number ==> p == q
  }

  /** No table of `ps` has been deeper than it stands in `qs`. */
  ghost predicate Downward(ps: set<Place>, qs: set<Place>) {
    forall p, q :: p in ps && q in qs && p.file.number == q.file.number ==> p.level <= q.level
  }

  /** Tables that no record has named yet. */
  ghost function Making(call: Call): set<FileMeta> {
    if call.Logging? && call.work.Compacting? && call.landed then {}
    else
      Files(OutsOf(call)) +
      if call.Logging? && !call.landed && !call.work.Moving? then FilesOf(call.edit.added) else {}
  }

  /** The version that the records describe, unless a failed one landed. */
  function Standing(m: Memory): Levels {
    if Only(m).Logging? && Only(m).landed then Only(m).version else m.core.version
  }

  /** A nested flush is none of the compaction's outputs, and a table on its way down has not
      been deeper. */
  ghost predicate CallFresh(call: Call, ever: set<Place>) {
    call.Logging? && !call.landed ==>
      && (call.work.Flushing? ==> FilesOf(call.edit.added) !! Files(OutsOf(call)))
      && (call.work.Moving? ==> Downward(ever, call.edit.deleted))
  }

  ghost predicate Tracked(m: Memory, ever: set<Place>) {
    && One(FilesOf(ever) + Held(m))
    && (m.tail != CutOff ==>
          && Making(Only(m)) !! FilesOf(ever) && CallFresh(Only(m), ever)
          && (!m.bgError ==> Downward(ever, Placed(Standing(m)))))
  }

  ghost predicate DiskTracked(mf: Manifest, ever: set<Place>) {
    && mf.files <= ever && OnePlace(mf.files) && One(FilesOf(ever))
    && forall p :: p in ever ==> p.file.number < mf.nextFile
  }

  ghost predicate TrackInv(s: State, ever: set<Place>) {
    DiskTracked(s.disk.manifest, ever) && (s.up.Some? ==> Tracked(s.up.value, ever))
  }

  // ----- steps that make no table

  lemma OneLess(files: set<FileMeta>, files': set<FileMeta>)
    requires One(files) && files' <= files
    ensures One(files')
  {
  }

  lemma Carried(m: Memory, m': Memory, ever: set<Place>)
    requires Tracked(m, ever) && Held(m') <= Held(m) && Making(Only(m')) <= Making(Only(m))
    requires m'.tail == CutOff || m.tail != CutOff
    requires m'.bgError || (!m.bgError && Placed(Standing(m')) == Placed(Standing(m)))
    requires CallFresh(Only(m'), ever) || (m.tail != CutOff && Only(m') == Only(m))
    ensures Tracked(m', ever)
  {
    OneLess(FilesOf(ever) + Held(m), FilesOf(ever) + Held(m'));
  }

  /** Writers, readers and the scheduler leave the call alone. */
  lemma SameTracked(m: Memory, m': Memory, ever: set<Place>)
    requires Tracked(m, ever) && SameVersions(m, m') && (m.bgError ==> m'.bgError)
    ensures Tracked(m', ever)
  {
    SameHeld(m, m');
    if m'.tail != CutOff {
      Carried(m, m', ever);
    } else {
      OneLess(FilesOf(ever) + Held(m), FilesOf(ever) + Held(m'));
    }
  }

  lemma WriterTracked(s: State, step: WriterStep, s': State, ever: set<Place>)
    requires TrackInv(s, ever) && WriterNext(s, step, s')
    ensures TrackInv(s', ever)
  {
    SameTracked(s.up.value, s'.up.value, ever);
  }

  lemma ReaderTracked(s: State, step: ReaderStep, s': State, ever: set<Place>)
    requires TrackInv(s, ever) && ReaderNext(s, step, s')
    ensures TrackInv(s', ever)
  {
    SameTracked(s.up.value, s'.up.value, ever);
  }

  lemma HeldLess(m: Memory, m': Memory)
    requires VersionTables(m') <= Held(m) && !Only(m').Logging? && Files(OutsOf(Only(m'))) <= Files(OutsOf(Only(m)))
    ensures Held(m') <= Held(m)
  {
  }

  lemma MakingLess(call: Call, call': Call)
    requires !call'.Logging? && Files(OutsOf(call')) <= Files(OutsOf(call))
    requires call.Logging? && call.landed && call.work.Compacting? ==> OutsOf(call') == []
    ensures Making(call') <= Making(call)
  {
    if OutsOf(call') == [] {
      assert Making(call') == {};
    }
  }

  /** A call that goes on without a record or a table. */
  lemma GoesOn(m: Memory, m': Memory, ever: set<Place>)
    requires Tracked(m, ever) && !Only(m').Logging? && VersionTables(m') <= Held(m)
    requires Files(OutsOf(Only(m'))) <= Files(OutsOf(Only(m)))
    requires Only(m).Logging? && Only(m).landed && Only(m).work.Compacting? ==> OutsOf(Only(m')) == []
    requires m'.bgError || (!m.bgError && m'.core.version == Standing(m))
    requires m'.tail == CutOff || m.tail != CutOff
    ensures Tracked(m', ever)
  {
    HeldLess(m, m');
    MakingLess(Only(m), Only(m'));
    if m'.tail != CutOff {
      Carried(m, m', ever);
    } else {
      OneLess(FilesOf(ever) + Held(m), FilesOf(ever) + Held(m'));
    }
  }

  lemma ScheduleTracked(s: State, s': State, ever: set<Place>)
    requires TrackInv(s, ever) && FileInv(s) && Schedule(s, s')
    ensures TrackInv(s', ever)
  {
    GoesOn(s.up.value, s'.up.value, ever);
  }

  /** Call number `i` is the only one. */
  ghost predicate Alone(s: State, i: nat) {
    s.up.Some? && i == 0 && s.up.value.calls == [Only(s.up.value)]
  }

  lemma EasyTracked(s: State, i: nat, step: CallStep, s': State, ever: set<Place>)
    requires TrackInv(s, ever) && Alone(s, i) && CallNext(s, i, step, s')
    requires step.IdleStep? || step.EndStep? || step.FlushBeginStep?
    ensures TrackInv(s', ever)
  {
    GoesOn(s.up.value, s'.up.value, ever);
  }

  lemma BegunVersions(m: Memory, seed: FileMeta, j: L.Job, m': Memory)
    requires |m.calls| == 1 && m' == Goes(m, 0, Merging([])).(core := m'.core)
    requires L.StartCompaction(m.core.(job := None), seed, j, m'.core)
    ensures VersionTables(m') <= VersionTables(m) && m'.core.version == m.core.version && Only(m') == Merging([])
  {
    assert PickedTables(m'.core.job) == Tables(m.core.version);
  }

  lemma BeginTracked(s: State, i: nat, seed: FileMeta, j: L.Job, s': State, ever: set<Place>)
    requires s.up.Some? && Tracked(s.up.value, ever) && Alone(s, i) && CompactBegin(s, i, seed, j, s')
    ensures s'.disk == s.disk && s'.up.Some? && Tracked(s'.up.value, ever)
  {
    BegunVersions(s.up.value, seed, j, s'.up.value);
    GoesOn(s.up.value, s'.up.value, ever);
  }

  lemma FailedOn(m: Memory)
    requires |m.calls| == 1
    ensures Only(m).Logging? && Only(m).work.Compacting? ==> OutsOf(Only(Failed(m, 0))) == []
    ensures Failed(m, 0).bgError && (m.tail == CutOff ==> Failed(m, 0).tail == CutOff)
  {
  }

  lemma FailsTracked(s: State, i: nat, s': State, ever: set<Place>)
    requires TrackInv(s, ever) && Alone(s, i) && Fails(s, i, s')
    ensures TrackInv(s', ever)
  {
    FailedVersions(s.up.value);
    FailedOuts(s.up.value);
    FailedOn(s.up.value);
    GoesOn(s.up.value, s'.up.value, ever);
  }

  lemma InstalledOn(m: Memory)
    requires |m.calls| == 1 && Only(m).Logging? && Only(m).landed
    ensures AfterInstall(m, 0).core.version == Standing(m) && AfterInstall(m, 0).bgError == m.bgError
    ensures AfterInstall(m, 0).tail == m.tail
    ensures Only(m).work.Compacting? ==> OutsOf(Only(AfterInstall(m, 0))) == []
  {
  }

  lemma InstallTracked(s: State, i: nat, gone: Gone, s': State, ever: set<Place>)
    requires TrackInv(s, ever) && Alone(s, i) && InstallEdit(s, i, gone, s')
    requires Placed(Only(s.up.value).version) ==
      Placed(s.up.value.core.version) - Only(s.up.value).edit.deleted + Only(s.up.value).edit.added
    ensures TrackInv(s', ever)
  {
    var m, m' := s.up.value, s'.up.value;
    InstallTables(m, Only(m), m');
    InstalledOuts(m);
    InstalledOn(m);
    GoesOn(m, m', ever);
  }

  // ----- a new table

  lemma OneMore(files: set<FileMeta>, f: FileMeta, files': set<FileMeta>)
    requires One(files) && files' <= files + {f} && forall g :: g in files ==> g.number < f.number
    ensures One(files')
  {
  }

  /** Its number is beyond all that were used. */
  lemma NewNumber(s: State, ever: set<Place>, f: FileMeta)
    requires TrackInv(s, ever) && FileInv(s) && s.up.Some? && Limit(s.up.value) <= f.number
    ensures forall g :: g in FilesOf(ever) + Held(s.up.value) ==> g.number < f.number
  {
  }

  lemma MadeTracked(s: State, ever: set<Place>, f: FileMeta, m': Memory)
    requires TrackInv(s, ever) && FileInv(s) && s.up.Some? && Limit(s.up.value) <= f.number
    requires !Only(s.up.value).Logging?
    requires Held(m') <= Held(s.up.value) + {f} && Making(Only(m')) <= Making(Only(s.up.value)) + {f}
    requires m'.tail == s.up.value.tail && m'.bgError == s.up.value.bgError && Standing(m') == Standing(s.up.value)
    requires CallFresh(Only(m'), ever)
    ensures Tracked(m', ever)
  {
    NewNumber(s, ever, f);
    OneMore(FilesOf(ever) + Held(s.up.value), f, FilesOf(ever) + Held(m'));
  }

  lemma OutputTracked(s: State, i: nat, f: FileMeta, s': State, ever: set<Place>)
    requires TrackInv(s, ever) && FileInv(s) && CompactOutput(s, i, f, s')
    ensures TrackInv(s', ever)
  {
    TheCall(s, i);
    var m, m' := s.up.value, s'.up.value;
    assert VersionTables(m') == VersionTables(m);
    assert Files(OutsOf(Only(m'))) == Files(OutsOf(Only(m))) + {f};
    MadeTracked(s, ever, f, m');
  }

  lemma BuiltTracked(
    s: State, i: nat, level: nat, f: FileMeta, version: Levels, s': State, ever: set<Place>)
    requires TrackInv(s, ever) && FileInv(s) && FlushBuilt(s, i, level, f, version, s')
    ensures TrackInv(s', ever)
  {
    TheCall(s, i);
    var m, m' := s.up.value, s'.up.value;
    assert VersionTables(m') == VersionTables(m);
    assert OutsOf(Only(m')) == OutsOf(Only(m));
    assert FilesOf(Only(m').edit.added) <= {f};
    NewNumber(s, ever, f);
    MadeTracked(s, ever, f, m');
  }

  // ----- a record is made up

  lemma LoggingTracked(m: Memory, call: Call, m': Memory, ever: set<Place>)
    requires Tracked(m, ever) && |m.calls| == 1 && !Only(m).Logging? && m' == Goes(m, 0, call)
    requires call.Logging? && !call.landed && OutsOf(call) == OutsOf(Only(m))
    requires FilesOf(call.edit.added) <= Held(m) && Making(call) <= Making(Only(m))
    requires m.tail != CutOff ==> CallFresh(call, ever)
    ensures Tracked(m', ever)
  {
    assert VersionTables(m') == VersionTables(m) && Only(m') == call;
    OneLess(FilesOf(ever) + Held(m), FilesOf(ever) + Held(m'));
  }

  lemma CompactLogTracked(
    s: State, i: nat, outputs: seq<Output>, version: Levels, s': State, ever: set<Place>)
    requires TrackInv(s, ever) && Alone(s, i) && CompactLog(s, i, outputs, version, s')
    ensures TrackInv(s', ever)
  {
    var m, m' := s.up.value, s'.up.value;
    PlacedFiles(m.core.job.value.c.level + 1, Only(m).outs);
    LoggingTracked(m, Only(m'), m', ever);
  }

  lemma MoveFresh(m: Memory, c: Inputs2, f: FileMeta, version: Levels, ever: set<Place>)
    requires Tracked(m, ever) && m.tail != CutOff && !m.bgError && Only(m).Scheduled?
    requires L.TrivialMove(m.core, c, f, m.core.(version := version))
    ensures Downward(ever, {Place(c.level, f)})
  {
    MovePlaces(m.core.version, c, f, version);
    MovedFrom(m.core.version, c, f);
  }

  lemma MovedHeld(m: Memory, c: Inputs2, f: FileMeta, version: Levels)
    requires L.TrivialMove(m.core, c, f, m.core.(version := version))
    ensures f in Held(m)
  {
    MovePlaces(m.core.version, c, f, version);
  }

  lemma MoveMaking(call: Call, call': Call)
    requires call.Scheduled? && call'.Logging? && call'.work.Moving? && !call'.landed
    ensures OutsOf(call') == OutsOf(call) == [] && Making(call') == {}
  {
  }

  lemma MoveTracked(
    m: Memory, c: Inputs2, f: FileMeta, version: Levels, edit: Edit, m': Memory, ever: set<Place>)
    requires Tracked(m, ever) && |m.calls| == 1 && Only(m).Scheduled? && !m.bgError
    requires L.TrivialMove(m.core, c, f, m.core.(version := version))
    requires edit.deleted == {Place(c.level, f)} && FilesOf(edit.added) <= {f}
    requires m' == Goes(m, 0, Logging(Moving(c, f), version, edit, false))
    ensures Tracked(m', ever)
  {
    MovedHeld(m, c, f, version);
    MoveMaking(Only(m), Logging(Moving(c, f), version, edit, false));
    if m.tail != CutOff {
      MoveFresh(m, c, f, version, ever);
    }
    LoggingTracked(m, Logging(Moving(c, f), version, edit, false), m', ever);
  }

  lemma MoveLogTracked(
    s: State, i: nat, c: Inputs2, f: FileMeta, version: Levels, s': State, ever: set<Place>)
    requires s.up.Some? && Tracked(s.up.value, ever) && Alone(s, i) && MoveLog(s, i, c, f, version, s')
    requires L.TrivialMove(s.up.value.core, c, f, s.up.value.core.(version := version))
    ensures s'.disk == s.disk && s'.up.Some? && Tracked(s'.up.value, ever)
  {
    var edit := Only(s'.up.value).edit;
    assert s'.up.value == Goes(s.up.value, 0, Logging(Moving(c, f), version, edit, false));
    MoveTracked(s.up.value, c, f, version, edit, s'.up.value, ever);
  }

  lemma MovedFrom(v: Levels, c: Inputs2, f: FileMeta)
    requires FromLevels(v, c) && c.in0 == [f]
    ensures Place(c.level, f) in Placed(v)
  {
    assert c.in0[0] in c.in0;
  }

  // ----- a record lands

  /** Nothing in `ps` is at a place of `qs` under the same number. */
  ghost predicate NewPlaces(ps: set<Place>, qs: set<Place>) {
    forall p, q :: p in ps && q in qs && p.level == q.level ==> p.file.number != q.file.number
  }

  ghost predicate NewNumbers(ps: set<Place>, qs: set<Place>) {
    forall p, q :: p in ps && q in qs ==> p.file.number != q.file.number
  }

  lemma OneLevel(m: Memory, call: Call)
    requires call.Logging? && Intended(m.core, call.work, call.edit) && (call.work.Compacting? ==> m.core.job.Some?)
    ensures forall p, q :: p in call.edit.added && q in call.edit.added ==> p.level == q.level
  {
  }

  lemma MadeIsNew(m: Memory, call: Call, ever: set<Place>)
    requires Tracked(m, ever) && m.tail != CutOff && call == Only(m) && call.Logging? && !call.landed
    requires !call.work.Moving?
    ensures NewNumbers(ever, call.edit.added)
  {
    forall p, q | p in ever && q in call.edit.added ensures p.file.number != q.file.number {
      assert p.file in FilesOf(ever) && q.file in FilesOf(call.edit.added);
    }
  }

  lemma MovedIsNew(m: Memory, call: Call, ever: set<Place>)
    requires m.tail != CutOff && call == Only(m) && call.Logging? && !call.landed && call.work.Moving?
    requires CallFresh(call, ever) && Intended(m.core, call.work, call.edit)
    ensures NewPlaces(ever, call.edit.added) && Downward(ever, call.edit.added)
  {
    var c, f := call.work.c, call.work.file;
    forall p, q | p in ever && q in call.edit.added && p.file.number == q.file.number ensures p.level < q.level {
      assert Place(c.level, f) in call.edit.deleted && q == Place(c.level + 1, f);
    }
  }

  /** What is added stands at one place each, and at no place of `ps`. */
  lemma AddedOnce(m: Memory, call: Call, ever: set<Place>)
    requires Tracked(m, ever) && call == Only(m) && call.Logging?
    requires forall p, q :: p in call.edit.added && q in call.edit.added ==> p.level == q.level
    ensures OnePlace(call.edit.added)
  {
    forall p, q | p in call.edit.added && q in call.edit.added && p.file.number == q.file.number ensures p == q {
      assert p.file in FilesOf(call.edit.added) && q.file in FilesOf(call.edit.added);
    }
  }

  lemma FilesAdded(ever: set<Place>, m: Memory, call: Call)
    requires Tracked(m, ever) && call == Only(m) && call.Logging?
    ensures One(FilesOf(ever + call.edit.added) + Held(m))
  {
    assert FilesOf(ever + call.edit.added) + Held(m) <= FilesOf(ever) + Held(m);
    OneLess(FilesOf(ever) + Held(m), FilesOf(ever + call.edit.added) + Held(m));
  }

  /** The table that moves down is where the manifest has it. */
  ghost predicate Leaves(ps: set<Place>, edit: Edit) {
    edit.deleted <= ps && forall p, q :: p in edit.added && q in edit.deleted ==> p.file == q.file
  }

  lemma MoveLeaves(d: Disk, m: Memory, call: Call)
    requires ManifestKnown(d, m) && !m.doubtful && m.tail != CutOff && call == Only(m) && call.Logging? && !call.landed
    requires call.work.Moving? && WorkOk(m.core, call.work, call.version) && Intended(m.core, call.work, call.edit)
    ensures Leaves(d.manifest.files, call.edit) && d.manifest.files == Placed(m.core.version)
  {
    MovedFrom(m.core.version, call.work.c, call.work.file);
  }

  lemma MovedOnePlace(ps: set<Place>, edit: Edit)
    requires OnePlace(ps) && Leaves(ps, edit) && edit.deleted != {} && OnePlace(edit.added)
    ensures OnePlace(ps - edit.deleted + edit.added) && NewNumbers(ps - edit.deleted, edit.added)
  {
    forall p, q | p in ps - edit.deleted && q in edit.added ensures p.file.number != q.file.number {
      var r :| r in edit.deleted;
      assert q.file == r.file && r in ps;
    }
  }

  lemma MadeOnePlace(ps: set<Place>, ever: set<Place>, edit: Edit)
    requires OnePlace(ps) && ps <= ever && NewNumbers(ever, edit.added) && OnePlace(edit.added)
    ensures OnePlace(ps - edit.deleted + edit.added) && NewNumbers(ps - edit.deleted, edit.added)
  {
  }

  /** What the record adds is new among what is left, each at one place. */
  lemma LandingPlaces(d: Disk, m: Memory, call: Call, ever: set<Place>)
    requires Tracked(m, ever) && DiskTracked(d.manifest, ever) && CallOk(d, m, call) && ManifestKnown(d, m)
    requires m.tail != CutOff && call == Only(m) && call.Logging? && !call.landed
    ensures NewPlaces(ever, call.edit.added) && OnePlace(call.edit.added) && Downward(ever, call.edit.added)
    ensures OnePlace(Apply(d.manifest, call.edit).files)
    ensures NewNumbers(d.manifest.files - call.edit.deleted, call.edit.added)
  {
    OneLevel(m, call);
    AddedOnce(m, call, ever);
    if call.work.Moving? {
      MovedIsNew(m, call, ever);
      MoveLeaves(d, m, call);
      MovedOnePlace(d.manifest.files, call.edit);
    } else {
      MadeIsNew(m, call, ever);
      MadeOnePlace(d.manifest.files, ever, call.edit);
    }
  }

  lemma LandedDownward(vs: set<Place>, ever: set<Place>, edit: Edit)
    requires Downward(ever, vs) && Downward(ever, edit.added) && NewNumbers(vs - edit.deleted, edit.added)
    requires OnePlace(edit.added)
    ensures Downward(ever + edit.added, vs - edit.deleted + edit.added)
  {
  }

  lemma LandedFresh(m: Memory, call: Call, ever: set<Place>)
    requires Tracked(m, ever) && m.tail != CutOff && call == Only(m) && call.Logging? && !call.landed
    ensures Making(call.(landed := true)) !! FilesOf(ever + call.edit.added)
  {
    assert FilesOf(ever + call.edit.added) == FilesOf(ever) + FilesOf(call.edit.added);
  }

  lemma SameHolding(m: Memory, call: Call, m': Memory)
    requires |m.calls| == 1 && call == Only(m) && call.Logging? && m' == Goes(m, 0, call.(landed := true))
    ensures Held(m') == Held(m) && Only(m') == call.(landed := true)
  {
    assert VersionTables(m') == VersionTables(m) && CallTables(Only(m')) == CallTables(call);
  }

  lemma LandedStanding(d: Disk, m: Memory, call: Call, ever: set<Place>)
    requires Tracked(m, ever) && DiskTracked(d.manifest, ever) && CallOk(d, m, call) && ManifestKnown(d, m)
    requires m.tail != CutOff && call == Only(m) && call.Logging? && !call.landed && !m.doubtful && !m.bgError
    ensures Downward(ever + call.edit.added, Placed(call.version))
  {
    LandingPlaces(d, m, call, ever);
    LandedDownward(Placed(m.core.version), ever, call.edit);
  }

  lemma LandedTracked(d: Disk, m: Memory, call: Call, ever: set<Place>, m': Memory)
    requires Tracked(m, ever) && DiskTracked(d.manifest, ever) && CallOk(d, m, call) && ManifestKnown(d, m)
    requires m.tail != CutOff && call == Only(m) && call.Logging? && !call.landed && (m.doubtful ==> m.bgError)
    requires m' == Goes(m, 0, call.(landed := true)) && |m.calls| == 1
    ensures Tracked(m', ever + call.edit.added)
  {
    FilesAdded(ever, m, call);
    LandedFresh(m, call, ever);
    SameHolding(m, call, m');
    if !m.bgError {
      LandedStanding(d, m, call, ever);
    }
  }

  lemma LandedDiskTracked(d: Disk, m: Memory, call: Call, ever: set<Place>)
    requires Tracked(m, ever) && DiskTracked(d.manifest, ever) && CallOk(d, m, call) && ManifestKnown(d, m)
    requires m.tail != CutOff && call == Only(m) && call.Logging? && !call.landed
    ensures DiskTracked(Apply(d.manifest, call.edit), ever + call.edit.added)
  {
    LandingPlaces(d, m, call, ever);
    FilesAdded(ever, m, call);
    forall p | p in ever + call.edit.added ensures p.file.number < call.edit.nextFile {
      if p in call.edit.added {
        assert p.file in FilesOf(call.edit.added);
      }
    }
  }

  lemma LandsTracked(s: State, i: nat, s': State, ever: set<Place>)
    requires TrackInv(s, ever) && Alone(s, i) && Lands(s, i, true, s')
    requires var d, m := s.disk, s.up.value;
      CallOk(d, m, Only(m)) && ManifestKnown(d, m) && (m.doubtful ==> m.bgError)
    ensures TrackInv(s', ever + Only(s.up.value).edit.added) && NewPlaces(ever, Only(s.up.value).edit.added)
    ensures OnePlace(Only(s.up.value).edit.added)
  {
    LandingPlaces(s.disk, s.up.value, Only(s.up.value), ever);
    LandedDiskTracked(s.disk, s.up.value, Only(s.up.value), ever);
    LandedTracked(s.disk, s.up.value, Only(s.up.value), ever, s'.up.value);
  }

  /** Once records are no longer read, memory goes on alone. */
  lemma UnreadTracked(s: State, i: nat, s': State, ever: set<Place>)
    requires TrackInv(s, ever) && Alone(s, i) && Lands(s, i, false, s')
    ensures TrackInv(s', ever)
  {
    var m, m' := s.up.value, s'.up.value;
    SameHolding(m, Only(m), Goes(m, 0, Only(m).(landed := true)));
    assert VersionTables(m') == VersionTables(m);
    assert Held(m') == Held(m);
  }

  // ----- recovery

  ghost function RecoveredPlaces(mf: Manifest, r: Fresh): set<Place> {
    mf.files + PlacedAt(0, r.fresh')
  }

  lemma FreshOnePlace(d: Disk, r: Fresh, ever: set<Place>)
    requires DiskTracked(d.manifest, ever) && FreshNumbers(d, r)
    requires forall j, k :: 0 <= j < k < |r.fresh'| ==> r.fresh'[j].number < r.fresh'[k].number
    ensures NewPlaces(d.manifest.files, PlacedAt(0, r.fresh')) && OnePlace(PlacedAt(0, r.fresh'))
    ensures OnePlace(RecoveredPlaces(d.manifest, r))
    ensures forall p :: p in RecoveredPlaces(d.manifest, r) ==> p.file.number < r.nextFile
  {
    forall p, q | p in PlacedAt(0, r.fresh') && q in PlacedAt(0, r.fresh') && p.file.number == q.file.number
      ensures p == q
    {
      var j :| 0 <= j < |r.fresh'| && r.fresh'[j] == p.file;
      var k :| 0 <= k < |r.fresh'| && r.fresh'[k] == q.file;
    }
  }

  lemma RecoveredWhere(mf: Manifest, fresh': seq<FileMeta>, v: Levels, p: Place)
    requires Recovered(mf, fresh', v) && p.level < NUM_LEVELS
    ensures p in Placed(v) <==> p in mf.files + PlacedAt(0, fresh')
  {
    assert p in Placed(v) <==> p.file in Files(v[p.level]);
    assert p in mf.files <==> p.file in FilesAt(mf.files, p.level);
    assert p.level == 0 ==> (p in PlacedAt(0, fresh') <==> p.file in Files(fresh'));
  }

  lemma OnePlaceOne(ps: set<Place>)
    requires OnePlace(ps)
    ensures One(FilesOf(ps))
  {
    forall f, g | f in FilesOf(ps) && g in FilesOf(ps) && f.number == g.number ensures f == g {
      var p :| p in ps && p.file == f;
      var q :| q in ps && q.file == g;
    }
  }

  lemma FreshHeld(d: Disk, r: Fresh)
    ensures Held(FreshMemory(d, r)) == FilesOf(Placed(r.version))
  {
    PlacedTables(r.version);
    assert ReaderTables(FreshMemory(d, r).inUse) == {};
  }

  lemma FreshTracked(d: Disk, r: Fresh, ever: set<Place>)
    requires OnePlace(ever) && Placed(r.version) <= ever
    ensures Tracked(FreshMemory(d, r), ever)
  {
    OnePlaceOne(ever);
    FreshHeld(d, r);
    assert FilesOf(ever) + Held(FreshMemory(d, r)) == FilesOf(ever);
  }

  lemma RecoverTracked(s: State, r: Fresh, s': State, ever: set<Place>)
    requires TrackInv(s, ever) && Recover(s, r, s')
    ensures TrackInv(s', RecoveredPlaces(s.disk.manifest, r))
    ensures NewPlaces(s.disk.manifest.files, PlacedAt(0, r.fresh')) && OnePlace(PlacedAt(0, r.fresh'))
  {
    FreshOnePlace(s.disk, r, ever);
    var ever' := RecoveredPlaces(s.disk.manifest, r);
    forall p | p in Placed(r.version) ensures p in ever' {
      RecoveredWhere(s.disk.manifest, r.fresh', r.version, p);
    }
    OnePlaceOne(ever');
    FreshTracked(s.disk, r, ever');
  }

  // ----- every run

  /** No level gets a number twice, a record gives each at one place, and takes away only
      tables that were given. */
  ghost predicate RecordedOnce(edits: seq<Edit>) {
    && (forall i :: 0 <= i < |edits| ==> OnePlace(edits[i].added))
    && (forall i, j :: 0 <= i < j < |edits| ==> NewPlaces(edits[i].added, edits[j].added))
    && forall e :: e in edits ==> e.deleted <= Ever(edits)
  }

  /** The inputs of a compaction are tables that the records have named. */
  ghost predicate Picking(s: State, ever: set<Place>) {
    s.up.Some? && s.up.value.core.job.Some? ==> InputPlaces(s.up.value.core.job.value.c) <= ever
  }

  lemma PickedInputs(v: Levels, c: Inputs2)
    requires FromLevels(v, c)
    ensures InputPlaces(c) <= Placed(v)
  {
  }

  lemma BeginPicks(d: Disk, m: Memory, seed: FileMeta, j: L.Job, m': Memory, ever: set<Place>)
    requires L.StartCompaction(m.core.(job := None), seed, j, m'.core) && ManifestKnown(d, m) && !m.doubtful
    requires m.tail != CutOff
    requires d.manifest.files <= ever && !Only(m).Logging?
    ensures m'.core.job == Some(j) && InputPlaces(j.c) <= ever
  {
    SelectedFrom(m.core.version, [seed], j.c);
    PickedInputs(m.core.version, j.c);
  }

  lemma PickingOn(s: State, s': State, ever: set<Place>, ever': set<Place>)
    requires Picking(s, ever) && ever <= ever'
    requires s'.up.Some? ==> s'.up.value.core.job.None? || (s.up.Some? && s'.up.value.core.job == s.up.value.core.job)
    ensures Picking(s', ever')
  {
  }

  lemma CallPicks(s: State, i: nat, step: CallStep, s': State)
    requires CallNext(s, i, step, s') && !step.CompactBeginStep?
    ensures s'.up.Some? && (s'.up.value.core.job.None? || s'.up.value.core.job == s.up.value.core.job)
  {
  }

  lemma RestPicks(s: State, step: Step, s': State)
    requires Next(s, step, s') && !step.Calling?
    ensures s'.up.Some? ==> s'.up.value.core.job.None? || (s.up.Some? && s'.up.value.core.job == s.up.value.core.job)
  {
  }

  lemma NextPicking(s: State, step: Step, s': State, ever: set<Place>, ever': set<Place>)
    requires Picking(s, ever) && Next(s, step, s') && FileInv(s) && s.disk.manifest.files <= ever
    requires ever <= ever' || (step.Restarting? && step.x.RecoverStep?)
    ensures Picking(s', ever')
  {
    if step.Restarting? && step.x.RecoverStep? {
    } else if !step.Calling? {
      RestPicks(s, step, s');
      PickingOn(s, s', ever, ever');
    } else if step.c.CompactBeginStep? {
      TheCall(s, step.i);
      BeginPicks(s.disk, s.up.value, step.c.seed, step.c.job, s'.up.value, ever);
    } else {
      CallPicks(s, step.i, step.c, s');
      PickingOn(s, s', ever, ever');
    }
  }

  /** A record takes away what was given. */
  lemma DeletesNamed(d: Disk, m: Memory, ever: set<Place>)
    requires CallOk(d, m, Only(m)) && ManifestKnown(d, m) && m.tail != CutOff && Only(m).Logging? && !Only(m).landed
    requires d.manifest.files <= ever
    requires m.core.job.Some? ==> InputPlaces(m.core.job.value.c) <= ever
    ensures Only(m).edit.deleted <= ever
  {
    if Only(m).work.Moving? {
      MoveLeaves(d, m, Only(m));
    }
  }

  /** The same places at all levels there are. */
  ghost predicate SamePlaces(ps: set<Place>, qs: set<Place>) {
    forall p: Place :: p.level < NUM_LEVELS ==> (p in ps <==> p in qs)
  }

  /** The numbers of the last record are those the manifest has. */
  ghost predicate Latest(edits: seq<Edit>, mf: Manifest) {
    && edits != []
    && var e := edits[|edits| - 1];
    e.logNumber == mf.logNumber && e.nextFile == mf.nextFile && e.lastSequence == mf.lastSequence
  }

  /** What the records of a manifest file do to it. */
  ghost predicate WellRecorded(s: State, edits: seq<Edit>) {
    TrackInv(s, Ever(edits)) && RecordedOnce(edits) && SamePlaces(Filled({}, edits), s.disk.manifest.files)
  }

  ghost predicate RecordInv(s: State, edits: seq<Edit>) {
    WellRecorded(s, edits) && Picking(s, Ever(edits)) && Latest(edits, s.disk.manifest)
  }

  lemma {:induction false} FilledOn(files: set<Place>, edits: seq<Edit>, e: Edit)
    ensures Filled(files, edits + [e]) == Filled(files, edits) - e.deleted + e.added
    decreases |edits|
  {
    if edits == [] {
      assert ([e])[1..] == [];
    } else {
      assert (edits + [e])[1..] == edits[1..] + [e];
      FilledOn(files - edits[0].deleted + edits[0].added, edits[1..], e);
    }
  }

  lemma EverOn(edits: seq<Edit>, e: Edit)
    ensures Ever(edits + [e]) == Ever(edits) + e.added
  {
    forall p | p in Ever(edits) + e.added ensures p in Ever(edits + [e]) {
      if p in Ever(edits) {
        var x :| x in edits && p in x.added;
        assert x in edits + [e];
      } else {
        assert e in edits + [e];
      }
    }
  }

  lemma OnceOn(edits: seq<Edit>, e: Edit)
    requires RecordedOnce(edits) && NewPlaces(Ever(edits), e.added) && OnePlace(e.added)
    requires e.deleted <= Ever(edits)
    ensures RecordedOnce(edits + [e])
  {
    EverOn(edits, e);
    forall i | 0 <= i < |edits| ensures NewPlaces(edits[i].added, e.added) {
      assert edits[i] in edits;
    }
  }

  lemma LandsRecorded(s: State, i: nat, s': State, edits: seq<Edit>)
    requires RecordInv(s, edits) && Alone(s, i) && Lands(s, i, true, s')
    requires var d, m := s.disk, s.up.value;
      CallOk(d, m, Only(m)) && ManifestKnown(d, m) && (m.doubtful ==> m.bgError)
    ensures WellRecorded(s', edits + [Only(s.up.value).edit])
    ensures Ever(edits) <= Ever(edits + [Only(s.up.value).edit])
  {
    var e := Only(s.up.value).edit;
    DeletesNamed(s.disk, s.up.value, Ever(edits));
    LandsTracked(s, i, s', Ever(edits));
    EverOn(edits, e);
    OnceOn(edits, e);
    FilledOn({}, edits, e);
  }

  lemma TwoRecords(a: Edit, b: Edit)
    requires a.deleted == {} && b.deleted == {}
    ensures Filled({}, [a, b]) == a.added + b.added && Ever([a, b]) == a.added + b.added
    ensures OnePlace(a.added) && OnePlace(b.added) && NewPlaces(a.added, b.added) ==> RecordedOnce([a, b])
  {
    assert [a, b] == [] + [a] + [b] && [] + [a] == [a];
    FilledOn({}, [], a);
    FilledOn({}, [a], b);
    EverOn([], a);
    EverOn([a], b);
  }

  lemma RecoverRecorded(s: State, r: Fresh, s': State, edits: seq<Edit>)
    requires RecordInv(s, edits) && Recover(s, r, s')
    ensures WellRecorded(s', [SnapshotEdit(s.disk.manifest), FreshEdit(r)])
  {
    RecoverTracked(s, r, s', Ever(edits));
    TwoRecords(SnapshotEdit(s.disk.manifest), FreshEdit(r));
    forall p: Place | p.level < NUM_LEVELS
      ensures p in RecoveredPlaces(s.disk.manifest, r) <==> p in s'.disk.manifest.files
    {
      RecoveredWhere(s.disk.manifest, r.fresh', r.version, p);
    }
  }

  lemma CallTracked(s: State, i: nat, step: CallStep, s': State, ever: set<Place>)
    requires TrackInv(s, ever) && FileInv(s) && Running(s, i) && CallNext(s, i, step, s')
    requires !(step.LandsStep? && step.read)
    ensures TrackInv(s', ever) && s'.disk.manifest == s.disk.manifest
  {
    TheCall(s, i);
    match step
    case CompactBeginStep(seed, j) => BeginTracked(s, i, seed, j, s', ever);
    case CompactOutputStep(f) => OutputTracked(s, i, f, s', ever);
    case CompactLogStep(outputs, version) => CompactLogTracked(s, i, outputs, version, s', ever);
    case FlushBuiltStep(level, f, version) => BuiltTracked(s, i, level, f, version, s', ever);
    case MoveLogStep(c, f, version) =>
      MovesAlone(s.disk, s.up.value, c, f, version);
      MoveLogTracked(s, i, c, f, version, s', ever);
    case LandsStep(read) => UnreadTracked(s, i, s', ever);
    case InstallStep(gone) => InstallTracked(s, i, gone, s', ever);
    case FailsStep => FailsTracked(s, i, s', ever);
    case _ => EasyTracked(s, i, step, s', ever);
  }

  lemma RestartTracked(s: State, step: RestartStep, s': State, ever: set<Place>)
    requires TrackInv(s, ever) && RestartNext(s, step, s') && !step.RecoverStep?
    ensures TrackInv(s', ever) && s'.disk.manifest == s.disk.manifest
  {
  }

  lemma RestTracked(s: State, step: Step, s': State, ever: set<Place>)
    requires TrackInv(s, ever) && FileInv(s) && Next(s, step, s')
    requires !step.Calling? && !(step.Restarting? && step.x.RecoverStep?)
    ensures TrackInv(s', ever) && s'.disk.manifest == s.disk.manifest
  {
    match step
    case Writing(w) => WriterTracked(s, w, s', ever);
    case Scheduling => ScheduleTracked(s, s', ever);
    case Reading(r) => ReaderTracked(s, r, s', ever);
    case Restarting(x) => RestartTracked(s, x, s', ever);
  }

  lemma NextWell(s: State, step: Step, s': State, edits: seq<Edit>, edits': seq<Edit>)
    requires RecordInv(s, edits) && FileInv(s) && Next(s, step, s') && edits' == Recorded(edits, s, step)
    ensures WellRecorded(s', edits')
    ensures Ever(edits) <= Ever(edits') || (step.Restarting? && step.x.RecoverStep?)
  {
    if step.Restarting? && step.x.RecoverStep? {
      RecoverRecorded(s, step.x.recovery, s', edits);
    } else if !step.Calling? {
      RestTracked(s, step, s', Ever(edits));
    } else if step.c.LandsStep? && step.c.read {
      TheCall(s, step.i);
      LandsRecorded(s, step.i, s', edits);
    } else {
      CallTracked(s, step.i, step.c, s', Ever(edits));
    }
  }

  lemma NextLatest(s: State, step: Step, s': State, edits: seq<Edit>, edits': seq<Edit>)
    requires RecordInv(s, edits) && FileInv(s) && Next(s, step, s') && edits' == Recorded(edits, s, step)
    ensures Latest(edits', s'.disk.manifest)
  {
    if step.Restarting? && step.x.RecoverStep? {
    } else if !step.Calling? {
      RestTracked(s, step, s', Ever(edits));
    } else if step.c.LandsStep? && step.c.read {
    } else {
      CallTracked(s, step.i, step.c, s', Ever(edits));
    }
  }

  lemma NextRecorded(s: State, step: Step, s': State, edits: seq<Edit>, edits': seq<Edit>)
    requires RecordInv(s, edits) && FileInv(s) && Next(s, step, s') && edits' == Recorded(edits, s, step)
    ensures RecordInv(s', edits')
  {
    NextWell(s, step, s', edits, edits');
    NextPicking(s, step, s', Ever(edits), Ever(edits'));
    NextLatest(s, step, s', edits, edits');
  }

  lemma InitRecorded(s: State)
    requires Init(s)
    ensures RecordInv(s, [NEW_DB])
  {
    assert Ever([NEW_DB]) == {};
    assert [NEW_DB][1..] == [];
  }

  lemma RecordedStep(run: seq<State>, steps: seq<Step>, records: seq<seq<Edit>>, k: nat)
    requires IsExecution(run, steps) && IsRecording(run, steps, records) && k < |steps| && RecordInv(run[k], records[k])
    ensures RecordInv(run[k + 1], records[k + 1])
  {
    RunFiles(run, steps, k);
    NextRecorded(run[k], steps[k], run[k + 1], records[k], records[k + 1]);
  }

  lemma RunRecorded(run: seq<State>, steps: seq<Step>, records: seq<seq<Edit>>, k: nat)
    requires IsExecution(run, steps) && IsRecording(run, steps, records) && k < |run|
    ensures RecordInv(run[k], records[k])
  {
    if k == 0 {
      InitRecorded(run[0]);
    } else {
      RunRecorded(run, steps, records, k - 1);
      RecordedStep(run, steps, records, k - 1);
    }
  }

  /** In every state of every run no level has been given a number twice by the records of the
      manifest file, and the files they leave are those the manifest has. */
  lemma RecordsOnce(run: seq<State>, steps: seq<Step>, records: seq<seq<Edit>>, k: nat)
    requires IsExecution(run, steps) && IsRecording(run, steps, records) && k < |run|
    ensures RecordedOnce(records[k]) && SamePlaces(Filled({}, records[k]), run[k].disk.manifest.files)
    ensures OnePlace(run[k].disk.manifest.files) && Latest(records[k], run[k].disk.manifest)
  {
    RunRecorded(run, steps, records, k);
  }

  // ----- one builder for all of them

  ghost function NumbersAt(ps: set<Place>, level: nat): set<nat> {
    set p | p in ps && p.level == level :: p.file.number
  }

  /** The bytes of a record name the numbers of its tables, level by level. */
  ghost predicate Names(e: VE.VersionEdit<Bytes>, edit: Edit, level: nat) {
    var le := M.AtLevel(e, level);
    && VB.DistinctNumbers(le.added) && VB.Numbers(le.added) == NumbersAt(edit.added, level)
    && le.deleted == NumbersAt(edit.deleted, level)
  }

  ghost predicate AllName(es: seq<VE.VersionEdit<Bytes>>, edits: seq<Edit>, level: nat) {
    |es| == |edits| && forall i :: 0 <= i < |es| ==> Names(es[i], edits[i], level)
  }

  /** `edits` gives no level a number of `seen`, and none twice. */
  ghost predicate Unseen(edits: seq<Edit>, level: nat, seen: set<nat>) {
    && (forall i :: 0 <= i < |edits| ==> NumbersAt(edits[i].added, level) !! seen)
    && forall i, j :: 0 <= i < j < |edits| ==> NumbersAt(edits[i].added, level) !! NumbersAt(edits[j].added, level)
  }

  lemma OnceUnseen(edits: seq<Edit>, level: nat)
    requires RecordedOnce(edits)
    ensures Unseen(edits, level, {})
  {
    forall i, j | 0 <= i < j < |edits| ensures NumbersAt(edits[i].added, level) !! NumbersAt(edits[j].added, level) {
      assert NewPlaces(edits[i].added, edits[j].added);
    }
  }

  lemma UnseenRest(edits: seq<Edit>, level: nat, seen: set<nat>)
    requires edits != [] && Unseen(edits, level, seen)
    ensures Unseen(edits[1..], level, seen + NumbersAt(edits[0].added, level))
  {
    forall i | 0 <= i < |edits[1..]|
      ensures NumbersAt(edits[1..][i].added, level) !! seen + NumbersAt(edits[0].added, level)
    {
      assert edits[1..][i] == edits[i + 1];
    }
  }

  lemma NamedRest(es: seq<VE.VersionEdit<Bytes>>, edits: seq<Edit>, level: nat)
    requires es != [] && AllName(es, edits, level)
    ensures AllName(es[1..], edits[1..], level) && Names(es[0], edits[0], level)
    ensures M.Project(es, level)[1..] == M.Project(es[1..], level) && M.Project(es, level)[0] == M.AtLevel(es[0], level)
  {
    forall i | 0 <= i < |es[1..]| ensures Names(es[1..][i], edits[1..][i], level) {
      assert es[1..][i] == es[i + 1] && edits[1..][i] == edits[i + 1];
    }
  }

  lemma {:induction false} UnseenAddedOnce(es: seq<VE.VersionEdit<Bytes>>, edits: seq<Edit>, level: nat, seen: set<nat>)
    requires AllName(es, edits, level) && Unseen(edits, level, seen)
    ensures VB.AddedOnce(seen, M.Project(es, level))
    decreases |es|
  {
    if es != [] {
      NamedRest(es, edits, level);
      UnseenRest(edits, level, seen);
      UnseenAddedOnce(es[1..], edits[1..], level, seen + NumbersAt(edits[0].added, level));
    }
  }

  // ----- and the numbers it leaves

  lemma {:induction false} InsertedNumbers(o: VB.Order, fs: seq<VB.File>, f: VB.File)
    ensures VB.Numbers(VB.InsertFile(o, fs, f)) == VB.Numbers(fs) + {f.number}
  {
    if fs != [] {
      VB.SlotOrder(o, f, fs[0]);
      assert fs == [fs[0]] + fs[1..];
      if VB.FileBefore(o, fs[0], f) {
        InsertedNumbers(o, fs[1..], f);
        NumbersCons(fs[0], VB.InsertFile(o, fs[1..], f));
      } else {
        NumbersCons(f, fs);
      }
      NumbersCons(fs[0], fs[1..]);
    }
  }

  lemma NumbersCons(f: VB.File, fs: seq<VB.File>)
    ensures VB.Numbers([f] + fs) == {f.number} + VB.Numbers(fs)
  {
    assert f in [f] + fs;
    forall g | g in fs ensures g in [f] + fs {
    }
  }

  lemma {:induction false} AllInserted(o: VB.Order, fs: seq<VB.File>, more: seq<VB.File>)
    ensures VB.Numbers(VB.InsertAll(o, fs, more)) == VB.Numbers(fs) + VB.Numbers(more)
    decreases |more|
  {
    if more != [] {
      InsertedNumbers(o, fs, more[0]);
      AllInserted(o, VB.InsertFile(o, fs, more[0]), more[1..]);
      NumbersCons(more[0], more[1..]);
      assert more == [more[0]] + more[1..];
    }
  }

  lemma InByCount(fs: seq<VB.File>, f: VB.File)
    ensures f in fs <==> multiset(fs)[f] > 0
  {
  }

  /** A version per edit: the numbers of a level after one. */
  lemma SavedNumbers(o: VB.Order, base: seq<VB.File>, st: VB.LevelState)
    ensures VB.Numbers(VB.Saved(o, base, st)) == VB.Numbers(base) + VB.Numbers(st.added) - st.deleted
  {
    var merged := VB.Merge(o, base, st.added);
    forall f ensures f in VB.Saved(o, base, st) <==> (f in base || f in st.added) && f.number !in st.deleted {
      VB.MergeCounts(o, base, st.added, f);
      VB.KeepCounts(merged, st.deleted, f);
      InByCount(base, f);
      InByCount(st.added, f);
      InByCount(VB.Saved(o, base, st), f);
    }
  }

  lemma EditNumbers(o: VB.Order, base: seq<VB.File>, e: VB.LevelEdit)
    ensures VB.Numbers(VB.Saved(o, base, VB.ApplyLevel(o, VB.FRESH, e)))
      == VB.Numbers(base) - e.deleted + VB.Numbers(e.added)
  {
    AllInserted(o, [], e.added);
    SavedNumbers(o, base, VB.ApplyLevel(o, VB.FRESH, e));
    assert VB.Numbers([]) == {};
  }

  /** Where a number stands for one table, taking away its number takes away the table. */
  lemma PlaceNumbers(all: set<Place>, files: set<Place>, e: Edit, level: nat)
    requires One(FilesOf(all)) && files <= all && e.deleted <= all
    ensures NumbersAt(files - e.deleted + e.added, level)
         == NumbersAt(files, level) - NumbersAt(e.deleted, level) + NumbersAt(e.added, level)
  {
    forall p, q | p in files && q in e.deleted && p.level == q.level && p.file.number == q.file.number ensures p == q {
      assert p.file in FilesOf(all) && q.file in FilesOf(all);
    }
  }

  /** Edits of tables that `all` holds. */
  ghost predicate Within(edits: seq<Edit>, all: set<Place>) {
    forall e :: e in edits ==> e.added <= all && e.deleted <= all
  }

  lemma {:induction false} SteppedNumbers(
    o: VB.Order, base: seq<VB.File>, es: seq<VE.VersionEdit<Bytes>>, files: set<Place>, edits: seq<Edit>, level: nat,
    all: set<Place>)
    requires AllName(es, edits, level) && VB.Numbers(base) == NumbersAt(files, level)
    requires One(FilesOf(all)) && files <= all && Within(edits, all)
    ensures VB.Numbers(VB.StepAll(o, base, M.Project(es, level))) == NumbersAt(Filled(files, edits), level)
    decreases |es|
  {
    if es != [] {
      NamedRest(es, edits, level);
      assert edits[0] in edits && Within(edits[1..], all);
      PlaceNumbers(all, files, edits[0], level);
      EditNumbers(o, base, M.AtLevel(es[0], level));
      var next := VB.Saved(o, base, VB.ApplyLevel(o, VB.FRESH, M.AtLevel(es[0], level)));
      SteppedNumbers(o, next, es[1..], files - edits[0].deleted + edits[0].added, edits[1..], level, all);
    }
  }

  lemma RecordsWithin(edits: seq<Edit>)
    requires RecordedOnce(edits)
    ensures Within(edits, Ever(edits))
  {
  }

  lemma SameNumbers(ps: set<Place>, qs: set<Place>, level: nat)
    requires SamePlaces(ps, qs) && level < NUM_LEVELS
    ensures NumbersAt(ps, level) == NumbersAt(qs, level)
  {
  }

  /** The bytes of a record name its numbers, as LogAndApply and NewDB see to. */
  ghost predicate NamesNumbers(e: VE.VersionEdit<Bytes>, edit: Edit) {
    && e.logNumber == Some(edit.logNumber) && e.nextFile == Some(edit.nextFile)
    && e.lastSequence == Some(edit.lastSequence)
  }

  /** Recovery goes through the records of the manifest file in one builder. In every run it
      gets, level by level, the very list that a version for every record would have given, and
      the numbers in it are those of the tables that the manifest of the run has there. Whatever
      the records before say, it goes on with the log number, the next file number and the last
      sequence number of that manifest. (A snapshot names none, but is never the last record.) */
  lemma {:induction false} RecoveryRebuilds(
    o: VB.Order, run: seq<State>, steps: seq<Step>, records: seq<seq<Edit>>, k: nat, es: seq<VE.VersionEdit<Bytes>>,
    level: nat)
    requires IsExecution(run, steps) && IsRecording(run, steps, records) && k < |run|
    requires level < NUM_LEVELS && AllName(es, records[k], level)
    requires es != [] ==> NamesNumbers(es[|es| - 1], records[k][|es| - 1])
    ensures var p := M.NoteAll(o, M.START, es);
      && p.logNumber == Some(run[k].disk.manifest.logNumber)
      && p.nextFile == Some(run[k].disk.manifest.nextFile)
      && p.lastSequence == Some(run[k].disk.manifest.lastSequence)
    ensures var p := M.NoteAll(o, M.START, es);
      && level < |p.levels|
      && VB.Saved(o, [], p.levels[level]) == VB.StepAll(o, [], M.Project(es, level))
      && VB.Numbers(VB.Saved(o, [], p.levels[level])) == NumbersAt(run[k].disk.manifest.files, level)
  {
    var edits := records[k];
    RunRecorded(run, steps, records, k);
    OnceUnseen(edits, level);
    UnseenAddedOnce(es, edits, level, {});
    M.RecoveryRebuildsVersion(o, es, level);
    RecordsWithin(edits);
    assert VB.Numbers([]) == {} == NumbersAt({}, level);
    SteppedNumbers(o, [], es, {}, edits, level, Ever(edits));
    SameNumbers(Filled({}, edits), run[k].disk.manifest.files, level);
    M.LastEditDecides(o, es);
  }
}
