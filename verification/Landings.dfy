/** Exactly when a record fits the manifest file it lands in, and what is read if it does not. */
module Landings {
  import opened Options
  import opened Keys
  import opened Version
  import opened Inputs
  import opened Selection
  import opened Compaction
  import opened Flush
  import opened Disks
  import opened Durability
  import opened ReadInvariants
  import opened QuietSteps
  import opened WriteSteps
  import opened LandingSteps
  import opened CopyLandings
  import opened ReturnLandings
  import opened RestartSteps
  import opened Survival
  import L = Lsm

  // ----- the condition is exact

  /** Two tables at a level below the first share no entry. */
  lemma TwiceTheSame(v: Levels, level: nat, f: FileMeta, g: FileMeta, e: Entry)
    requires VersionOk(v) && level > 0 && Place(level, f) in Placed(v) && Place(level, g) in Placed(v) && f != g
    ensures !(e in f.entries && e in g.entries)
  {
    var i :| 0 <= i < |v[level]| && v[level][i] == f;
    var j :| 0 <= j < |v[level]| && v[level][j] == g;
    LevelFacts(v, level);
    if e in f.entries && e in g.entries {
      if i < j {
        AcrossFiles(v[level], i, j, e, e);
      } else {
        AcrossFiles(v[level], j, i, e, e);
      }
    }
  }

  /** No well-formed version has these tables. */
  ghost predicate Malformed(files: set<Place>) {
    forall v :: VersionOk(v) ==> Placed(v) != files
  }

  lemma CopiesMalformed(files: set<Place>, level: nat, f: FileMeta, g: FileMeta)
    requires level > 0 && Place(level, f) in files && Place(level, g) in files && f != g
    requires Ent(f) == Ent(g) != {}
    ensures Malformed(files)
  {
    var e :| e in Ent(f);
    assert e in Ent(g);
    forall v | VersionOk(v) ensures Placed(v) != files {
      if Placed(v) == files {
        TwiceTheSame(v, level, f, g, e);
      }
    }
  }

  lemma ClearPlaces(v: Levels, level: nat, f: FileMeta, p: Place)
    requires ClearThrough(v, level, f.smallest.user, f.largest.user) && p in Placed(v) && p.level == level
    ensures !Overlaps(p.file, Some(f.smallest.user), Some(f.largest.user))
  {
    var i :| 0 <= i < |v[level]| && v[level][i] == p.file;
    assert !SomeOverlap(v[level], Some(f.smallest.user), Some(f.largest.user));
  }

  /** What the flushed table overlaps at its level is a copy of it. */
  lemma OverlappedIsCopy(d: Disk, m: Memory, p: Place, q: Place)
    requires CallOk(d, m, Only(m)) && ManifestKnown(d, m) && m.tail != CutOff && Only(m).Logging? && !Only(m).landed
    requires Only(m).work.Flushing? && Only(m).work.level > 0 && p in d.manifest.files && q in Only(m).edit.added
    requires p.level == q.level && Overlaps(p.file, Some(q.file.smallest.user), Some(q.file.largest.user))
    requires m.doubtful ==> m.core.job.Some? && exists w :: Shadow(d.manifest, m.core, w)
    ensures q.level > 0 && Ent(p.file) == Ent(q.file) == L.ImmEntries(m.core) != {}
  {
    var work := Only(m).work;
    assert q == Place(work.level, work.file);
    if p in Placed(m.core.version) {
      ClearPlaces(m.core.version, work.level, work.file, p);
    }
  }

  lemma OverlapUnreadable(d: Disk, m: Memory)
    requires DiskOk(d) && CallOk(d, m, Only(m)) && ManifestKnown(d, m) && m.tail != CutOff && Only(m).Logging?
    requires !Only(m).landed
    requires Only(m).work.Flushing? && Only(m).work.level > 0 && !NoneOverlaps(d.manifest.files, Only(m).edit.added)
    requires m.doubtful ==> m.core.job.Some? && exists w :: Shadow(d.manifest, m.core, w)
    ensures Malformed(Apply(d.manifest, Only(m).edit).files)
  {
    var p, q :| p in d.manifest.files && q in Only(m).edit.added && p.level == q.level
      && Overlaps(p.file, Some(q.file.smallest.user), Some(q.file.largest.user));
    OverlappedIsCopy(d, m, p, q);
    assert p.file in FilesOf(d.manifest.files);
    CopiesMalformed(Apply(d.manifest, Only(m).edit).files, p.level, p.file, q.file);
  }

  /** Only a compaction behind a flush that the engine does not know of takes the log number back. */
  lemma OnlyReturns(d: Disk, m: Memory)
    requires CallOk(d, m, Only(m)) && ManifestKnown(d, m) && LogsKept(d, m) && m.tail != CutOff
    requires Only(m).Logging? && !Only(m).landed && Only(m).edit.logNumber < d.manifest.logNumber
    ensures m.doubtful && Only(m).work.Compacting? && m.core.job.Some?
  {
  }

  lemma ReturnedKnown(d: Disk, m: Memory, sure: set<Entry>, written: set<Entry>)
    requires Landing(d, m) && L.Inv(m.core) && Linked(d, m, sure) && Attached(d, m, sure, written) && DiskReads(d)
    requires m.doubtful && Only(m).work.Compacting?
    ensures Known(Apply(d.manifest, Only(m).edit)) == Known(d.manifest)
  {
    var call := Only(m);
    var v :| Describes(d.manifest, v);
    var w :| Shadow(d.manifest, m.core, w);
    CompactingFacts(m.core, call.work, call.version);
    ReturnLands(d.manifest, v, m.core, w, call.work, call.version, call.edit);
  }

  lemma AstrayParts(s: State)
    requires Inv(s) && s.up.Some? && s.up.value.tail != CutOff && s.up.value.calls == [Only(s.up.value)]
    requires Only(s.up.value).Logging? && !Only(s.up.value).landed && s.up.value.doubtful
    ensures s.up.value.core.job.Some? && exists w :: Shadow(s.disk.manifest, s.up.value.core, w)
  {
    assert Astray(s.up.value);
  }

  lemma UnfitUnreadable(s: State, i: nat, s': State)
    requires Inv(s) && Single(s, i) && Lands(s, i, true, s') && Landing(s.disk, s.up.value)
    requires !Fitting(s.disk, Only(s.up.value))
    ensures !DiskReads(s'.disk)
  {
    var d, m := s.disk, s.up.value;
    if m.doubtful {
      AstrayParts(s);
    }
    if Only(m).work.Flushing? && Only(m).work.level > 0 && !NoneOverlaps(d.manifest.files, Only(m).edit.added) {
      OverlapUnreadable(d, m);
    } else {
      OnlyReturns(d, m);
      ReturnedKnown(d, m, s.sure, s.written);
    }
  }

  /** After a record has landed in a manifest file that is read to its end, a recovery reads
      all that reached the tables, exactly if the record fits the file. */
  lemma FittingIff(s: State, i: nat, s': State)
    requires Inv(s) && Lands(s, i, true, s')
    requires s.up.value.calls[i].work.Compacting? && s.up.value.core.job.Some? ==> NoneLost(s.up.value.core)
    ensures DiskReads(s'.disk) <==> Fitting(s.disk, s.up.value.calls[i])
  {
    IsSingle(s, i);
    if Fitting(s.disk, s.up.value.calls[i]) {
      LandsReads(s, i, true, s');
    } else {
      UnfitUnreadable(s, i, s');
    }
  }

  /** A power failure may leave `x` in slot `a` and nothing that outdoes the newer `e`. */
  ghost predicate MayHide(d: Disk, low: nat, a: Slot, x: Entry, e: Entry) {
    && a in Slots(d.logs, low) && x in Written(At(d.logs, a)) && Hides(x, e)
    && !Outdone(Written(At(d.logs, a)) + Synced(d.logs, d.synced, low), e)
  }

  // ----- what is read if the log number goes back too far

  /** A crash that leaves log `a.log` up to slot `a`, and of the others what was synced. */
  function LeftUpTo(d: Disk, a: Slot): Logs
    requires LogsOk(d) && a.log in d.logs && a.index < |d.logs[a.log]|
  {
    map n | n in d.logs ::
      d.logs[n][..if n == a.log && d.synced[n] < a.index + 1 then a.index + 1 else d.synced[n]]
  }

  lemma LeftEntries(d: Disk, low: nat, a: Slot, c: Entry) returns (b: Slot)
    requires LogsOk(d) && a in Slots(d.logs, low) && c in Logged(LeftUpTo(d, a), low)
    ensures b in Slots(d.logs, low) && c in Written(At(d.logs, b))
    ensures b in SyncedSlots(d.logs, d.synced, low) || b == a || Earlier(b, a)
  {
    var logs := LeftUpTo(d, a);
    b :| b in Slots(logs, low) && c in Written(At(logs, b));
    assert b in Slots(d.logs, low) && At(d.logs, b) == At(logs, b);
  }

  /** Nothing that is left outdoes the hidden entry. */
  lemma LeftOlder(d: Disk, low: nat, a: Slot, x: Entry, e: Entry, c: Entry)
    requires LogsOk(d) && Numbered(d.logs, low) && a in Slots(d.logs, low) && x in Written(At(d.logs, a)) && Hides(x, e)
    requires !Outdone(Written(At(d.logs, a)) + Synced(d.logs, d.synced, low), e)
    requires c in Logged(LeftUpTo(d, a), low) && c.key.user == e.key.user
    ensures Tag(c.key) < Tag(e.key)
  {
    var b := LeftEntries(d, low, a, c);
    if Tag(c.key) >= Tag(e.key) {
      assert c !in Written(At(d.logs, a)) && c !in Synced(d.logs, d.synced, low);
      SlotOrder(d.logs, low, b, a, c, x);
    }
  }

  lemma LeftHolds(d: Disk, low: nat, a: Slot, x: Entry)
    requires LogsOk(d) && a in Slots(d.logs, low) && x in Written(At(d.logs, a))
    ensures x in Logged(LeftUpTo(d, a), low)
  {
    var logs := LeftUpTo(d, a);
    assert a in Slots(logs, low) && At(logs, a) == At(d.logs, a);
  }

  /** Of the tables of level 0 a read opens `h` first. */
  ghost predicate OpenedFirst(v: Levels, h: FileMeta) {
    0 < |v| && h in v[0] && forall g :: g in v[0] && g != h ==> g.number < h.number
  }

  /** The only new table is opened first, and holds what the logs held. */
  lemma OneTableFirst(d: Disk, es: seq<Entry>, r: Fresh, x: Entry)
    requires DiskOk(d) && OneTable(d, es, r) && x in Logged(d.logs, d.manifest.logNumber)
    ensures |r.fresh'| == 1 && OpenedFirst(r.version, r.fresh'[0])
    ensures Ent(r.fresh'[0]) == Logged(d.logs, d.manifest.logNumber)
  {
    ReplayedEntries(d.logs, d.manifest.logNumber, r.home, r.fresh');
    var i :| 0 <= i < |r.fresh'| && x in r.fresh'[i].entries;
    var h := r.fresh'[0];
    assert LevelEntries(r.fresh') == Ent(h);
    assert h in Files(r.fresh') && h in Files(r.version[0]);
    forall g | g in r.version[0] && g != h ensures g.number < h.number {
      assert g in Files(r.version[0]) && g in FilesAt(d.manifest.files, 0);
      var p :| p in d.manifest.files && p.level == 0 && p.file == g;
      assert g in FilesOf(d.manifest.files);
    }
  }

  /** The newest entry of `es` that a reader at `t` sees is older than `e`. */
  lemma NewestOlder(es: set<Entry>, x: Entry, e: Entry, t: nat) returns (y: Entry)
    requires x in es && Candidate(x, e.key.user, t)
    requires forall c :: c in es && c.key.user == e.key.user ==> Tag(c.key) < Tag(e.key)
    ensures IsNewest(es, e.key.user, t, y) && Tag(y.key) < Tag(e.key)
  {
    NewestExists(es, e.key.user, t);
    y :| IsNewest(es, e.key.user, t, y);
  }

  /** The search for the user key of `e` at `t` finds `y` and nothing else, which is older than `e`. */
  ghost predicate Misread(v: Levels, t: nat, y: Entry, e: Entry) {
    && VersionOk(v) && (forall b :: SearchFinds(v, e.key.user, t, b) <==> b == y)
    && Candidate(e, e.key.user, t) && Tag(y.key) < Tag(e.key)
  }

  lemma FirstIsFound(v: Levels, k: UserKey, t: nat, h: FileMeta, y: Entry)
    requires VersionOk(v) && OpenedFirst(v, h) && IsNewest(Ent(h), k, t, y)
    ensures forall b :: SearchFinds(v, k, t, b) <==> b == y
  {
    LevelFacts(v, 0);
    assert Foremost(v[0], h, k, t) && LevelFinds(v[0], 0, k, t, y);
    assert !InLevels(v, 0, k, t);
    forall b | SearchFinds(v, k, t, b) ensures b == y {
      FoundAtZero(v, k, t, y, b);
    }
  }

  lemma OneTableShape(d: Disk, es: seq<Entry>, r: Fresh)
    requires DiskOk(d) && OneTable(d, es, r) && exists v :: Describes(d.manifest, v)
    ensures VersionOk(r.version)
  {
    var v: Levels :| Describes(d.manifest, v);
    forall g: FileMeta | g in v[0] ensures g.number < d.manifest.nextFile {
      assert Place(0, g) in Placed(v) && g in FilesOf(d.manifest.files);
    }
    RecoveredShape(d.manifest, v, r.fresh', r.version);
  }

  lemma LeftMisread(d: Disk, a: Slot, x: Entry, e: Entry, d': Disk, es: seq<Entry>, r: Fresh)
    returns (y: Entry)
    requires DiskOk(d) && Numbered(d.logs, d.manifest.logNumber) && (exists v :: Describes(d.manifest, v))
    requires MayHide(d, d.manifest.logNumber, a, x, e) && e in Known(d.manifest)
    requires d' == d.(logs := LeftUpTo(d, a)) && DiskOk(d') && OneTable(d', es, r)
    ensures Misread(r.version, r.last, y, e) && y in Logged(d'.logs, d'.manifest.logNumber)
  {
    var low := d.manifest.logNumber;
    LeftHolds(d, low, a, x);
    OneTableFirst(d', es, r, x);
    OneTableShape(d', es, r);
    var h := r.fresh'[0];
    forall c | c in Ent(h) && c.key.user == e.key.user ensures Tag(c.key) < Tag(e.key) {
      LeftOlder(d, low, a, x, e, c);
    }
    SeenAtLast(d', r.last, x, e);
    y := NewestOlder(Ent(h), x, e, r.last);
    FirstIsFound(r.version, e.key.user, r.last, h, y);
  }

  lemma LeftRecovers(d: Disk, a: Slot, x: Entry, e: Entry, s1: State)
    returns (run: seq<State>, steps: seq<Step>, y: Entry)
    requires DiskOk(d) && Numbered(d.logs, d.manifest.logNumber) && (exists v :: Describes(d.manifest, v))
    requires MayHide(d, d.manifest.logNumber, a, x, e) && e in Known(d.manifest)
    requires s1.up.None? && !s1.disk.spoilt && s1.disk == d.(logs := LeftUpTo(d, a)) && DiskOk(s1.disk)
    requires Numbered(s1.disk.logs, s1.disk.manifest.logNumber) && s1.disk.manifest.lastSequence < MAX_SEQUENCE
    ensures Reopens(s1, run, steps) && Misreads(run[|steps|], y, e)
    ensures y in Logged(s1.disk.logs, s1.disk.manifest.logNumber)
  {
    var es, r;
    es, r, run, steps := OneTableReopens(s1);
    y := LeftMisread(d, a, x, e, s1.disk, es, r);
  }

  ghost predicate Misreads(s: State, y: Entry, e: Entry) {
    s.up.Some? && Misread(s.up.value.core.version, s.up.value.core.lastSequence, y, e)
  }

  /** If replay may find a record that hides a newer entry of the tables, a crash and a recovery
      can follow after which Version::Get at the latest number answers with an older entry than
      one that had reached a table. */
  lemma HiddenIsMisread(s: State)
    returns (kept: Logs, s1: State, run: seq<State>, steps: seq<Step>, y: Entry, e: Entry)
    requires DiskOk(s.disk) && (exists v :: Describes(s.disk.manifest, v))
    requires Numbered(s.disk.logs, s.disk.manifest.logNumber)
    requires !NothingHidden(s.disk.logs, s.disk.synced, s.disk.manifest.logNumber, Known(s.disk.manifest))
    requires !s.disk.spoilt
    ensures Crash(s, kept, false, s1) && Reopens(s1, run, steps) && Misreads(run[|steps|], y, e)
    ensures e in Known(s.disk.manifest) && y in Logged(s1.disk.logs, s1.disk.manifest.logNumber)
    ensures s1.disk.manifest == s.disk.manifest
  {
    var a, x;
    a, x, e := HiddenWhere(s.disk);
    kept := LeftUpTo(s.disk, a);
    s1 := s.(disk := s.disk.(logs := kept), up := None);
    LeftOk(s, a, s1);
    LastBelow(s.disk);
    run, steps, y := LeftRecovers(s.disk, a, x, e, s1);
  }

  lemma HiddenWhere(d: Disk) returns (a: Slot, x: Entry, e: Entry)
    requires !NothingHidden(d.logs, d.synced, d.manifest.logNumber, Known(d.manifest))
    ensures MayHide(d, d.manifest.logNumber, a, x, e) && e in Known(d.manifest)
  {
    var low := d.manifest.logNumber;
    a, x, e :| a in Slots(d.logs, low) && x in Written(At(d.logs, a)) && e in Known(d.manifest) && Hides(x, e)
      && !Outdone(Written(At(d.logs, a)) + Synced(d.logs, d.synced, low), e);
  }

  lemma LeftShortened(d: Disk, low: nat, a: Slot)
    requires LogsOk(d) && a in Slots(d.logs, low)
    ensures Shortened(d.logs, low, LeftUpTo(d, a), low)
  {
    var logs := LeftUpTo(d, a);
    forall b | b in Slots(logs, low) ensures b in Slots(d.logs, low) && At(logs, b) == At(d.logs, b) {
    }
  }

  lemma LeftByCrash(s: State, a: Slot, s1: State)
    requires LogsOk(s.disk) && a.log in s.disk.logs && a.index < |s.disk.logs[a.log]|
    requires s1 == s.(disk := s.disk.(logs := LeftUpTo(s.disk, a)), up := None)
    ensures Crash(s, LeftUpTo(s.disk, a), false, s1) && LogsOk(s1.disk)
  {
  }

  lemma LeftOk(s: State, a: Slot, s1: State)
    requires DiskOk(s.disk) && a in Slots(s.disk.logs, s.disk.manifest.logNumber)
    requires Numbered(s.disk.logs, s.disk.manifest.logNumber)
    requires s1 == s.(disk := s.disk.(logs := LeftUpTo(s.disk, a)), up := None)
    ensures Crash(s, LeftUpTo(s.disk, a), false, s1) && DiskOk(s1.disk)
    ensures Numbered(s1.disk.logs, s.disk.manifest.logNumber)
  {
    var d, logs, low := s.disk, LeftUpTo(s.disk, a), s.disk.manifest.logNumber;
    LeftByCrash(s, a, s1);
    LeftShortened(d, low, a);
    ShortenedOk(d.logs, low, logs, low, {}, 0);
  }

  lemma LastBelow(d: Disk)
    requires exists v :: Describes(d.manifest, v)
    ensures d.manifest.lastSequence < MAX_SEQUENCE
  {
  }

  lemma SeenAtLast(d: Disk, last: nat, x: Entry, e: Entry)
    requires LastOf(d, last) && x in Logged(d.logs, d.manifest.logNumber) && e in Known(d.manifest)
    requires (exists v :: Describes(d.manifest, v)) && x.key.user == e.key.user
    ensures Candidate(x, e.key.user, last) && Candidate(e, e.key.user, last)
  {
    LoggedUpTo(d.logs, d.manifest.logNumber, last);
    var a :| a in Slots(d.logs, d.manifest.logNumber) && x in Written(At(d.logs, a));
    WrittenRange(At(d.logs, a), x);
    KnownUpTo(d.manifest, last);
  }

  lemma ReturnedWell(d: Disk, m: Memory, sure: set<Entry>, written: set<Entry>)
    requires Landing(d, m) && L.Inv(m.core) && Linked(d, m, sure) && Attached(d, m, sure, written) && DiskReads(d)
    requires m.doubtful && Only(m).work.Compacting?
    ensures var mf' := Apply(d.manifest, Only(m).edit);
      (exists v :: Describes(mf', v)) && Known(mf') == Known(d.manifest)
    ensures Numbered(d.logs, m.logNumber)
  {
    var call := Only(m);
    var v :| Describes(d.manifest, v);
    var w :| Shadow(d.manifest, m.core, w);
    CompactingFacts(m.core, call.work, call.version);
    ReturnLands(d.manifest, v, m.core, w, call.work, call.version, call.edit);
  }

  // ----- reads, exactly

  /** The recovered version is well formed, and no read at the latest number ends at a replayed
      entry that is older than one that had reached a table. */
  ghost predicate Sound(d: Disk, core: L.State) {
    && VersionOk(core.version)
    && forall y, e :: y in Logged(d.logs, d.manifest.logNumber) && e in Known(d.manifest) && Hides(y, e)
         ==> !SearchFinds(core.version, e.key.user, core.lastSequence, y)
  }

  /** So it is after every crash and recovery. */
  ghost predicate SoundAfter(s: State) {
    forall kept, s1, run: seq<State>, steps :: Crash(s, kept, false, s1) && Reopens(s1, run, steps)
      ==> run[|steps|].up.Some? && Sound(s1.disk, run[|steps|].up.value.core)
  }

  lemma ReplayedStored(d: Disk, r: Fresh)
    requires Replayed(d.logs, d.manifest.logNumber, r.home, r.fresh') && Recovered(d.manifest, r.fresh', r.version)
    ensures Logged(d.logs, d.manifest.logNumber) <= VersionEntries(r.version)
  {
    ReplayedEntries(d.logs, d.manifest.logNumber, r.home, r.fresh');
    forall e | e in LevelEntries(r.fresh') ensures e in LevelEntries(r.version[0]) {
      var i :| 0 <= i < |r.fresh'| && e in r.fresh'[i].entries;
      assert r.fresh'[i] in Files(r.fresh') && r.fresh'[i] in Files(r.version[0]);
    }
  }

  /** What outdoes an entry of a table is replayed with whatever hides the entry. */
  lemma OutdoneLogged(d: Disk, y: Entry, e: Entry) returns (c: Entry)
    requires DiskReads(d) && y in Logged(d.logs, d.manifest.logNumber) && e in Known(d.manifest) && Hides(y, e)
    ensures c in Logged(d.logs, d.manifest.logNumber) && c.key.user == e.key.user && Tag(c.key) >= Tag(e.key)
  {
    var low := d.manifest.logNumber;
    var a :| a in Slots(d.logs, low) && y in Written(At(d.logs, a));
    assert Outdone(Written(At(d.logs, a)) + Synced(d.logs, d.synced, low), e);
    c :| c in Written(At(d.logs, a)) + Synced(d.logs, d.synced, low) && c.key.user == e.key.user
      && Tag(c.key) >= Tag(e.key);
    SyncedLogged(d.logs, d.synced, low);
  }

  lemma RecoveredSound(d: Disk, r: Fresh, core: L.State)
    requires DiskReads(d) && Replayed(d.logs, d.manifest.logNumber, r.home, r.fresh') && LastOf(d, r.last)
    requires Recovered(d.manifest, r.fresh', r.version) && core.version == r.version && core.lastSequence == r.last
    requires VersionOk(r.version) && Layered(r.version, r.last) && KeyUnique(VersionEntries(r.version))
    ensures Sound(d, core)
  {
    ReplayedStored(d, r);
    forall y, e | y in Logged(d.logs, d.manifest.logNumber) && e in Known(d.manifest) && Hides(y, e)
      ensures !SearchFinds(r.version, e.key.user, r.last, y)
    {
      var c := OutdoneLogged(d, y, e);
      SeenAtLast(d, r.last, c, e);
      if SearchFinds(r.version, e.key.user, r.last, y) {
        SearchIsRead(r.version, r.last, e.key.user, r.last, y);
      }
    }
  }

  lemma DescribedParts(mf: Manifest, v: Levels)
    requires Describes(mf, v)
    ensures VersionOk(v) && Layered(v, mf.lastSequence) && KeyUnique(VersionEntries(v))
  {
    ShadowKnown(mf, v, v);
  }

  lemma RecoverParts(s: State, r: Fresh, s': State)
    requires Recover(s, r, s')
    ensures FreshNumbers(s.disk, r) && LastOf(s.disk, r.last) && Recovered(s.disk.manifest, r.fresh', r.version)
    ensures Replayed(s.disk.logs, s.disk.manifest.logNumber, r.home, r.fresh')
  {
  }

  lemma RecoveredParts(d: Disk, r: Fresh)
    requires DiskOk(d) && DiskReads(d) && FreshNumbers(d, r) && LastOf(d, r.last)
    requires Replayed(d.logs, d.manifest.logNumber, r.home, r.fresh') && Recovered(d.manifest, r.fresh', r.version)
    ensures VersionOk(r.version) && Layered(r.version, r.last) && KeyUnique(VersionEntries(r.version))
  {
    FreshDescribes(d, r);
    DescribedParts(FreshManifest(d, r), r.version);
  }

  lemma DiskParts(s: State)
    requires Inv(s)
    ensures DiskOk(s.disk) && DiskReads(s.disk)
  {
  }

  lemma SoundAgain(d: Disk, d': Disk, core: L.State)
    requires SameContents(d, d') && Sound(d', core)
    ensures Sound(d, core)
  {
  }

  lemma ReopenedSound(s: State, run: seq<State>, steps: seq<Step>)
    requires Inv(s) && Reopens(s, run, steps)
    ensures run[|steps|].up.Some? && Sound(s.disk, run[|steps|].up.value.core)
  {
    var k := |steps| - 1;
    StraysStay(s, run, steps, k);
    ReopensAt(s, run, steps, k);
    RecoverNext(run[k], steps[k], run[k + 1]);
    var r := steps[k].x.recovery;
    DiskParts(run[k]);
    RecoverParts(run[k], r, run[k + 1]);
    RecoveredParts(run[k].disk, r);
    RecoveredCore(run[k], r, run[k + 1]);
    RecoveredSound(run[k].disk, r, run[k + 1].up.value.core);
    SoundAgain(s.disk, run[k].disk, run[k + 1].up.value.core);
  }

  lemma InvSound(s: State)
    requires Inv(s)
    ensures SoundAfter(s)
  {
    forall kept, s1, run: seq<State>, steps | Crash(s, kept, false, s1) && Reopens(s1, run, steps)
      ensures run[|steps|].up.Some? && Sound(s1.disk, run[|steps|].up.value.core)
    {
      CrashInv(s, kept, false, s1);
      ReopenedSound(s1, run, steps);
    }
  }

  /** Two tables that overlap at a level below the first are recovered at that level. */
  lemma OverlapRecovered(
    mf: Manifest, fresh': seq<FileMeta>, v: Levels, p: Place, q: Place, e: Entry)
    requires Recovered(mf, fresh', v) && p in mf.files && q in mf.files && 0 < p.level == q.level < NUM_LEVELS
    requires p.file != q.file && e in p.file.entries && e in q.file.entries
    ensures !VersionOk(v)
  {
    assert p.file in FilesAt(mf.files, p.level) && q.file in FilesAt(mf.files, q.level);
    assert p.file in Files(v[p.level]) && q.file in Files(v[q.level]);
    assert p in Placed(v) && q in Placed(v);
    if VersionOk(v) {
      TwiceTheSame(v, p.level, p.file, q.file, e);
    }
  }

  /** A manifest with two such tables, and logs that can be replayed. */
  ghost predicate Overlapping(d: Disk, p: Place, q: Place, e: Entry) {
    && p in d.manifest.files && q in d.manifest.files && 0 < p.level == q.level < NUM_LEVELS
    && p.file != q.file && e in p.file.entries && e in q.file.entries
    && DiskOk(d) && Numbered(d.logs, d.manifest.logNumber) && d.manifest.lastSequence < MAX_SEQUENCE
  }

  lemma SyncedCrash(s: State) returns (s1: State)
    requires DiskOk(s.disk) && Numbered(s.disk.logs, s.disk.manifest.logNumber)
    ensures Crash(s, OnlySynced(s.disk), false, s1) && s1.disk == s.disk.(logs := OnlySynced(s.disk))
    ensures DiskOk(s1.disk) && Numbered(s1.disk.logs, s1.disk.manifest.logNumber) && s1.up.None?
  {
    var d, logs, low := s.disk, OnlySynced(s.disk), s.disk.manifest.logNumber;
    s1 := s.(disk := d.(logs := logs), up := None);
    forall a | a in Slots(logs, low) ensures a in Slots(d.logs, low) && At(logs, a) == At(d.logs, a) {
    }
    ShortenedOk(d.logs, low, logs, low, {}, 0);
  }

  lemma UnsoundAfter(s: State, kept: Logs, s1: State, run: seq<State>, steps: seq<Step>)
    requires Crash(s, kept, false, s1) && Reopens(s1, run, steps)
    requires run[|steps|].up.Some? && !Sound(s1.disk, run[|steps|].up.value.core)
    ensures !SoundAfter(s)
  {
  }

  lemma MisreadUnsound(d: Disk, core: L.State, y: Entry, e: Entry)
    requires Misread(core.version, core.lastSequence, y, e)
    requires y in Logged(d.logs, d.manifest.logNumber) && e in Known(d.manifest)
    ensures !Sound(d, core)
  {
    FoundHasKey(core.version, e.key.user, core.lastSequence, y);
  }

  lemma FoundHasKey(v: Levels, k: UserKey, t: nat, y: Entry)
    requires SearchFinds(v, k, t, y)
    ensures y.key.user == k
  {
  }

  lemma OverlapUnsound(s: State, p: Place, q: Place, e: Entry)
    requires Overlapping(s.disk, p, q, e) && !s.disk.spoilt
    ensures !SoundAfter(s)
  {
    var s1 := SyncedCrash(s);
    var es, r, run, steps := OneTableReopens(s1);
    OverlapRecovered(s1.disk.manifest, r.fresh', r.version, p, q, e);
    UnsoundAfter(s, OnlySynced(s.disk), s1, run, steps);
  }

  lemma HiddenUnsound(s: State)
    requires DiskOk(s.disk) && (exists v :: Describes(s.disk.manifest, v))
    requires Numbered(s.disk.logs, s.disk.manifest.logNumber)
    requires !NothingHidden(s.disk.logs, s.disk.synced, s.disk.manifest.logNumber, Known(s.disk.manifest))
    requires !s.disk.spoilt
    ensures !SoundAfter(s)
  {
    var kept, s1, run, steps, y, e := HiddenIsMisread(s);
    MisreadUnsound(s1.disk, run[|steps|].up.value.core, y, e);
    UnsoundAfter(s, kept, s1, run, steps);
  }

  lemma FlushPlace(d: Disk, m: Memory)
    requires CallOk(d, m, Only(m)) && Only(m).Logging? && !Only(m).landed && Only(m).work.Flushing? && L.Inv(m.core)
    requires Only(m).edit.added != {}
    ensures Only(m).edit.added == {Place(Only(m).work.level, Only(m).work.file)} && Only(m).work.level < NUM_LEVELS
    ensures d.manifest.nextFile <= Only(m).work.file.number
    ensures Only(m).edit.lastSequence < MAX_SEQUENCE && Only(m).edit.logNumber == m.logFile
  {
  }

  lemma OverlapWhere(d: Disk, m: Memory) returns (p: Place, q: Place, e: Entry)
    requires DiskOk(d) && CallOk(d, m, Only(m)) && ManifestKnown(d, m) && m.tail != CutOff && L.Inv(m.core)
    requires Only(m).Logging? && !Only(m).landed && Only(m).work.Flushing? && Only(m).work.level > 0
    requires !NoneOverlaps(d.manifest.files, Only(m).edit.added)
    requires m.doubtful ==> m.core.job.Some? && exists w :: Shadow(d.manifest, m.core, w)
    ensures p in d.manifest.files && q in Only(m).edit.added && 0 < p.level == q.level < NUM_LEVELS
    ensures p.file != q.file && e in p.file.entries && e in q.file.entries && Only(m).edit.deleted == {}
    ensures Only(m).edit.lastSequence < MAX_SEQUENCE && Only(m).edit.logNumber == m.logFile
  {
    p, q :| p in d.manifest.files && q in Only(m).edit.added && p.level == q.level
      && Overlaps(p.file, Some(q.file.smallest.user), Some(q.file.largest.user));
    FlushPlace(d, m);
    OverlappedIsCopy(d, m, p, q);
    assert p.file in FilesOf(d.manifest.files);
    e :| e in Ent(p.file);
    assert e in Ent(q.file);
  }

  lemma LaterNumbered(logs: Logs, low: nat, low': nat)
    requires Numbered(logs, low) && low <= low'
    ensures Numbered(logs, low')
  {
    forall a | a in Slots(logs, low') ensures a in Slots(logs, low) && At(logs, a) == At(logs, a) {
    }
    ShortenedOk(logs, low, logs, low', {}, 0);
  }

  lemma UnfitOverlap(s: State, i: nat, s': State)
    requires Inv(s) && Single(s, i) && Lands(s, i, true, s') && Landing(s.disk, s.up.value) && !s.disk.spoilt
    requires var call := Only(s.up.value);
      call.work.Flushing? && call.work.level > 0 && !NoneOverlaps(s.disk.manifest.files, call.edit.added)
    ensures !SoundAfter(s')
  {
    var d, m := s.disk, s.up.value;
    if m.doubtful {
      AstrayParts(s);
    }
    var p, q, e := OverlapWhere(d, m);
    LandsFiles(s, i, true, s');
    LaterNumbered(d.logs, d.manifest.logNumber, m.logFile);
    assert Overlapping(s'.disk, p, q, e);
    OverlapUnsound(s', p, q, e);
  }

  lemma UnfitHidden(s: State, i: nat, s': State)
    requires Inv(s) && Single(s, i) && Lands(s, i, true, s') && Landing(s.disk, s.up.value) && !s.disk.spoilt
    requires Only(s.up.value).edit.logNumber < s.disk.manifest.logNumber
    requires !NothingHidden(
      s.disk.logs, s.disk.synced, Only(s.up.value).edit.logNumber, Known(s.disk.manifest))
    ensures !SoundAfter(s')
  {
    var d, m := s.disk, s.up.value;
    OnlyReturns(d, m);
    AstrayParts(s);
    ReturnedWell(d, m, s.sure, s.written);
    LandingNumbers(d, m);
    LandsFiles(s, i, true, s');
    HiddenUnsound(s');
  }

  lemma FitSound(s: State, i: nat, s': State)
    requires Inv(s) && Single(s, i) && Lands(s, i, true, s') && Landing(s.disk, s.up.value)
    requires Fitting(s.disk, Only(s.up.value))
    ensures SoundAfter(s')
  {
    LandsReads(s, i, true, s');
    LandsFiles(s, i, true, s');
    InvSound(s');
  }

  /** When a record has landed, the reads after every crash and recovery are sound exactly if the
      record fits the manifest file, which can be checked before it is written. */
  lemma ReadsSoundIff(s: State, i: nat, s': State)
    requires Inv(s) && Lands(s, i, true, s') && !s.disk.spoilt
    requires s.up.value.calls[i].work.Compacting? && s.up.value.core.job.Some? ==> NoneLost(s.up.value.core)
    ensures SoundAfter(s') <==> Fitting(s.disk, s.up.value.calls[i])
  {
    IsSingle(s, i);
    var call := Only(s.up.value);
    if Fitting(s.disk, call) {
      FitSound(s, i, s');
    } else if call.work.Flushing? && call.work.level > 0 && !NoneOverlaps(s.disk.manifest.files, call.edit.added) {
      UnfitOverlap(s, i, s');
    } else {
      UnfitHidden(s, i, s');
    }
  }
}
