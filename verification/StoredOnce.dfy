/** Over whole runs with failures, crashes and recoveries: when no entry is stored twice. */
module StoredOnce {
  import opened Options
  import opened Keys
  import opened Version
  import opened Inputs
  import opened Selection
  import opened Compaction
  import opened Install
  import opened Flush
  import opened Disks
  import opened Durability
  import opened ReadInvariants
  import opened QuietSteps
  import opened WriteSteps
  import opened RestartSteps
  import opened Survival
  import opened CheckedRuns
  import L = Lsm

  /** No record is read from the manifest that was logged after one that landed although it
      was reported to have failed. */
  ghost predicate Undoubted(s: State, step: Step) {
    step.Calling? && step.c.LandsStep? && step.c.read && s.up.Some? ==> !s.up.value.doubtful
  }

  ghost predicate PlacesOnce(files: set<Place>) {
    forall p, q, e :: p in files && q in files && e in p.file.entries && e in q.file.entries ==> p == q
  }

  /** No entry is in two tables of the manifest, or in a table and a log to be replayed. */
  ghost predicate DiskOnce(mf: Manifest, logs: Logs) {
    PlacesOnce(mf.files) && PlaceEntries(mf.files) !! Logged(logs, mf.logNumber)
  }

  ghost predicate StoresOnce(s: State) {
    && DiskOnce(s.disk.manifest, s.disk.logs)
    && (s.up.Some? ==> Once(s.up.value.core.version))
  }

  // ----- versions and the places of their files

  lemma OncePlaced(v: Levels)
    ensures Once(v) <==> PlacesOnce(Placed(v))
  {
    if Once(v) {
      forall p, q, e | p in Placed(v) && q in Placed(v) && e in p.file.entries && e in q.file.entries ensures p == q {
      }
    }
    if PlacesOnce(Placed(v)) {
      forall l, m, f, g, e |
        0 <= l < |v| && 0 <= m < |v| && f in v[l] && g in v[m] && e in f.entries && e in g.entries
        ensures l == m && f == g
      {
        assert Place(l, f) in Placed(v) && Place(m, g) in Placed(v);
      }
    }
  }

  lemma TableAdded(v: Levels, level: nat, f: FileMeta, version: Levels)
    requires Added(v, level, f, version)
    ensures VersionEntries(version) <= VersionEntries(v) + Ent(f)
  {
    AddedPlaces(v, level, f, version);
    PlacedEntries(v);
    PlacedEntries(version);
  }

  lemma FlushedOnce(core: L.State, work: Work, version: Levels)
    requires L.Inv(core) && Once(core.version) && work.Flushing? && WorkOk(core, work, version)
    ensures Once(version)
  {
    if core.imm.value != {} {
      ImmApart(core);
      L.AddedOnce(core.version, work.level, work.file, version);
    }
  }

  lemma ImmApart(core: L.State)
    requires L.Inv(core)
    ensures L.ImmEntries(core) !! VersionEntries(core.version)
  {
  }

  lemma FlushedEntries(core: L.State, work: Work, version: Levels)
    requires work.Flushing? && WorkOk(core, work, version)
    ensures VersionEntries(version) <= VersionEntries(core.version) + L.ImmEntries(core)
  {
    if core.imm.value != {} {
      TableAdded(core.version, work.level, work.file, version);
    }
  }

  lemma OutputEntries(v: Levels, c: Inputs2, outs: seq<FileMeta>, v': Levels)
    requires Once(v) && Installed(v, c, outs, v') && SetEntries(Files(outs)) <= InputEntries(c)
    ensures VersionEntries(v') <= VersionEntries(v)
  {
    forall e | e in VersionEntries(v') ensures e in VersionEntries(v) {
      var l :| 0 <= l < |v'| && e in LevelEntries(v'[l]);
      var i :| 0 <= i < |v'[l]| && e in v'[l][i].entries;
      L.InstalledFrom(v, c, outs, v', l, v'[l][i], e);
      if e in InputEntries(c) {
        InputFrom(v, c, e);
      } else {
        InLevelOf(v, l, v'[l][i], e);
      }
    }
  }

  lemma InLevelOf(v: Levels, l: nat, f: FileMeta, e: Entry)
    requires l < |v| && f in v[l] && e in f.entries
    ensures e in VersionEntries(v)
  {
    var i :| 0 <= i < |v[l]| && v[l][i] == f;
    assert e in LevelEntries(v[l]);
  }

  lemma InputFrom(v: Levels, c: Inputs2, e: Entry)
    requires FromLevels(v, c) && e in InputEntries(c)
    ensures e in VersionEntries(v)
  {
    if e in LevelEntries(c.in0) {
      var i :| 0 <= i < |c.in0| && e in c.in0[i].entries;
      assert c.in0[i] in Files(c.in0);
      InLevelOf(v, c.level, c.in0[i], e);
    } else {
      var i :| 0 <= i < |c.in1| && e in c.in1[i].entries;
      assert c.in1[i] in Files(c.in1);
      InLevelOf(v, c.level + 1, c.in1[i], e);
    }
  }

  lemma CompactedOnce(core: L.State, work: Work, version: Levels)
    requires L.Inv(core) && Once(core.version) && work.Compacting? && WorkOk(core, work, version)
    ensures Once(version) && VersionEntries(version) <= VersionEntries(core.version)
  {
    var j := core.job.value;
    InputsPack(core.version, j.c, j.merged);
    OutputsGood(work.outs, work.outputs, j.merged, j.snapshot, j.picked, j.c.level);
    KeptSubset(j.merged, j.snapshot, j.picked, j.c.level);
    L.InstalledOnce(core.version, j.c, work.outs, version);
    OutputEntries(core.version, j.c, work.outs, version);
  }

  lemma MovedOnce(core: L.State, work: Work, version: Levels)
    requires L.Inv(core) && Once(core.version) && work.Moving? && WorkOk(core, work, version)
    ensures Once(version) && VersionEntries(version) <= VersionEntries(core.version)
  {
    L.SingleInput(work.c, work.file);
    L.SingleFile(work.file);
    L.SingleOutput(work.file);
    L.InstalledOnce(core.version, work.c, [work.file], version);
    OutputEntries(core.version, work.c, [work.file], version);
  }

  /** Any edit that the engine logs keeps its version from holding an entry twice. */
  lemma WorkOnce(core: L.State, work: Work, version: Levels)
    requires L.Inv(core) && Once(core.version) && WorkOk(core, work, version)
    ensures Once(version)
    ensures VersionEntries(version) <= VersionEntries(core.version)
      + (if work.Flushing? then L.ImmEntries(core) else {})
  {
    match work
    case Flushing(_, _, _) =>
      FlushedOnce(core, work, version);
      FlushedEntries(core, work, version);
    case Compacting(_, _) => CompactedOnce(core, work, version);
    case Moving(_, _) => MovedOnce(core, work, version);
  }

  // ----- logs

  lemma LogsShrink(mf: Manifest, logs: Logs, logs': Logs)
    requires DiskOnce(mf, logs) && Logged(logs', mf.logNumber) <= Logged(logs, mf.logNumber)
    ensures DiskOnce(mf, logs')
  {
  }

  lemma PlacesKnown(mf: Manifest)
    ensures PlaceEntries(mf.files) <= Known(mf)
  {
  }

  /** A new record has numbers of its own. */
  lemma RecordApart(d: Disk, r: Record)
    requires DiskReads(d) && r.Record? && d.manifest.lastSequence < r.first
    ensures Written(r) !! PlaceEntries(d.manifest.files)
  {
    var v :| Describes(d.manifest, v);
    PlacesKnown(d.manifest);
    forall e | e in Written(r) ensures e !in Known(d.manifest) {
      WrittenRange(r, e);
    }
  }

  lemma RecordOnce(s: State, n: nat, r: Record, d': Disk)
    requires DiskReads(s.disk) && DiskOnce(s.disk.manifest, s.disk.logs) && r.Record?
    requires s.disk.manifest.lastSequence < r.first && s.disk.manifest.logNumber <= n && n in s.disk.logs
    requires d'.manifest == s.disk.manifest && d'.logs == s.disk.logs[n := s.disk.logs[n] + [r]]
    ensures DiskOnce(d'.manifest, d'.logs)
  {
    RecordApart(s.disk, r);
    AppendedEntries(s.disk.logs, s.disk.manifest.logNumber, n, r, d'.logs);
  }

  // ----- the steps

  /** A step that leaves manifest and version alone, and the logs no more than they were. */
  ghost predicate Leaves(s: State, s': State) {
    && s'.disk.manifest == s.disk.manifest
    && Shortened(s.disk.logs, s.disk.manifest.logNumber, s'.disk.logs, s.disk.manifest.logNumber)
    && (s'.up.Some? ==> s.up.Some? && s'.up.value.core.version == s.up.value.core.version)
  }

  lemma LeavesOnce(s: State, s': State)
    requires StoresOnce(s) && Leaves(s, s')
    ensures StoresOnce(s')
  {
    SameLogged(s.disk.logs, s.disk.manifest.logNumber, s'.disk.logs);
    LogsShrink(s.disk.manifest, s.disk.logs, s'.disk.logs);
  }

  /** A record numbered behind all that is on disk is appended to a log to be replayed. */
  ghost predicate Appends(d: Disk, r: Record, d': Disk) {
    && r.Record? && d.manifest.lastSequence < r.first && d'.manifest == d.manifest
    && exists n :: n in d.logs && d.manifest.logNumber <= n && d'.logs == d.logs[n := d.logs[n] + [r]]
  }

  lemma AppendsOnce(s: State, r: Record, s': State)
    requires DiskReads(s.disk) && StoresOnce(s) && Appends(s.disk, r, s'.disk)
    requires s.up.Some? && s'.up.Some? && s'.up.value.core.version == s.up.value.core.version
    ensures StoresOnce(s')
  {
    var n :| n in s.disk.logs && s.disk.manifest.logNumber <= n
      && s'.disk.logs == s.disk.logs[n := s.disk.logs[n] + [r]];
    RecordOnce(s, n, r, s'.disk);
  }

  lemma WriteAppends(s: State, batch: seq<L.Op>, sync: bool, s': State)
    requires Write(s, batch, sync, s') && LogsKept(s.disk, s.up.value)
    requires s.disk.manifest.lastSequence <= s.up.value.core.lastSequence
    ensures Appends(s.disk, Record(s.up.value.core.lastSequence + 1, batch), s'.disk)
    ensures s'.up.value.core.version == s.up.value.core.version
  {
    var n, r := s.up.value.logFile, Record(s.up.value.core.lastSequence + 1, batch);
    assert s'.disk.logs == s.disk.logs[n := s.disk.logs[n] + [r]];
  }

  lemma WriteFailsAppends(s: State, batch: seq<L.Op>, appended: bool, s': State)
    requires WriteFails(s, batch, appended, s') && LogsKept(s.disk, s.up.value)
    requires s.disk.manifest.lastSequence <= s.up.value.core.lastSequence
    ensures Appends(s.disk, Record(s.up.value.core.lastSequence + 1, batch), s'.disk)
    ensures s'.up.value.core.version == s.up.value.core.version
  {
    var n, r := s.up.value.logFile, Record(s.up.value.core.lastSequence + 1, batch);
    assert s'.disk.logs == s.disk.logs[n := s.disk.logs[n] + [r]];
  }

  lemma WriterOnce(s: State, step: WriterStep, s': State)
    requires DiskReads(s.disk) && StoresOnce(s) && WriterNext(s, step, s') && LogsKept(s.disk, s.up.value)
    requires s.disk.manifest.lastSequence <= s.up.value.core.lastSequence
    ensures StoresOnce(s')
  {
    var d, m := s.disk, s.up.value;
    match step
    case AdmitStep => LeavesOnce(s, s');
    case SwitchStep =>
      NewLog(d.logs, d.synced, d.manifest.logNumber, m.nextFile, s'.disk.logs, s'.disk.synced);
      LeavesOnce(s, s');
    case WriteStep(batch, sync) =>
      WriteAppends(s, batch, sync, s');
      AppendsOnce(s, Record(m.core.lastSequence + 1, batch), s');
    case WriteFailsStep(batch, appended) =>
      WriteFailsAppends(s, batch, appended, s');
      AppendsOnce(s, Record(m.core.lastSequence + 1, batch), s');
  }

  lemma DeletedShorter(d: Disk, gone: Gone, low: nat)
    ensures Shortened(d.logs, low, Deleted(d, gone).logs, low)
  {
  }

  /** What the edit being logged makes of the manifest's files. */
  lemma LandedOnce(d: Disk, m: Memory, call: Call)
    requires L.Inv(m.core) && Once(m.core.version) && call.Logging? && WorkOk(m.core, call.work, call.version)
    requires EditOk(d, m, call.work, call.version, call.edit) && d.manifest.files == Placed(m.core.version)
    ensures var mf' := Apply(d.manifest, call.edit);
      && PlacesOnce(mf'.files)
      && PlaceEntries(mf'.files) <=
           PlaceEntries(d.manifest.files) + (if call.work.Flushing? then L.ImmEntries(m.core) else {})
  {
    WorkOnce(m.core, call.work, call.version);
    OncePlaced(call.version);
    PlacedEntries(call.version);
    PlacedEntries(m.core.version);
  }

  /** Behind the memtable's log there is nothing of the tables. */
  lemma LandedApart(d: Disk, m: Memory, call: Call, es: set<Entry>)
    requires MemLogged(d, m) && call.Logging? && EditOk(d, m, call.work, call.version, call.edit)
    requires d.manifest.logNumber == m.logNumber
    requires PlaceEntries(d.manifest.files) !! Logged(d.logs, d.manifest.logNumber)
    requires es <= PlaceEntries(d.manifest.files) + (if call.work.Flushing? then L.ImmEntries(m.core) else {})
    ensures es !! Logged(d.logs, call.edit.logNumber)
  {
    if call.work.Flushing? {
      LoggedAfter(d.logs, m.logFile, Known(d.manifest) + L.ImmEntries(m.core));
      PlacesKnown(d.manifest);
    }
  }

  lemma LandsOnce(s: State, i: nat, read: bool, s': State)
    requires Inv(s) && StoresOnce(s) && Lands(s, i, read, s') && (read ==> !s.up.value.doubtful)
    ensures StoresOnce(s')
  {
    IsSingle(s, i);
    if read {
      var d, m := s.disk, s.up.value;
      LandedOnce(d, m, Only(m));
      LandedApart(d, m, Only(m), PlaceEntries(s'.disk.manifest.files));
    } else {
      LeavesOnce(s, s');
    }
  }

  lemma InstallOnce(s: State, i: nat, gone: Gone, s': State)
    requires Inv(s) && StoresOnce(s) && InstallEdit(s, i, gone, s')
    ensures StoresOnce(s')
  {
    IsSingle(s, i);
    IsShadowed(s);
    var m := s.up.value;
    WorkOnce(m.core, Only(m).work, Only(m).version);
    DeletedShorter(s.disk, gone, s.disk.manifest.logNumber);
    SameLogged(s.disk.logs, s.disk.manifest.logNumber, s'.disk.logs);
    LogsShrink(s.disk.manifest, s.disk.logs, s'.disk.logs);
  }

  lemma QuietOnce(s: State, i: nat, step: CallStep, s': State)
    requires StoresOnce(s) && CallNext(s, i, step, s') && !step.LandsStep? && !step.InstallStep?
    ensures StoresOnce(s')
  {
    LeavesOnce(s, s');
  }

  // ----- recovery

  /** A file of the recovered version is one of the manifest's or a replayed table. */
  lemma RecoveredPlace(mf: Manifest, fresh': seq<FileMeta>, v: Levels, p: Place)
    requires Recovered(mf, fresh', v) && p in Placed(v)
    ensures p in mf.files || (p.level == 0 && p.file in fresh')
  {
    assert p.file in Files(v[p.level]);
    if p.level == 0 && p.file in Files(fresh') {
    } else {
      assert p.file in FilesAt(mf.files, p.level);
    }
  }

  lemma FreshLogged(
    logs: Logs, low: nat, home: map<Slot, nat>, fresh': seq<FileMeta>, f: FileMeta, e: Entry)
    requires Replayed(logs, low, home, fresh') && f in fresh' && e in f.entries
    ensures e in Logged(logs, low)
  {
    var k :| 0 <= k < |fresh'| && fresh'[k] == f;
    ReplayedEntries(logs, low, home, fresh');
    assert e in LevelEntries(fresh');
  }

  lemma FreshApart(
    logs: Logs, low: nat, home: map<Slot, nat>, fresh': seq<FileMeta>, f: FileMeta, g: FileMeta, e: Entry)
    requires Numbered(logs, low) && Replayed(logs, low, home, fresh') && f in fresh' && g in fresh'
    requires e in f.entries && e in g.entries
    ensures f == g
  {
    var j :| 0 <= j < |fresh'| && fresh'[j] == f;
    var k :| 0 <= k < |fresh'| && fresh'[k] == g;
    assert e in Ent(fresh'[j]) && e in Ent(fresh'[k]);
    if j < k {
      ReplayedLater(logs, low, home, fresh', j, k);
    } else if k < j {
      ReplayedLater(logs, low, home, fresh', k, j);
    }
  }

  lemma RecoveredOnce(d: Disk, r: Fresh)
    requires DiskOnce(d.manifest, d.logs) && Numbered(d.logs, d.manifest.logNumber)
    requires Replayed(d.logs, d.manifest.logNumber, r.home, r.fresh') && Recovered(d.manifest, r.fresh', r.version)
    ensures PlacesOnce(Placed(r.version))
  {
    var low := d.manifest.logNumber;
    forall p, q, e | p in Placed(r.version) && q in Placed(r.version) && e in p.file.entries && e in q.file.entries
      ensures p == q
    {
      RecoveredPlace(d.manifest, r.fresh', r.version, p);
      RecoveredPlace(d.manifest, r.fresh', r.version, q);
      if p !in d.manifest.files {
        FreshLogged(d.logs, low, r.home, r.fresh', p.file, e);
      }
      if q !in d.manifest.files {
        FreshLogged(d.logs, low, r.home, r.fresh', q.file, e);
      }
      if p in d.manifest.files || q in d.manifest.files {
        assert p in d.manifest.files ==> e in PlaceEntries(d.manifest.files);
        assert q in d.manifest.files ==> e in PlaceEntries(d.manifest.files);
      } else {
        FreshApart(d.logs, low, r.home, r.fresh', p.file, q.file, e);
      }
    }
  }

  lemma RecoverOnce(s: State, r: Fresh, s': State)
    requires DiskOk(s.disk) && DiskReads(s.disk) && StoresOnce(s) && Recover(s, r, s')
    ensures StoresOnce(s')
  {
    var d := s.disk;
    RecoveredOnce(d, r);
    OncePlaced(r.version);
    FreshLogs(d, r);
    DeletedShorter(FreshDisk(d, r), r.gone, r.newLog);
    SameLogged(FreshDisk(d, r).logs, r.newLog, s'.disk.logs);
  }

  lemma RestartOnce(s: State, step: RestartStep, s': State)
    requires DiskOk(s.disk) && DiskReads(s.disk) && StoresOnce(s) && RestartNext(s, step, s')
    ensures StoresOnce(s')
  {
    match step
    case CrashStep(kept, _) =>
      CrashLogs(s.disk, kept, s.disk.manifest.logNumber);
      LeavesOnce(s, s');
    case StrayLogStep(n) =>
      NewLog(s.disk.logs, s.disk.synced, s.disk.manifest.logNumber, n, s'.disk.logs, s'.disk.synced);
      LeavesOnce(s, s');
    case RecoverStep(r) => RecoverOnce(s, r, s');
    case _ => LeavesOnce(s, s');
  }

  // ----- whole runs

  lemma ReaderOnce(s: State, step: Step, s': State)
    requires StoresOnce(s) && Next(s, step, s') && (step.Scheduling? || step.Reading?)
    ensures StoresOnce(s')
  {
    LeavesOnce(s, s');
  }

  lemma CallOnce(s: State, i: nat, step: CallStep, s': State)
    requires Inv(s) && StoresOnce(s) && CallNext(s, i, step, s') && Undoubted(s, Calling(i, step))
    ensures StoresOnce(s')
  {
    if step.LandsStep? {
      LandsOnce(s, i, step.read, s');
    } else if step.InstallStep? {
      InstallOnce(s, i, step.gone, s');
    } else {
      QuietOnce(s, i, step, s');
    }
  }

  lemma NextOnce(s: State, step: Step, s': State)
    requires Inv(s) && StoresOnce(s) && Next(s, step, s') && Undoubted(s, step)
    ensures StoresOnce(s')
  {
    match step
    case Writing(w) =>
      IsShadowed(s);
      WriterOnce(s, w, s');
    case Scheduling => ReaderOnce(s, step, s');
    case Calling(i, c) => CallOnce(s, i, c, s');
    case Reading(_) => ReaderOnce(s, step, s');
    case Restarting(x) => RestartOnce(s, x, s');
  }

  lemma InitOnce(s: State)
    requires Init(s)
    ensures StoresOnce(s)
  {
  }

  lemma RunNext(run: seq<State>, steps: seq<Step>, n: nat)
    requires IsExecution(run, steps) && n < |steps|
    ensures Next(run[n], steps[n], run[n + 1])
  {
  }

  /** As long as nothing is read from the manifest behind a record that landed although it was
      reported to have failed, no entry is ever in two tables, or in a table and a log to be
      replayed: through failures, crashes and recoveries the store holds every entry once. */
  lemma RunsStoreOnce(run: seq<State>, steps: seq<Step>, n: nat)
    requires IsCleanExecution(run, steps) && n < |run|
    requires forall j :: 0 <= j < |steps| ==> Undoubted(run[j], steps[j])
    ensures StoresOnce(run[n])
  {
    if n == 0 {
      InitOnce(run[0]);
    } else {
      RunsStoreOnce(run, steps, n - 1);
      assert Undoubted(run[n - 1], steps[n - 1]);
      RunNext(run, steps, n - 1);
      var s, s' := run[n - 1], run[n];
      assert Inv(s) by {
        RunReads(run, steps, n - 1);
      }
      NextOnce(s, steps[n - 1], s');
    }
  }

  lemma SidedUndoubted(s: State, i: nat, read: bool, s': State)
    requires FileInv(s) && Sided(s) && Lands(s, i, read, s')
    ensures !s.up.value.doubtful
  {
    IsSingle(s, i);
  }

  /** With the three missing checks that is so in every run. */
  lemma CheckedRunsStoreOnce(run: seq<State>, steps: seq<Step>, n: nat)
    requires IsCheckedExecution(run, steps) && n < |run|
    ensures StoresOnce(run[n])
  {
    CheckedRunsAreClean(run, steps);
    forall j | 0 <= j < |steps| ensures Undoubted(run[j], steps[j]) {
      if steps[j].Calling? && steps[j].c.LandsStep? {
        CheckedInv(run, steps, j);
        RunNext(run, steps, j);
        NextLands(run[j], steps[j].i, steps[j].c.read, run[j + 1]);
        SidedUndoubted(run[j], steps[j].i, steps[j].c.read, run[j + 1]);
      }
    }
    RunsStoreOnce(run, steps, n);
  }
}
