/** What survives: every step keeps the invariant about reads. */
module DurableReads {
  import opened Options
  import opened Keys
  import opened Version
  import opened Install
  import opened Flush
  import opened Disks
  import opened Durability
  import opened ReadInvariants
  import opened QuietSteps
  import opened WriteSteps
  import opened InstallSteps
  import opened LandingSteps
  import opened CopyLandings
  import opened ReturnLandings
  import opened RestartSteps
  import L = Lsm

  // ----- failures

  lemma FailedQuiet(s: State, i: nat, s': State)
    requires Single(s, i) && Fails(s, i, s')
    ensures Quiet(s, s') && (s'.up.value.core == s.up.value.core || s'.up.value.core == s.up.value.core.(job := None))
  {
    FailedOuts(s.up.value);
  }

  lemma FlushedJob(core: L.State, work: Work, version: Levels, nextFile: nat)
    requires L.Inv(core) && core.job.Some? && work.Flushing? && WorkOk(core, work, version)
    requires work.file.number < nextFile
    requires L.ImmEntries(core) != {}
    ensures var j := core.job.value;
      JobReady(version, j.picked, j.c, j.merged, j.snapshot) && SideSame(version, core.version, j)
  {
    var j, level, f := core.job.value, work.level, work.file;
    JobFacts(core);
    L.FlushFitsVersion(core, level, f, Installs(core, work, version, nextFile));
    FlushKeepsJob(core.version, level, f, version, j.picked, j.c, j.merged, j.snapshot);
    if j.c.level < level {
      FlushAvoids(core.version, level, f, j.c);
    }
    CopySide(core.version, core.version, level, f, version, j);
  }

  lemma FlushedCopies(core: L.State, work: Work, version: Levels)
    requires work.Flushing? && WorkOk(core, work, version)
    ensures CopiesOnly(Placed(version), core.version, core.imm.value)
  {
    if core.imm.value != {} {
      AddedPlaces(core.version, work.level, work.file, version);
    }
  }

  /** The version of a flush that landed is the shadow of an engine that does not know of it. */
  lemma FirstShadow(
    mf: Manifest, v: Levels, core: L.State, work: Work, version: Levels, nextFile: nat)
    requires L.Inv(core) && core.job.Some? && work.Flushing? && WorkOk(core, work, version)
    requires work.file.number < nextFile
    requires Describes(mf, v) && mf.files == Placed(version)
    ensures Shadow(mf, core, version)
  {
    FlushLeads(core, work, version, nextFile);
    ShadowKnown(mf, v, version);
    LandedLayered(version, L.Floor(core), Known(mf), mf.lastSequence);
    FlushedPlaces(core, work, version);
    FlushedCopies(core, work, version);
    if L.ImmEntries(core) == {} {
      JobFacts(core);
    } else {
      FlushedJob(core, work, version, nextFile);
    }
  }

  lemma FailedShadowed(d: Disk, m: Memory)
    requires m.calls == [Only(m)] && CallOk(d, m, Only(m)) && ManifestKnown(d, m) && Shadowed(d, m) && L.Inv(m.core)
    requires exists v :: Describes(d.manifest, v)
    ensures Shadowed(d, Failed(m, 0))
  {
    var m' := Failed(m, 0);
    if Astray(m') && m'.tail != CutOff {
      if m.doubtful {
        ShadowStays(d, m, d, m.(calls := m'.calls));
      } else {
        var v :| Describes(d.manifest, v);
        FirstShadow(d.manifest, v, m.core, Only(m).work, Only(m).version, m.nextFile);
        assert Shadow(d.manifest, m'.core, Only(m).version);
      }
    }
  }

  /** A failure leaves the engine with the manifest's entries and those in memory. */
  lemma FailsReads(s: State, i: nat, s': State)
    requires ReadInv(s) && Single(s, i) && Fails(s, i, s')
    requires CallOk(s.disk, s.up.value, Only(s.up.value)) && ManifestKnown(s.disk, s.up.value)
    ensures ReadInv(s')
  {
    var m := s.up.value;
    IsShadowed(s);
    FailedQuiet(s, i, s');
    L.AbandonKeepsInv(m.core, m.core.(job := None));
    FailedShadowed(s.disk, m);
    QuietReads(s, s');
  }

  // ----- all steps

  lemma WriterStepReads(s: State, step: WriterStep, s': State)
    requires ReadInv(s) && WriterNext(s, step, s') && LogsKept(s.disk, s.up.value) && LogsOk(s.disk)
    requires CallOk(s.disk, s.up.value, Only(s.up.value)) && (s.up.value.doubtful ==> s.up.value.bgError)
    ensures ReadInv(s')
  {
    match step
    case AdmitStep => AdmitReads(s, s');
    case SwitchStep => SwitchReads(s, s');
    case WriteStep(batch, sync) => WriteReads(s, batch, sync, s');
    case WriteFailsStep(batch, appended) => WriteFailsReads(s, batch, appended, s');
  }

  lemma CallStepReads(s: State, i: nat, step: CallStep, s': State)
    requires ReadInv(s) && Single(s, i) && CallNext(s, i, step, s') && CallOk(s.disk, s.up.value, Only(s.up.value))
    requires ManifestKnown(s.disk, s.up.value) && LogsKept(s.disk, s.up.value) && DiskOk(s.disk)
    requires Clean(s, Calling(i, step))
    requires s.up.value.doubtful || s.up.value.tail != Whole ==> s.up.value.bgError
    ensures ReadInv(s')
  {
    match step
    case IdleStep => IdleReads(s, i, NO_FILE, s');
    case EndStep => IdleReads(s, i, NO_FILE, s');
    case FlushBeginStep => IdleReads(s, i, NO_FILE, s');
    case FlushBuiltStep(level, f, version) => FlushBuiltReads(s, i, level, f, version, s');
    case CompactBeginStep(seed, j) => CompactBeginReads(s, i, seed, j, s');
    case CompactOutputStep(f) => IdleReads(s, i, f, s');
    case CompactLogStep(outputs, version) => CompactLogReads(s, i, outputs, version, s');
    case MoveLogStep(c, f, version) => MoveLogReads(s, i, c, f, version, s');
    case LandsStep(read) => LandsReads(s, i, read, s');
    case InstallStep(gone) => InstallReads(s, i, gone, s');
    case FailsStep => FailsReads(s, i, s');
  }

  const NO_FILE := FileMeta(0, 0, InternalKey(0, 0, KIND_VALUE), InternalKey(0, 0, KIND_VALUE), [])

  lemma ReaderStepReads(s: State, step: ReaderStep, s': State)
    requires ReadInv(s) && ReaderNext(s, step, s')
    ensures ReadInv(s')
  {
    match step
    case TakeStep => VersionReads(s, [], s');
    case DropStep(v) => VersionReads(s, v, s');
    case SnapshotStep => SnapshotReads(s, s');
    case ReleaseStep(k) => ReleaseReads(s, k, s');
  }

  lemma RestartStepReads(s: State, step: RestartStep, s': State)
    requires DiskOk(s.disk) && ReadInv(s) && RestartNext(s, step, s')
    ensures ReadInv(s')
  {
    match step
    case CrashStep(kept, spoils) => CrashReads(s, kept, spoils, s');
    case StrayTableStep(n, es) => StrayReads(s, n, es, s');
    case StrayLogStep(n) => StrayLogReads(s, n, s');
    case StrayDescriptorStep => StrayReads(s, 0, [], s');
    case RecoverStep(r) => RecoverReads(s, r, s');
  }

  lemma NextReads(s: State, step: Step, s': State)
    requires Inv(s) && Next(s, step, s') && Clean(s, step)
    ensures Inv(s')
  {
    NextFiles(s, step, s');
    match step
    case Writing(w) => WriterStepReads(s, w, s');
    case Scheduling => ScheduleReads(s, s');
    case Calling(i, c) =>
      IsSingle(s, i);
      CallStepReads(s, i, c, s');
    case Reading(r) => ReaderStepReads(s, r, s');
    case Restarting(x) => RestartStepReads(s, x, s');
  }
}
