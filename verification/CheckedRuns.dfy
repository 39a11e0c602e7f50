/** Whole runs had the code made the checks it does not make. */
module CheckedRuns {
  import opened Options
  import opened Keys
  import opened Version
  import opened Selection
  import opened Compaction
  import opened Install
  import opened Disks
  import opened Durability
  import opened ReadInvariants
  import opened QuietSteps
  import opened DurableReads
  import opened Survival
  import opened Landings
  import L = Lsm

  /** Had the next level's inputs been extended like the others, had no record been written to
      the manifest after a background error, and had a failed append to a log been recorded as
      one, so that no write reaches that log any more. */
  ghost predicate Checked(s: State, step: Step) {
    && (step.Calling? && Running(s, step.i) ==>
          && (step.c.CompactBeginStep? && step.c.job.c.level + 1 < |s.up.value.core.version| ==>
                NextLevelClosed(s.up.value.core.version, step.c.job.c))
          && (step.c.FlushBuiltStep? || step.c.CompactLogStep? || step.c.MoveLogStep? ==> !s.up.value.bgError))
    && (step.Writing? && step.w.WriteStep? && s.up.Some? ==> s.up.value.logFile !in s.disk.torn)
  }

  /** Nothing is being logged once the manifest may differ from what memory knows. */
  ghost predicate Quits(m: Memory) {
    m.doubtful || m.tail != Whole ==> !Only(m).Logging?
  }

  ghost predicate Sided(s: State) {
    s.up.Some? ==> L.SideNewer(s.up.value.core) && Quits(s.up.value)
  }

  lemma KnownFits(d: Disk, m: Memory)
    requires CallOk(d, m, Only(m)) && ManifestKnown(d, m) && LogsKept(d, m) && !m.doubtful && m.tail == Whole
    requires Only(m).Logging? && !Only(m).landed
    ensures Fitting(d, Only(m))
  {
    var call := Only(m);
    if call.work.Flushing? && call.work.level > 0 {
      forall p, q | p in d.manifest.files && q in call.edit.added && p.level == q.level
        ensures !Overlaps(p.file, Some(q.file.smallest.user), Some(q.file.largest.user))
      {
        ClearPlaces(m.core.version, call.work.level, call.work.file, p);
      }
    }
  }

  lemma NothingSideLost(core: L.State)
    requires L.Inv(core) && L.SideNewer(core) && core.job.Some?
    ensures NoneLost(core)
  {
    L.SideNewerIsClean(core, L.FinishStep([], []));
  }

  lemma LandsIsClean(s: State, i: nat, read: bool, s': State)
    requires Inv(s) && Sided(s) && Single(s, i) && Lands(s, i, read, s')
    ensures Clean(s, Calling(i, LandsStep(read)))
  {
    if s.up.value.core.job.Some? {
      NothingSideLost(s.up.value.core);
    }
    KnownFits(s.disk, s.up.value);
  }

  lemma OthersAreClean(s: State, step: Step)
    requires !(step.Calling? && step.c.LandsStep?)
    ensures Clean(s, step)
  {
  }

  lemma NextLands(s: State, i: nat, read: bool, s': State)
    requires Next(s, Calling(i, LandsStep(read)), s')
    ensures Lands(s, i, read, s') && Running(s, i)
  {
  }

  lemma SidedIsClean(s: State, step: Step, s': State)
    requires Inv(s) && Sided(s)
    requires step.Calling? && step.c.LandsStep? ==> Running(s, step.i) && Lands(s, step.i, step.c.read, s')
    ensures Clean(s, step)
  {
    if step.Calling? && step.c.LandsStep? {
      IsSingle(s, step.i);
      LandsIsClean(s, step.i, step.c.read, s');
    } else {
      OthersAreClean(s, step);
    }
  }

  /** Steps that leave the version and the compaction alone. */
  lemma SameSided(s: State, s': State)
    requires Sided(s) && s.up.Some? && s'.up.Some? && Quits(s'.up.value)
    requires s'.up.value.core.version == s.up.value.core.version
    requires s'.up.value.core.job == s.up.value.core.job || s'.up.value.core.job.None?
    ensures Sided(s')
  {
  }

  lemma FlushInstalledSided(core: L.State, work: Work, version: Levels, nextFile: nat)
    requires L.Inv(core) && L.SideNewer(core) && work.Flushing? && WorkOk(core, work, version)
    requires work.file.number < nextFile
    ensures L.SideNewer(Installs(core, work, version, nextFile))
  {
    L.FlushKeepsSide(core, work.level, work.file, Installs(core, work, version, nextFile));
  }

  lemma InstallSided(s: State, i: nat, gone: Gone, s': State)
    requires Sided(s) && Single(s, i) && InstallEdit(s, i, gone, s') && L.Inv(s.up.value.core)
    requires CallOk(s.disk, s.up.value, Only(s.up.value))
    ensures Sided(s')
  {
    var m := s.up.value;
    InstalledOuts(m);
    if Only(m).work.Flushing? {
      FlushInstalledSided(m.core, Only(m).work, Only(m).version, m.nextFile);
    }
  }

  lemma CompactBeginSided(s: State, i: nat, seed: FileMeta, j: L.Job, s': State)
    requires Single(s, i) && CompactBegin(s, i, seed, j, s') && VersionOk(s.up.value.core.version)
    requires Checked(s, Calling(i, CompactBeginStep(seed, j)))
    ensures Sided(s')
  {
    L.StartKeepsSide(s.up.value.core.(job := None), seed, j, s'.up.value.core);
  }

  lemma LoggingSided(s: State, i: nat, step: CallStep, s': State)
    requires Sided(s) && Single(s, i) && CallNext(s, i, step, s')
    requires s.up.value.doubtful || s.up.value.tail != Whole ==> s.up.value.bgError
    requires step.FlushBuiltStep? || step.CompactLogStep? || step.MoveLogStep? || step.LandsStep?
    requires Checked(s, Calling(i, step))
    ensures Sided(s')
  {
    SameSided(s, s');
  }

  lemma OtherSided(s: State, i: nat, step: CallStep, s': State)
    requires Sided(s) && Single(s, i) && CallNext(s, i, step, s')
    requires step.IdleStep? || step.EndStep? || step.FlushBeginStep? || step.CompactOutputStep? || step.FailsStep?
    ensures Sided(s')
  {
    if step.FailsStep? {
      FailedOuts(s.up.value);
    }
    SameSided(s, s');
  }

  lemma CallSided(s: State, i: nat, step: CallStep, s': State)
    requires Sided(s) && Single(s, i) && CallNext(s, i, step, s')
    requires s.up.value.doubtful || s.up.value.tail != Whole ==> s.up.value.bgError
    requires L.Inv(s.up.value.core) && CallOk(s.disk, s.up.value, Only(s.up.value)) && Checked(s, Calling(i, step))
    ensures Sided(s')
  {
    match step
    case CompactBeginStep(seed, j) => CompactBeginSided(s, i, seed, j, s');
    case InstallStep(gone) => InstallSided(s, i, gone, s');
    case FlushBuiltStep(_, _, _) => LoggingSided(s, i, step, s');
    case CompactLogStep(_, _) => LoggingSided(s, i, step, s');
    case MoveLogStep(_, _, _) => LoggingSided(s, i, step, s');
    case LandsStep(_) => LoggingSided(s, i, step, s');
    case _ => OtherSided(s, i, step, s');
  }

  lemma WriterSided(s: State, step: WriterStep, s': State)
    requires Sided(s) && WriterNext(s, step, s')
    ensures Sided(s')
  {
    SameSided(s, s');
  }

  lemma CallingSided(s: State, i: nat, step: CallStep, s': State)
    requires FileInv(s) && Running(s, i) && L.Inv(s.up.value.core) && Sided(s)
    requires CallNext(s, i, step, s') && Checked(s, Calling(i, step))
    ensures Sided(s')
  {
    IsSingle(s, i);
    CallSided(s, i, step, s');
  }

  lemma RestSided(s: State, step: Step, s': State)
    requires Sided(s) && Next(s, step, s') && !step.Calling? && (s.up.Some? ==> OneCall(s.up.value))
    ensures Sided(s')
  {
    match step
    case Writing(w) => WriterSided(s, w, s');
    case Scheduling => SameSided(s, s');
    case Reading(r) => SameSided(s, s');
    case Restarting(x) =>
  }

  lemma NextSided(s: State, step: Step, s': State)
    requires FileInv(s) && (s.up.Some? ==> L.Inv(s.up.value.core)) && Sided(s) && Next(s, step, s') && Checked(s, step)
    ensures Sided(s')
  {
    if step.Calling? {
      CallingSided(s, step.i, step.c, s');
    } else {
      RestSided(s, step, s');
    }
  }

  lemma CheckedStep(s: State, step: Step, s': State)
    requires Inv(s) && Sided(s) && Next(s, step, s') && Checked(s, step)
    ensures Clean(s, step) && Inv(s') && Sided(s')
  {
    if step.Calling? && step.c.LandsStep? {
      NextLands(s, step.i, step.c.read, s');
    }
    SidedIsClean(s, step, s');
    NextSided(s, step, s');
    NextReads(s, step, s');
  }

  lemma InitChecked(s: State)
    requires Init(s)
    ensures Inv(s) && Sided(s)
  {
    InitFiles(s);
    InitReads(s);
  }

  ghost predicate IsCheckedExecution(run: seq<State>, steps: seq<Step>) {
    IsExecution(run, steps) && forall i :: 0 <= i < |steps| ==> Checked(run[i], steps[i])
  }

  lemma CheckedInv(run: seq<State>, steps: seq<Step>, n: nat)
    requires IsCheckedExecution(run, steps) && n < |run|
    ensures Inv(run[n]) && Sided(run[n])
  {
    if n == 0 {
      InitChecked(run[0]);
    } else {
      CheckedInv(run, steps, n - 1);
      CheckedStep(run[n - 1], steps[n - 1], run[n]);
    }
  }

  lemma NothingTried(s: State, step: Step)
    requires FileInv(s) && Sided(s)
    ensures !TriedBehindTear(s, step)
  {
    if step.Calling? && Running(s, step.i) {
      IsSingle(s, step.i);
    }
  }

  /** With these three checks every run would be clean, no write would be acknowledged behind a
      failed append, and no append would be tried to the manifest behind a failed one: every
      acknowledged write would survive every crash. */
  lemma CheckedRunsAreClean(run: seq<State>, steps: seq<Step>)
    requires IsCheckedExecution(run, steps)
    ensures IsCleanExecution(run, steps) && NoneBehindTear(run, steps) && NoneTriedBehindTear(run, steps)
    ensures forall k :: 0 <= k < |run| ==> SurvivesCrashes(run[k])
  {
    forall i | 0 <= i < |steps| ensures Clean(run[i], steps[i]) && !TriedBehindTear(run[i], steps[i]) {
      CheckedInv(run, steps, i);
      CheckedStep(run[i], steps[i], run[i + 1]);
      NothingTried(run[i], steps[i]);
    }
    AckedSurviveIff(run, steps);
  }
}
