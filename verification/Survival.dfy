/** Whole runs with failures, crashes and recoveries: what is never lost, and exactly when. */
module Survival {
  import opened Options
  import opened Keys
  import opened Version
  import opened Compaction
  import opened Disks
  import opened Durability
  import opened ReadInvariants
  import opened QuietSteps
  import opened WriteSteps
  import opened RestartSteps
  import opened DurableReads
  import L = Lsm

  // ----- runs

  ghost predicate IsCleanExecution(run: seq<State>, steps: seq<Step>) {
    IsExecution(run, steps) && forall i :: 0 <= i < |steps| ==> Clean(run[i], steps[i])
  }

  lemma RunReads(run: seq<State>, steps: seq<Step>, k: nat)
    requires IsCleanExecution(run, steps) && k < |run|
    ensures Inv(run[k])
  {
    if k == 0 {
      InitFiles(run[0]);
      InitReads(run[0]);
    } else {
      RunReads(run, steps, k - 1);
      NextReads(run[k - 1], steps[k - 1], run[k]);
    }
  }

  lemma WriterGrows(s: State, step: WriterStep, s': State)
    requires WriterNext(s, step, s')
    ensures s.acked <= s'.acked && s.sure <= s'.sure && s.written <= s'.written
  {
  }

  lemma CallGrows(s: State, i: nat, step: CallStep, s': State)
    requires CallNext(s, i, step, s')
    ensures SameSets(s, s')
  {
  }

  lemma NextGrows(s: State, step: Step, s': State)
    requires Next(s, step, s')
    ensures s.acked <= s'.acked && s.sure <= s'.sure && s.written <= s'.written
  {
    match step
    case Writing(w) => WriterGrows(s, w, s');
    case Calling(i, c) => CallGrows(s, i, c, s');
    case _ =>
  }

  lemma AckedStay(run: seq<State>, steps: seq<Step>, i: nat, k: nat)
    requires IsExecution(run, steps) && i <= k < |run|
    ensures run[i].acked <= run[k].acked && run[i].sure <= run[k].sure && run[i].written <= run[k].written
  {
    if i < k {
      AckedStay(run, steps, i, k - 1);
      NextGrows(run[k - 1], steps[k - 1], run[k]);
    }
  }

  /** A write is acknowledged after a sync although an append to its log has failed before. */
  ghost predicate AckedBehindTear(s: State, step: Step) {
    && step.Writing? && step.w.WriteStep? && step.w.sync && step.w.batch != []
    && s.up.Some? && s.up.value.logFile in s.disk.torn
  }

  ghost predicate NoneBehindTear(run: seq<State>, steps: seq<Step>)
    requires |run| == |steps| + 1
  {
    forall j :: 0 <= j < |steps| ==> !AckedBehindTear(run[j], steps[j])
  }

  lemma EmptyWritten(first: nat)
    ensures Written(Record(first, [])) == {}
  {
  }

  lemma AckedSurely(s: State, step: Step, s': State)
    requires Next(s, step, s') && s.acked == s.sure && !AckedBehindTear(s, step)
    ensures s'.acked == s'.sure
  {
    match step
    case Writing(w) =>
      if w.WriteStep? && s.up.Some? {
        EmptyWritten(s.up.value.core.lastSequence + 1);
      }
    case Calling(i, c) => CallGrows(s, i, c, s');
    case _ =>
  }

  /** Whoever writes on after a failed append, what is acknowledged is certain as long as no
      sync is acknowledged on that log. */
  lemma AckedAreSure(run: seq<State>, steps: seq<Step>, k: nat)
    requires IsExecution(run, steps) && NoneBehindTear(run, steps) && k < |run|
    ensures run[k].acked == run[k].sure
  {
    if k > 0 {
      AckedAreSure(run, steps, k - 1);
      AckedSurely(run[k - 1], steps[k - 1], run[k]);
    }
  }

  lemma HistoryKept(s: State)
    requires Inv(s) && s.up.Some?
    ensures s.sure <= s.up.value.core.history <= s.written && L.Inv(s.up.value.core)
  {
  }

  /** A write acknowledged after a sync is never lost: whatever process runs later, after
      any failures, crashes and recoveries, a read at or above its oldest snapshot sees
      exactly what a history says that holds all those writes, and nothing that was not
      written; and the engine's invariant holds, on which Get answers with such a read
      (`Lsm.Get`). Only writes acknowledged behind a failed append to their log are not meant. */
  lemma NoAcknowledgedWriteLost(run: seq<State>, steps: seq<Step>, i: nat, k: nat)
    requires IsCleanExecution(run, steps) && i <= k < |run| && run[k].up.Some?
    ensures var core := run[k].up.value.core;
      && run[i].sure <= core.history <= run[k].written && (NoneBehindTear(run, steps) ==> run[i].acked <= core.history)
      && L.Inv(core)
      && forall key, t :: L.Floor(core) <= t ==> Visible(L.Stored(core), key, t) == Visible(core.history, key, t)
  {
    AckedStay(run, steps, i, k);
    RunReads(run, steps, k);
    HistoryKept(run[k]);
    if NoneBehindTear(run, steps) {
      AckedAreSure(run, steps, i);
    }
  }

  lemma NewestReads(core: L.State, written: set<Entry>, key: UserKey, t: nat, e: Entry)
    requires L.Inv(core) && core.history <= written && L.Floor(core) <= t
    requires e in core.history && IsNewest(written, key, t, e)
    ensures Visible(L.Stored(core), key, t) == Meaning(e)
  {
    assert IsNewest(core.history, key, t, e);
    VisibleNewest(core.history, key, t, e);
  }

  /** So an acknowledged write that nothing newer was written over is what a read finds. */
  lemma LatestAckedRead(
    run: seq<State>, steps: seq<Step>, i: nat, k: nat, key: UserKey, t: nat, e: Entry)
    requires IsCleanExecution(run, steps) && i <= k < |run| && run[k].up.Some?
    requires e in run[i].sure && IsNewest(run[k].written, key, t, e) && L.Floor(run[k].up.value.core) <= t
    ensures Visible(L.Stored(run[k].up.value.core), key, t) == Meaning(e)
  {
    NoAcknowledgedWriteLost(run, steps, i, k);
    RunReads(run, steps, k);
    NewestReads(run[k].up.value.core, run[k].written, key, t, e);
  }

  // ----- opening the database again

  /** A recovery that replays all logs into one table of entries `es` and deletes nothing. */
  ghost predicate OneTable(d: Disk, es: seq<Entry>, r: Fresh) {
    && FreshNumbers(d, r) && Recovered(d.manifest, r.fresh', r.version) && LastOf(d, r.last)
    && Replayed(d.logs, d.manifest.logNumber, r.home, r.fresh') && r.gone == Gone({}, {}, {})
    && r.fresh' == if es == [] then [] else [TableOf(d.manifest.nextFile + 1, es)]
  }

  lemma LastFound(d: Disk) returns (last: nat)
    requires Numbered(d.logs, d.manifest.logNumber) && d.manifest.lastSequence < MAX_SEQUENCE
    ensures LastOf(d, last) && last < MAX_SEQUENCE
  {
    last := LastExists(d.logs, d.manifest.logNumber, Slots(d.logs, d.manifest.logNumber), d.manifest.lastSequence);
    assert LastOf(d, last);
    LastBound(d, last);
  }

  lemma OneTableNumbers(d: Disk, es: seq<Entry>, r: Fresh)
    requires d.manifest.nextFile + 1 < r.newLog < r.nextFile && forall n :: n in d.logs ==> n < r.newLog
    requires r.fresh' == if es == [] then [] else [TableOf(d.manifest.nextFile + 1, es)]
    ensures FreshNumbers(d, r)
  {
  }

  lemma OneTableExists(d: Disk) returns (es: seq<Entry>, r: Fresh)
    requires Numbered(d.logs, d.manifest.logNumber) && d.manifest.lastSequence < MAX_SEQUENCE
    ensures OneTable(d, es, r)
  {
    var next := d.manifest.nextFile;
    var last := LastFound(d);
    var home, fresh', version;
    es, home, fresh', version := ReplayChosen(d.logs, d.manifest, last);
    var newLog := UnusedNumber(d.logs.Keys, next + 1);
    r := Fresh(home, fresh', version, last, newLog, newLog + 1, Gone({}, {}, {}));
    OneTableNumbers(d, es, r);
  }

  lemma OneTableRecovers(s: State, es: seq<Entry>, r: Fresh) returns (s1: State, s2: State)
    requires DiskOk(s.disk) && s.up.None? && !s.disk.spoilt && OneTable(s.disk, es, r)
    ensures StrayTable(s, s.disk.manifest.nextFile + 1, es, s1) && Recover(s1, r, s2)
  {
    var d := s.disk;
    s1 := s.(disk := d.(tables := d.tables[d.manifest.nextFile + 1 := es]));
    var d' := s1.disk;
    s2 := s1.(disk := Deleted(FreshDisk(d', r), r.gone), up := Some(FreshMemory(d', r)));
    forall p | p in d.manifest.files ensures p.file.number in d'.tables {
      assert p.file in FilesOf(d.manifest.files);
    }
  }

  /** A recovery answers for exactly what was on disk. */
  lemma RecoveredHistory(s: State, r: Fresh, s': State)
    requires Inv(s) && Recover(s, r, s')
    ensures s'.up.Some? && s'.up.value.core.history == OnDisk(s.disk)
  {
    FreshDescribes(s.disk, r);
  }

  ghost predicate IsStray(step: Step) {
    step.Restarting? && (step.x.StrayTableStep? || step.x.StrayLogStep? || step.x.StrayDescriptorStep?)
  }

  ghost predicate IsRecovery(step: Step) {
    step.Restarting? && step.x.RecoverStep?
  }

  lemma StrayKeeps(d: Disk, n: nat, d': Disk, low: nat)
    requires n !in d.logs && d'.logs == d.logs[n := []]
    ensures Logged(d'.logs, low) == Logged(d.logs, low)
  {
    forall a ensures a in Slots(d'.logs, low) <==> a in Slots(d.logs, low) {
    }
    forall a | a in Slots(d.logs, low) ensures At(d'.logs, a) == At(d.logs, a) {
    }
  }

  /** Manifest and logs say the same. */
  ghost predicate SameContents(d: Disk, d': Disk) {
    && d'.manifest == d.manifest && d'.spoilt == d.spoilt
    && Logged(d'.logs, d.manifest.logNumber) == Logged(d.logs, d.manifest.logNumber)
  }

  /** What a recovery that does not get to its end leaves behind does no harm. */
  lemma StrayStays(s: State, step: Step, s': State)
    requires Inv(s) && Next(s, step, s') && IsStray(step)
    ensures Inv(s') && SameContents(s.disk, s'.disk)
  {
    NextReads(s, step, s');
    if step.x.StrayLogStep? {
      StrayKeeps(s.disk, step.x.number, s'.disk, s.disk.manifest.logNumber);
    }
  }

  /** From `s` on a recovery gets to its end, perhaps after others that did not. */
  ghost predicate Reopens(s: State, run: seq<State>, steps: seq<Step>) {
    && |run| == |steps| + 1 && |steps| > 0 && run[0] == s
    && (forall j :: 0 <= j < |steps| ==> Next(run[j], steps[j], run[j + 1]))
    && (forall j :: 0 <= j < |steps| - 1 ==> IsStray(steps[j])) && IsRecovery(steps[|steps| - 1])
  }

  lemma ReopensAt(s: State, run: seq<State>, steps: seq<Step>, j: nat)
    requires Reopens(s, run, steps) && j < |steps|
    ensures Next(run[j], steps[j], run[j + 1])
    ensures if j < |steps| - 1 then IsStray(steps[j]) else IsRecovery(steps[j])
  {
  }

  lemma OneStrayStays(s: State, run: seq<State>, steps: seq<Step>, j: nat)
    requires Reopens(s, run, steps) && j < |steps| - 1 && Inv(run[j])
    ensures Inv(run[j + 1]) && SameContents(run[j].disk, run[j + 1].disk)
  {
    ReopensAt(s, run, steps, j);
    StrayStays(run[j], steps[j], run[j + 1]);
  }

  lemma StraysStay(s: State, run: seq<State>, steps: seq<Step>, k: nat)
    requires Inv(s) && Reopens(s, run, steps) && k < |steps|
    ensures Inv(run[k]) && SameContents(s.disk, run[k].disk)
  {
    if k > 0 {
      StraysStay(s, run, steps, k - 1);
      OneStrayStays(s, run, steps, k - 1);
    }
  }

  /** The process in `s` answers for all of `es`. */
  ghost predicate Answers(s: State, es: set<Entry>) {
    s.up.Some? && es <= s.up.value.core.history
  }

  /** A recovery can be carried to its end, and whichever is has `es` in its history. */
  ghost predicate Found(s: State, es: set<Entry>) {
    && (exists run, steps :: Reopens(s, run, steps))
    && forall run, steps :: Reopens(s, run, steps) ==> Answers(run[|steps|], es)
  }

  lemma RecoverNext(s: State, step: Step, s': State)
    requires Next(s, step, s') && IsRecovery(step)
    ensures Recover(s, step.x.recovery, s') && !s.disk.spoilt
  {
  }

  lemma ReopenedHistory(s: State, run: seq<State>, steps: seq<Step>)
    requires Inv(s) && Reopens(s, run, steps)
    ensures run[|steps|].up.Some? && run[|steps|].up.value.core.history == OnDisk(s.disk) && !s.disk.spoilt
  {
    var k := |steps| - 1;
    StraysStay(s, run, steps, k);
    ReopensAt(s, run, steps, k);
    RecoverNext(run[k], steps[k], run[k + 1]);
    RecoveredHistory(run[k], steps[k].x.recovery, run[k + 1]);
  }

  /** The process in `s` has recovered what `r` says. */
  ghost predicate Recovers(s: State, r: Fresh) {
    s.up.Some? && s.up.value.core.version == r.version && s.up.value.core.lastSequence == r.last
  }

  lemma RecoveredCore(s: State, r: Fresh, s': State)
    requires Recover(s, r, s')
    ensures Recovers(s', r)
  {
  }

  lemma OneTableReopens(s: State)
    returns (es: seq<Entry>, r: Fresh, run: seq<State>, steps: seq<Step>)
    requires DiskOk(s.disk) && s.up.None? && !s.disk.spoilt
    requires Numbered(s.disk.logs, s.disk.manifest.logNumber) && s.disk.manifest.lastSequence < MAX_SEQUENCE
    ensures OneTable(s.disk, es, r) && Reopens(s, run, steps) && Recovers(run[|steps|], r)
  {
    es, r := OneTableExists(s.disk);
    var s1, s2 := OneTableRecovers(s, es, r);
    RecoveredCore(s1, r, s2);
    run, steps := InTwoSteps(s, s.disk.manifest.nextFile + 1, es, s1, r, s2);
  }

  /** In every state without a process a recovery can be carried to its end, unless the
      manifest is spoilt: one new table takes what the logs hold. */
  lemma RecoveryPossible(s: State) returns (run: seq<State>, steps: seq<Step>)
    requires Inv(s) && s.up.None? && !s.disk.spoilt
    ensures Reopens(s, run, steps)
  {
    OnDiskNumbered(s);
    var es, r;
    es, r, run, steps := OneTableReopens(s);
  }

  lemma InTwoSteps(s: State, n: nat, es: seq<Entry>, s1: State, r: Fresh, s2: State)
    returns (run: seq<State>, steps: seq<Step>)
    requires StrayTable(s, n, es, s1) && Recover(s1, r, s2)
    ensures Reopens(s, run, steps) && run == [s, s1, s2]
  {
    run := [s, s1, s2];
    steps := [Restarting(StrayTableStep(n, es)), Restarting(RecoverStep(r))];
    assert Next(run[0], steps[0], run[1]) && Next(run[1], steps[1], run[2]);
  }

  lemma OnDiskNumbered(s: State)
    requires Inv(s)
    ensures DiskOk(s.disk) && Numbered(s.disk.logs, s.disk.manifest.logNumber)
    ensures s.disk.manifest.lastSequence < MAX_SEQUENCE
  {
  }

  /** So exactly what is on disk can be found again, unless the manifest is spoilt. */
  lemma FoundIff(s: State, es: set<Entry>)
    requires Inv(s) && s.up.None?
    ensures Found(s, es) <==> !s.disk.spoilt && es <= OnDisk(s.disk)
  {
    forall run, steps | Reopens(s, run, steps)
      ensures !s.disk.spoilt && (Answers(run[|steps|], es) <==> es <= OnDisk(s.disk))
    {
      ReopenedHistory(s, run, steps);
    }
    if !s.disk.spoilt {
      var run, steps := RecoveryPossible(s);
    }
  }

  // ----- exactly when every acknowledged write survives

  /** No append to the manifest was tried behind a failed one. */
  predicate Readable(d: Disk) {
    !d.frayed && !d.spoilt
  }

  /** Whatever a crash leaves of the logs, and whatever the bytes behind a failed append to the
      manifest, the database can be opened again, and all that was acknowledged is found. */
  ghost predicate SurvivesCrashes(s: State) {
    forall logs, spoils, s' :: Crash(s, logs, spoils, s') ==> Found(s', s.acked)
  }

  lemma CrashInv(s: State, logs: Logs, spoils: bool, s': State)
    requires Inv(s) && Crash(s, logs, spoils, s')
    ensures Inv(s') && s'.up.None? && s'.disk.spoilt == (s.disk.spoilt || spoils) && (spoils ==> s.disk.frayed)
  {
    NextReads(s, Restarting(CrashStep(logs, spoils)), s');
  }

  lemma CertainSurvives(s: State, logs: Logs, spoils: bool, s': State)
    requires LogsOk(s.disk) && Crash(s, logs, spoils, s')
    ensures Certain(s.disk) <= OnDisk(s'.disk)
  {
    CrashLogs(s.disk, logs, s.disk.manifest.logNumber);
    SyncedLogged(logs, s.disk.synced, s.disk.manifest.logNumber);
  }

  /** The worst crash: nothing is left but what was synced. */
  function OnlySynced(d: Disk): Logs
    requires LogsOk(d)
  {
    map n | n in d.logs :: d.logs[n][..d.synced[n]]
  }

  lemma WorstCrash(s: State) returns (s': State)
    requires LogsOk(s.disk)
    ensures Crash(s, OnlySynced(s.disk), s.disk.frayed, s') && OnDisk(s'.disk) <= Certain(s.disk)
  {
    var d, logs, low := s.disk, OnlySynced(s.disk), s.disk.manifest.logNumber;
    s' := s.(disk := d.(logs := logs, spoilt := d.spoilt || d.frayed), up := None);
    forall e | e in Logged(logs, low) ensures e in Synced(d.logs, d.synced, low) {
      var a :| a in Slots(logs, low) && e in Written(At(logs, a));
      assert a in SyncedSlots(d.logs, d.synced, low) && At(d.logs, a) == At(logs, a);
    }
  }

  /** Of one state: exactly if all that was acknowledged is in the tables or certain in the
      logs, and no append to the manifest was tried behind a failed one. */
  lemma SurvivesIff(s: State)
    requires Inv(s)
    ensures SurvivesCrashes(s) <==> s.acked <= Certain(s.disk) && Readable(s.disk)
  {
    InvParts(s);
    if s.acked <= Certain(s.disk) && Readable(s.disk) {
      forall logs, spoils, s' | Crash(s, logs, spoils, s') ensures Found(s', s.acked) {
        CrashInv(s, logs, spoils, s');
        CertainSurvives(s, logs, spoils, s');
        FoundIff(s', s.acked);
      }
    } else {
      var s' := WorstCrash(s);
      CrashInv(s, OnlySynced(s.disk), s.disk.frayed, s');
      FoundIff(s', s.acked);
    }
  }

  lemma TopUncertain(
    logs: Logs, synced: map<nat, nat>, low: nat, last: nat, n: nat, r: Record, logs': Logs, e: Entry)
    requires n in logs && n in synced && synced[n] <= |logs[n]| && logs' == logs[n := logs[n] + [r]] && low <= n
    requires r.Record? && r.first == last + 1 && NumbersUpTo(logs, low, last) && e in Written(r)
    ensures e !in Synced(logs', synced, low)
  {
    AppendedSlots(logs, low, n, r, logs');
    WrittenRange(r, e);
    forall a | a in SyncedSlots(logs', synced, low) ensures e !in Written(At(logs', a)) {
      if e in Written(At(logs', a)) && a in Slots(logs, low) {
        WrittenRange(At(logs, a), e);
      }
    }
  }

  lemma FirstWritten(batch: seq<L.Op>, first: nat) returns (e: Entry)
    requires batch != []
    ensures e in Written(Record(first, batch)) && first <= e.key.sn
  {
    e := L.EntryOf(batch[0], first + 0);
  }

  lemma TornWrite(d: Disk, m: Memory, r: Record, d': Disk, e: Entry)
    requires LogsKept(d, m) && LogsOk(d) && m.logFile in d.torn && d' == Appended(d, m.logFile, r, true)
    requires r.Record? && r.first == m.core.lastSequence + 1 && e in Written(r) && r.first <= e.key.sn
    requires (exists v :: Describes(d.manifest, v)) && d.manifest.lastSequence <= m.core.lastSequence
    requires NumbersUpTo(d.logs, d.manifest.logNumber, m.core.lastSequence)
    ensures e !in Certain(d')
  {
    KnownUpTo(d.manifest, m.core.lastSequence);
    TopUncertain(d.logs, d.synced, d.manifest.logNumber, m.core.lastSequence, m.logFile, r, d'.logs, e);
  }

  lemma InvParts(s: State)
    requires Inv(s)
    ensures LogsOk(s.disk) && exists v :: Describes(s.disk.manifest, v)
    ensures s.up.Some? ==>
      && LogsKept(s.disk, s.up.value) && s.disk.manifest.lastSequence <= s.up.value.core.lastSequence
      && NumbersUpTo(s.disk.logs, s.disk.manifest.logNumber, s.up.value.core.lastSequence)
  {
  }

  lemma UncertainLost(s: State, e: Entry)
    requires Inv(s) && e in s.acked && e !in Certain(s.disk)
    ensures !SurvivesCrashes(s)
  {
    SurvivesIff(s);
  }

  lemma WriteParts(s: State, batch: seq<L.Op>, s': State)
    requires Write(s, batch, true, s')
    ensures var r := Record(s.up.value.core.lastSequence + 1, batch);
      s'.disk == Appended(s.disk, s.up.value.logFile, r, true) && Written(r) <= s'.acked
  {
  }

  /** Behind a failed append an acknowledged write may be lost at once. */
  lemma LostBehindTear(s: State, batch: seq<L.Op>, s': State)
    requires Inv(s) && Inv(s') && Write(s, batch, true, s') && batch != [] && s.up.value.logFile in s.disk.torn
    ensures !SurvivesCrashes(s')
  {
    var r := Record(s.up.value.core.lastSequence + 1, batch);
    var e := FirstWritten(batch, r.first);
    InvParts(s);
    InvParts(s');
    WriteParts(s, batch, s');
    TornWrite(s.disk, s.up.value, r, s'.disk, e);
    UncertainLost(s', e);
  }

  /** An append to the manifest is tried, whether it fails or not, behind a failed one. */
  ghost predicate TriedBehindTear(s: State, step: Step) {
    && step.Calling? && (step.c.LandsStep? || step.c.FailsStep?) && Running(s, step.i)
    && s.up.value.calls[step.i].Logging? && !s.up.value.calls[step.i].landed && s.up.value.tail != Whole
  }

  ghost predicate NoneTriedBehindTear(run: seq<State>, steps: seq<Step>)
    requires |run| == |steps| + 1
  {
    forall j :: 0 <= j < |steps| ==> !TriedBehindTear(run[j], steps[j])
  }

  lemma CallFrays(s: State, i: nat, step: CallStep, s': State)
    requires CallNext(s, i, step, s')
    ensures s'.disk.spoilt == s.disk.spoilt
    ensures s'.disk.frayed == (s.disk.frayed || TriedBehindTear(s, Calling(i, step)))
  {
  }

  /** Nothing else frays a manifest, and nothing but a crash of a frayed one spoils it. */
  lemma NextFrays(s: State, step: Step, s': State)
    requires Next(s, step, s')
    ensures TriedBehindTear(s, step) ==> s'.disk.frayed
    ensures Readable(s.disk) && !TriedBehindTear(s, step) ==> Readable(s'.disk)
  {
    match step
    case Calling(i, c) => CallFrays(s, i, c, s');
    case _ =>
  }

  /** A manifest is frayed or spoilt only behind such an append. */
  lemma SpoiltBehindTear(run: seq<State>, steps: seq<Step>, k: nat)
    requires IsExecution(run, steps) && k < |run| && NoneTriedBehindTear(run, steps)
    ensures Readable(run[k].disk)
  {
    if k > 0 {
      SpoiltBehindTear(run, steps, k - 1);
      NextFrays(run[k - 1], steps[k - 1], run[k]);
    }
  }

  lemma NoneBehindSurvives(run: seq<State>, steps: seq<Step>, k: nat)
    requires IsCleanExecution(run, steps) && NoneBehindTear(run, steps) && NoneTriedBehindTear(run, steps) && k < |run|
    ensures SurvivesCrashes(run[k])
  {
    RunReads(run, steps, k);
    HeldForSure(run[k]);
    AckedAreSure(run, steps, k);
    SpoiltBehindTear(run, steps, k);
    SurvivesIff(run[k]);
  }

  /** What was acknowledged for sure is found after any crash of a readable manifest. */
  lemma AckedFound(s: State, logs: Logs, spoils: bool, s': State, es: set<Entry>)
    requires Inv(s) && Crash(s, logs, spoils, s') && Readable(s.disk) && es <= s.sure
    ensures Found(s', es)
  {
    HeldForSure(s);
    CrashInv(s, logs, spoils, s');
    CertainSurvives(s, logs, spoils, s');
    FoundIff(s', es);
  }

  lemma HeldForSure(s: State)
    requires Inv(s)
    ensures LogsOk(s.disk) && s.sure <= Certain(s.disk)
  {
  }

  lemma SomeBehindLost(run: seq<State>, steps: seq<Step>, j: nat)
    requires IsCleanExecution(run, steps) && j < |steps| && AckedBehindTear(run[j], steps[j])
    ensures !SurvivesCrashes(run[j + 1])
  {
    RunReads(run, steps, j);
    RunReads(run, steps, j + 1);
    assert Next(run[j], steps[j], run[j + 1]);
    LostBehindTear(run[j], steps[j].w.batch, run[j + 1]);
  }

  lemma SomeTriedLost(run: seq<State>, steps: seq<Step>, j: nat)
    requires IsCleanExecution(run, steps) && j < |steps| && TriedBehindTear(run[j], steps[j])
    ensures !SurvivesCrashes(run[j + 1])
  {
    RunReads(run, steps, j + 1);
    NextFrays(run[j], steps[j], run[j + 1]);
    SurvivesIff(run[j + 1]);
  }

  /** Of a whole run: after every crash in every state the database can be opened again and all
      that was acknowledged is found, exactly if no write is acknowledged on a log after a failed
      append to it, and no append to the manifest is tried behind a failed one. */
  lemma AckedSurviveIff(run: seq<State>, steps: seq<Step>)
    requires IsCleanExecution(run, steps)
    ensures (forall k :: 0 <= k < |run| ==> SurvivesCrashes(run[k]))
       <==> NoneBehindTear(run, steps) && NoneTriedBehindTear(run, steps)
  {
    if NoneBehindTear(run, steps) && NoneTriedBehindTear(run, steps) {
      forall k | 0 <= k < |run| ensures SurvivesCrashes(run[k]) {
        NoneBehindSurvives(run, steps, k);
      }
    } else if !NoneBehindTear(run, steps) {
      var j :| 0 <= j < |steps| && AckedBehindTear(run[j], steps[j]);
      SomeBehindLost(run, steps, j);
    } else {
      var j :| 0 <= j < |steps| && TriedBehindTear(run[j], steps[j]);
      SomeTriedLost(run, steps, j);
    }
  }

  /** No process ever runs again on a spoilt manifest. */
  lemma SpoiltForGood(run: seq<State>, steps: seq<Step>, i: nat, k: nat)
    requires IsExecution(run, steps) && i <= k < |run| && run[i].disk.spoilt && run[i].up.None?
    ensures run[k].disk.spoilt && run[k].up.None?
  {
    if i < k {
      SpoiltForGood(run, steps, i, k - 1);
      SpoiltNext(run[k - 1], steps[k - 1], run[k]);
    }
  }

  lemma DownStep(s: State, step: Step, s': State)
    requires Next(s, step, s') && s.up.None?
    ensures step.Restarting? && RestartNext(s, step.x, s')
  {
  }

  lemma SpoiltRestart(s: State, step: RestartStep, s': State)
    requires RestartNext(s, step, s') && s.disk.spoilt
    ensures s'.disk.spoilt && s'.up.None?
  {
  }

  lemma SpoiltNext(s: State, step: Step, s': State)
    requires Next(s, step, s') && s.disk.spoilt && s.up.None?
    ensures s'.disk.spoilt && s'.up.None?
  {
    DownStep(s, step, s');
    SpoiltRestart(s, step.x, s');
  }

  // ----- the process dies, the disk stays

  /** Nothing is cut off the logs: what was appended before a failed append is read. */
  ghost predicate NothingCut(d: Disk, logs: Logs) {
    forall n :: n in d.logs && n in logs ==> |logs[n]| == |d.logs[n]|
  }

  /** What the logs held before an append to them failed. */
  ghost function Intact(d: Disk): set<Entry> {
    set a, e | a in Slots(d.logs, d.manifest.logNumber) && a.index < Tear(d, a.log) && e in Written(At(d.logs, a)) :: e
  }

  lemma IntactStays(s: State, logs: Logs, spoils: bool, s': State)
    requires Crash(s, logs, spoils, s') && NothingCut(s.disk, logs)
    ensures Intact(s.disk) <= Logged(logs, s.disk.manifest.logNumber)
  {
    var d, low := s.disk, s.disk.manifest.logNumber;
    forall e | e in Intact(d) ensures e in Logged(logs, low) {
      var a :| a in Slots(d.logs, low) && a.index < Tear(d, a.log) && e in Written(At(d.logs, a));
      assert a.log in logs && logs[a.log][a.index] == d.logs[a.log][a.index];
      assert a in Slots(logs, low) && At(logs, a) == At(d.logs, a);
    }
  }

  /** When only the process dies, every write appended before a failed append to its log is
      still there in whatever process runs next, synced or not; so is all that had reached a
      table. */
  lemma ProcessCrashKeeps(
    s: State, kept: Logs, spoils: bool, s': State, run: seq<State>, steps: seq<Step>)
    requires Inv(s) && Crash(s, kept, spoils, s') && NothingCut(s.disk, kept) && Reopens(s', run, steps)
    ensures Answers(run[|steps|], Known(s.disk.manifest) + Intact(s.disk))
  {
    CrashInv(s, kept, spoils, s');
    IntactStays(s, kept, spoils, s');
    ReopenedHistory(s', run, steps);
  }

  /** Nothing a living process answers for is lost when only it dies, and the database can be
      opened again. */
  ghost predicate SurvivesDeath(s: State)
    requires s.up.Some?
  {
    forall logs, spoils, s' ::
      Crash(s, logs, spoils, s') && NothingCut(s.disk, logs) ==> Found(s', s.up.value.core.history)
  }

  /** The worst that can be read: nothing behind a failed append. */
  function UpToTears(d: Disk): Logs {
    map n | n in d.logs :: seq(
      |d.logs[n]|, i requires 0 <= i < |d.logs[n]| => if i < Tear(d, n) then d.logs[n][i] else Unreadable)
  }

  lemma WorstDeath(s: State) returns (s': State)
    requires LogsOk(s.disk)
    ensures Crash(s, UpToTears(s.disk), s.disk.frayed, s') && NothingCut(s.disk, UpToTears(s.disk))
    ensures OnDisk(s'.disk) == Known(s.disk.manifest) + Intact(s.disk)
  {
    var d, logs, low := s.disk, UpToTears(s.disk), s.disk.manifest.logNumber;
    s' := s.(disk := d.(logs := logs, spoilt := d.spoilt || d.frayed), up := None);
    IntactStays(s, logs, d.frayed, s');
    forall e | e in Logged(logs, low) ensures e in Intact(d) {
      var a :| a in Slots(logs, low) && e in Written(At(logs, a));
      assert a in Slots(d.logs, low) && At(d.logs, a) == At(logs, a) && a.index < Tear(d, a.log);
    }
  }

  /** Exactly if it was all appended before a failed append, or had reached a table, and no
      append to the manifest was tried behind a failed one. */
  lemma SurvivesDeathIff(s: State)
    requires Inv(s) && s.up.Some?
    ensures SurvivesDeath(s)
       <==> s.up.value.core.history <= Known(s.disk.manifest) + Intact(s.disk) && Readable(s.disk)
  {
    InvParts(s);
    var es := s.up.value.core.history;
    if es <= Known(s.disk.manifest) + Intact(s.disk) && Readable(s.disk) {
      forall logs, spoils, s' | Crash(s, logs, spoils, s') && NothingCut(s.disk, logs) ensures Found(s', es) {
        CrashInv(s, logs, spoils, s');
        IntactStays(s, logs, spoils, s');
        FoundIff(s', es);
      }
    } else {
      var s' := WorstDeath(s);
      CrashInv(s, UpToTears(s.disk), s.disk.frayed, s');
      FoundIff(s', es);
    }
  }
}
