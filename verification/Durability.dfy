/** The engine and its files: writes through the log, the background calls with what they
    write and delete, failures, crashes and recovery. Every step is what happens under one
    hold of the lock, or one operation on a file. */
module Durability {
  import opened Options
  import opened Keys
  import opened Version
  import opened Inputs
  import opened Selection
  import opened Compaction
  import opened Install
  import opened Flush
  import opened Disks
  import L = Lsm

  /** `synced[n]` is how many records of log `n` survive a power failure for certain, and
      `torn[n]` how many it held when an append to it first failed: that may have left any
      bytes, so the records from there on may be unreadable. `current` is the number of the
      manifest file that CURRENT names, `manifest` what is read from it. It is `frayed` once an
      append to it was tried behind a failed one, and may then turn out to be `spoilt`:
      then no recovery gets to its end. */
  datatype Disk = Disk(
    tables: map<nat, seq<Entry>>, logs: Logs, synced: map<nat, nat>, torn: map<nat, nat>, manifest: Manifest,
    current: nat,
    descriptors: set<nat>, frayed: bool, spoilt: bool)

  /** What a version edit is for. A flush from inside the merge loop carries the
      compaction's outputs so far. */
  datatype Work =
    | Flushing(level: nat, file: FileMeta, within: Option<seq<FileMeta>>)
    | Compacting(outputs: seq<Output>, outs: seq<FileMeta>)
    | Moving(c: Inputs2, file: FileMeta)

  /** How far a background call has come. `landed` says whether the record being logged
      is already in the manifest file. */
  datatype Call =
    | Scheduled
    | Building(number: nat, within: Option<seq<FileMeta>>)
    | Merging(outs: seq<FileMeta>)
    | Logging(work: Work, version: Levels, edit: Edit, landed: bool)
    | Ending

  /** The manifest file as this process has left it: an append to it may have failed half way,
      and reading may end there, whatever was appended since. */
  datatype Tail = Whole | Torn | CutOff

  /** A running process. `admitted`: the first writer has passed MakeRoomForWrite.
      `doubtful`: a record reached the manifest file although it was reported to have failed. */
  datatype Memory = Memory(
    core: L.State, logFile: nat, logNumber: nat, nextFile: nat, manifestFile: nat, inUse: set<Levels>,
    pending: set<nat>, scheduled: bool, calls: seq<Call>, admitted: bool, bgError: bool, doubtful: bool, tail: Tail)

  /** `acked` are the entries acknowledged after a sync, `sure` those of them whose log had had
      no failed append before, `written` all that were logged. */
  datatype State = State(disk: Disk, up: Option<Memory>, acked: set<Entry>, sure: set<Entry>, written: set<Entry>)

  /** Files chosen for deletion. */
  datatype Gone = Gone(tables: set<nat>, logs: set<nat>, descriptors: set<nat>)

  // ----- the writer

  function LogOf(logs: Logs, n: nat): seq<Record> {
    if n in logs then logs[n] else []
  }

  /** Behind a failed append no sync makes anything certain. */
  function Appended(d: Disk, n: nat, r: Record, sync: bool): Disk {
    var log := LogOf(d.logs, n) + [r];
    d.(logs := d.logs[n := log], synced := if sync && n !in d.torn then d.synced[n := |log|] else d.synced)
  }

  /** An append that fails tears the log, unless it is torn already. */
  function TornBy(d: Disk, n: nat): Disk {
    if n in d.torn then d else d.(torn := d.torn[n := |LogOf(d.logs, n)|])
  }

  /** MakeRoomForWrite finds room: the first writer may go on. */
  ghost predicate Admit(s: State, s': State) {
    && s.up.Some? && !s.up.value.bgError && !s.up.value.admitted
    && s' == s.(up := Some(s.up.value.(admitted := true)))
  }

  /** MakeRoomForWrite switches to a new log and memtable. */
  ghost predicate SwitchMemTable(s: State, s': State) {
    && s.up.Some? && s'.up.Some? && !s.up.value.bgError && !s.up.value.admitted
    && var m := s.up.value;
    && L.SwitchMemTable(m.core, s'.up.value.core)
    && s' == s.(
         disk := s.disk.(logs := s.disk.logs[m.nextFile := []], synced := s.disk.synced[m.nextFile := 0]),
         up := Some(m.(core := s'.up.value.core, logFile := m.nextFile, nextFile := m.nextFile + 1)))
  }

  /** The writer is done with its batch. */
  function Took(m: Memory, core: L.State): Memory {
    m.(core := core, admitted := false)
  }

  /** What is acknowledged after a sync once `r` is written. */
  ghost function NowAcked(acked: set<Entry>, r: Record, sync: bool): set<Entry> {
    if sync then acked + Written(r) else acked
  }

  ghost predicate Write(s: State, batch: seq<L.Op>, sync: bool, s': State) {
    && s.up.Some? && s'.up.Some? && s.up.value.admitted
    && var m := s.up.value;
    && var r := Record(m.core.lastSequence + 1, batch);
    && L.Write(m.core, batch, s'.up.value.core)
    && s' == State(
         Appended(s.disk, m.logFile, r, sync), Some(Took(m, s'.up.value.core)),
         NowAcked(s.acked, r, sync), NowAcked(s.sure, r, sync && m.logFile !in s.disk.torn), s.written + Written(r))
  }

  /** Appending fails half way, or only the sync after it. The record may show up again either
      way, but only a failed sync is recorded as a background error. */
  ghost predicate WriteFails(s: State, batch: seq<L.Op>, appended: bool, s': State) {
    && s.up.Some? && s'.up.Some? && s.up.value.admitted
    && var m := s.up.value;
    && var r := Record(m.core.lastSequence + 1, batch);
    && L.FailedWrite(m.core, |batch|, s'.up.value.core)
    && s' == s.(
         disk := Appended(if appended then s.disk else TornBy(s.disk, m.logFile), m.logFile, r, false),
         up := Some(Took(m, s'.up.value.core).(bgError := m.bgError || appended)),
         written := s.written + Written(r))
  }

  // ----- scheduling background calls

  /** MaybeScheduleCompaction; whether there is work to do is left open. */
  ghost predicate Schedule(s: State, s': State) {
    && s.up.Some? && !s.up.value.scheduled && !s.up.value.bgError
    && s' == s.(up := Some(s.up.value.(scheduled := true, calls := s.up.value.calls + [Scheduled])))
  }

  /** Call number `i` is running. */
  ghost predicate Running(s: State, i: nat) {
    s.up.Some? && i < |s.up.value.calls|
  }

  function Goes(m: Memory, i: nat, call: Call): Memory
    requires i < |m.calls|
  {
    m.(calls := m.calls[i := call])
  }

  /** BackgroundCall after a background error, or BackgroundCompaction without work. */
  ghost predicate Idle(s: State, i: nat, s': State) {
    && Running(s, i) && s.up.value.calls[i].Scheduled?
    && s' == s.(up := Some(Goes(s.up.value, i, Ending)))
  }

  /** The end of BackgroundCall. */
  ghost predicate EndCall(s: State, i: nat, s': State) {
    && Running(s, i) && s.up.value.calls[i].Ending?
    && var m := s.up.value;
    && s' == s.(up := Some(m.(scheduled := false, calls := m.calls[..i] + m.calls[i + 1..])))
  }

  // ----- deleting files

  ghost function ReaderTables(inUse: set<Levels>): set<FileMeta> {
    set v, f | v in inUse && f in Tables(v) :: f
  }

  ghost function PickedTables(job: Option<L.Job>): set<FileMeta> {
    if job.Some? then Tables(job.value.picked) else {}
  }

  /** The tables of every version that is current or referenced, by a reader or by a
      running compaction. */
  ghost function VersionTables(m: Memory): set<FileMeta> {
    Tables(m.core.version) + ReaderTables(m.inUse) + PickedTables(m.core.job)
  }

  ghost predicate Live(m: Memory, n: nat) {
    n in m.pending || exists f :: f in VersionTables(m) && f.number == n
  }

  /** DeleteObsoleteFiles, which a crash may stop after any part of its deletions. */
  ghost predicate Deletable(m: Memory, gone: Gone) {
    && (m.bgError ==> gone == Gone({}, {}, {}))
    && (forall n :: n in gone.tables ==> !Live(m, n))
    && (forall n :: n in gone.logs ==> n < m.logNumber)
    && forall n :: n in gone.descriptors ==> n < m.manifestFile
  }

  function Deleted(d: Disk, gone: Gone): Disk {
    d.(tables := d.tables - gone.tables, logs := d.logs - gone.logs, synced := d.synced - gone.logs,
       torn := d.torn - gone.logs, descriptors := d.descriptors - gone.descriptors)
  }

  // ----- flushes

  function Resume(within: Option<seq<FileMeta>>): Call {
    if within.Some? then Merging(within.value) else Ending
  }

  /** CompactMemTable, from BackgroundCompaction or from inside the merge loop, which
      does not look at the background error. */
  ghost predicate FlushBegin(s: State, i: nat, s': State) {
    && Running(s, i) && s.up.value.core.imm.Some?
    && var m := s.up.value;
    && ((m.calls[i].Scheduled? && !m.bgError) || m.calls[i].Merging?)
    && var within := if m.calls[i].Merging? then Some(m.calls[i].outs) else None;
    && s' == s.(up := Some(
         Goes(m, i, Building(m.nextFile, within)).(pending := m.pending + {m.nextFile}, nextFile := m.nextFile + 1)))
  }

  /** `f` holds the immutable memtable and `version` has it at the level picked for it. */
  ghost predicate Fits(core: L.State, level: nat, f: FileMeta, version: Levels) {
    && core.imm.Some?
    && if core.imm.value == {} then version == core.version
       else
         && FileOk(f) && Ent(f) == core.imm.value && Added(core.version, level, f, version)
         && (level > 0 ==> ClearThrough(core.version, level, f.smallest.user, f.largest.user))
  }

  ghost function LeftOut(core: L.State, version: Levels): set<Entry> {
    VersionEntries(core.version) - VersionEntries(version)
  }

  /** BuildTable is done; pending_outputs_ drops the number before LogAndApply. An empty
      memtable leaves no table. */
  ghost predicate FlushBuilt(s: State, i: nat, level: nat, f: FileMeta, version: Levels, s': State) {
    && Running(s, i) && s.up.value.calls[i].Building? && Fits(s.up.value.core, level, f, version)
    && var m := s.up.value;
    && f.number == m.calls[i].number
    && var built := m.core.imm.value != {};
    && var edit := Edit(
         {}, if built then {Place(level, f)} else {}, m.logFile, m.nextFile, m.core.lastSequence,
         LeftOut(m.core, version));
    && s' == s.(
         disk := if built then s.disk.(tables := s.disk.tables[f.number := f.entries]) else s.disk,
         up := Some(Goes(m, i, Logging(Flushing(level, f, m.calls[i].within), version, edit, false))
                    .(pending := m.pending - {f.number})))
  }

  // ----- version edits

  /** An append to the manifest file, whether it fails or not, leaves a file that may not be
      readable at all if one has failed before. */
  function Tried(d: Disk, m: Memory): Disk {
    d.(frayed := d.frayed || m.tail != Whole)
  }

  /** The record of the edit reaches the manifest file. Behind a failed append it may not be
      read, and then no later one is. */
  ghost predicate Lands(s: State, i: nat, read: bool, s': State) {
    && Running(s, i) && s.up.value.calls[i].Logging? && !s.up.value.calls[i].landed
    && var m := s.up.value;
    && (read ==> m.tail != CutOff) && (!read ==> m.tail != Whole)
    && s' == s.(
         disk := Tried(s.disk, m).(
           manifest := if read then Apply(s.disk.manifest, m.calls[i].edit) else s.disk.manifest),
         up := Some(Goes(m, i, m.calls[i].(landed := true)).(tail := if read then m.tail else CutOff)))
  }

  /** The core once the edit is installed. */
  function Installs(core: L.State, work: Work, version: Levels, nextFile: nat): L.State {
    match work
    case Flushing(_, _, _) => core.(imm := None, version := version, nextFileNumber := nextFile)
    case Compacting(_, _) => core.(job := None, version := version)
    case Moving(_, _) => core.(version := version)
  }

  function Numbers(files: seq<FileMeta>): set<nat> {
    set f | f in files :: f.number
  }

  /** The files that CleanupCompaction takes off pending_outputs_. */
  function Cleaned(work: Work): set<nat> {
    if work.Compacting? then Numbers(work.outs) else {}
  }

  function NextCall(work: Work): Call {
    if work.Flushing? then Resume(work.within) else Ending
  }

  function AfterInstall(m: Memory, i: nat): Memory
    requires i < |m.calls| && m.calls[i].Logging?
  {
    var call := m.calls[i];
    Goes(m, i, NextCall(call.work)).(
      core := Installs(m.core, call.work, call.version, m.nextFile), logNumber := call.edit.logNumber,
      pending := m.pending - Cleaned(call.work))
  }

  /** LogAndApply succeeds. CompactMemTable and a finished compaction then delete
      obsolete files before the lock is released; a move does not. */
  ghost predicate InstallEdit(s: State, i: nat, gone: Gone, s': State) {
    && Running(s, i) && s.up.value.calls[i].Logging? && s.up.value.calls[i].landed
    && var m' := AfterInstall(s.up.value, i);
    && (if s.up.value.calls[i].work.Moving? then gone == Gone({}, {}, {}) else Deletable(m', gone))
    && s' == s.(disk := Deleted(s.disk, gone), up := Some(m'))
  }

  function Failed(m: Memory, i: nat): Memory
    requires i < |m.calls|
  {
    match m.calls[i]
    case Building(n, within) => Goes(m, i, Resume(within)).(bgError := true, pending := m.pending - {n})
    case Merging(outs) =>
      Goes(m, i, Ending).(bgError := true, pending := m.pending - Numbers(outs), core := m.core.(job := None))
    case Logging(work, _, _, landed) =>
      Goes(m, i, NextCall(work)).(
        bgError := true, doubtful := m.doubtful || landed, pending := m.pending - Cleaned(work),
        tail := if landed || m.tail.CutOff? then m.tail else Torn,
        core := if work.Compacting? then m.core.(job := None) else m.core)
    case _ => Goes(m, i, Ending).(bgError := true)
  }

  /** Building, merging or logging reports an error; the record may have landed or not, and
      if not it may be there in part. DeleteObsoleteFiles then does nothing. */
  ghost predicate Fails(s: State, i: nat, s': State) {
    && Running(s, i)
    && var m := s.up.value;
    && var tried := m.calls[i].Logging? && !m.calls[i].landed;
    && s' == s.(disk := if tried then Tried(s.disk, m) else s.disk, up := Some(Failed(m, i)))
  }

  // ----- compactions

  /** BackgroundCompaction picks inputs. It does not ask whether another compaction is
      running: there is none (`AtMostOneCall`). */
  ghost predicate CompactBegin(s: State, i: nat, seed: FileMeta, j: L.Job, s': State) {
    && Running(s, i) && s'.up.Some? && s.up.value.calls[i].Scheduled? && !s.up.value.bgError
    && var m := s.up.value;
    && L.StartCompaction(m.core.(job := None), seed, j, s'.up.value.core)
    && s' == s.(up := Some(Goes(m, i, Merging([])).(core := s'.up.value.core)))
  }

  ghost predicate CompactOutput(s: State, i: nat, f: FileMeta, s': State) {
    && Running(s, i) && s.up.value.calls[i].Merging? && f.number == s.up.value.nextFile
    && var m := s.up.value;
    && s' == s.(
         disk := s.disk.(tables := s.disk.tables[f.number := f.entries]),
         up := Some(
           Goes(m, i, Merging(m.calls[i].outs + [f])).(pending := m.pending + {f.number}, nextFile := m.nextFile + 1)))
  }

  /** InstallCompactionResults: the outputs hold exactly what the drop rule keeps. */
  ghost predicate CompactLog(s: State, i: nat, outputs: seq<Output>, version: Levels, s': State) {
    && Running(s, i) && s.up.value.calls[i].Merging?
    && var m := s.up.value;
    && var work := Compacting(outputs, m.calls[i].outs);
    && L.FinishCompaction(m.core, outputs, work.outs, Installs(m.core, work, version, m.nextFile))
    && var c := m.core.job.value.c;
    && var edit := Edit(
         InputPlaces(c), PlacedAt(c.level + 1, work.outs), m.logNumber, m.nextFile, m.core.lastSequence,
         LeftOut(m.core, version));
    && s' == s.(up := Some(Goes(m, i, Logging(work, version, edit, false))))
  }

  /** A single file with nothing to merge moves down. */
  ghost predicate MoveLog(s: State, i: nat, c: Inputs2, f: FileMeta, version: Levels, s': State) {
    && Running(s, i) && s.up.value.calls[i].Scheduled? && !s.up.value.bgError && s.up.value.core.imm.None?
    && var m := s.up.value;
    && L.TrivialMove(m.core.(job := None), c, f, m.core.(job := None, version := version))
    && var edit := Edit(
         {Place(c.level, f)}, {Place(c.level + 1, f)}, m.logNumber, m.nextFile, m.core.lastSequence,
         LeftOut(m.core, version));
    && s' == s.(up := Some(Goes(m, i, Logging(Moving(c, f), version, edit, false))))
  }

  // ----- readers

  ghost predicate TakeVersion(s: State, s': State) {
    && s.up.Some?
    && s' == s.(up := Some(s.up.value.(inUse := s.up.value.inUse + {s.up.value.core.version})))
  }

  ghost predicate DropVersion(s: State, v: Levels, s': State) {
    && s.up.Some?
    && s' == s.(up := Some(s.up.value.(inUse := s.up.value.inUse - {v})))
  }

  ghost predicate Snapshot(s: State, s': State) {
    && s.up.Some? && s'.up.Some? && L.GetSnapshot(s.up.value.core, s'.up.value.core)
    && s' == s.(up := Some(s.up.value.(core := s'.up.value.core)))
  }

  ghost predicate Release(s: State, k: nat, s': State) {
    && s.up.Some? && s'.up.Some? && L.ReleaseSnapshot(s.up.value.core, k, s'.up.value.core)
    && s' == s.(up := Some(s.up.value.(core := s'.up.value.core)))
  }

  // ----- crash and recovery

  /** How many records of log `n` were appended before an append to it failed. */
  function Tear(d: Disk, n: nat): nat {
    if n in d.torn then d.torn[n] else |LogOf(d.logs, n)|
  }

  /** Memory is gone; every log keeps at least the records that were synced. Whether a frayed
      manifest is spoilt is up to its bytes. */
  ghost predicate Crash(s: State, logs: Logs, spoils: bool, s': State) {
    && logs.Keys == s.disk.logs.Keys && (spoils ==> s.disk.frayed)
    && (forall n :: n in logs ==>
          Survives(s.disk.logs[n], if n in s.disk.synced then s.disk.synced[n] else 0, Tear(s.disk, n), logs[n]))
    && s' == s.(disk := s.disk.(logs := logs, spoilt := s.disk.spoilt || spoils), up := None)
  }

  /** A recovery that does not get to the end leaves tables, an empty log or a manifest
      file behind, all under numbers that the manifest has not given out. */
  ghost predicate StrayTable(s: State, n: nat, es: seq<Entry>, s': State) {
    && s.up.None? && s.disk.manifest.nextFile < n
    && s' == s.(disk := s.disk.(tables := s.disk.tables[n := es]))
  }

  ghost predicate StrayLog(s: State, n: nat, s': State) {
    && s.up.None? && s.disk.manifest.nextFile < n && n !in s.disk.logs
    && s' == s.(disk := s.disk.(logs := s.disk.logs[n := []], synced := s.disk.synced[n := 0]))
  }

  ghost predicate StrayDescriptor(s: State, s': State) {
    && s.up.None?
    && s' == s.(disk := s.disk.(descriptors := s.disk.descriptors + {s.disk.manifest.nextFile}))
  }

  ghost predicate Backed(d: Disk, f: FileMeta) {
    f.number in d.tables && d.tables[f.number] == f.entries
  }

  /** The largest sequence number of the manifest and of the replayed records. */
  ghost predicate LastOf(d: Disk, last: nat) {
    && d.manifest.lastSequence <= last && NumbersUpTo(d.logs, d.manifest.logNumber, last)
    && (last == d.manifest.lastSequence
        || exists a :: a in Slots(d.logs, d.manifest.logNumber) && Past(At(d.logs, a)) == last + 1)
  }

  /** A recovery: the new tables `fresh'`, the version, log number, file counter and last
      sequence number it ends with, and the files it deletes. */
  datatype Fresh = Fresh(
    home: map<Slot, nat>, fresh': seq<FileMeta>, version: Levels, last: nat, newLog: nat, nextFile: nat, gone: Gone)

  /** The numbers recovery gives out: the new manifest file's is the manifest's next one. */
  ghost predicate FreshNumbers(d: Disk, r: Fresh) {
    && (forall f :: f in r.fresh' ==> d.manifest.nextFile < f.number < r.newLog)
    && (forall n :: n in d.logs && d.manifest.logNumber <= n ==> n < r.newLog)
    && d.manifest.nextFile < r.newLog < r.nextFile
  }

  ghost function FreshManifest(d: Disk, r: Fresh): Manifest {
    Manifest(Placed(r.version), r.newLog, r.nextFile, r.last, d.manifest.retired)
  }

  ghost function FreshMemory(d: Disk, r: Fresh): Memory {
    Memory(
      L.State(Known(FreshManifest(d, r)), {}, None, r.version, r.last, [], None, r.nextFile),
      r.newLog, r.newLog, r.nextFile, d.manifest.nextFile, {}, {}, false, [], false, false, false, Whole)
  }

  ghost function FreshDisk(d: Disk, r: Fresh): Disk {
    Disk(
      d.tables, d.logs[r.newLog := []], d.synced[r.newLog := 0], d.torn, FreshManifest(d, r), d.manifest.nextFile,
      d.descriptors + {d.manifest.nextFile}, false, false)
  }

  /** DB::Open on an existing database: the logs from the manifest's number on are replayed
      into new tables, a new log is opened, a new manifest takes effect, and obsolete files go. */
  ghost predicate Recover(s: State, r: Fresh, s': State) {
    var d := s.disk;
    && s.up.None? && !d.spoilt && (forall p :: p in d.manifest.files ==> p.file.number in d.tables)
    && Replayed(d.logs, d.manifest.logNumber, r.home, r.fresh') && (forall f :: f in r.fresh' ==> Backed(d, f))
    && FreshNumbers(d, r) && Recovered(d.manifest, r.fresh', r.version) && LastOf(d, r.last)
    && Deletable(FreshMemory(d, r), r.gone)
    && s' == s.(disk := Deleted(FreshDisk(d, r), r.gone), up := Some(FreshMemory(d, r)))
  }

  /** NewDB. */
  ghost predicate Init(s: State) {
    s == State(Disk(map[], map[], map[], map[], Manifest({}, 0, 2, 0, {}), 1, {1}, false, false), None, {}, {}, {})
  }

  datatype WriterStep =
    | AdmitStep | SwitchStep | WriteStep(batch: seq<L.Op>, sync: bool)
    | WriteFailsStep(batch: seq<L.Op>, appended: bool)

  datatype CallStep =
    | IdleStep | EndStep
    | FlushBeginStep | FlushBuiltStep(level: nat, file: FileMeta, version: Levels)
    | CompactBeginStep(seed: FileMeta, job: L.Job) | CompactOutputStep(file: FileMeta)
    | CompactLogStep(outputs: seq<Output>, version: Levels) | MoveLogStep(c: Inputs2, file: FileMeta, version: Levels)
    | LandsStep(read: bool) | InstallStep(gone: Gone) | FailsStep

  datatype ReaderStep = TakeStep | DropStep(version: Levels) | SnapshotStep | ReleaseStep(k: nat)

  datatype RestartStep =
    | CrashStep(kept: Logs, spoils: bool)
    | StrayTableStep(number: nat, es: seq<Entry>) | StrayLogStep(number: nat) | StrayDescriptorStep
    | RecoverStep(recovery: Fresh)

  /** Any writer, background call number `i`, any reader, or a crash may be next. */
  datatype Step =
    | Writing(w: WriterStep) | Scheduling | Calling(i: nat, c: CallStep) | Reading(r: ReaderStep)
    | Restarting(x: RestartStep)

  ghost predicate WriterNext(s: State, step: WriterStep, s': State) {
    match step
    case AdmitStep => Admit(s, s')
    case SwitchStep => SwitchMemTable(s, s')
    case WriteStep(batch, sync) => Write(s, batch, sync, s')
    case WriteFailsStep(batch, appended) => WriteFails(s, batch, appended, s')
  }

  ghost predicate CallNext(s: State, i: nat, step: CallStep, s': State) {
    match step
    case IdleStep => Idle(s, i, s')
    case EndStep => EndCall(s, i, s')
    case FlushBeginStep => FlushBegin(s, i, s')
    case FlushBuiltStep(level, f, version) => FlushBuilt(s, i, level, f, version, s')
    case CompactBeginStep(seed, j) => CompactBegin(s, i, seed, j, s')
    case CompactOutputStep(f) => CompactOutput(s, i, f, s')
    case CompactLogStep(outputs, version) => CompactLog(s, i, outputs, version, s')
    case MoveLogStep(c, f, version) => MoveLog(s, i, c, f, version, s')
    case LandsStep(read) => Lands(s, i, read, s')
    case InstallStep(gone) => InstallEdit(s, i, gone, s')
    case FailsStep => Fails(s, i, s')
  }

  ghost predicate ReaderNext(s: State, step: ReaderStep, s': State) {
    match step
    case TakeStep => TakeVersion(s, s')
    case DropStep(v) => DropVersion(s, v, s')
    case SnapshotStep => Snapshot(s, s')
    case ReleaseStep(k) => Release(s, k, s')
  }

  ghost predicate RestartNext(s: State, step: RestartStep, s': State) {
    match step
    case CrashStep(kept, spoils) => Crash(s, kept, spoils, s')
    case StrayTableStep(n, es) => StrayTable(s, n, es, s')
    case StrayLogStep(n) => StrayLog(s, n, s')
    case StrayDescriptorStep => StrayDescriptor(s, s')
    case RecoverStep(r) => Recover(s, r, s')
  }

  ghost predicate Next(s: State, step: Step, s': State) {
    match step
    case Writing(w) => WriterNext(s, w, s')
    case Scheduling => Schedule(s, s')
    case Calling(i, c) => CallNext(s, i, c, s')
    case Reading(r) => ReaderNext(s, r, s')
    case Restarting(x) => RestartNext(s, x, s')
  }

  // ----- the invariant about files

  /** Every file is on disk with its entries, under a number below `limit`. */
  ghost predicate AllBacked(d: Disk, files: set<FileMeta>, limit: nat) {
    forall f :: f in files ==> Backed(d, f) && f.number < limit
  }

  ghost predicate DiskOk(d: Disk) {
    && AllBacked(d, FilesOf(d.manifest.files), d.manifest.nextFile)
    && d.current in d.descriptors && d.current < d.manifest.nextFile && d.manifest.logNumber < d.manifest.nextFile
    && LogsOk(d)
  }

  ghost predicate LogsOk(d: Disk) {
    && d.logs.Keys == d.synced.Keys && (forall n :: n in d.logs ==> d.synced[n] <= |d.logs[n]|)
    && d.torn.Keys <= d.logs.Keys && forall n :: n in d.torn ==> d.synced[n] <= d.torn[n]
  }

  /** The one call there can be. */
  function Only(m: Memory): Call {
    if m.calls == [] then Ending else m.calls[0]
  }

  /** At most one background call is active: the flag stands for it. */
  ghost predicate OneCall(m: Memory) {
    |m.calls| == if m.scheduled then 1 else 0
  }

  function OutsOf(call: Call): seq<FileMeta> {
    match call
    case Building(_, within) => if within.Some? then within.value else []
    case Merging(outs) => outs
    case Logging(work, _, _, _) =>
      if work.Compacting? then work.outs else if work.Flushing? && work.within.Some? then work.within.value else []
    case _ => []
  }

  ghost function CallTables(call: Call): set<FileMeta> {
    Files(OutsOf(call)) + (if call.Logging? then FilesOf(call.edit.added) else {})
  }

  ghost function Held(m: Memory): set<FileMeta> {
    VersionTables(m) + CallTables(Only(m))
  }

  /** Numbers from here on belong to no file in use: a table being built has none yet. */
  function Limit(m: Memory): nat {
    if Only(m).Building? then Only(m).number else m.nextFile
  }

  /** A compaction is under way exactly while its call merges or logs, or flushes meanwhile. */
  ghost predicate InCompaction(call: Call) {
    match call
    case Building(_, within) => within.Some?
    case Merging(_) => true
    case Logging(work, _, _, _) => work.Compacting? || (work.Flushing? && work.within.Some?)
    case _ => false
  }

  /** What the edit being logged does is still what the engine needs. */
  ghost predicate WorkOk(core: L.State, work: Work, version: Levels) {
    match work
    case Flushing(level, f, _) => Fits(core, level, f, version) && core.nextFileNumber <= f.number
    case Compacting(outputs, outs) => L.FinishCompaction(core, outputs, outs, core.(job := None, version := version))
    case Moving(c, f) => L.TrivialMove(core, c, f, core.(version := version))
  }

  /** The places an edit deletes and adds. */
  ghost predicate Intended(core: L.State, work: Work, edit: Edit) {
    match work
    case Flushing(level, f, _) =>
      edit.deleted == {} && edit.added == if L.ImmEntries(core) != {} then {Place(level, f)} else {}
    case Compacting(_, outs) =>
      core.job.Some? ==>
        && edit.deleted == InputPlaces(core.job.value.c)
        && edit.added == PlacedAt(core.job.value.c.level + 1, outs)
    case Moving(c, f) => edit.deleted == {Place(c.level, f)} && edit.added == {Place(c.level + 1, f)}
  }

  ghost predicate EditOk(d: Disk, m: Memory, work: Work, version: Levels, edit: Edit) {
    && Placed(version) == Placed(m.core.version) - edit.deleted + edit.added
    && AllBacked(d, FilesOf(edit.added), edit.nextFile)
    && d.manifest.nextFile <= edit.nextFile <= m.nextFile && edit.logNumber < edit.nextFile
    && edit.logNumber == (if work.Flushing? then m.logFile else m.logNumber)
    && edit.dropped == LeftOut(m.core, version) && edit.lastSequence <= m.core.lastSequence
    && Intended(m.core, work, edit)
    && (work.Flushing? ==> work.file.number < m.nextFile)
  }

  ghost predicate CallOk(d: Disk, m: Memory, call: Call) {
    && (InCompaction(call) <==> m.core.job.Some?)
    && (m.doubtful && (call.Building? || call.Logging?) ==> InCompaction(call))
    && (call.Building? ==> m.core.imm.Some? && call.number < m.nextFile)
    && (call.Logging? ==>
          && WorkOk(m.core, call.work, call.version) && EditOk(d, m, call.work, call.version, call.edit)
          && (if call.landed then m.tail != CutOff ==> d.manifest.logNumber == call.edit.logNumber
              else call.work.Flushing? ==> d.manifest.nextFile <= call.work.file.number))
  }

  /** Unless a failed record landed, or records are no longer read, the manifest on disk is
      the installed version, or the version of the edit that has landed. */
  ghost predicate ManifestKnown(d: Disk, m: Memory) {
    !m.doubtful && m.tail != CutOff ==>
      if Only(m).Logging? && Only(m).landed then d.manifest.files == Placed(Only(m).version)
      else d.manifest.files == Placed(m.core.version) && d.manifest.logNumber == m.logNumber
  }

  ghost predicate LogsKept(d: Disk, m: Memory) {
    && m.logFile in d.logs && m.logFile < m.nextFile && (forall n :: n in d.logs ==> n <= m.logFile)
    && d.manifest.logNumber <= m.logFile && m.logNumber <= m.logFile
    && (m.tail != CutOff ==> m.logNumber <= d.manifest.logNumber)
  }

  ghost predicate CountersOk(d: Disk, m: Memory) {
    && d.manifest.nextFile <= Limit(m) && m.core.nextFileNumber <= Limit(m)
    && Numbers(OutsOf(Only(m))) <= m.pending
    && d.current == m.manifestFile && (m.doubtful || m.tail != Whole ==> m.bgError)
  }

  ghost predicate HeldOk(d: Disk, m: Memory) {
    AllBacked(d, Held(m), Limit(m))
  }

  ghost predicate UpOk(d: Disk, m: Memory) {
    && OneCall(m) && CallOk(d, m, Only(m)) && ManifestKnown(d, m) && LogsKept(d, m)
    && HeldOk(d, m) && CountersOk(d, m)
  }

  ghost predicate FileInv(s: State) {
    DiskOk(s.disk) && (s.up.Some? ==> UpOk(s.disk, s.up.value))
  }

  // ----- facts about files

  lemma TheCall(s: State, i: nat)
    requires FileInv(s) && Running(s, i)
    ensures i == 0 && s.up.value.scheduled && s.up.value.calls == [Only(s.up.value)]
  {
  }

  /** A new table does not disturb files with smaller numbers. */
  lemma BackedGrown(d: Disk, n: nat, es: seq<Entry>, files: set<FileMeta>, limit: nat)
    requires AllBacked(d, files, limit) && limit <= n
    ensures AllBacked(d.(tables := d.tables[n := es]), files, limit)
  {
  }

  lemma BackedDeleted(d: Disk, gone: Gone, files: set<FileMeta>, limit: nat)
    requires AllBacked(d, files, limit) && forall f :: f in files ==> f.number !in gone.tables
    ensures AllBacked(Deleted(d, gone), files, limit)
  {
  }

  lemma LiveTables(m: Memory, gone: Gone)
    requires Deletable(m, gone)
    ensures forall f :: f in VersionTables(m) ==> f.number !in gone.tables
  {
  }

  lemma PendingTables(m: Memory, gone: Gone, outs: seq<FileMeta>)
    requires Deletable(m, gone) && Numbers(outs) <= m.pending
    ensures forall f :: f in Files(outs) ==> f.number !in gone.tables
  {
    forall f | f in Files(outs) ensures f.number !in gone.tables {
      assert f.number in Numbers(outs);
    }
  }

  lemma HeldStays(d: Disk, m: Memory, m': Memory, added: set<FileMeta>)
    requires HeldOk(d, m) && AllBacked(d, added, Limit(m')) && Limit(m) <= Limit(m')
    requires VersionTables(m') <= VersionTables(m) + added && CallTables(Only(m')) <= CallTables(Only(m)) + added
    ensures HeldOk(d, m')
  {
  }

  lemma DiskGrown(d: Disk, n: nat, es: seq<Entry>)
    requires DiskOk(d) && d.manifest.nextFile <= n
    ensures DiskOk(d.(tables := d.tables[n := es]))
  {
    BackedGrown(d, n, es, FilesOf(d.manifest.files), d.manifest.nextFile);
  }

  // ----- every step keeps the files that are needed

  lemma InitFiles(s: State)
    requires Init(s)
    ensures FileInv(s)
  {
  }

  lemma AppendedFiles(d: Disk, n: nat, r: Record, sync: bool)
    requires DiskOk(d) && n in d.logs
    ensures DiskOk(Appended(d, n, r, sync)) && Appended(d, n, r, sync).logs.Keys == d.logs.Keys
    ensures forall files, limit :: AllBacked(d, files, limit) ==> AllBacked(Appended(d, n, r, sync), files, limit)
  {
  }

  /** The parts of the engine that no writer and no reader changes. */
  ghost predicate SameVersions(m: Memory, m': Memory) {
    && m'.core.version == m.core.version && m'.core.job == m.core.job
    && m'.core.nextFileNumber == m.core.nextFileNumber && m.core.lastSequence <= m'.core.lastSequence
    && m'.calls == m.calls && m'.scheduled == m.scheduled && m'.pending == m.pending
    && m'.inUse <= m.inUse + {m.core.version}
    && m'.logNumber == m.logNumber && m'.manifestFile == m.manifestFile && m'.doubtful == m.doubtful
    && m'.tail == m.tail
    && m.nextFile <= m'.nextFile
  }

  lemma SameHeld(m: Memory, m': Memory)
    requires SameVersions(m, m')
    ensures Held(m') <= Held(m) && Only(m') == Only(m) && Limit(m) <= Limit(m')
  {
    forall f | f in ReaderTables(m'.inUse) ensures f in VersionTables(m) {
      var v :| v in m'.inUse && f in Tables(v);
      assert v == m.core.version || v in m.inUse;
    }
  }

  lemma SameEdit(d: Disk, m: Memory, d': Disk, m': Memory, call: Call)
    requires call.Logging? && WorkOk(m.core, call.work, call.version)
    requires EditOk(d, m, call.work, call.version, call.edit)
    requires SameVersions(m, m') && d'.tables == d.tables && d'.manifest == d.manifest
    requires m.core.imm.Some? ==> m'.core.imm == m.core.imm && m'.logFile == m.logFile
    ensures EditOk(d', m', call.work, call.version, call.edit)
  {
    assert L.ImmEntries(m.core) != {} || call.work.Flushing? ==> m.core.imm.Some?;
  }

  lemma SameWork(m: Memory, m': Memory, call: Call)
    requires call.Logging? && WorkOk(m.core, call.work, call.version) && SameVersions(m, m')
    requires m.core.imm.Some? ==> m'.core.imm == m.core.imm
    ensures WorkOk(m'.core, call.work, call.version)
  {
    WorkStays(m.core, m'.core, call.work, call.version);
  }

  lemma SameCall(d: Disk, m: Memory, d': Disk, m': Memory)
    requires CallOk(d, m, Only(m)) && SameVersions(m, m') && d'.tables == d.tables && d'.manifest == d.manifest
    requires m.core.imm.Some? ==> m'.core.imm == m.core.imm && m'.logFile == m.logFile
    ensures CallOk(d', m', Only(m))
  {
    if Only(m).Logging? {
      SameEdit(d, m, d', m', Only(m));
      SameWork(m, m', Only(m));
    }
  }

  /** Writing changes neither versions nor calls nor the manifest. */
  lemma WriterFiles(d: Disk, m: Memory, d': Disk, m': Memory)
    requires UpOk(d, m) && d'.tables == d.tables && d'.manifest == d.manifest && d'.current == d.current
    requires SameVersions(m, m') && LogsKept(d', m') && (m.bgError ==> m'.bgError)
    requires m.core.imm.Some? ==> m'.core.imm == m.core.imm && m'.logFile == m.logFile
    ensures UpOk(d', m')
  {
    SameHeld(m, m');
    SameCall(d, m, d', m');
  }

  /** The work of a call depends on the versions, imm_ and the compaction alone. */
  lemma WorkStays(core: L.State, core': L.State, work: Work, version: Levels)
    requires WorkOk(core, work, version)
    requires core'.version == core.version && core'.job == core.job && core'.nextFileNumber == core.nextFileNumber
    requires work.Flushing? ==> core'.imm == core.imm
    ensures WorkOk(core', work, version)
  {
  }

  lemma WriteFiles(s: State, batch: seq<L.Op>, sync: bool, s': State)
    requires FileInv(s) && Write(s, batch, sync, s')
    ensures FileInv(s')
  {
    var m := s.up.value;
    AppendedFiles(s.disk, m.logFile, Record(m.core.lastSequence + 1, batch), sync);
    WriterFiles(s.disk, m, s'.disk, s'.up.value);
  }

  lemma TornFiles(d: Disk, n: nat)
    requires DiskOk(d) && n in d.logs
    ensures DiskOk(TornBy(d, n)) && TornBy(d, n).logs == d.logs
  {
  }

  lemma WriteFailsFiles(s: State, batch: seq<L.Op>, appended: bool, s': State)
    requires FileInv(s) && WriteFails(s, batch, appended, s')
    ensures FileInv(s')
  {
    var m := s.up.value;
    var d := if appended then s.disk else TornBy(s.disk, m.logFile);
    TornFiles(s.disk, m.logFile);
    AppendedFiles(d, m.logFile, Record(m.core.lastSequence + 1, batch), false);
    WriterFiles(s.disk, m, s'.disk, s'.up.value);
  }

  lemma AdmitFiles(s: State, s': State)
    requires FileInv(s) && Admit(s, s')
    ensures FileInv(s')
  {
    WriterFiles(s.disk, s.up.value, s'.disk, s'.up.value);
  }

  lemma SwitchFiles(s: State, s': State)
    requires FileInv(s) && SwitchMemTable(s, s')
    ensures FileInv(s')
  {
    WriterFiles(s.disk, s.up.value, s'.disk, s'.up.value);
  }

  lemma SnapshotFiles(s: State, k: nat, s': State)
    requires FileInv(s) && (Snapshot(s, s') || Release(s, k, s'))
    ensures FileInv(s')
  {
    WriterFiles(s.disk, s.up.value, s'.disk, s'.up.value);
  }

  lemma ScheduleFiles(s: State, i: nat, s': State)
    requires FileInv(s) && (Schedule(s, s') || Idle(s, i, s') || EndCall(s, i, s'))
    ensures FileInv(s')
  {
    var m, m' := s.up.value, s'.up.value;
    if Running(s, i) && !Schedule(s, s') {
      TheCall(s, i);
    }
    assert VersionTables(m') == VersionTables(m);
  }

  lemma FlushBeginFiles(s: State, i: nat, s': State)
    requires FileInv(s) && FlushBegin(s, i, s')
    ensures FileInv(s')
  {
    TheCall(s, i);
    var m, m' := s.up.value, s'.up.value;
    assert VersionTables(m') == VersionTables(m);
    assert Only(m') == m'.calls[0] && OutsOf(Only(m')) == OutsOf(Only(m));
  }

  lemma FlushBuiltCall(s: State, i: nat, level: nat, f: FileMeta, version: Levels, s': State)
    requires FileInv(s) && FlushBuilt(s, i, level, f, version, s') && i == 0
    ensures var m' := s'.up.value; CallOk(s'.disk, m', m'.calls[0])
  {
    var m := s.up.value;
    if m.core.imm.value != {} {
      AddedPlaces(m.core.version, level, f, version);
    }
  }

  lemma FlushBuiltFiles(s: State, i: nat, level: nat, f: FileMeta, version: Levels, s': State)
    requires FileInv(s) && FlushBuilt(s, i, level, f, version, s')
    ensures FileInv(s')
  {
    TheCall(s, i);
    var m, m' := s.up.value, s'.up.value;
    FlushBuiltCall(s, i, level, f, version, s');
    DiskGrown(s.disk, f.number, f.entries);
    BackedGrown(s.disk, f.number, f.entries, Held(m), Limit(m));
    assert VersionTables(m') == VersionTables(m);
    assert OutsOf(Only(m')) == OutsOf(Only(m));
    assert f.number !in Numbers(OutsOf(Only(m)));
  }

  lemma ApplyFiles(mf: Manifest, e: Edit)
    ensures FilesOf(Apply(mf, e).files) <= FilesOf(mf.files) + FilesOf(e.added)
  {
  }

  lemma LandedDisk(d: Disk, m: Memory, call: Call)
    requires DiskOk(d) && call.Logging? && EditOk(d, m, call.work, call.version, call.edit)
    ensures DiskOk(d.(manifest := Apply(d.manifest, call.edit)))
  {
    ApplyFiles(d.manifest, call.edit);
  }

  lemma LandsFiles(s: State, i: nat, read: bool, s': State)
    requires FileInv(s) && Lands(s, i, read, s')
    ensures FileInv(s')
  {
    TheCall(s, i);
    LandedDisk(s.disk, s.up.value, Only(s.up.value));
    HeldStays(s.disk, s.up.value, s'.up.value, {});
  }

  lemma CompactBeginFiles(s: State, i: nat, seed: FileMeta, j: L.Job, s': State)
    requires FileInv(s) && CompactBegin(s, i, seed, j, s')
    ensures FileInv(s')
  {
    TheCall(s, i);
  }

  lemma CompactOutputFiles(s: State, i: nat, f: FileMeta, s': State)
    requires FileInv(s) && CompactOutput(s, i, f, s')
    ensures FileInv(s')
  {
    TheCall(s, i);
    var m, m' := s.up.value, s'.up.value;
    DiskGrown(s.disk, f.number, f.entries);
    BackedGrown(s.disk, f.number, f.entries, Held(m), Limit(m));
    assert VersionTables(m') == VersionTables(m);
    assert Files(OutsOf(Only(m'))) == Files(OutsOf(Only(m))) + {f};
  }

  /** A call that starts logging. */
  lemma LoggingFiles(d: Disk, m: Memory, call: Call, m': Memory)
    requires UpOk(d, m) && |m.calls| == 1 && !Only(m).Building? && !Only(m).Logging?
    requires call.Logging? && !call.landed && !call.work.Flushing? && m' == Goes(m, 0, call)
    requires WorkOk(m.core, call.work, call.version) && EditOk(d, m, call.work, call.version, call.edit)
    requires (InCompaction(call) <==> m.core.job.Some?) && OutsOf(call) == OutsOf(Only(m))
    requires m.doubtful ==> InCompaction(call)
    ensures UpOk(d, m')
  {
    HeldStays(d, m, m', FilesOf(call.edit.added));
  }

  lemma MergedBounds(d: Disk, m: Memory)
    requires UpOk(d, m) && Only(m).Merging?
    ensures AllBacked(d, Files(Only(m).outs), m.nextFile) && d.manifest.nextFile <= m.nextFile
    ensures m.logNumber < m.nextFile
  {
  }

  lemma CompactLogEdit(d: Disk, m: Memory, outputs: seq<Output>, version: Levels)
    requires Only(m).Merging? && AllBacked(d, Files(Only(m).outs), m.nextFile)
    requires d.manifest.nextFile <= m.nextFile && m.logNumber < m.nextFile
    requires m.core.job.Some? && Installed(m.core.version, m.core.job.value.c, Only(m).outs, version)
    ensures var c := m.core.job.value.c;
      EditOk(
        d, m, Compacting(outputs, Only(m).outs), version,
        Edit(InputPlaces(c), PlacedAt(c.level + 1, Only(m).outs), m.logNumber, m.nextFile, m.core.lastSequence,
             LeftOut(m.core, version)))
  {
    var c, outs := m.core.job.value.c, Only(m).outs;
    InstalledPlaces(m.core.version, c, outs, version);
    PlacedFiles(c.level + 1, outs);
  }

  lemma CompactLogFiles(s: State, i: nat, outputs: seq<Output>, version: Levels, s': State)
    requires FileInv(s) && CompactLog(s, i, outputs, version, s')
    ensures FileInv(s')
  {
    TheCall(s, i);
    var m, m' := s.up.value, s'.up.value;
    MergedBounds(s.disk, m);
    CompactLogEdit(s.disk, m, outputs, version);
    LoggingFiles(s.disk, m, Only(m'), m');
  }

  lemma MovePlaces(v: Levels, c: Inputs2, f: FileMeta, v': Levels)
    requires Installed(v, c, [f], v') && c.in0 == [f] && c.in1 == []
    ensures Placed(v') == Placed(v) - {Place(c.level, f)} + {Place(c.level + 1, f)} && f in Tables(v)
  {
    InstalledPlaces(v, c, [f], v');
    assert InputPlaces(c) == {Place(c.level, f)} && PlacedAt(c.level + 1, [f]) == {Place(c.level + 1, f)};
    assert c.in0[0] in c.in0;
  }

  lemma MovedBacked(d: Disk, m: Memory, c: Inputs2, f: FileMeta)
    requires HeldOk(d, m) && f in Tables(m.core.version) && Only(m).Scheduled?
    ensures AllBacked(d, FilesOf({Place(c.level + 1, f)}), m.nextFile)
  {
    assert f in Held(m);
  }

  lemma MoveBounds(d: Disk, m: Memory)
    requires UpOk(d, m) && Only(m).Scheduled?
    ensures HeldOk(d, m) && d.manifest.nextFile <= m.nextFile && m.logNumber < m.nextFile
  {
  }

  lemma MoveLogEdit(d: Disk, m: Memory, c: Inputs2, f: FileMeta, version: Levels)
    requires HeldOk(d, m) && Only(m).Scheduled? && d.manifest.nextFile <= m.nextFile && m.logNumber < m.nextFile
    requires Installed(m.core.version, c, [f], version) && c.in0 == [f] && c.in1 == []
    ensures EditOk(
      d, m, Moving(c, f), version,
      Edit({Place(c.level, f)}, {Place(c.level + 1, f)}, m.logNumber, m.nextFile, m.core.lastSequence,
           LeftOut(m.core, version)))
  {
    MovePlaces(m.core.version, c, f, version);
    MovedBacked(d, m, c, f);
  }

  lemma MovesAlone(d: Disk, m: Memory, c: Inputs2, f: FileMeta, version: Levels)
    requires UpOk(d, m) && Only(m).Scheduled?
    requires L.TrivialMove(m.core.(job := None), c, f, m.core.(job := None, version := version))
    ensures L.TrivialMove(m.core, c, f, m.core.(version := version))
  {
    assert m.core.(job := None) == m.core;
  }

  lemma MoveInstalls(core: L.State, c: Inputs2, f: FileMeta, version: Levels)
    requires L.TrivialMove(core, c, f, core.(version := version))
    ensures Installed(core.version, c, [f], version) && c.in0 == [f] && c.in1 == [] && core.job.None?
  {
  }

  function MoveCall(m: Memory, c: Inputs2, f: FileMeta, version: Levels, dropped: set<Entry>): Call {
    Logging(
      Moving(c, f), version,
      Edit({Place(c.level, f)}, {Place(c.level + 1, f)}, m.logNumber, m.nextFile, m.core.lastSequence, dropped), false)
  }

  lemma MovedEdit(d: Disk, m: Memory, c: Inputs2, f: FileMeta, version: Levels, call: Call)
    requires UpOk(d, m) && Only(m).Scheduled? && call == MoveCall(m, c, f, version, LeftOut(m.core, version))
    requires Installed(m.core.version, c, [f], version) && c.in0 == [f] && c.in1 == []
    ensures EditOk(d, m, call.work, call.version, call.edit)
  {
    MoveBounds(d, m);
    MoveLogEdit(d, m, c, f, version);
  }

  lemma MovedWork(d: Disk, m: Memory, c: Inputs2, f: FileMeta, version: Levels)
    requires UpOk(d, m) && Only(m).Scheduled?
    requires L.TrivialMove(m.core.(job := None), c, f, m.core.(job := None, version := version))
    ensures WorkOk(m.core, Moving(c, f), version)
    ensures Installed(m.core.version, c, [f], version) && c.in0 == [f] && c.in1 == []
  {
    MovesAlone(d, m, c, f, version);
    MoveInstalls(m.core, c, f, version);
  }

  lemma NoJobYet(d: Disk, m: Memory)
    requires UpOk(d, m) && Only(m).Scheduled? && !m.bgError
    ensures m.core.job.None? && !m.doubtful && OutsOf(Only(m)) == []
  {
  }

  lemma MoveUp(d: Disk, m: Memory, call: Call, m': Memory)
    requires UpOk(d, m) && |m.calls| == 1 && Only(m).Scheduled? && !m.bgError && m' == Goes(m, 0, call)
    requires call.Logging? && call.work.Moving? && !call.landed
    requires WorkOk(m.core, call.work, call.version) && EditOk(d, m, call.work, call.version, call.edit)
    ensures UpOk(d, m')
  {
    NoJobYet(d, m);
    LoggingFiles(d, m, call, m');
  }

  lemma MoveLogIs(s: State, i: nat, c: Inputs2, f: FileMeta, version: Levels, s': State)
    requires MoveLog(s, i, c, f, version, s') && i == 0 && s.up.value.calls == [Only(s.up.value)]
    ensures var m := s.up.value;
      && s'.disk == s.disk && s'.up == Some(Goes(m, 0, MoveCall(m, c, f, version, LeftOut(m.core, version))))
      && L.TrivialMove(m.core.(job := None), c, f, m.core.(job := None, version := version))
      && Only(m).Scheduled? && !m.bgError
  {
  }

  lemma MoveLogFiles(s: State, i: nat, c: Inputs2, f: FileMeta, version: Levels, s': State)
    requires FileInv(s) && MoveLog(s, i, c, f, version, s')
    ensures FileInv(s')
  {
    TheCall(s, i);
    MoveLogIs(s, i, c, f, version, s');
    MovedWork(s.disk, s.up.value, c, f, version);
    MovedEdit(s.disk, s.up.value, c, f, version, Only(s'.up.value));
    MoveUp(s.disk, s.up.value, Only(s'.up.value), s'.up.value);
  }

  lemma ReaderFiles(s: State, v: Levels, s': State)
    requires FileInv(s) && (TakeVersion(s, s') || DropVersion(s, v, s'))
    ensures FileInv(s')
  {
    WriterFiles(s.disk, s.up.value, s'.disk, s'.up.value);
  }

  // ----- installing and failing

  lemma InstallTables(m: Memory, call: Call, m': Memory)
    requires |m.calls| == 1 && Only(m) == call && call.Logging? && Only(m') == NextCall(call.work)
    requires m'.core == Installs(m.core, call.work, call.version, m.nextFile) && m'.inUse == m.inUse
    requires Placed(call.version) == Placed(m.core.version) - call.edit.deleted + call.edit.added
    ensures VersionTables(m') <= VersionTables(m) + FilesOf(call.edit.added)
    ensures CallTables(Only(m')) <= CallTables(Only(m))
  {
    PlacedTables(call.version);
    PlacedTables(m.core.version);
    assert Tables(call.version) <= Tables(m.core.version) + FilesOf(call.edit.added);
  }

  lemma InstalledCall(d: Disk, m: Memory)
    requires |m.calls| == 1 && Only(m).Logging? && Only(m).landed && CallOk(d, m, Only(m))
    ensures CallOk(d, AfterInstall(m, 0), Only(AfterInstall(m, 0)))
  {
  }

  lemma InstalledOuts(m: Memory)
    requires |m.calls| == 1 && Only(m).Logging?
    ensures OutsOf(Only(AfterInstall(m, 0))) == OutsOf(Only(m)) || OutsOf(Only(AfterInstall(m, 0))) == []
    ensures Only(AfterInstall(m, 0)).Merging? || Only(AfterInstall(m, 0)).Ending?
    ensures Only(m).work.Compacting? ==> Only(AfterInstall(m, 0)).Ending?
  {
  }

  lemma InstalledFiles(d: Disk, m: Memory)
    requires UpOk(d, m) && |m.calls| == 1 && Only(m).Logging? && Only(m).landed
    ensures UpOk(d, AfterInstall(m, 0))
  {
    var m' := AfterInstall(m, 0);
    InstalledCall(d, m);
    InstalledOuts(m);
    InstallTables(m, Only(m), m');
    HeldStays(d, m, m', FilesOf(Only(m).edit.added));
  }

  lemma DeletedDisk(d: Disk, m: Memory, gone: Gone)
    requires DiskOk(d) && UpOk(d, m) && Deletable(m, gone) && !Only(m).Logging?
    ensures DiskOk(Deleted(d, gone))
  {
    if !m.bgError {
      PlacedTables(m.core.version);
      LiveTables(m, gone);
      BackedDeleted(d, gone, FilesOf(d.manifest.files), d.manifest.nextFile);
    }
  }

  /** Deleting what is obsolete keeps every file that somebody may still open. */
  lemma DeletedOk(d: Disk, m: Memory, gone: Gone)
    requires DiskOk(d) && UpOk(d, m) && Deletable(m, gone) && !Only(m).Logging?
    ensures DiskOk(Deleted(d, gone)) && UpOk(Deleted(d, gone), m)
  {
    DeletedDisk(d, m, gone);
    LiveTables(m, gone);
    PendingTables(m, gone, OutsOf(Only(m)));
    BackedDeleted(d, gone, Held(m), Limit(m));
  }

  lemma NothingDeleted(d: Disk)
    ensures Deleted(d, Gone({}, {}, {})) == d
  {
    assert d.tables - {} == d.tables && d.logs - {} == d.logs && d.synced - {} == d.synced;
  }

  lemma InstallFiles(s: State, i: nat, gone: Gone, s': State)
    requires FileInv(s) && InstallEdit(s, i, gone, s')
    ensures FileInv(s')
  {
    TheCall(s, i);
    var d, m := s.disk, s.up.value;
    var m' := AfterInstall(m, 0);
    assert UpOk(d, m') && !Only(m').Logging? by {
      InstalledFiles(d, m);
      InstalledOuts(m);
    }
    if Only(m).work.Moving? {
      NothingDeleted(d);
    } else {
      DeletedOk(d, m', gone);
    }
  }

  lemma FailedCall(d: Disk, m: Memory)
    requires |m.calls| == 1 && CallOk(d, m, Only(m))
    ensures CallOk(d, Failed(m, 0), Only(Failed(m, 0)))
  {
  }

  lemma FailedVersions(m: Memory)
    requires |m.calls| == 1
    ensures VersionTables(Failed(m, 0)) <= VersionTables(m)
  {
    var m' := Failed(m, 0);
    assert m'.core.version == m.core.version && m'.inUse == m.inUse;
    assert PickedTables(m'.core.job) <= PickedTables(m.core.job);
  }

  lemma FailedOuts(m: Memory)
    requires |m.calls| == 1
    ensures OutsOf(Only(Failed(m, 0))) == OutsOf(Only(m)) || OutsOf(Only(Failed(m, 0))) == []
    ensures !Only(Failed(m, 0)).Logging?
  {
  }

  lemma FailedCounters(d: Disk, m: Memory)
    requires |m.calls| == 1 && CountersOk(d, m) && CallOk(d, m, Only(m))
    requires AllBacked(d, Files(OutsOf(Only(m))), Limit(m))
    ensures CountersOk(d, Failed(m, 0)) && Limit(m) <= Limit(Failed(m, 0))
  {
    if Only(m).Building? {
      forall f | f in OutsOf(Only(m)) ensures f.number != Only(m).number {
        assert f in Files(OutsOf(Only(m)));
      }
    }
  }

  lemma FailedUp(d: Disk, m: Memory)
    requires UpOk(d, m) && |m.calls| == 1
    ensures UpOk(d, Failed(m, 0))
  {
    FailedCall(d, m);
    FailedVersions(m);
    FailedOuts(m);
    FailedCounters(d, m);
    HeldStays(d, m, Failed(m, 0), {});
  }

  /** No file depends on what was tried. */
  lemma FrayedFiles(d: Disk, m: Memory, frayed: bool)
    requires DiskOk(d) && UpOk(d, m)
    ensures DiskOk(d.(frayed := frayed)) && UpOk(d.(frayed := frayed), m)
  {
  }

  lemma FailsFiles(s: State, i: nat, s': State)
    requires FileInv(s) && Fails(s, i, s')
    ensures FileInv(s')
  {
    TheCall(s, i);
    FailedUp(s.disk, s.up.value);
    FrayedFiles(s.disk, s'.up.value, s'.disk.frayed);
  }

  // ----- crash and recovery

  lemma CrashFiles(s: State, logs: Logs, spoils: bool, s': State)
    requires FileInv(s) && Crash(s, logs, spoils, s')
    ensures FileInv(s')
  {
  }

  lemma StrayFiles(s: State, n: nat, es: seq<Entry>, s': State)
    requires FileInv(s) && (StrayTable(s, n, es, s') || StrayLog(s, n, s') || StrayDescriptor(s, s'))
    ensures FileInv(s')
  {
    DiskGrown(s.disk, if StrayTable(s, n, es, s') then n else s.disk.manifest.nextFile, es);
  }

  lemma FreshFiles(d: Disk, r: Fresh)
    requires DiskOk(d) && (forall f :: f in r.fresh' ==> Backed(d, f))
    requires FreshNumbers(d, r) && Recovered(d.manifest, r.fresh', r.version)
    ensures AllBacked(FreshDisk(d, r), Tables(r.version), r.nextFile)
  {
    RecoveredTables(d.manifest, r.fresh', r.version);
  }

  lemma FreshUp(d: Disk, r: Fresh)
    requires DiskOk(d) && (forall f :: f in r.fresh' ==> Backed(d, f))
    requires FreshNumbers(d, r) && Recovered(d.manifest, r.fresh', r.version)
    ensures DiskOk(FreshDisk(d, r)) && UpOk(FreshDisk(d, r), FreshMemory(d, r))
  {
    FreshFiles(d, r);
    PlacedTables(r.version);
    assert Held(FreshMemory(d, r)) == Tables(r.version);
  }

  lemma RecoverFiles(s: State, r: Fresh, s': State)
    requires FileInv(s) && Recover(s, r, s')
    ensures FileInv(s')
  {
    FreshUp(s.disk, r);
    DeletedOk(FreshDisk(s.disk, r), FreshMemory(s.disk, r), r.gone);
  }

  lemma WriterStepFiles(s: State, step: WriterStep, s': State)
    requires FileInv(s) && WriterNext(s, step, s')
    ensures FileInv(s')
  {
    match step
    case AdmitStep => AdmitFiles(s, s');
    case SwitchStep => SwitchFiles(s, s');
    case WriteStep(batch, sync) => WriteFiles(s, batch, sync, s');
    case WriteFailsStep(batch, appended) => WriteFailsFiles(s, batch, appended, s');
  }

  lemma CallStepFiles(s: State, i: nat, step: CallStep, s': State)
    requires FileInv(s) && CallNext(s, i, step, s')
    ensures FileInv(s')
  {
    match step
    case IdleStep => ScheduleFiles(s, i, s');
    case EndStep => ScheduleFiles(s, i, s');
    case FlushBeginStep => FlushBeginFiles(s, i, s');
    case FlushBuiltStep(level, f, version) => FlushBuiltFiles(s, i, level, f, version, s');
    case CompactBeginStep(seed, j) => CompactBeginFiles(s, i, seed, j, s');
    case CompactOutputStep(f) => CompactOutputFiles(s, i, f, s');
    case CompactLogStep(outputs, version) => CompactLogFiles(s, i, outputs, version, s');
    case MoveLogStep(c, f, version) => MoveLogFiles(s, i, c, f, version, s');
    case LandsStep(read) => LandsFiles(s, i, read, s');
    case InstallStep(gone) => InstallFiles(s, i, gone, s');
    case FailsStep => FailsFiles(s, i, s');
  }

  lemma ReaderStepFiles(s: State, step: ReaderStep, s': State)
    requires FileInv(s) && ReaderNext(s, step, s')
    ensures FileInv(s')
  {
    match step
    case TakeStep => ReaderFiles(s, [], s');
    case DropStep(v) => ReaderFiles(s, v, s');
    case SnapshotStep => SnapshotFiles(s, 0, s');
    case ReleaseStep(k) => SnapshotFiles(s, k, s');
  }

  lemma RestartStepFiles(s: State, step: RestartStep, s': State)
    requires FileInv(s) && RestartNext(s, step, s')
    ensures FileInv(s')
  {
    match step
    case CrashStep(kept, spoils) => CrashFiles(s, kept, spoils, s');
    case StrayTableStep(n, es) => StrayFiles(s, n, es, s');
    case StrayLogStep(n) => StrayFiles(s, n, [], s');
    case StrayDescriptorStep => StrayFiles(s, 0, [], s');
    case RecoverStep(r) => RecoverFiles(s, r, s');
  }

  lemma NextFiles(s: State, step: Step, s': State)
    requires FileInv(s) && Next(s, step, s')
    ensures FileInv(s')
  {
    match step
    case Writing(w) => WriterStepFiles(s, w, s');
    case Scheduling => ScheduleFiles(s, 0, s');
    case Calling(i, c) => CallStepFiles(s, i, c, s');
    case Reading(r) => ReaderStepFiles(s, r, s');
    case Restarting(x) => RestartStepFiles(s, x, s');
  }

  // ----- runs

  ghost predicate IsExecution(run: seq<State>, steps: seq<Step>) {
    && |run| == |steps| + 1 && Init(run[0])
    && forall i :: 0 <= i < |steps| ==> Next(run[i], steps[i], run[i + 1])
  }

  lemma RunFiles(run: seq<State>, steps: seq<Step>, k: nat)
    requires IsExecution(run, steps) && k < |run|
    ensures FileInv(run[k])
  {
    if k == 0 {
      InitFiles(run[0]);
    } else {
      RunFiles(run, steps, k - 1);
      NextFiles(run[k - 1], steps[k - 1], run[k]);
    }
  }

  /** At most one background call is active, although a call is scheduled whenever the
      flag is clear and only Schedule looks at it. */
  lemma AtMostOneCall(run: seq<State>, steps: seq<Step>, k: nat, i: nat)
    requires IsExecution(run, steps) && k < |run| && Running(run[k], i)
    ensures run[k].up.value.calls == [run[k].up.value.calls[i]] && run[k].up.value.scheduled
    ensures InCompaction(run[k].up.value.calls[i]) <==> run[k].up.value.core.job.Some?
  {
    RunFiles(run, steps, k);
    TheCall(run[k], i);
  }

  /** So while one call builds, logs or merges, no call deletes files: the one that
      installs its edit, and deletes, is the only one. */
  lemma NoDeletionBeside(run: seq<State>, steps: seq<Step>, k: nat, i: nat, gone: Gone, j: nat)
    requires IsExecution(run, steps) && k < |steps| && steps[k] == Calling(i, InstallStep(gone)) && Running(run[k], j)
    ensures j == i && run[k].up.value.calls[j].Logging? && !Only(run[k + 1].up.value).Logging?
  {
    assert Next(run[k], steps[k], run[k + 1]);
    AtMostOneCall(run, steps, k, i);
    InstalledOuts(run[k].up.value);
  }

  /** The files somebody may still open: those of the manifest on disk, of the current and
      of every referenced version, and the tables being written and logged. */
  ghost predicate Needed(s: State, f: FileMeta) {
    || f in FilesOf(s.disk.manifest.files)
    || (s.up.Some? && (f in VersionTables(s.up.value)
                       || exists i :: 0 <= i < |s.up.value.calls| && f in CallTables(s.up.value.calls[i])))
  }

  /** Whatever the order of writes, flushes, compactions, failures, deletions, crashes and
      recoveries, no table that is needed has been deleted or overwritten, and CURRENT
      names a manifest file that exists. */
  lemma NoNeededFileDeleted(run: seq<State>, steps: seq<Step>, k: nat, f: FileMeta)
    requires IsExecution(run, steps) && k < |run|
    ensures Needed(run[k], f) ==> Backed(run[k].disk, f)
    ensures run[k].disk.current in run[k].disk.descriptors
  {
    RunFiles(run, steps, k);
    if run[k].up.Some? && exists i :: 0 <= i < |run[k].up.value.calls| && f in CallTables(run[k].up.value.calls[i]) {
      var i :| 0 <= i < |run[k].up.value.calls| && f in CallTables(run[k].up.value.calls[i]);
      TheCall(run[k], i);
    }
  }

  lemma InstallLogsStay(s: State, i: nat, gone: Gone, s': State, n: nat)
    requires FileInv(s) && InstallEdit(s, i, gone, s')
    requires n in s.disk.logs && s'.disk.manifest.logNumber <= n
    ensures n in s'.disk.logs
  {
    TheCall(s, i);
    if !s.up.value.bgError {
      assert s.disk.manifest.logNumber == Only(s.up.value).edit.logNumber;
    }
  }

  lemma CallLogsStay(s: State, i: nat, step: CallStep, s': State, n: nat)
    requires CallNext(s, i, step, s') && !step.InstallStep? && n in s.disk.logs
    ensures n in s'.disk.logs
  {
  }

  lemma RecoverLogsStay(s: State, r: Fresh, s': State, n: nat)
    requires Recover(s, r, s') && n in s.disk.logs && s'.disk.manifest.logNumber <= n
    ensures n in s'.disk.logs
  {
  }

  lemma WriterLogsStay(s: State, step: WriterStep, s': State, n: nat)
    requires WriterNext(s, step, s') && n in s.disk.logs
    ensures n in s'.disk.logs
  {
  }

  lemma OtherLogsStay(s: State, step: Step, s': State, n: nat)
    requires Next(s, step, s') && !step.Calling? && !(step.Restarting? && step.x.RecoverStep?) && n in s.disk.logs
    ensures n in s'.disk.logs
  {
    match step
    case Writing(w) => WriterLogsStay(s, w, s', n);
    case _ =>
  }

  lemma LogsStay(s: State, step: Step, s': State, n: nat)
    requires FileInv(s) && Next(s, step, s')
    requires n in s.disk.logs && s'.disk.manifest.logNumber <= n
    ensures n in s'.disk.logs
  {
    if step.Restarting? && step.x.RecoverStep? {
      RecoverLogsStay(s, step.x.recovery, s', n);
    } else if !step.Calling? {
      OtherLogsStay(s, step, s', n);
    } else if step.c.InstallStep? {
      InstallLogsStay(s, step.i, step.c.gone, s', n);
    } else {
      CallLogsStay(s, step.i, step.c, s', n);
    }
  }

  /** No log that recovery would replay is deleted either. */
  lemma NoNeededLogDeleted(run: seq<State>, steps: seq<Step>, k: nat, n: nat)
    requires IsExecution(run, steps) && k < |steps|
    requires n in run[k].disk.logs && run[k + 1].disk.manifest.logNumber <= n
    ensures n in run[k + 1].disk.logs
  {
    RunFiles(run, steps, k);
    LogsStay(run[k], steps[k], run[k + 1], n);
  }
}
