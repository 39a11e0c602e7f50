/** What the disk and a running process hold of all that was written: the invariant that every
    step keeps. */
module ReadInvariants {
  import opened Options
  import opened Keys
  import opened Version
  import opened Install
  import opened Disks
  import opened Durability
  import L = Lsm

  /** The hypotheses the code does not establish, for the moment a record lands in the
      manifest: that no tombstone uncovers an older entry, and that the record fits the
      manifest file, which need not be the one memory knows. */
  ghost predicate Clean(s: State, step: Step) {
    step.Calling? && step.c.LandsStep? && Running(s, step.i) && s.up.value.calls[step.i].Logging? ==>
      && (s.up.value.calls[step.i].work.Compacting? && s.up.value.core.job.Some? ==> NoneLost(s.up.value.core))
      && (step.c.read ==> Fitting(s.disk, s.up.value.calls[step.i]))
  }

  /** The running compaction loses nothing. */
  ghost predicate NoneLost(core: L.State)
    requires core.job.Some?
  {
    core.job.value.c.level + 1 < |core.version| ==> L.NothingLost(core.version, core.job.value)
  }

  /** A flushed table overlaps none that the manifest has at the same level below the first, and
      if the log number goes back, no record of the logs that come back hides a newer entry. */
  ghost predicate Fitting(d: Disk, call: Call)
    requires call.Logging?
  {
    && (call.work.Flushing? && call.work.level > 0 ==> NoneOverlaps(d.manifest.files, call.edit.added))
    && (call.edit.logNumber < d.manifest.logNumber ==>
          NothingHidden(d.logs, d.synced, call.edit.logNumber, Known(d.manifest)))
  }

  ghost predicate NoneOverlaps(files: set<Place>, added: set<Place>) {
    forall p, q :: p in files && q in added && p.level == q.level ==>
      !Overlaps(p.file, Some(q.file.smallest.user), Some(q.file.largest.user))
  }

  // ----- the invariant about reads

  ghost predicate LogsRead(logs: Logs, synced: map<nat, nat>, low: nat, known: set<Entry>) {
    && Numbered(logs, low) && KeyUnique(known + Logged(logs, low)) && NothingHidden(logs, synced, low, known)
  }

  ghost predicate DiskReads(d: Disk) {
    && (exists v :: Describes(d.manifest, v))
    && LogsRead(d.logs, d.synced, d.manifest.logNumber, Known(d.manifest))
  }

  /** Everything a recovery would find if nothing were lost. */
  ghost function OnDisk(d: Disk): set<Entry> {
    Known(d.manifest) + Logged(d.logs, d.manifest.logNumber)
  }

  /** Everything it finds for certain. */
  ghost function Certain(d: Disk): set<Entry> {
    Known(d.manifest) + Synced(d.logs, d.synced, d.manifest.logNumber)
  }

  /** Nothing acknowledged is missing from disk and nothing on disk was made up. */
  ghost predicate Accounts(d: Disk, sure: set<Entry>, written: set<Entry>) {
    sure <= Certain(d) && OnDisk(d) <= written
  }

  ghost predicate FlushLanded(call: Call) {
    call.Logging? && call.work.Flushing? && call.landed
  }

  ghost predicate ImmLanded(m: Memory) {
    m.doubtful || FlushLanded(Only(m))
  }

  /** The immutable memtable is in the logs that recovery replays, or in the manifest. */
  ghost predicate ImmLogged(d: Disk, m: Memory) {
    var imm := L.ImmEntries(m.core);
    if ImmLanded(m) then imm <= OnDisk(d)
    else imm <= Logged(d.logs, d.manifest.logNumber) && L.Later(imm, Known(d.manifest))
  }

  /** The memtable is in the current log, which holds nothing that is older than the rest. */
  ghost predicate MemLogged(d: Disk, m: Memory) {
    && m.core.mem <= LogEntries(LogOf(d.logs, m.logFile))
    && NumberedAfter(d.logs, m.logFile, Known(d.manifest) + L.ImmEntries(m.core))
  }

  /** The logs from `base` on are in order, and all that is in them was written. */
  ghost predicate BaseLogged(logs: Logs, base: nat, known: set<Entry>, last: nat, written: set<Entry>) {
    && Numbered(logs, base) && NumbersUpTo(logs, base, last)
    && KeyUnique(known + Logged(logs, base)) && Logged(logs, base) <= written
  }

  /** What the call is about to log holds nothing newer than the edit says. */
  ghost predicate CallReads(core: L.State, call: Call) {
    call.Logging? ==>
      && (call.work.Flushing? ==> forall e :: e in L.ImmEntries(core) ==> e.key.sn <= call.edit.lastSequence)
      && (call.work.Compacting? ==>
            core.job.Some? && core.job.value.snapshot <= call.edit.lastSequence && (call.landed ==> NoneLost(core)))
  }

  ghost predicate LandingReads(mf: Manifest, core: L.State, call: Call) {
    call.Logging? ==>
      && mf.lastSequence <= call.edit.lastSequence
      && (FlushLanded(call) ==> L.ImmEntries(core) <= Known(mf) && call.edit.added <= mf.files)
  }

  /** A nested flush landed although it failed, and its compaction goes on. */
  ghost predicate Astray(m: Memory) {
    && m.doubtful && m.core.job.Some?
    && !(Only(m).Logging? && Only(m).work.Compacting? && Only(m).landed)
  }

  /** Where inputs share a user key with the files left beside them in `w`, these are files
      left beside them in `v`. */
  ghost predicate SideSame(w: Levels, v: Levels, j: L.Job) {
    && j.c.level + 1 < |w| && j.c.level + 1 < |v|
    && forall x, e :: x in SurroundingsOf(w, j.c).side && e in j.merged && x.key.user == e.key.user ==>
         x in SurroundingsOf(v, j.c).side
  }

  /** Apart from the tables of `v`, the manifest has only tables of the whole of `imm`. */
  ghost predicate CopiesOnly(files: set<Place>, v: Levels, imm: set<Entry>) {
    forall p :: p in files ==> p in Placed(v) || Ent(p.file) == imm
  }

  /** The manifest's own version `w`: that of the engine, and copies of the flushed table that
      the engine does not know. The running compaction may be installed on it as well. */
  ghost predicate Shadow(mf: Manifest, core: L.State, w: Levels)
    requires core.job.Some?
  {
    var j := core.job.value;
    && VersionOk(w) && Layered(w, mf.lastSequence) && Placed(w) == mf.files && Placed(core.version) <= mf.files
    && JobReady(w, j.picked, j.c, j.merged, j.snapshot) && SideSame(w, core.version, j)
    && (core.imm.Some? ==>
          L.ImmEntries(core) <= VersionEntries(w) && CopiesOnly(mf.files, core.version, core.imm.value))
  }

  /** How memory relates to a disk whose manifest is read to its end. */
  ghost predicate Attached(d: Disk, m: Memory, sure: set<Entry>, written: set<Entry>) {
    && m.core.history == Known(d.manifest) + L.ImmEntries(m.core) + m.core.mem
    && BaseLogged(d.logs, m.logNumber, Known(d.manifest), m.core.lastSequence, written)
    && ImmLogged(d, m) && MemLogged(d, m) && LandingReads(d.manifest, m.core, Only(m))
    && sure * m.core.mem <= Synced(d.logs, d.synced, m.logFile)
    && (Astray(m) ==> exists w :: Shadow(d.manifest, m.core, w))
  }

  /** How memory relates to any disk: all that the process answers for is there. */
  ghost predicate Linked(d: Disk, m: Memory, sure: set<Entry>) {
    && m.core.history <= OnDisk(d) && sure <= m.core.history
    && d.manifest.lastSequence <= m.core.lastSequence && NumbersUpTo(d.logs, d.manifest.logNumber, m.core.lastSequence)
    && CallReads(m.core, Only(m))
  }

  ghost predicate UpReads(d: Disk, m: Memory, sure: set<Entry>, written: set<Entry>) {
    L.Inv(m.core) && Linked(d, m, sure) && (m.tail != CutOff ==> Attached(d, m, sure, written))
  }

  ghost predicate ReadInv(s: State) {
    && DiskReads(s.disk) && Accounts(s.disk, s.sure, s.written) && s.sure <= s.acked
    && (s.up.Some? ==> UpReads(s.disk, s.up.value, s.sure, s.written))
  }

  ghost predicate Inv(s: State) {
    FileInv(s) && ReadInv(s)
  }
}
