/** Whole runs of the engine: writes, memtable switches, flushes, compactions,
    file moves and snapshots, in any order the single background worker allows. */
module Lsm {
  import opened Options
  import opened Keys
  import opened Version
  import opened Inputs
  import opened Selection
  import opened Compaction
  import opened Install
  import opened Flush

  /** A running compaction: its inputs, the version they were picked on, their
      merged entries and the oldest snapshot when it started. */
  datatype Job = Job(c: Inputs2, picked: Levels, merged: seq<Entry>, snapshot: nat)

  /** `history` is every entry ever written; the rest is the engine's state. */
  datatype State = State(
    history: set<Entry>, mem: set<Entry>, imm: Option<set<Entry>>, version: Levels,
    lastSequence: nat, snapshots: seq<nat>, job: Option<Job>, nextFileNumber: nat)

  datatype Op = Put(key: UserKey, value: string) | Delete(key: UserKey)

  ghost function ImmEntries(s: State): set<Entry> {
    if s.imm.Some? then s.imm.value else {}
  }

  ghost function Stored(s: State): set<Entry> {
    s.mem + ImmEntries(s) + VersionEntries(s.version)
  }

  /** The oldest sequence number a reader may still ask for. */
  function Floor(s: State): nat {
    if s.snapshots == [] then s.lastSequence else s.snapshots[0]
  }

  // ----- steps

  function EntryOf(op: Op, sn: nat): Entry {
    match op
    case Put(k, value) => Entry(InternalKey(k, sn, KIND_VALUE), value)
    case Delete(k) => Entry(InternalKey(k, sn, KIND_DELETION), "")
  }

  /** MemTableInserter: the batch's operations get consecutive sequence numbers. */
  ghost function BatchEntries(batch: seq<Op>, first: nat): set<Entry> {
    set i | 0 <= i < |batch| :: EntryOf(batch[i], first + i)
  }

  ghost predicate Write(s: State, batch: seq<Op>, s': State) {
    var added := BatchEntries(batch, s.lastSequence + 1);
    && s.lastSequence + |batch| < MAX_SEQUENCE
    && s' == s.(history := s.history + added, mem := s.mem + added, lastSequence := s.lastSequence + |batch|)
  }

  /** A write that fails after its numbers were taken uses them up. */
  ghost predicate FailedWrite(s: State, count: nat, s': State) {
    s.lastSequence + count < MAX_SEQUENCE && s' == s.(lastSequence := s.lastSequence + count)
  }

  ghost predicate SwitchMemTable(s: State, s': State) {
    && s.imm.None?
    && s' == s.(imm := Some(s.mem), mem := {})
  }

  /** CompactMemTable: an empty memtable yields no file. */
  ghost predicate FlushStep(s: State, level: nat, f: FileMeta, s': State) {
    && s.imm.Some?
    && s.nextFileNumber <= s'.nextFileNumber
    && if s.imm.value == {} then s' == s.(imm := None, nextFileNumber := s'.nextFileNumber)
       else
         && FileOk(f) && Ent(f) == s.imm.value && s.nextFileNumber <= f.number
         && (level > 0 ==> ClearThrough(s.version, level, f.smallest.user, f.largest.user))
         && Added(s.version, level, f, s'.version)
         && s' == s.(imm := None, version := s'.version, nextFileNumber := s'.nextFileNumber)
         && f.number < s'.nextFileNumber
  }

  /** BackgroundCompaction with imm_ empty: PickCompaction around some file. */
  ghost predicate StartCompaction(s: State, seed: FileMeta, j: Job, s': State) {
    && s.imm.None? && s.job.None?
    && j.c.level + 1 < |s.version| && seed in s.version[j.c.level]
    && Selected(s.version, j.c.level, [seed], j.c.in0, j.c.in1)
    && Covered(Files(j.c.in0) + Files(j.c.in1))
    && j.picked == s.version && j.snapshot == Floor(s)
    && SortedKeys(j.merged) && SetOf(j.merged) == InputEntries(j.c)
    && s' == s.(job := Some(j))
  }

  ghost predicate FinishCompaction(s: State, outputs: seq<Output>, outs: seq<FileMeta>, s': State) {
    && s.job.Some?
    && var j := s.job.value;
    && Flatten(outputs) == Kept(j.merged, |j.merged|, j.snapshot, j.picked, j.c.level)
    && Materialized(outs, outputs)
    && Installed(s.version, j.c, outs, s'.version)
    && s.nextFileNumber <= s'.nextFileNumber
    && s' == s.(job := None, version := s'.version, nextFileNumber := s'.nextFileNumber)
  }

  /** A compaction that failed leaves nothing behind but unused files. */
  ghost predicate AbandonCompaction(s: State, s': State) {
    s' == s.(job := None)
  }

  /** IsTrivialMove: a single input file with nothing to merge changes level. The lock is
      released while the move is logged, so imm_ may have been filled meanwhile. */
  ghost predicate TrivialMove(s: State, c: Inputs2, f: FileMeta, s': State) {
    && s.job.None?
    && c.level + 1 < |s.version| && c.in0 == [f] && c.in1 == []
    && Selected(s.version, c.level, [f], c.in0, c.in1)
    && Installed(s.version, c, [f], s'.version)
    && s' == s.(version := s'.version)
  }

  ghost predicate GetSnapshot(s: State, s': State) {
    s' == s.(snapshots := s.snapshots + [s.lastSequence])
  }

  ghost predicate ReleaseSnapshot(s: State, i: nat, s': State) {
    i < |s.snapshots| && s' == s.(snapshots := s.snapshots[..i] + s.snapshots[i + 1..])
  }

  datatype Step =
    | WriteStep(batch: seq<Op>)
    | FailedWriteStep(count: nat)
    | SwitchStep
    | FlushedStep(level: nat, f: FileMeta)
    | StartStep(seed: FileMeta, j: Job)
    | FinishStep(outputs: seq<Output>, outs: seq<FileMeta>)
    | AbandonStep
    | MoveStep(c: Inputs2, f: FileMeta)
    | SnapshotStep
    | ReleaseStep(i: nat)

  ghost predicate Next(s: State, step: Step, s': State) {
    match step
    case WriteStep(batch) => Write(s, batch, s')
    case FailedWriteStep(count) => FailedWrite(s, count, s')
    case SwitchStep => SwitchMemTable(s, s')
    case FlushedStep(level, f) => FlushStep(s, level, f, s')
    case StartStep(seed, j) => StartCompaction(s, seed, j, s')
    case FinishStep(outputs, outs) => FinishCompaction(s, outputs, outs, s')
    case AbandonStep => AbandonCompaction(s, s')
    case MoveStep(c, f) => TrivialMove(s, c, f, s')
    case SnapshotStep => GetSnapshot(s, s')
    case ReleaseStep(i) => ReleaseSnapshot(s, i, s')
  }

  ghost predicate Init(s: State) {
    && s.history == {} && s.mem == {} && s.imm.None? && s.job.None? && s.snapshots == []
    && s.version == [[], [], [], [], [], [], []]
    && s.lastSequence < MAX_SEQUENCE
  }

  /** No tombstone that the merge loop drops uncovers an older entry in a file that was
      left at the output level. */
  ghost predicate NothingLost(v: Levels, j: Job)
    requires j.c.level + 1 < |v|
  {
    forall k :: !TombstoneLost(SurroundingsOf(v, j.c), j.merged, j.snapshot, j.picked, j.c.level, k)
  }

  /** The hypothesis the code does not establish, for the moment a compaction is
      installed. It is exactly what its readers need. */
  ghost predicate Clean(s: State, step: Step) {
    step.FinishStep? && s.job.Some? && s.job.value.c.level + 1 < |s.version| ==> NothingLost(s.version, s.job.value)
  }

  // ----- the invariant

  /** Entries of `es` were written after entries of `fs`. */
  ghost predicate Later(es: set<Entry>, fs: set<Entry>) {
    forall a, b :: a in es && b in fs ==> a.key.sn > b.key.sn
  }

  ghost predicate WellWritten(es: set<Entry>, last: nat) {
    && KeyUnique(es) && AllParse(es)
    && forall e :: e in es ==> e.key.sn <= last
  }

  ghost predicate SnapshotsOk(snapshots: seq<nat>, last: nat) {
    && (forall i :: 0 <= i < |snapshots| ==> snapshots[i] <= last)
    && forall i, j :: 0 <= i < j < |snapshots| ==> snapshots[i] <= snapshots[j]
  }

  ghost predicate JobOk(v: Levels, j: Job, floor: nat) {
    && JobReady(v, j.picked, j.c, j.merged, j.snapshot)
    && Covered(Files(j.c.in0) + Files(j.c.in1))
    && j.snapshot <= floor
  }

  /** Reading the stored entries is reading the whole history. */
  ghost predicate Faithful(es: set<Entry>, history: set<Entry>, floor: nat) {
    forall k, t :: floor <= t ==> Visible(es, k, t) == Visible(history, k, t)
  }

  ghost predicate Inv(s: State) {
    && VersionOk(s.version) && Layered(s.version, Floor(s)) && s.lastSequence < MAX_SEQUENCE
    && WellWritten(s.history, s.lastSequence) && Stored(s) <= s.history
    && Later(s.mem, ImmEntries(s) + VersionEntries(s.version))
    && Later(ImmEntries(s), VersionEntries(s.version))
    && (forall f :: f in s.version[0] ==> f.number < s.nextFileNumber)
    && SnapshotsOk(s.snapshots, s.lastSequence)
    && (s.job.Some? ==> JobOk(s.version, s.job.value, Floor(s)))
    && Faithful(Stored(s), s.history, Floor(s))
  }

  lemma LaterNewer(es: set<Entry>, fs: set<Entry>)
    requires Later(es, fs) && AllParse(es) && AllParse(fs)
    ensures NewerThan(es, fs)
  {
  }

  lemma InitInv(s: State)
    requires Init(s)
    ensures Inv(s)
  {
    var v := s.version;
    forall l | 0 <= l < 7 ensures v[l] == [] && LevelEntries(v[l]) == {} {
    }
    forall l | 0 <= l < 7 ensures LevelOk(v, l) && LayerOk(v, l, Floor(s)) {
    }
    AllLevelsOk(v, 7);
    AllLayersOk(v, 7, Floor(s));
    assert VersionEntries(v) == {};
    assert Stored(s) == {} == s.history;
  }

  // ----- reads split into layers

  /** Replacing the bottom layer by one that reads the same changes no read. */
  lemma BottomReplaced(top: set<Entry>, old': set<Entry>, new': set<Entry>, k: UserKey, t: nat)
    requires KeyUnique(top + old') && KeyUnique(top + new')
    requires NewerThan(top, old') && NewerThan(top, new')
    requires Visible(old', k, t) == Visible(new', k, t)
    ensures Visible(top + old', k, t) == Visible(top + new', k, t)
  {
    VisibleLayers(top, old', k, t);
    VisibleLayers(top, new', k, t);
  }

  lemma FloorRises(s: State, s': State)
    requires SnapshotsOk(s.snapshots, s.lastSequence) && s.lastSequence <= s'.lastSequence
    requires s'.snapshots == s.snapshots
    ensures Floor(s) <= Floor(s') && SnapshotsOk(s'.snapshots, s'.lastSequence)
  {
  }

  lemma BatchFresh(s: State, batch: seq<Op>)
    requires Inv(s) && s.lastSequence + |batch| < MAX_SEQUENCE
    ensures var added := BatchEntries(batch, s.lastSequence + 1);
      WellWritten(s.history + added, s.lastSequence + |batch|) && Later(added, s.history)
  {
    var added := BatchEntries(batch, s.lastSequence + 1);
    forall e | e in added ensures s.lastSequence < e.key.sn <= s.lastSequence + |batch| && Parses(e.key) {
      var i :| 0 <= i < |batch| && e == EntryOf(batch[i], s.lastSequence + 1 + i);
    }
    BatchUnique(batch, s.lastSequence + 1);
  }

  lemma BatchUnique(batch: seq<Op>, first: nat)
    ensures KeyUnique(BatchEntries(batch, first))
  {
    var added := BatchEntries(batch, first);
    forall a, b | a in added && b in added && a.key == b.key ensures a == b {
      var i :| 0 <= i < |batch| && a == EntryOf(batch[i], first + i);
      var j :| 0 <= j < |batch| && b == EntryOf(batch[j], first + j);
    }
  }

  lemma SameTop(added: set<Entry>, es: set<Entry>, fs: set<Entry>, k: UserKey, t: nat)
    requires KeyUnique(fs + added) && es <= fs && AllParse(fs + added) && Later(added, fs)
    requires Visible(es, k, t) == Visible(fs, k, t)
    ensures Visible(es + added, k, t) == Visible(fs + added, k, t)
  {
    LaterNewer(added, fs);
    assert es + added == added + es && fs + added == added + fs;
    assert KeyUnique(added + es);
    BottomReplaced(added, es, fs, k, t);
  }

  lemma WriteKeepsInv(s: State, batch: seq<Op>, s': State)
    requires Inv(s) && Write(s, batch, s')
    ensures Inv(s')
  {
    var added := BatchEntries(batch, s.lastSequence + 1);
    BatchFresh(s, batch);
    FloorRises(s, s');
    LayeredLater(s.version, Floor(s), Floor(s'));
    assert Stored(s') == Stored(s) + added;
    forall k, t | Floor(s') <= t ensures Visible(Stored(s'), k, t) == Visible(s'.history, k, t) {
      SameTop(added, Stored(s), s.history, k, t);
    }
  }

  lemma FailedWriteKeepsInv(s: State, count: nat, s': State)
    requires Inv(s) && FailedWrite(s, count, s')
    ensures Inv(s')
  {
    FloorRises(s, s');
    LayeredLater(s.version, Floor(s), Floor(s'));
    assert Stored(s') == Stored(s);
  }

  lemma SwitchKeepsInv(s: State, s': State)
    requires Inv(s) && SwitchMemTable(s, s')
    ensures Inv(s')
  {
    assert Stored(s') == Stored(s);
  }

  // ----- flush

  lemma FlushFitsVersion(s: State, level: nat, f: FileMeta, s': State)
    requires Inv(s) && FlushStep(s, level, f, s') && s.imm.value != {}
    ensures FlushFits(s.version, level, f) && AllParse(Ent(f)) && Later(Ent(f), VersionEntries(s.version))
    ensures KeyUnique(VersionEntries(s.version) + Ent(f))
  {
    assert ImmEntries(s) <= Stored(s) && VersionEntries(s.version) <= Stored(s);
    assert AllParse(ImmEntries(s)) && AllParse(VersionEntries(s.version));
    LaterNewer(ImmEntries(s), VersionEntries(s.version));
  }

  lemma AddedNumbers(s: State, level: nat, f: FileMeta, s': State)
    requires 0 < |s.version| && forall g :: g in s.version[0] ==> g.number < s.nextFileNumber
    requires Added(s.version, level, f, s'.version)
    requires s.nextFileNumber <= f.number < s'.nextFileNumber
    ensures forall g :: g in s'.version[0] ==> g.number < s'.nextFileNumber
  {
    forall g | g in s'.version[0] ensures g.number < s'.nextFileNumber {
      assert g in Files(s'.version[0]);
      assert level == 0 ==> g in Files(s.version[0]) + {f};
      assert level != 0 ==> g in s.version[0];
    }
  }

  /** Moving the entries of imm_ into the version leaves the stored entries alone. */
  lemma LandedKeepsInv(s: State, s': State)
    requires Inv(s) && s.imm.Some?
    requires s' == s.(imm := None, version := s'.version, nextFileNumber := s'.nextFileNumber)
    requires VersionOk(s'.version) && VersionEntries(s'.version) == VersionEntries(s.version) + s.imm.value
    requires Layered(s'.version, Floor(s)) && forall g :: g in s'.version[0] ==> g.number < s'.nextFileNumber
    requires s.job.Some? ==> JobOk(s'.version, s.job.value, Floor(s))
    ensures Inv(s')
  {
    assert Stored(s') == Stored(s) && Floor(s') == Floor(s);
  }

  lemma FlushKeepsInv(s: State, level: nat, f: FileMeta, s': State)
    requires Inv(s) && FlushStep(s, level, f, s')
    ensures Inv(s')
  {
    if s.imm.value == {} {
      LandedKeepsInv(s, s');
    } else {
      FlushFitsVersion(s, level, f, s');
      FlushOk(s.version, Floor(s), level, f, s'.version);
      AddedNumbers(s, level, f, s');
      if s.job.Some? {
        var j := s.job.value;
        FlushKeepsJob(s.version, level, f, s'.version, j.picked, j.c, j.merged, j.snapshot);
      }
      LandedKeepsInv(s, s');
    }
  }

  // ----- compactions

  lemma JobKeepsInv(s: State, j: Job, s': State)
    requires Inv(s) && s' == s.(job := Some(j)) && JobOk(s.version, j, Floor(s))
    ensures Inv(s')
  {
    assert Stored(s') == Stored(s) && Floor(s') == Floor(s);
  }

  lemma StartKeepsInv(s: State, seed: FileMeta, j: Job, s': State)
    requires Inv(s) && StartCompaction(s, seed, j, s')
    ensures Inv(s')
  {
    assert VersionEntries(s.version) <= Stored(s);
    SelectedReady(s.version, Floor(s), [seed], j.c, j.merged);
    JobKeepsInv(s, j, s');
  }

  lemma InstalledNumbers(v: Levels, c: Inputs2, outs: seq<FileMeta>, v': Levels, n: nat)
    requires 0 < |v| && Installed(v, c, outs, v') && forall g :: g in v[0] ==> g.number < n
    ensures forall g :: g in v'[0] ==> g.number < n
  {
    forall g | g in v'[0] ensures g.number < n {
      assert g in Files(v'[0]);
      assert c.level == 0 ==> g in RemainingFiles(v[0], c.in0);
    }
  }

  /** Installing a version that reads the same, from a subset of the entries. */
  lemma NewVersionKeepsInv(s: State, s': State)
    requires Inv(s) && s' == s.(job := None, version := s'.version, nextFileNumber := s'.nextFileNumber)
    requires VersionOk(s'.version) && Layered(s'.version, Floor(s))
    requires VersionEntries(s'.version) <= VersionEntries(s.version)
    requires forall g :: g in s'.version[0] ==> g.number < s'.nextFileNumber
    requires forall k, t :: Floor(s) <= t ==>
      Visible(VersionEntries(s'.version), k, t) == Visible(VersionEntries(s.version), k, t)
    ensures Inv(s')
  {
    var top := s.mem + ImmEntries(s);
    var old', new' := VersionEntries(s.version), VersionEntries(s'.version);
    assert Stored(s) == top + old' && Stored(s') == top + new';
    LaterNewer(top, old');
    assert KeyUnique(top + old') && KeyUnique(top + new');
    forall k, t | Floor(s') <= t ensures Visible(Stored(s'), k, t) == Visible(s'.history, k, t) {
      BottomReplaced(top, old', new', k, t);
    }
  }

  /** Installing a compaction leaves every read of the version at or above its snapshot
      as it was if and only if nothing is lost. */
  lemma {:induction false} FinishPreservesIff(v: Levels, j: Job, outputs: seq<Output>, outs: seq<FileMeta>, v': Levels)
    requires VersionOk(v) && JobReady(v, j.picked, j.c, j.merged, j.snapshot) && Installed(v, j.c, outs, v')
    requires Materialized(outs, outputs)
    requires Flatten(outputs) == Kept(j.merged, |j.merged|, j.snapshot, j.picked, j.c.level)
    ensures VersionOk(v') && VersionEntries(v') <= VersionEntries(v)
    ensures (forall k, t :: j.snapshot <= t ==> Visible(VersionEntries(v'), k, t) == Visible(VersionEntries(v), k, t))
       <==> NothingLost(v, j)
  {
    InstallOk(v, j.picked, j.c, j.merged, j.snapshot, outputs, outs, v');
    Partition(v, j.c, j.merged);
    KeptSubset(j.merged, j.snapshot, j.picked, j.c.level);
    MeaningPreservedIff(SurroundingsOf(v, j.c), j.merged, j.snapshot, j.picked, j.c.level);
  }

  lemma FinishKeepsInv(s: State, outputs: seq<Output>, outs: seq<FileMeta>, s': State)
    requires Inv(s) && FinishCompaction(s, outputs, outs, s') && NothingLost(s.version, s.job.value)
    ensures Inv(s')
  {
    var j := s.job.value;
    FinishPreservesIff(s.version, j, outputs, outs, s'.version);
    InstallLayered(s.version, j.picked, j.c, j.merged, j.snapshot, Floor(s), outputs, outs, s'.version);
    InstalledNumbers(s.version, j.c, outs, s'.version, s.nextFileNumber);
    NewVersionKeepsInv(s, s');
  }

  lemma AbandonKeepsInv(s: State, s': State)
    requires Inv(s) && AbandonCompaction(s, s')
    ensures Inv(s')
  {
    assert Stored(s') == Stored(s) && Floor(s') == Floor(s);
  }

  lemma SingleFile(f: FileMeta)
    ensures LevelEntries([f]) == Ent(f) == SetOf(f.entries) && LevelEntries([]) == {}
    ensures Files([f]) == {f} && SetEntries({f}) == Ent(f)
  {
    assert [f][0] == f;
    forall e | e in f.entries ensures e in LevelEntries([f]) {
      assert e in [f][0].entries;
    }
  }

  lemma SingleOutput(f: FileMeta)
    requires FileOk(f)
    ensures AllFilesOk(Files([f])) && PairwiseDisjoint(Files([f]))
  {
    SingleFile(f);
  }

  lemma SingleInput(c: Inputs2, f: FileMeta)
    requires c.in0 == [f] && c.in1 == [] && FilesOk(c.in0)
    ensures FileOk(f) && SortedKeys(f.entries) && SetOf(f.entries) == InputEntries(c)
  {
    assert FileOk(c.in0[0]);
    SingleFile(f);
  }

  lemma MovedReady(v: Levels, floor: nat, c: Inputs2, f: FileMeta)
    requires VersionOk(v) && Layered(v, floor) && KeyUnique(VersionEntries(v)) && AllParse(VersionEntries(v))
    requires c.level + 1 < |v| && c.in0 == [f] && c.in1 == [] && Selected(v, c.level, [f], c.in0, c.in1)
    ensures FileOk(f) && SetOf(f.entries) == InputEntries(c) == Ent(f) && JobReady(v, v, c, f.entries, floor)
  {
    SingleInput(c, f);
    SelectedReady(v, floor, [f], c, f.entries);
  }

  /** Moving a single file keeps every entry and the order of the layers. */
  lemma MovedVersion(v: Levels, floor: nat, c: Inputs2, f: FileMeta, v': Levels)
    requires VersionOk(v) && Layered(v, floor) && KeyUnique(VersionEntries(v)) && AllParse(VersionEntries(v))
    requires c.level + 1 < |v| && c.in0 == [f] && c.in1 == [] && Selected(v, c.level, [f], c.in0, c.in1)
    requires Installed(v, c, [f], v')
    ensures VersionOk(v') && Layered(v', floor) && VersionEntries(v') == VersionEntries(v)
  {
    MovedReady(v, floor, c, f);
    SingleFile(f);
    SingleOutput(f);
    ReplaceOk(v, c, f.entries, Ent(f), [f], v');
    assert KeptCovers(DeeperEntries(v, c.level), f.entries, Ent(f), floor);
    ReplaceLayered(v, v, floor, floor, c, f.entries, Ent(f), [f], v');
    Partition(v, c, f.entries);
  }

  lemma MoveKeepsInv(s: State, c: Inputs2, f: FileMeta, s': State)
    requires Inv(s) && TrivialMove(s, c, f, s')
    ensures Inv(s')
  {
    assert VersionEntries(s.version) <= Stored(s);
    MovedVersion(s.version, Floor(s), c, f, s'.version);
    InstalledNumbers(s.version, c, [f], s'.version, s.nextFileNumber);
    NewVersionKeepsInv(s, s');
  }

  // ----- snapshots

  lemma SnapshotKeepsInv(s: State, s': State)
    requires Inv(s) && GetSnapshot(s, s')
    ensures Inv(s')
  {
    assert Stored(s') == Stored(s);
    assert Floor(s') == Floor(s);
  }

  lemma ReleaseKeepsInv(s: State, i: nat, s': State)
    requires Inv(s) && ReleaseSnapshot(s, i, s')
    ensures Inv(s')
  {
    assert Stored(s') == Stored(s);
    assert Floor(s) <= Floor(s');
    LayeredLater(s.version, Floor(s), Floor(s'));
  }

  lemma NextKeepsInv(s: State, step: Step, s': State)
    requires Inv(s) && Next(s, step, s') && Clean(s, step)
    ensures Inv(s')
  {
    match step
    case WriteStep(batch) => WriteKeepsInv(s, batch, s');
    case FailedWriteStep(count) => FailedWriteKeepsInv(s, count, s');
    case SwitchStep => SwitchKeepsInv(s, s');
    case FlushedStep(level, f) => FlushKeepsInv(s, level, f, s');
    case StartStep(seed, j) => StartKeepsInv(s, seed, j, s');
    case FinishStep(outputs, outs) => FinishKeepsInv(s, outputs, outs, s');
    case AbandonStep => AbandonKeepsInv(s, s');
    case MoveStep(c, f) => MoveKeepsInv(s, c, f, s');
    case SnapshotStep => SnapshotKeepsInv(s, s');
    case ReleaseStep(i) => ReleaseKeepsInv(s, i, s');
  }

  /** `run` is a sequence of states linked by clean steps. */
  ghost predicate IsExecution(run: seq<State>, steps: seq<Step>) {
    && |run| == |steps| + 1 && Init(run[0])
    && forall i :: 0 <= i < |steps| ==> Next(run[i], steps[i], run[i + 1]) && Clean(run[i], steps[i])
  }

  /** In every state of every run, a read at or above the oldest snapshot sees
      exactly what the history of all writes says. */
  lemma RunsAreFaithful(run: seq<State>, steps: seq<Step>, n: nat)
    requires IsExecution(run, steps) && n < |run|
    ensures Inv(run[n])
    ensures forall k, t :: Floor(run[n]) <= t ==> Visible(Stored(run[n]), k, t) == Visible(run[n].history, k, t)
  {
    if n == 0 {
      InitInv(run[0]);
    } else {
      RunsAreFaithful(run, steps, n - 1);
      NextKeepsInv(run[n - 1], steps[n - 1], run[n]);
    }
  }

  // ----- no entry is stored twice

  lemma AddedOnce(v: Levels, level: nat, f: FileMeta, v': Levels)
    requires Once(v) && Added(v, level, f, v') && Ent(f) !! VersionEntries(v)
    ensures Once(v')
  {
    forall l, m, g, h, e | 0 <= l < |v'| && 0 <= m < |v'| && g in v'[l] && h in v'[m] && e in g.entries
      && e in h.entries
      ensures l == m && g == h
    {
      AddedFrom(v, level, f, v', l, g, e);
      AddedFrom(v, level, f, v', m, h, e);
    }
  }

  lemma AddedFrom(v: Levels, level: nat, f: FileMeta, v': Levels, l: nat, g: FileMeta, e: Entry)
    requires Added(v, level, f, v') && Ent(f) !! VersionEntries(v) && l < |v'| && g in v'[l] && e in g.entries
    ensures if e in f.entries then l == level && g == f else g in v[l]
  {
    if l == level {
      assert g in Files(v'[l]);
    }
    if g in v[l] {
      var i :| 0 <= i < |v[l]| && v[l][i] == g;
      assert e in LevelEntries(v[l]) && e in VersionEntries(v);
      assert e !in Ent(f);
    }
  }

  lemma OutputOnce(outs: seq<FileMeta>, g: FileMeta, h: FileMeta, e: Entry)
    requires AllFilesOk(Files(outs)) && PairwiseDisjoint(Files(outs))
    requires g in outs && h in outs && e in g.entries && e in h.entries
    ensures g == h
  {
    assert g in Files(outs) && h in Files(outs);
    EntryInFile(g, e);
    EntryInFile(h, e);
  }

  /** Outputs that hold some of the inputs' entries once. */
  lemma InstalledOnce(v: Levels, c: Inputs2, outs: seq<FileMeta>, v': Levels)
    requires Once(v) && Installed(v, c, outs, v')
    requires AllFilesOk(Files(outs)) && PairwiseDisjoint(Files(outs)) && SetEntries(Files(outs)) <= InputEntries(c)
    ensures Once(v')
  {
    forall l, m, g, h, e | 0 <= l < |v'| && 0 <= m < |v'| && g in v'[l] && h in v'[m] && e in g.entries
      && e in h.entries
      ensures l == m && g == h
    {
      InstalledFrom(v, c, outs, v', l, g, e);
      InstalledFrom(v, c, outs, v', m, h, e);
      if e in InputEntries(c) {
        OutputOnce(outs, g, h, e);
      }
    }
  }

  /** A file of the new version is an output with input entries, or an old one that was no input. */
  lemma InstalledFrom(
    v: Levels, c: Inputs2, outs: seq<FileMeta>, v': Levels, l: nat, g: FileMeta, e: Entry)
    requires Once(v) && Installed(v, c, outs, v') && SetEntries(Files(outs)) <= InputEntries(c)
    requires l < |v'| && g in v'[l] && e in g.entries
    ensures if e in InputEntries(c) then l == c.level + 1 && g in outs else g in v[l]
  {
    if l == c.level || l == c.level + 1 {
      assert g in Files(v'[l]);
    }
    if l == c.level + 1 && g in outs {
      assert g in Files(outs) && e in SetEntries(Files(outs));
    } else if e in InputEntries(c) {
      InputOnce(v, c, l, g, e);
    }
  }

  lemma InputOnce(v: Levels, c: Inputs2, l: nat, g: FileMeta, e: Entry)
    requires Once(v) && FromLevels(v, c) && l < |v| && g in v[l] && e in g.entries && e in InputEntries(c)
    ensures (l == c.level && g in c.in0) || (l == c.level + 1 && g in c.in1)
  {
    if e in LevelEntries(c.in0) {
      var i :| 0 <= i < |c.in0| && e in c.in0[i].entries;
      assert c.in0[i] in c.in0;
    } else {
      var i :| 0 <= i < |c.in1| && e in c.in1[i].entries;
      assert c.in1[i] in c.in1;
    }
  }

  lemma FlushOnce(s: State, level: nat, f: FileMeta, s': State)
    requires Inv(s) && Once(s.version) && FlushStep(s, level, f, s')
    ensures Once(s'.version)
  {
    if s.imm.value != {} {
      forall e | e in Ent(f) ensures e !in VersionEntries(s.version) {
        assert e in ImmEntries(s);
      }
      AddedOnce(s.version, level, f, s'.version);
    }
  }

  lemma FinishOnce(s: State, outputs: seq<Output>, outs: seq<FileMeta>, s': State)
    requires Inv(s) && Once(s.version) && FinishCompaction(s, outputs, outs, s')
    ensures Once(s'.version)
  {
    var j := s.job.value;
    InputsPack(s.version, j.c, j.merged);
    OutputsGood(outs, outputs, j.merged, j.snapshot, j.picked, j.c.level);
    KeptSubset(j.merged, j.snapshot, j.picked, j.c.level);
    InstalledOnce(s.version, j.c, outs, s'.version);
  }

  lemma MoveOnce(s: State, c: Inputs2, f: FileMeta, s': State)
    requires Inv(s) && Once(s.version) && TrivialMove(s, c, f, s')
    ensures Once(s'.version)
  {
    SingleInput(c, f);
    SingleFile(f);
    SingleOutput(f);
    InstalledOnce(s.version, c, [f], s'.version);
  }

  lemma NextOnce(s: State, step: Step, s': State)
    requires Inv(s) && Once(s.version) && Next(s, step, s')
    ensures Once(s'.version)
  {
    match step
    case FlushedStep(level, f) => FlushOnce(s, level, f, s');
    case FinishStep(outputs, outs) => FinishOnce(s, outputs, outs, s');
    case MoveStep(c, f) => MoveOnce(s, c, f, s');
    case _ =>
  }

  /** In every run from an empty store no entry is ever stored twice. */
  lemma RunsStoreOnce(run: seq<State>, steps: seq<Step>, n: nat)
    requires IsExecution(run, steps) && n < |run|
    ensures Once(run[n].version)
  {
    if n > 0 {
      RunsAreFaithful(run, steps, n - 1);
      RunsStoreOnce(run, steps, n - 1);
      NextOnce(run[n - 1], steps[n - 1], run[n]);
    }
  }

  // ----- with the check that the code does not make

  /** What a compaction leaves at its output level is newer than its inputs. */
  ghost predicate SideOf(v: Levels, j: Job) {
    j.c.level + 1 < |v| ==> NewerThan(SurroundingsOf(v, j.c).side, SetOf(j.merged))
  }

  ghost predicate SideNewer(s: State) {
    s.job.Some? ==> SideOf(s.version, s.job.value)
  }

  /** Had the inputs of level + 1 been extended like those of `level`. */
  ghost predicate StartsClosed(s: State, step: Step) {
    step.StartStep? && step.j.c.level + 1 < |s.version| ==> NextLevelClosed(s.version, step.j.c)
  }

  lemma SideFromRest(v: Levels, j: Job)
    requires j.c.level + 1 < |v| && SetOf(j.merged) == InputEntries(j.c)
    requires RestAhead(v, j.c)
    ensures SideOf(v, j)
  {
  }

  lemma ClosedSide(v: Levels, seed: FileMeta, j: Job)
    requires VersionOk(v) && j.c.level + 1 < |v| && Selected(v, j.c.level, [seed], j.c.in0, j.c.in1)
    requires NextLevelClosed(v, j.c) && SetOf(j.merged) == InputEntries(j.c)
    ensures SideOf(v, j)
  {
    ClosedSideNewer(v, [seed], j.c);
    SideFromRest(v, j);
  }

  lemma StartKeepsSide(s: State, seed: FileMeta, j: Job, s': State)
    requires VersionOk(s.version) && StartCompaction(s, seed, j, s') && NextLevelClosed(s.version, j.c)
    ensures SideNewer(s')
  {
    ClosedSide(s.version, seed, j);
  }

  lemma FlushKeepsSide(s: State, level: nat, f: FileMeta, s': State)
    requires Inv(s) && SideNewer(s) && FlushStep(s, level, f, s')
    ensures SideNewer(s')
  {
    if s.imm.value != {} && s.job.Some? {
      var j := s.job.value;
      FlushFitsVersion(s, level, f, s');
      FlushKeepsJob(s.version, level, f, s'.version, j.picked, j.c, j.merged, j.snapshot);
    }
  }

  lemma NextKeepsSide(s: State, step: Step, s': State)
    requires Inv(s) && SideNewer(s) && Next(s, step, s') && StartsClosed(s, step)
    ensures SideNewer(s')
  {
    match step
    case StartStep(seed, j) => StartKeepsSide(s, seed, j, s');
    case FlushedStep(level, f) => FlushKeepsSide(s, level, f, s');
    case _ =>
  }

  lemma SideNewerIsClean(s: State, step: Step)
    requires Inv(s) && SideNewer(s)
    ensures Clean(s, step)
  {
    if s.job.Some? {
      var j := s.job.value;
      forall k ensures !TombstoneLost(SurroundingsOf(s.version, j.c), j.merged, j.snapshot, j.picked, j.c.level, k) {
        NewerSideSafe(SurroundingsOf(s.version, j.c), j.merged, j.snapshot, j.picked, j.c.level, k);
      }
    }
  }

  lemma ClosedStep(s: State, step: Step, s': State)
    requires Inv(s) && SideNewer(s) && Next(s, step, s') && StartsClosed(s, step)
    ensures Clean(s, step) && Inv(s') && SideNewer(s')
  {
    SideNewerIsClean(s, step);
    NextKeepsSide(s, step, s');
    NextKeepsInv(s, step, s');
  }

  /** With the check every run is clean. */
  lemma ClosedRunsAreClean(run: seq<State>, steps: seq<Step>, n: nat)
    requires |run| == |steps| + 1 && Init(run[0]) && n <= |steps|
    requires forall i :: 0 <= i < |steps| ==> Next(run[i], steps[i], run[i + 1]) && StartsClosed(run[i], steps[i])
    ensures Inv(run[n]) && SideNewer(run[n])
    ensures forall i :: 0 <= i < n ==> Clean(run[i], steps[i])
  {
    if n == 0 {
      InitInv(run[0]);
    } else {
      ClosedRunsAreClean(run, steps, n - 1);
      ClosedStep(run[n - 1], steps[n - 1], run[n]);
    }
  }

  // ----- DBImpl::Get

  /** MemTable::Get: the first entry at or after the seek key, if it is the user's. */
  function MemGet(es: seq<Entry>, user: UserKey, snapshot: nat): Option<Answer> {
    var e := TableSeek(es, SeekKey(user, snapshot));
    if e.Some? && e.value.key.user == user && Parses(e.value.key) then Some(Meaning(e.value)) else None
  }

  lemma MemGetNewest(es: seq<Entry>, k: UserKey, s: nat)
    requires SortedKeys(es) && AllParse(SetOf(es)) && KeyUnique(SetOf(es))
    ensures match MemGet(es, k, s)
      case None => !HasCandidate(SetOf(es), k, s)
      case Some(a) => HasCandidate(SetOf(es), k, s) && a == Visible(SetOf(es), k, s)
  {
    TableSeekFirst(es, SeekKey(k, s));
    var e := TableSeek(es, SeekKey(k, s));
    if e.Some? && e.value.key.user == k {
      assert e.value in SetOf(es);
      assert IsNewest(SetOf(es), k, s, e.value);
      VisibleNewest(SetOf(es), k, s, e.value);
    }
  }

  /** memtable, then immutable memtable, then the version. */
  method Get(ghost s: State, mem: seq<Entry>, imm: Option<seq<Entry>>, version: Levels, user: UserKey, snapshot: nat)
    returns (r: Answer)
    requires Inv(s) && Floor(s) <= snapshot && version == s.version
    requires SortedKeys(mem) && SetOf(mem) == s.mem
    requires imm.Some? <==> s.imm.Some?
    requires imm.Some? ==> SortedKeys(imm.value) && SetOf(imm.value) == s.imm.value
    ensures r == Visible(s.history, user, snapshot)
  {
    LayersOf(s, user, snapshot);
    MemGetNewest(mem, user, snapshot);
    var a := MemGet(mem, user, snapshot);
    if a.Some? {
      return a.value;
    }
    if imm.Some? {
      MemGetNewest(imm.value, user, snapshot);
      a := MemGet(imm.value, user, snapshot);
      if a.Some? {
        return a.value;
      }
    }
    assert VersionEntries(version) <= s.history;
    r := Version.Get(version, Floor(s), user, snapshot);
  }

  lemma LayersOf(s: State, k: UserKey, t: nat)
    requires Inv(s) && Floor(s) <= t
    ensures AllParse(s.mem) && KeyUnique(s.mem) && AllParse(ImmEntries(s)) && KeyUnique(ImmEntries(s))
    ensures AllParse(VersionEntries(s.version))
    ensures Visible(s.history, k, t)
         == if HasCandidate(s.mem, k, t) then Visible(s.mem, k, t)
            else if HasCandidate(ImmEntries(s), k, t) then Visible(ImmEntries(s), k, t)
            else Visible(VersionEntries(s.version), k, t)
  {
    var below := ImmEntries(s) + VersionEntries(s.version);
    assert Stored(s) == s.mem + below;
    assert below <= Stored(s);
    LaterNewer(s.mem, below);
    LaterNewer(ImmEntries(s), VersionEntries(s.version));
    VisibleLayers(s.mem, below, k, t);
    VisibleLayers(ImmEntries(s), VersionEntries(s.version), k, t);
  }
}
