/** Steps that leave logs, manifest and memtables alone keep the invariant about reads. */
module QuietSteps {
  import opened Options
  import opened Keys
  import opened Version
  import opened Selection
  import opened Compaction
  import opened Disks
  import opened Durability
  import opened ReadInvariants
  import L = Lsm

  ghost predicate SameLogs(d: Disk, d': Disk) {
    d'.logs == d.logs && d'.synced == d.synced && d'.manifest == d.manifest
  }

  ghost predicate SameSets(s: State, s': State) {
    s'.acked == s.acked && s'.sure == s.sure && s'.written == s.written
  }

  ghost predicate SameEngine(core: L.State, core': L.State) {
    && core'.mem == core.mem && core'.imm == core.imm && core'.history == core.history
    && core'.lastSequence == core.lastSequence && core'.version == core.version
  }

  lemma QuietAttached(
    d: Disk, m: Memory, d': Disk, m': Memory, sure: set<Entry>, written: set<Entry>)
    requires Attached(d, m, sure, written) && SameLogs(d, d') && SameEngine(m.core, m'.core)
    requires m'.logFile == m.logFile && m'.logNumber == m.logNumber
    requires LandingReads(d'.manifest, m'.core, Only(m')) && (ImmLanded(m) ==> ImmLanded(m'))
    requires Astray(m') ==> exists w :: Shadow(d'.manifest, m'.core, w)
    ensures Attached(d', m', sure, written)
  {
  }

  /** A step that leaves logs, manifest, memtables and version alone. */
  ghost predicate Quiet(s: State, s': State) {
    && s.up.Some? && s'.up.Some? && SameLogs(s.disk, s'.disk) && SameSets(s, s')
    && var m, m' := s.up.value, s'.up.value;
    && SameEngine(m.core, m'.core) && m'.logFile == m.logFile && m'.logNumber == m.logNumber
    && (m'.tail == CutOff <==> m.tail == CutOff)
    && CallReads(m'.core, Only(m')) && (m.tail != CutOff ==> LandingReads(s'.disk.manifest, m'.core, Only(m')))
    && (ImmLanded(m) ==> ImmLanded(m'))
  }

  ghost predicate Shadowed(d: Disk, m: Memory) {
    Astray(m) && m.tail != CutOff ==> exists w :: Shadow(d.manifest, m.core, w)
  }

  lemma QuietReads(s: State, s': State)
    requires ReadInv(s) && Quiet(s, s') && L.Inv(s'.up.value.core) && Shadowed(s'.disk, s'.up.value)
    ensures ReadInv(s')
  {
    if s.up.value.tail != CutOff {
      QuietAttached(s.disk, s.up.value, s'.disk, s'.up.value, s.sure, s.written);
    }
  }

  /** The shadow depends on the version, the immutable memtable and the compaction alone. */
  lemma ShadowStays(d: Disk, m: Memory, d': Disk, m': Memory)
    requires Shadowed(d, m) && d'.manifest == d.manifest && m'.tail == m.tail
    requires SameEngine(m.core, m'.core) && m'.core.job == m.core.job && (Astray(m') ==> Astray(m))
    ensures Shadowed(d', m')
  {
    if Astray(m') && m'.tail != CutOff {
      var w :| Shadow(d.manifest, m.core, w);
      assert Shadow(d'.manifest, m'.core, w);
    }
  }

  /** What the invariant says of the call. */
  ghost predicate Calm(d: Disk, m: Memory) {
    CallReads(m.core, Only(m)) && (m.tail != CutOff ==> LandingReads(d.manifest, m.core, Only(m)))
  }

  lemma IsShadowed(s: State)
    requires ReadInv(s) && s.up.Some?
    ensures Shadowed(s.disk, s.up.value) && L.Inv(s.up.value.core) && Calm(s.disk, s.up.value)
    ensures s.disk.manifest.lastSequence <= s.up.value.core.lastSequence
  {
  }

  /** A quiet step that leaves the compaction alone too. */
  ghost predicate Idly(s: State, s': State) {
    && Quiet(s, s') && s'.up.value.core.job == s.up.value.core.job && s'.up.value.tail == s.up.value.tail
    && (Astray(s'.up.value) ==> Astray(s.up.value))
  }

  lemma IdlyReads(s: State, s': State)
    requires ReadInv(s) && Idly(s, s') && L.Inv(s'.up.value.core)
    ensures ReadInv(s')
  {
    IsShadowed(s);
    ShadowStays(s.disk, s.up.value, s'.disk, s'.up.value);
    QuietReads(s, s');
  }

  lemma EmptyVersion(v: Levels, mf: Manifest)
    requires v == [[], [], [], [], [], [], []] && mf == Manifest({}, 0, 2, 0, {})
    ensures Describes(mf, v) && Known(mf) == {}
  {
    L.InitInv(L.State({}, {}, None, v, 0, [], None, 0));
    PlacedEntries(v);
    assert Placed(v) == {};
    assert VersionEntries(v) == {} && Known(mf) == {};
  }

  lemma InitReads(s: State)
    requires Init(s)
    ensures ReadInv(s)
  {
    EmptyVersion([[], [], [], [], [], [], []], s.disk.manifest);
    assert Slots(s.disk.logs, 0) == {};
  }

  /** Call number `i` is the only one. */
  ghost predicate Single(s: State, i: nat) {
    i == 0 && s.up.Some? && s.up.value.calls == [Only(s.up.value)]
  }

  lemma IsSingle(s: State, i: nat)
    requires FileInv(s) && Running(s, i)
    ensures Single(s, i)
  {
    TheCall(s, i);
  }

  lemma UserQuiet(s: State, k: nat, v: Levels, s': State)
    requires s.up.Some? && Calm(s.disk, s.up.value)
    requires Admit(s, s') || Snapshot(s, s') || Release(s, k, s') || TakeVersion(s, s') || DropVersion(s, v, s')
    ensures Idly(s, s')
  {
  }

  lemma AdmitReads(s: State, s': State)
    requires ReadInv(s) && Admit(s, s')
    ensures ReadInv(s')
  {
    IsShadowed(s);
    UserQuiet(s, 0, [], s');
    IdlyReads(s, s');
  }

  lemma ScheduleQuiet(s: State, s': State)
    requires s.up.Some? && Calm(s.disk, s.up.value) && Schedule(s, s') && OneCall(s.up.value)
    ensures Idly(s, s')
  {
  }

  lemma ScheduleReads(s: State, s': State)
    requires ReadInv(s) && Schedule(s, s') && OneCall(s.up.value)
    ensures ReadInv(s')
  {
    IsShadowed(s);
    ScheduleQuiet(s, s');
    IdlyReads(s, s');
  }

  lemma CallQuiet(s: State, i: nat, f: FileMeta, s': State)
    requires Single(s, i) && (Idle(s, i, s') || EndCall(s, i, s') || FlushBegin(s, i, s') || CompactOutput(s, i, f, s'))
    ensures Idly(s, s') && s'.up.value.core == s.up.value.core
  {
  }

  lemma IdleReads(s: State, i: nat, f: FileMeta, s': State)
    requires ReadInv(s) && Single(s, i)
    requires Idle(s, i, s') || EndCall(s, i, s') || FlushBegin(s, i, s') || CompactOutput(s, i, f, s')
    ensures ReadInv(s')
  {
    IsShadowed(s);
    CallQuiet(s, i, f, s');
    IdlyReads(s, s');
  }

  lemma SnapshotReads(s: State, s': State)
    requires ReadInv(s) && Snapshot(s, s')
    ensures ReadInv(s')
  {
    IsShadowed(s);
    L.SnapshotKeepsInv(s.up.value.core, s'.up.value.core);
    UserQuiet(s, 0, [], s');
    IdlyReads(s, s');
  }

  lemma ReleaseReads(s: State, k: nat, s': State)
    requires ReadInv(s) && Release(s, k, s')
    ensures ReadInv(s')
  {
    IsShadowed(s);
    L.ReleaseKeepsInv(s.up.value.core, k, s'.up.value.core);
    UserQuiet(s, k, [], s');
    IdlyReads(s, s');
  }

  lemma VersionReads(s: State, v: Levels, s': State)
    requires ReadInv(s) && (TakeVersion(s, s') || DropVersion(s, v, s'))
    ensures ReadInv(s')
  {
    IsShadowed(s);
    UserQuiet(s, 0, v, s');
    IdlyReads(s, s');
  }

  lemma ImmNumbers(core: L.State)
    requires L.Inv(core)
    ensures forall e :: e in L.ImmEntries(core) ==> e.key.sn <= core.lastSequence
  {
    assert L.ImmEntries(core) <= L.Stored(core);
  }

  lemma FlushBuiltQuiet(s: State, i: nat, level: nat, f: FileMeta, version: Levels, s': State)
    requires Single(s, i) && FlushBuilt(s, i, level, f, version, s')
    requires s.disk.manifest.lastSequence <= s.up.value.core.lastSequence
    requires forall e :: e in L.ImmEntries(s.up.value.core) ==> e.key.sn <= s.up.value.core.lastSequence
    ensures Idly(s, s') && s'.up.value.core == s.up.value.core
  {
  }

  lemma FlushBuiltReads(s: State, i: nat, level: nat, f: FileMeta, version: Levels, s': State)
    requires ReadInv(s) && Single(s, i) && FlushBuilt(s, i, level, f, version, s')
    ensures ReadInv(s')
  {
    IsShadowed(s);
    ImmNumbers(s.up.value.core);
    FlushBuiltQuiet(s, i, level, f, version, s');
    IdlyReads(s, s');
  }

  lemma CompactBeginCore(core: L.State, seed: FileMeta, j: L.Job, core': L.State)
    requires L.Inv(core) && core.job.None? && L.StartCompaction(core.(job := None), seed, j, core')
    ensures L.Inv(core') && SameEngine(core, core')
  {
    assert core.(job := None) == core;
    L.StartKeepsInv(core, seed, j, core');
  }

  lemma CompactBeginQuiet(s: State, i: nat, seed: FileMeta, j: L.Job, s': State)
    requires Single(s, i) && CompactBegin(s, i, seed, j, s') && !s.up.value.doubtful
    requires SameEngine(s.up.value.core, s'.up.value.core)
    ensures Quiet(s, s') && Shadowed(s'.disk, s'.up.value)
  {
  }

  lemma CompactBeginReads(s: State, i: nat, seed: FileMeta, j: L.Job, s': State)
    requires ReadInv(s) && Single(s, i) && CompactBegin(s, i, seed, j, s') && s.up.value.core.job.None?
    requires !s.up.value.doubtful
    ensures ReadInv(s')
  {
    IsShadowed(s);
    CompactBeginCore(s.up.value.core, seed, j, s'.up.value.core);
    CompactBeginQuiet(s, i, seed, j, s');
    QuietReads(s, s');
  }

  lemma JobBelow(core: L.State)
    requires L.Inv(core) && core.job.Some?
    ensures core.job.value.snapshot <= core.lastSequence
  {
  }

  lemma CompactLogQuiet(s: State, i: nat, outputs: seq<Output>, version: Levels, s': State)
    requires Single(s, i) && CompactLog(s, i, outputs, version, s')
    requires s.up.value.core.job.value.snapshot <= s.up.value.core.lastSequence
    requires s.disk.manifest.lastSequence <= s.up.value.core.lastSequence
    ensures Idly(s, s') && s'.up.value.core == s.up.value.core
  {
  }

  lemma CompactLogReads(s: State, i: nat, outputs: seq<Output>, version: Levels, s': State)
    requires ReadInv(s) && Single(s, i) && CompactLog(s, i, outputs, version, s')
    ensures ReadInv(s')
  {
    IsShadowed(s);
    JobBelow(s.up.value.core);
    CompactLogQuiet(s, i, outputs, version, s');
    IdlyReads(s, s');
  }

  lemma MoveLogQuiet(s: State, i: nat, c: Inputs2, f: FileMeta, version: Levels, s': State)
    requires Single(s, i) && MoveLog(s, i, c, f, version, s')
    requires s.disk.manifest.lastSequence <= s.up.value.core.lastSequence
    ensures Idly(s, s') && s'.up.value.core == s.up.value.core
  {
  }

  lemma MoveLogReads(s: State, i: nat, c: Inputs2, f: FileMeta, version: Levels, s': State)
    requires ReadInv(s) && Single(s, i) && MoveLog(s, i, c, f, version, s')
    ensures ReadInv(s')
  {
    IsShadowed(s);
    MoveLogQuiet(s, i, c, f, version, s');
    IdlyReads(s, s');
  }
}
