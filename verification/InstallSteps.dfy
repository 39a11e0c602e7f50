/** Installing an edit that has landed, with its deletions, keeps the invariant about reads. */
module InstallSteps {
  import opened Options
  import opened Keys
  import opened Version
  import opened Install
  import opened Disks
  import opened Durability
  import opened ReadInvariants
  import opened QuietSteps
  import opened WriteSteps
  import L = Lsm

  lemma InstalledCore(core: L.State, work: Work, version: Levels, nextFile: nat)
    requires L.Inv(core) && WorkOk(core, work, version)
    requires work.Flushing? ==> work.file.number < nextFile
    requires work.Compacting? ==> NoneLost(core)
    ensures L.Inv(Installs(core, work, version, nextFile))
  {
    var core' := Installs(core, work, version, nextFile);
    match work
    case Flushing(level, f, _) => L.FlushKeepsInv(core, level, f, core');
    case Compacting(outputs, outs) => L.FinishKeepsInv(core, outputs, outs, core');
    case Moving(c, f) => L.MoveKeepsInv(core, c, f, core');
  }

  lemma DeletedLogs(d: Disk, gone: Gone, low: nat)
    requires forall n :: n in gone.logs ==> n < low
    ensures var d' := Deleted(d, gone);
      && Shortened(d.logs, low, d'.logs, low) && Shortened(d'.logs, low, d.logs, low)
      && Synced(d'.logs, d'.synced, low) == Synced(d.logs, d.synced, low)
      && LogOf(d'.logs, low) == LogOf(d.logs, low)
  {
    var d' := Deleted(d, gone);
    forall a ensures a in Slots(d'.logs, low) <==> a in Slots(d.logs, low) {
    }
    assert SyncedSlots(d'.logs, d'.synced, low) == SyncedSlots(d.logs, d.synced, low);
  }

  lemma DeletedDurably(d: Disk, gone: Gone, sure: set<Entry>, written: set<Entry>)
    requires DiskReads(d) && Accounts(d, sure, written) && forall n :: n in gone.logs ==> n < d.manifest.logNumber
    ensures DiskReads(Deleted(d, gone)) && Accounts(Deleted(d, gone), sure, written)
    ensures OnDisk(Deleted(d, gone)) == OnDisk(d)
  {
    var low, d' := d.manifest.logNumber, Deleted(d, gone);
    DeletedLogs(d, gone, low);
    SameSlots(d.logs, d.synced, low, d'.logs, d'.synced, Known(d.manifest));
  }

  lemma DeletedLinked(d: Disk, m: Memory, gone: Gone, sure: set<Entry>)
    requires Linked(d, m, sure) && forall n :: n in gone.logs ==> n < d.manifest.logNumber
    ensures Linked(Deleted(d, gone), m, sure)
  {
    var low, d' := d.manifest.logNumber, Deleted(d, gone);
    DeletedLogs(d, gone, low);
    SameSlots(d.logs, d.synced, low, d'.logs, d'.synced, {});
  }

  lemma NumberedAfterStays(logs: Logs, low: nat, logs': Logs, es: set<Entry>)
    requires NumberedAfter(logs, low, es) && Shortened(logs, low, logs', low)
    ensures NumberedAfter(logs', low, es)
  {
  }

  lemma DeletedAttached(d: Disk, m: Memory, gone: Gone, sure: set<Entry>, written: set<Entry>)
    requires Attached(d, m, sure, written) && m.logNumber <= m.logFile && m.logNumber <= d.manifest.logNumber
    requires forall n :: n in gone.logs ==> n < m.logNumber
    ensures Attached(Deleted(d, gone), m, sure, written)
  {
    var base, low, d' := m.logNumber, d.manifest.logNumber, Deleted(d, gone);
    DeletedLogs(d, gone, base);
    SameSlots(d.logs, d.synced, base, d'.logs, d'.synced, {});
    DeletedLogs(d, gone, low);
    SameSlots(d.logs, d.synced, low, d'.logs, d'.synced, {});
    DeletedLogs(d, gone, m.logFile);
    NumberedAfterStays(d.logs, m.logFile, d'.logs, Known(d.manifest) + L.ImmEntries(m.core));
  }

  /** The files that `v` has more than one another are no inputs less. */
  lemma RestGrows(v: Levels, v': Levels, l: nat, c: seq<FileMeta>)
    requires Placed(v) <= Placed(v') && l < |v| && l < |v'|
    ensures RestEntries(v[l], c) <= RestEntries(v'[l], c)
  {
    forall e | e in RestEntries(v[l], c) ensures e in RestEntries(v'[l], c) {
      var i :| 0 <= i < |v[l]| && v[l][i] !in c && e in v[l][i].entries;
      assert Place(l, v[l][i]) in Placed(v) && Place(l, v[l][i]) in Placed(v');
      var j :| 0 <= j < |v'[l]| && v'[l][j] == v[l][i];
    }
  }

  lemma SideSameGrows(w: Levels, v: Levels, v': Levels, j: L.Job)
    requires SideSame(w, v, j) && |v'| == |v| && Placed(v) <= Placed(v')
    ensures SideSame(w, v', j)
  {
    RestGrows(v, v', j.c.level + 1, j.c.in1);
  }

  lemma WithinAll(v: set<Place>, v': set<Place>, added: set<Place>, files: set<Place>)
    requires v' <= v + added && v <= files && added <= files
    ensures v' <= files
  {
  }

  lemma ShadowInstalled(mf: Manifest, core: L.State, w: Levels, core': L.State, added: set<Place>)
    requires core.job.Some? && Shadow(mf, core, w) && core'.job == core.job && core'.imm.None?
    requires |core'.version| == |core.version| && Placed(core.version) <= Placed(core'.version)
    requires Placed(core'.version) <= Placed(core.version) + added && added <= mf.files
    ensures Shadow(mf, core', w)
  {
    SideSameGrows(w, core.version, core'.version, core.job.value);
    WithinAll(Placed(core.version), Placed(core'.version), added, mf.files);
  }

  lemma BaseHigher(
    logs: Logs, base: nat, known: set<Entry>, last: nat, written: set<Entry>, base': nat)
    requires BaseLogged(logs, base, known, last, written) && base <= base'
    ensures BaseLogged(logs, base', known, last, written)
  {
    LoggedFromHigher(logs, base, base');
    ShortenedOk(logs, base, logs, base', {}, last);
  }

  lemma FlushedPlaces(core: L.State, work: Work, version: Levels)
    requires WorkOk(core, work, version) && work.Flushing?
    ensures Placed(core.version) <= Placed(version) && |version| == |core.version|
  {
    if core.imm.value != {} {
      AddedPlaces(core.version, work.level, work.file, version);
    }
  }

  lemma InstalledAstray(d: Disk, m: Memory)
    requires m.calls == [Only(m)] && Only(m).Logging? && Only(m).landed && CallOk(d, m, Only(m))
    requires LandingReads(d.manifest, m.core, Only(m)) && (Astray(m) ==> exists w :: Shadow(d.manifest, m.core, w))
    ensures Astray(AfterInstall(m, 0)) ==> exists w :: Shadow(d.manifest, AfterInstall(m, 0).core, w)
  {
    var m' := AfterInstall(m, 0);
    if Astray(m') {
      var call := Only(m);
      assert call.work.Flushing?;
      var w :| Shadow(d.manifest, m.core, w);
      FlushedPlaces(m.core, call.work, call.version);
      ShadowInstalled(d.manifest, m.core, w, m'.core, call.edit.added);
    }
  }

  lemma InstalledLinked(d: Disk, m: Memory, sure: set<Entry>)
    requires Linked(d, m, sure) && m.calls == [Only(m)] && Only(m).Logging?
    ensures Linked(d, AfterInstall(m, 0), sure)
  {
    InstalledOuts(m);
  }

  lemma InstalledAttached(d: Disk, m: Memory, sure: set<Entry>, written: set<Entry>)
    requires Attached(d, m, sure, written) && m.calls == [Only(m)] && Only(m).Logging? && Only(m).landed
    requires CallOk(d, m, Only(m)) && m.logNumber <= m.logFile
    ensures Attached(d, AfterInstall(m, 0), sure, written)
  {
    var m', call := AfterInstall(m, 0), Only(m);
    InstalledOuts(m);
    InstalledAstray(d, m);
    BaseHigher(d.logs, m.logNumber, Known(d.manifest), m.core.lastSequence, written, m'.logNumber);
    if call.work.Flushing? {
      assert L.ImmEntries(m'.core) == {} && L.ImmEntries(m.core) <= Known(d.manifest);
    }
  }

  lemma InstallGone(s: State, i: nat, gone: Gone, s': State)
    requires Single(s, i) && InstallEdit(s, i, gone, s') && CallOk(s.disk, s.up.value, Only(s.up.value))
    requires s.up.value.tail == CutOff ==> s.up.value.bgError
    ensures forall n :: n in gone.logs ==> n < AfterInstall(s.up.value, 0).logNumber && n < s.disk.manifest.logNumber
  {
  }

  lemma InstallDurably(d: Disk, m: Memory, gone: Gone, sure: set<Entry>, written: set<Entry>)
    requires DiskReads(d) && Accounts(d, sure, written) && Linked(d, m, sure) && LogsKept(d, m)
    requires m.tail != CutOff ==> Attached(d, m, sure, written)
    requires m.calls == [Only(m)] && Only(m).Logging? && Only(m).landed && CallOk(d, m, Only(m))
    requires forall n :: n in gone.logs ==> n < AfterInstall(m, 0).logNumber && n < d.manifest.logNumber
    ensures var d', m' := Deleted(d, gone), AfterInstall(m, 0);
      && DiskReads(d') && Accounts(d', sure, written) && Linked(d', m', sure)
      && (m'.tail != CutOff ==> Attached(d', m', sure, written))
  {
    DeletedDurably(d, gone, sure, written);
    InstalledLinked(d, m, sure);
    DeletedLinked(d, AfterInstall(m, 0), gone, sure);
    if m.tail != CutOff {
      InstalledAttached(d, m, sure, written);
      DeletedAttached(d, AfterInstall(m, 0), gone, sure, written);
    }
  }

  lemma InstallReads(s: State, i: nat, gone: Gone, s': State)
    requires ReadInv(s) && Single(s, i) && InstallEdit(s, i, gone, s')
    requires CallOk(s.disk, s.up.value, Only(s.up.value)) && LogsKept(s.disk, s.up.value)
    requires s.up.value.tail == CutOff ==> s.up.value.bgError
    ensures ReadInv(s')
  {
    var m := s.up.value;
    IsShadowed(s);
    InstallGone(s, i, gone, s');
    InstallDurably(s.disk, m, gone, s.sure, s.written);
    InstalledCore(m.core, Only(m).work, Only(m).version, m.nextFile);
  }
}
