/** What a record makes of the manifest it lands in, and of the logs that are replayed beside it. */
module LandingSteps {
  import opened Options
  import opened Keys
  import opened Version
  import opened Install
  import opened Flush
  import opened Disks
  import opened Durability
  import opened ReadInvariants
  import L = Lsm

  // ----- a record lands

  /** The version an edit leads to: the immutable memtable joins it, or it reads the same. */
  ghost predicate Leads(old': set<Entry>, imm: set<Entry>, flush: bool, new': set<Entry>, floor: nat) {
    if flush then new' == old' + imm
    else new' <= old' && forall k, t :: floor <= t ==> Visible(new', k, t) == Visible(old', k, t)
  }

  lemma FlushLeads(core: L.State, work: Work, version: Levels, nextFile: nat)
    requires L.Inv(core) && work.Flushing? && WorkOk(core, work, version) && work.file.number < nextFile
    ensures VersionOk(version) && Layered(version, L.Floor(core))
    ensures VersionEntries(version) == VersionEntries(core.version) + L.ImmEntries(core)
  {
    if core.imm.value != {} {
      L.FlushFitsVersion(core, work.level, work.file, Installs(core, work, version, nextFile));
      FlushOk(core.version, L.Floor(core), work.level, work.file, version);
    }
  }

  lemma CompactLeads(core: L.State, work: Work, version: Levels, floor: nat)
    requires L.Inv(core) && work.Compacting? && WorkOk(core, work, version)
    requires NoneLost(core) && core.job.value.snapshot <= floor
    ensures VersionOk(version) && Layered(version, L.Floor(core))
    ensures Leads(VersionEntries(core.version), L.ImmEntries(core), false, VersionEntries(version), floor)
  {
    var j := core.job.value;
    L.FinishPreservesIff(core.version, j, work.outputs, work.outs, version);
    InstallLayered(
      core.version, j.picked, j.c, j.merged, j.snapshot, L.Floor(core), work.outputs, work.outs, version);
  }

  lemma MoveLeads(core: L.State, work: Work, version: Levels)
    requires L.Inv(core) && work.Moving? && WorkOk(core, work, version)
    ensures VersionOk(version) && Layered(version, L.Floor(core))
    ensures VersionEntries(version) == VersionEntries(core.version)
  {
    assert VersionEntries(core.version) <= L.Stored(core);
    L.MovedVersion(core.version, L.Floor(core), work.c, work.file, version);
  }

  lemma EditLeads(core: L.State, work: Work, version: Levels, nextFile: nat, floor: nat)
    requires L.Inv(core) && WorkOk(core, work, version) && (work.Flushing? ==> work.file.number < nextFile)
    requires work.Compacting? ==> NoneLost(core) && core.job.value.snapshot <= floor
    ensures VersionOk(version) && Layered(version, L.Floor(core))
    ensures Leads(VersionEntries(core.version), L.ImmEntries(core), work.Flushing?, VersionEntries(version), floor)
  {
    match work
    case Flushing(_, _, _) => FlushLeads(core, work, version, nextFile);
    case Compacting(_, _) => CompactLeads(core, work, version, floor);
    case Moving(_, _) => MoveLeads(core, work, version);
  }

  lemma LandedKnown(mf: Manifest, core: L.State, version: Levels, edit: Edit)
    requires mf.files == Placed(core.version) && edit.dropped == LeftOut(core, version)
    requires Placed(version) == Placed(core.version) - edit.deleted + edit.added
    ensures Known(Apply(mf, edit)) == Known(mf) + VersionEntries(version)
    ensures VersionEntries(core.version) <= Known(mf)
  {
    PlacedEntries(core.version);
    PlacedEntries(version);
  }

  /** The new version reads like everything that ever reached the manifest. */
  lemma LandedFaithful(
    old': set<Entry>, imm: set<Entry>, flush: bool, new': set<Entry>, floor: nat, known: set<Entry>,
    history: set<Entry>,
    last: nat, k: UserKey, t: nat)
    requires Leads(old', imm, flush, new', floor) && floor <= t && L.WellWritten(history, last)
    requires old' <= known && known + imm <= history && (flush ==> L.Later(imm, known))
    requires Visible(old', k, t) == Visible(known, k, t)
    ensures Visible(new', k, t) == Visible(known + new', k, t)
  {
    if flush {
      assert known + new' == known + imm;
      L.SameTop(imm, old', known, k, t);
    } else {
      assert known + new' == known;
    }
  }

  lemma LandedWell(
    known: set<Entry>, last: nat, es: set<Entry>, last': nat, history: set<Entry>, top: nat)
    requires L.WellWritten(history, top) && L.WellWritten(known, last) && last <= last'
    requires known + es <= history && forall e :: e in es ==> e.key.sn <= last'
    ensures L.WellWritten(known + es, last')
  {
  }

  /** What reached the manifest once a record has landed. */
  lemma LandedGains(
    old': set<Entry>, imm: set<Entry>, flush: bool, new': set<Entry>, floor: nat, known: set<Entry>)
    requires Leads(old', imm, flush, new', floor) && old' <= known
    ensures known + new' == known + if flush then imm else {}
  {
  }

  /** A version whose entries are all known is layered for the manifest's readers if it is for some. */
  lemma LandedLayered(version: Levels, floor: nat, known: set<Entry>, last: nat)
    requires Layered(version, floor) && VersionEntries(version) <= known && L.WellWritten(known, last)
    ensures Layered(version, last)
  {
    LayeredBounded(version, floor, last);
  }

  /** A record that lands describes a version that reads like all that reached the manifest. */
  lemma LandedReads(mf: Manifest, v: Levels, core: L.State, flush: bool, version: Levels, edit: Edit)
    requires Describes(mf, v) && mf.files == Placed(core.version) && mf.lastSequence <= edit.lastSequence < MAX_SEQUENCE
    requires Placed(version) == Placed(core.version) - edit.deleted + edit.added
    requires edit.dropped == LeftOut(core, version)
    requires VersionOk(version) && Layered(version, L.Floor(core)) && L.WellWritten(core.history, core.lastSequence)
    requires Leads(
      VersionEntries(core.version), L.ImmEntries(core), flush, VersionEntries(version), edit.lastSequence)
    requires Known(mf) + L.ImmEntries(core) <= core.history && (flush ==> L.Later(L.ImmEntries(core), Known(mf)))
    requires flush ==> forall e :: e in L.ImmEntries(core) ==> e.key.sn <= edit.lastSequence
    ensures Describes(Apply(mf, edit), version)
    ensures Known(Apply(mf, edit)) == Known(mf) + if flush then L.ImmEntries(core) else {}
  {
    var imm, old', new' := L.ImmEntries(core), VersionEntries(core.version), VersionEntries(version);
    PlacedEntries(v);
    PlacedEntries(core.version);
    LandedKnown(mf, core, version, edit);
    LandedGains(old', imm, flush, new', edit.lastSequence, Known(mf));
    LandedWell(
      Known(mf), mf.lastSequence, if flush then imm else {}, edit.lastSequence, core.history, core.lastSequence);
    LandedLayered(version, L.Floor(core), Known(Apply(mf, edit)), edit.lastSequence);
    forall k, t | edit.lastSequence <= t ensures Visible(new', k, t) == Visible(Known(mf) + new', k, t) {
      LandedFaithful(
        old', imm, flush, new', edit.lastSequence, Known(mf), core.history, core.lastSequence, k, t);
    }
  }

  // ----- what a landed record does to the disk and to memory's relation to it

  lemma HigherRead(
    logs: Logs, synced: map<nat, nat>, base: nat, known: set<Entry>, low: nat, known': set<Entry>)
    requires Numbered(logs, base) && KeyUnique(known + Logged(logs, base)) && base <= low
    requires known' <= known + Logged(logs, base) && NumberedAfter(logs, low, known')
    ensures LogsRead(logs, synced, low, known')
  {
    LoggedFromHigher(logs, base, low);
    ShortenedOk(logs, base, logs, low, {}, 0);
    LaterHidesNothing(logs, synced, low, known');
  }

  /** The flushed entries are in the tables now, and only the current log is replayed. */
  lemma FlushLandsDisk(
    d: Disk, m: Memory, mf': Manifest, sure: set<Entry>, written: set<Entry>)
    requires DiskReads(d) && Accounts(d, sure, written) && Attached(d, m, sure, written) && LogsKept(d, m)
    requires m.logNumber <= d.manifest.logNumber && L.ImmEntries(m.core) <= OnDisk(d) && sure <= m.core.history
    requires (exists v :: Describes(mf', v)) && mf'.logNumber == m.logFile
    requires Known(mf') == Known(d.manifest) + L.ImmEntries(m.core)
    ensures DiskReads(d.(manifest := mf')) && Accounts(d.(manifest := mf'), sure, written)
  {
    LoggedFromHigher(d.logs, m.logNumber, d.manifest.logNumber);
    LoggedFromHigher(d.logs, d.manifest.logNumber, m.logFile);
    HigherRead(d.logs, d.synced, m.logNumber, Known(d.manifest), m.logFile, Known(mf'));
  }

  lemma FlushLandsLinked(d: Disk, m: Memory, mf': Manifest, m': Memory, sure: set<Entry>)
    requires Linked(d, m, sure) && MemLogged(d, m) && m.logFile in d.logs && d.manifest.logNumber <= m.logFile
    requires m.core.history == Known(d.manifest) + L.ImmEntries(m.core) + m.core.mem
    requires Known(mf') == Known(d.manifest) + L.ImmEntries(m.core) && mf'.logNumber == m.logFile
    requires m' == m.(calls := m'.calls) && FlushLanded(Only(m')) && mf'.lastSequence <= m.core.lastSequence
    requires forall e :: e in L.ImmEntries(m.core) ==> e.key.sn <= Only(m').edit.lastSequence
    ensures Linked(d.(manifest := mf'), m', sure)
  {
    TopLogged(d.logs, m.logFile);
    assert forall a :: a in Slots(d.logs, m.logFile) ==> a in Slots(d.logs, d.manifest.logNumber);
  }

  lemma FlushLandsAttached(
    d: Disk, m: Memory, mf': Manifest, m': Memory, sure: set<Entry>, written: set<Entry>)
    requires Attached(d, m, sure, written) && m.logNumber <= d.manifest.logNumber && L.ImmEntries(m.core) <= OnDisk(d)
    requires Known(mf') == Known(d.manifest) + L.ImmEntries(m.core)
    requires m' == m.(calls := m'.calls) && FlushLanded(Only(m')) && Only(m').edit.lastSequence == mf'.lastSequence
    requires Only(m').edit.added <= mf'.files && (Astray(m') ==> exists w :: Shadow(mf', m.core, w))
    ensures Attached(d.(manifest := mf'), m', sure, written)
  {
    LoggedFromHigher(d.logs, m.logNumber, d.manifest.logNumber);
    assert Known(mf') + L.ImmEntries(m.core) == Known(d.manifest) + L.ImmEntries(m.core);
    assert Known(mf') + Logged(d.logs, m.logNumber) == Known(d.manifest) + Logged(d.logs, m.logNumber);
  }

  /** Nothing new is in the tables; the log number may go back to the one memory knows. */
  lemma OtherLandsDisk(
    d: Disk, base: nat, last: nat, mf': Manifest, sure: set<Entry>, written: set<Entry>)
    requires Accounts(d, sure, written) && BaseLogged(d.logs, base, Known(d.manifest), last, written)
    requires (exists v :: Describes(mf', v)) && mf'.logNumber == base <= d.manifest.logNumber
    requires Known(mf') == Known(d.manifest)
    requires NothingHidden(d.logs, d.synced, base, Known(d.manifest))
    ensures DiskReads(d.(manifest := mf')) && Accounts(d.(manifest := mf'), sure, written)
  {
    SyncedHigher(d.logs, d.synced, base, d.manifest.logNumber);
  }

  lemma SyncedHigher(logs: Logs, synced: map<nat, nat>, low: nat, high: nat)
    requires low <= high
    ensures Synced(logs, synced, high) <= Synced(logs, synced, low)
  {
    SyncedStays(logs, synced, high, logs, synced, low);
  }

  lemma OtherLandsLinked(
    d: Disk, m: Memory, mf': Manifest, m': Memory, sure: set<Entry>, written: set<Entry>)
    requires Linked(d, m, sure) && Attached(d, m, sure, written)
    requires mf'.logNumber == m.logNumber <= d.manifest.logNumber && Known(mf') == Known(d.manifest)
    requires m' == m.(calls := m'.calls) && mf'.lastSequence <= m.core.lastSequence && CallReads(m.core, Only(m'))
    ensures Linked(d.(manifest := mf'), m', sure)
  {
    LoggedFromHigher(d.logs, m.logNumber, d.manifest.logNumber);
  }

  lemma OtherLandsAttached(
    d: Disk, m: Memory, mf': Manifest, m': Memory, sure: set<Entry>, written: set<Entry>)
    requires Attached(d, m, sure, written) && !FlushLanded(Only(m)) && !FlushLanded(Only(m'))
    requires mf'.logNumber == m.logNumber <= d.manifest.logNumber && Known(mf') == Known(d.manifest)
    requires m' == m.(calls := m'.calls) && LandingReads(mf', m.core, Only(m')) && !Astray(m')
    ensures Attached(d.(manifest := mf'), m', sure, written)
  {
    LoggedFromHigher(d.logs, m.logNumber, d.manifest.logNumber);
  }

  // ----- a record lands in a manifest that is the engine's version

  /** What a landing needs to know of the call. */
  ghost predicate Landing(d: Disk, m: Memory) {
    && m.calls == [Only(m)] && Only(m).Logging? && !Only(m).landed && m.tail != CutOff
    && CallOk(d, m, Only(m)) && LogsKept(d, m)
    && (Only(m).work.Compacting? && m.core.job.Some? ==> NoneLost(m.core))
  }

  lemma LandingDescribes(d: Disk, m: Memory, sure: set<Entry>, written: set<Entry>)
    requires Landing(d, m) && L.Inv(m.core) && Linked(d, m, sure) && Attached(d, m, sure, written) && DiskReads(d)
    requires !m.doubtful && d.manifest.files == Placed(m.core.version)
    ensures Describes(Apply(d.manifest, Only(m).edit), Only(m).version)
    ensures Known(Apply(d.manifest, Only(m).edit))
         == Known(d.manifest) + if Only(m).work.Flushing? then L.ImmEntries(m.core) else {}
  {
    var v :| Describes(d.manifest, v);
    var call := Only(m);
    EditLeads(m.core, call.work, call.version, m.nextFile, call.edit.lastSequence);
    LandedReads(d.manifest, v, m.core, call.work.Flushing?, call.version, call.edit);
  }

  /** The record has landed. */
  function Landed(m: Memory): Memory
    requires m.calls != [] && Only(m).Logging?
  {
    Goes(m, 0, Only(m).(landed := true))
  }

  ghost predicate LandsWell(d: Disk, m: Memory, mf': Manifest, sure: set<Entry>, written: set<Entry>)
    requires m.calls != [] && Only(m).Logging?
  {
    var d', m' := d.(manifest := mf'), Landed(m);
    DiskReads(d') && Accounts(d', sure, written) && Linked(d', m', sure) && Attached(d', m', sure, written)
  }

  lemma FlushLandsWell(d: Disk, m: Memory, mf': Manifest, sure: set<Entry>, written: set<Entry>)
    requires Linked(d, m, sure) && Attached(d, m, sure, written) && DiskReads(d) && Accounts(d, sure, written)
    requires LogsKept(d, m)
    requires m.calls == [Only(m)] && Only(m).Logging? && Only(m).work.Flushing? && m.tail != CutOff
    requires (exists v :: Describes(mf', v)) && mf' == Apply(d.manifest, Only(m).edit)
    requires Only(m).edit.lastSequence <= m.core.lastSequence && Only(m).edit.logNumber == m.logFile
    requires Known(mf') == Known(d.manifest) + L.ImmEntries(m.core) && L.ImmEntries(m.core) <= OnDisk(d)
    requires Astray(Landed(m)) ==> exists w :: Shadow(mf', m.core, w)
    ensures LandsWell(d, m, mf', sure, written)
  {
    var m' := Landed(m);
    FlushLandsDisk(d, m, mf', sure, written);
    FlushLandsLinked(d, m, mf', m', sure);
    FlushLandsAttached(d, m, mf', m', sure, written);
  }

  lemma OtherLandsWell(d: Disk, m: Memory, mf': Manifest, sure: set<Entry>, written: set<Entry>)
    requires Linked(d, m, sure) && Attached(d, m, sure, written) && DiskReads(d) && Accounts(d, sure, written)
    requires m.calls == [Only(m)] && Only(m).Logging? && !Only(m).landed && !Only(m).work.Flushing?
    requires Only(m).work.Compacting? && m.core.job.Some? ==> NoneLost(m.core)
    requires (exists v :: Describes(mf', v)) && mf' == Apply(d.manifest, Only(m).edit)
    requires Only(m).edit.lastSequence <= m.core.lastSequence
    requires Only(m).edit.logNumber == m.logNumber <= d.manifest.logNumber
    requires NothingHidden(d.logs, d.synced, m.logNumber, Known(d.manifest))
    requires Known(mf') == Known(d.manifest) && !Astray(Landed(m))
    ensures LandsWell(d, m, mf', sure, written)
  {
    var m' := Landed(m);
    OtherLandsDisk(d, m.logNumber, m.core.lastSequence, mf', sure, written);
    OtherLandsLinked(d, m, mf', m', sure, written);
    OtherLandsAttached(d, m, mf', m', sure, written);
  }

  lemma LandingNumbers(d: Disk, m: Memory)
    requires Landing(d, m)
    ensures var call := Only(m);
      && call.edit.lastSequence <= m.core.lastSequence
      && call.edit.logNumber == if call.work.Flushing? then m.logFile else m.logNumber
  {
  }

  lemma ImmOnDisk(d: Disk, m: Memory)
    requires ImmLogged(d, m)
    ensures L.ImmEntries(m.core) <= OnDisk(d)
  {
  }

  lemma KnownParts(d: Disk, m: Memory, mf': Manifest, sure: set<Entry>, written: set<Entry>)
    requires Linked(d, m, sure) && Attached(d, m, sure, written) && DiskReads(d) && Accounts(d, sure, written)
    requires LogsKept(d, m)
    requires m.calls == [Only(m)] && Only(m).Logging? && !Only(m).landed && m.tail != CutOff && !m.doubtful
    requires Only(m).work.Compacting? && m.core.job.Some? ==> NoneLost(m.core)
    requires d.manifest.logNumber == m.logNumber && (exists v :: Describes(mf', v))
    requires mf' == Apply(d.manifest, Only(m).edit)
    requires Known(mf') == Known(d.manifest) + if Only(m).work.Flushing? then L.ImmEntries(m.core) else {}
    requires Only(m).edit.lastSequence <= m.core.lastSequence
    requires Only(m).edit.logNumber == if Only(m).work.Flushing? then m.logFile else m.logNumber
    ensures LandsWell(d, m, mf', sure, written)
  {
    if Only(m).work.Flushing? {
      ImmOnDisk(d, m);
      FlushLandsWell(d, m, mf', sure, written);
    } else {
      assert Known(mf') == Known(d.manifest);
      OtherLandsWell(d, m, mf', sure, written);
    }
  }

  lemma KnownLandsWell(d: Disk, m: Memory, sure: set<Entry>, written: set<Entry>)
    requires Landing(d, m) && L.Inv(m.core) && Linked(d, m, sure) && Attached(d, m, sure, written)
    requires DiskReads(d) && Accounts(d, sure, written)
    requires !m.doubtful && d.manifest.files == Placed(m.core.version) && d.manifest.logNumber == m.logNumber
    ensures LandsWell(d, m, Apply(d.manifest, Only(m).edit), sure, written)
  {
    LandingDescribes(d, m, sure, written);
    LandingNumbers(d, m);
    KnownParts(d, m, Apply(d.manifest, Only(m).edit), sure, written);
  }
}
