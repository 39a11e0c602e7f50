/** Writes, failed writes and switches to a new log keep the invariant about reads. */
module WriteSteps {
  import opened Options
  import opened Keys
  import opened Inputs
  import opened Disks
  import opened Durability
  import opened ReadInvariants
  import opened QuietSteps
  import L = Lsm

  // ----- the writer

  /** Log `n` grows by `r`, which may make all of it certain. */
  ghost predicate Grown(logs: Logs, synced: map<nat, nat>, n: nat, r: Record, logs': Logs, synced': map<nat, nat>) {
    && n in logs && n in synced && r.Record? && logs' == logs[n := logs[n] + [r]]
    && (synced' == synced || synced' == synced[n := |logs'[n]|])
  }

  lemma AppendedGrown(d: Disk, n: nat, r: Record, sync: bool)
    requires n in d.logs && n in d.synced && r.Record?
    ensures var d' := Appended(d, n, r, sync); Grown(d.logs, d.synced, n, r, d'.logs, d'.synced)
  {
  }

  lemma GrownSynced(
    logs: Logs, synced: map<nat, nat>, low: nat, n: nat, r: Record, logs': Logs, synced': map<nat, nat>)
    requires Grown(logs, synced, n, r, logs', synced') && low <= n
    ensures Synced(logs, synced, low) <= Synced(logs', synced', low)
    ensures synced' == synced[n := |logs'[n]|] ==> LogEntries(logs'[n]) <= Synced(logs', synced', low)
  {
    AppendedSlots(logs, low, n, r, logs');
    forall a | a in SyncedSlots(logs, synced, low)
      ensures a in SyncedSlots(logs', synced', low) && At(logs', a) == At(logs, a)
    {
      assert a in Slots(logs, low);
    }
    SyncedStays(logs, synced, low, logs', synced', low);
    if synced' == synced[n := |logs'[n]|] {
      AllSynced(logs', synced', low, n);
    }
  }

  lemma LoggedUpTo(logs: Logs, low: nat, last: nat)
    requires NumbersUpTo(logs, low, last)
    ensures forall e :: e in Logged(logs, low) ==> e.key.sn <= last
  {
    forall e | e in Logged(logs, low) ensures e.key.sn <= last {
      var a :| a in Slots(logs, low) && e in Written(At(logs, a));
      WrittenRange(At(logs, a), e);
    }
  }

  lemma GrownUnique(
    logs: Logs, low: nat, known: set<Entry>, last: nat, n: nat, r: Record, logs': Logs)
    requires n in logs && low <= n && logs' == logs[n := logs[n] + [r]] && r.Record? && r.first == last + 1
    requires NumbersUpTo(logs, low, last) && KeyUnique(known + Logged(logs, low))
    requires forall e :: e in known ==> e.key.sn <= last
    ensures KeyUnique(known + Logged(logs', low))
  {
    AppendedEntries(logs, low, n, r, logs');
    LoggedUpTo(logs, low, last);
    L.BatchUnique(r.ops, r.first);
    forall e | e in Written(r) ensures last < e.key.sn {
      WrittenRange(r, e);
    }
  }

  lemma GrownHides(
    logs: Logs, synced: map<nat, nat>, low: nat, known: set<Entry>, last: nat, n: nat, r: Record, logs': Logs,
    synced': map<nat, nat>)
    requires Grown(logs, synced, n, r, logs', synced') && low <= n && r.first == last + 1
    requires NothingHidden(logs, synced, low, known) && forall e :: e in known ==> e.key.sn <= last
    ensures NothingHidden(logs', synced', low, known)
  {
    AppendedSlots(logs, low, n, r, logs');
    GrownSynced(logs, synced, low, n, r, logs', synced');
    forall a, x, e | a in Slots(logs', low) && x in Written(At(logs', a)) && e in known && Hides(x, e)
      ensures Outdone(Written(At(logs', a)) + Synced(logs', synced', low), e)
    {
      if a in Slots(logs, low) {
        OutdoneMore(
          Written(At(logs, a)) + Synced(logs, synced, low), e, Written(At(logs', a)) + Synced(logs', synced', low));
      } else {
        WrittenRange(r, x);
      }
    }
  }

  /** Appending a record numbered after everything keeps the logs readable. */
  lemma GrownReads(
    logs: Logs, synced: map<nat, nat>, low: nat, known: set<Entry>, last: nat, n: nat, r: Record, logs': Logs,
    synced': map<nat, nat>)
    requires Grown(logs, synced, n, r, logs', synced') && low <= n && forall m :: m in logs ==> m <= n
    requires LogsRead(logs, synced, low, known) && NumbersUpTo(logs, low, last)
    requires r.first == last + 1 && Past(r) <= MAX_SEQUENCE && forall e :: e in known ==> e.key.sn <= last
    ensures LogsRead(logs', synced', low, known) && NumbersUpTo(logs', low, last + |r.ops|)
  {
    AppendedOk(logs, low, n, r, logs', {}, last);
    GrownUnique(logs, low, known, last, n, r, logs');
    GrownHides(logs, synced, low, known, last, n, r, logs', synced');
  }

  /** What a write adds to memory: all of its record, or nothing if it failed. */
  ghost predicate Gains(core: L.State, r: Record, gained: set<Entry>, core': L.State) {
    && r.Record? && r.first == core.lastSequence + 1 && core.lastSequence + |r.ops| < MAX_SEQUENCE
    && (gained == Written(r) || gained == {})
    && core' == core.(
         history := core.history + gained, mem := core.mem + gained, lastSequence := core.lastSequence + |r.ops|)
  }

  lemma KnownUpTo(mf: Manifest, last: nat)
    requires (exists v :: Describes(mf, v)) && mf.lastSequence <= last
    ensures forall e :: e in Known(mf) ==> e.key.sn <= last
  {
  }

  lemma GainsDisk(d: Disk, n: nat, r: Record, last: nat, d': Disk)
    requires DiskReads(d) && d.manifest.logNumber <= n && (forall m :: m in d.logs ==> m <= n)
    requires Grown(d.logs, d.synced, n, r, d'.logs, d'.synced) && d'.manifest == d.manifest
    requires d.manifest.lastSequence <= last && NumbersUpTo(d.logs, d.manifest.logNumber, last)
    requires r.first == last + 1 && Past(r) <= MAX_SEQUENCE
    ensures DiskReads(d') && NumbersUpTo(d'.logs, d.manifest.logNumber, last + |r.ops|)
  {
    KnownUpTo(d.manifest, last);
    GrownReads(d.logs, d.synced, d.manifest.logNumber, Known(d.manifest), last, n, r, d'.logs, d'.synced);
  }

  lemma GainsLinked(
    d: Disk, m: Memory, r: Record, gained: set<Entry>, d': Disk, m': Memory, sure: set<Entry>, sure': set<Entry>)
    requires Linked(d, m, sure) && Gains(m.core, r, gained, m'.core) && d'.manifest == d.manifest && m'.calls == m.calls
    requires Logged(d'.logs, d.manifest.logNumber) == Logged(d.logs, d.manifest.logNumber) + Written(r)
    requires NumbersUpTo(d'.logs, d.manifest.logNumber, m'.core.lastSequence) && sure' <= sure + gained
    ensures Linked(d', m', sure')
  {
  }

  /** What is acknowledged as certain is certain. */
  lemma GainsAccounts(
    d: Disk, n: nat, r: Record, d': Disk, sure: set<Entry>, sure': set<Entry>, written: set<Entry>)
    requires Accounts(d, sure, written) && Grown(d.logs, d.synced, n, r, d'.logs, d'.synced)
    requires d.manifest.logNumber <= n
    requires d'.manifest == d.manifest
    requires sure' == sure || (sure' == sure + Written(r) && d'.synced == d.synced[n := |d'.logs[n]|])
    ensures Accounts(d', sure', written + Written(r))
  {
    AppendedEntries(d.logs, d.manifest.logNumber, n, r, d'.logs);
    GrownSynced(d.logs, d.synced, d.manifest.logNumber, n, r, d'.logs, d'.synced);
  }

  lemma GainsBase(
    logs: Logs, base: nat, known: set<Entry>, last: nat, written: set<Entry>, n: nat, r: Record, logs': Logs)
    requires BaseLogged(logs, base, known, last, written) && n in logs && base <= n && logs' == logs[n := logs[n] + [r]]
    requires r.Record? && r.first == last + 1 && Past(r) <= MAX_SEQUENCE && forall m :: m in logs ==> m <= n
    requires forall e :: e in known ==> e.key.sn <= last
    ensures BaseLogged(logs', base, known, last + |r.ops|, written + Written(r))
  {
    AppendedOk(logs, base, n, r, logs', {}, last);
    GrownUnique(logs, base, known, last, n, r, logs');
    AppendedEntries(logs, base, n, r, logs');
  }

  lemma GainsMems(
    d: Disk, m: Memory, r: Record, gained: set<Entry>, core': L.State, d': Disk, m': Memory)
    requires LogsKept(d, m) && MemLogged(d, m) && ImmLogged(d, m)
    requires NumbersUpTo(d.logs, d.manifest.logNumber, m.core.lastSequence)
    requires Gains(m.core, r, gained, core') && d'.manifest == d.manifest
    requires Grown(d.logs, d.synced, m.logFile, r, d'.logs, d'.synced)
    requires Numbered(d.logs, d.manifest.logNumber)
    requires forall e :: e in Known(d.manifest) + L.ImmEntries(m.core) ==> e.key.sn <= m.core.lastSequence
    requires m'.core == core' && m'.calls == m.calls && m'.doubtful == m.doubtful && m'.logFile == m.logFile
    ensures MemLogged(d', m') && ImmLogged(d', m')
  {
    var es := Known(d.manifest) + L.ImmEntries(m.core);
    LoggedFromHigher(d.logs, d.manifest.logNumber, m.logFile);
    ShortenedOk(d.logs, d.manifest.logNumber, d.logs, m.logFile, {}, m.core.lastSequence);
    AppendedOk(d.logs, m.logFile, m.logFile, r, d'.logs, es, m.core.lastSequence);
    AppendedEntries(d.logs, d.manifest.logNumber, m.logFile, r, d'.logs);
  }

  lemma GainsSure(
    logs: Logs, synced: map<nat, nat>, n: nat, r: Record, logs': Logs, synced': map<nat, nat>, mem: set<Entry>,
    gained: set<Entry>, history: set<Entry>, sure: set<Entry>, sure': set<Entry>)
    requires Grown(logs, synced, n, r, logs', synced') && mem <= LogEntries(logs[n]) && gained <= Written(r)
    requires sure <= history && Written(r) !! history && sure * mem <= Synced(logs, synced, n)
    requires sure' == sure || (sure' == sure + Written(r) && synced' == synced[n := |logs'[n]|])
    ensures sure' * (mem + gained) <= Synced(logs', synced', n)
  {
    GrownSynced(logs, synced, n, n, r, logs', synced');
    AppendedEntries(logs, n, n, r, logs');
  }

  lemma WriteHistory(known: set<Entry>, imm: set<Entry>, mem: set<Entry>, added: set<Entry>)
    ensures known + imm + mem + added == known + imm + (mem + added)
  {
  }

  lemma GainsAttached(
    d: Disk, m: Memory, r: Record, gained: set<Entry>, core': L.State, d': Disk, m': Memory, sure: set<Entry>,
    sure': set<Entry>, written: set<Entry>)
    requires Attached(d, m, sure, written) && LogsKept(d, m) && m.logNumber <= m.logFile
    requires Gains(m.core, r, gained, core')
    requires Numbered(d.logs, d.manifest.logNumber) && NumbersUpTo(d.logs, d.manifest.logNumber, m.core.lastSequence)
    requires L.WellWritten(m.core.history, m.core.lastSequence) && Written(r) !! m.core.history
    requires sure <= m.core.history
    requires Grown(d.logs, d.synced, m.logFile, r, d'.logs, d'.synced) && d'.manifest == d.manifest
    requires m' == m.(core := core', admitted := m'.admitted, bgError := m'.bgError)
    requires sure' == sure || (sure' == sure + Written(r) && d'.synced == d.synced[m.logFile := |d'.logs[m.logFile]|])
    ensures Attached(d', m', sure', written + Written(r))
  {
    WriteHistory(Known(d.manifest), L.ImmEntries(m.core), m.core.mem, gained);
    GainsBase(d.logs, m.logNumber, Known(d.manifest), m.core.lastSequence, written, m.logFile, r, d'.logs);
    GainsMems(d, m, r, gained, core', d', m');
    GainsSure(d.logs, d.synced, m.logFile, r, d'.logs, d'.synced, m.core.mem, gained, m.core.history, sure, sure');
    if Astray(m') {
      var w :| Shadow(d.manifest, m.core, w);
      assert Shadow(d'.manifest, core', w);
    }
  }

  lemma GainsReads(
    d: Disk, m: Memory, r: Record, gained: set<Entry>, d': Disk, m': Memory, sure: set<Entry>, sure': set<Entry>,
    written: set<Entry>)
    requires DiskReads(d) && Accounts(d, sure, written) && Linked(d, m, sure) && LogsKept(d, m)
    requires m.tail != CutOff ==> Attached(d, m, sure, written)
    requires L.WellWritten(m.core.history, m.core.lastSequence) && Written(r) !! m.core.history
    requires Grown(d.logs, d.synced, m.logFile, r, d'.logs, d'.synced) && d'.manifest == d.manifest
    requires Gains(m.core, r, gained, m'.core)
    requires m' == m.(core := m'.core, admitted := m'.admitted, bgError := m'.bgError)
    requires sure' <= sure + gained
    requires sure' == sure || (sure' == sure + Written(r) && d'.synced == d.synced[m.logFile := |d'.logs[m.logFile]|])
    ensures DiskReads(d') && Accounts(d', sure', written + Written(r)) && Linked(d', m', sure')
    ensures m'.tail != CutOff ==> Attached(d', m', sure', written + Written(r))
  {
    GainsDisk(d, m.logFile, r, m.core.lastSequence, d');
    GainsAccounts(d, m.logFile, r, d', sure, sure', written);
    AppendedEntries(d.logs, d.manifest.logNumber, m.logFile, r, d'.logs);
    GainsLinked(d, m, r, gained, d', m', sure, sure');
    if m.tail != CutOff {
      GainsAttached(d, m, r, gained, m'.core, d', m', sure, sure', written);
    }
  }

  /** No number of the batch is taken. */
  ghost predicate Unwritten(core: L.State, batch: seq<L.Op>) {
    && L.WellWritten(core.history, core.lastSequence) && core.lastSequence + |batch| < MAX_SEQUENCE
    && Written(Record(core.lastSequence + 1, batch)) !! core.history
  }

  lemma WriteFresh(core: L.State, batch: seq<L.Op>)
    requires L.Inv(core) && core.lastSequence + |batch| < MAX_SEQUENCE
    ensures Unwritten(core, batch)
  {
    L.BatchFresh(core, batch);
  }

  /** What a write step does, whether it fails or not. */
  ghost predicate Gaining(s: State, r: Record, gained: set<Entry>, s': State) {
    && s.up.Some? && s'.up.Some?
    && var d, d', m, m' := s.disk, s'.disk, s.up.value, s'.up.value;
    && Grown(d.logs, d.synced, m.logFile, r, d'.logs, d'.synced) && d'.manifest == d.manifest
    && Gains(m.core, r, gained, m'.core) && m' == m.(core := m'.core, admitted := m'.admitted, bgError := m'.bgError)
    && s.acked <= s'.acked && s'.sure <= s.sure + gained && s'.sure <= s.sure + s'.acked
    && s'.written == s.written + Written(r)
    && (s'.sure == s.sure || (s'.sure == s.sure + Written(r)
         && d'.synced == d.synced[m.logFile := |d'.logs[m.logFile]|]))
  }

  lemma WriteGains(s: State, batch: seq<L.Op>, sync: bool, s': State)
    requires Write(s, batch, sync, s') && LogsKept(s.disk, s.up.value) && LogsOk(s.disk)
    ensures var r := Record(s.up.value.core.lastSequence + 1, batch); Gaining(s, r, Written(r), s')
  {
    AppendedGrown(s.disk, s.up.value.logFile, Record(s.up.value.core.lastSequence + 1, batch), sync);
  }

  lemma WriteFailsGains(s: State, batch: seq<L.Op>, appended: bool, s': State)
    requires WriteFails(s, batch, appended, s') && LogsKept(s.disk, s.up.value) && LogsOk(s.disk)
    ensures Gaining(s, Record(s.up.value.core.lastSequence + 1, batch), {}, s')
  {
    var n, r := s.up.value.logFile, Record(s.up.value.core.lastSequence + 1, batch);
    AppendedGrown(s.disk, n, r, false);
    AppendedGrown(TornBy(s.disk, n), n, r, false);
  }

  lemma GainingReads(s: State, r: Record, gained: set<Entry>, s': State)
    requires ReadInv(s) && Gaining(s, r, gained, s') && LogsKept(s.disk, s.up.value) && L.Inv(s'.up.value.core)
    requires L.WellWritten(s.up.value.core.history, s.up.value.core.lastSequence)
    requires Written(r) !! s.up.value.core.history
    ensures ReadInv(s')
  {
    GainsReads(s.disk, s.up.value, r, gained, s'.disk, s'.up.value, s.sure, s'.sure, s.written);
  }

  lemma WriteReads(s: State, batch: seq<L.Op>, sync: bool, s': State)
    requires ReadInv(s) && Write(s, batch, sync, s') && LogsKept(s.disk, s.up.value) && LogsOk(s.disk)
    ensures ReadInv(s')
  {
    var r := Record(s.up.value.core.lastSequence + 1, batch);
    IsShadowed(s);
    WriteFresh(s.up.value.core, batch);
    WriteGains(s, batch, sync, s');
    L.WriteKeepsInv(s.up.value.core, batch, s'.up.value.core);
    GainingReads(s, r, Written(r), s');
  }

  lemma WriteFailsReads(s: State, batch: seq<L.Op>, appended: bool, s': State)
    requires ReadInv(s) && WriteFails(s, batch, appended, s') && LogsKept(s.disk, s.up.value) && LogsOk(s.disk)
    ensures ReadInv(s')
  {
    IsShadowed(s);
    WriteFresh(s.up.value.core, batch);
    WriteFailsGains(s, batch, appended, s');
    L.FailedWriteKeepsInv(s.up.value.core, |batch|, s'.up.value.core);
    GainingReads(s, Record(s.up.value.core.lastSequence + 1, batch), {}, s');
  }

  // ----- a new log and memtable

  lemma SameSlots(
    logs: Logs, synced: map<nat, nat>, low: nat, logs': Logs, synced': map<nat, nat>, known: set<Entry>)
    requires Shortened(logs, low, logs', low) && Shortened(logs', low, logs, low)
    requires Synced(logs, synced, low) <= Synced(logs', synced', low)
    ensures Logged(logs', low) == Logged(logs, low) && (Numbered(logs, low) ==> Numbered(logs', low))
    ensures LogsRead(logs, synced, low, known) ==> LogsRead(logs', synced', low, known)
    ensures forall last :: NumbersUpTo(logs, low, last) ==> NumbersUpTo(logs', low, last)
  {
    SameLogged(logs, low, logs');
    SameLogged(logs', low, logs);
    if LogsRead(logs, synced, low, known) {
      NothingHiddenStays(logs, synced, low, logs', synced', low, known);
    }
  }

  lemma SameLogged(logs: Logs, low: nat, logs': Logs)
    requires Shortened(logs, low, logs', low)
    ensures Logged(logs', low) <= Logged(logs, low)
  {
    forall e | e in Logged(logs', low) ensures e in Logged(logs, low) {
      var a :| a in Slots(logs', low) && e in Written(At(logs', a));
      assert a in Slots(logs, low) && At(logs', a) == At(logs, a);
    }
  }

  lemma EmptyLogReads(d: Disk, n: nat, d': Disk, sure: set<Entry>, written: set<Entry>)
    requires DiskReads(d) && Accounts(d, sure, written) && n !in d.logs
    requires d'.logs == d.logs[n := []] && d'.synced == d.synced[n := 0] && d'.manifest == d.manifest
    ensures DiskReads(d') && Accounts(d', sure, written)
  {
    var low := d.manifest.logNumber;
    NewLog(d.logs, d.synced, low, n, d'.logs, d'.synced);
    SameSlots(d.logs, d.synced, low, d'.logs, d'.synced, Known(d.manifest));
  }

  lemma EmptyLogBase(
    logs: Logs, synced: map<nat, nat>, base: nat, known: set<Entry>, last: nat, written: set<Entry>, n: nat,
    logs': Logs,
    synced': map<nat, nat>)
    requires BaseLogged(logs, base, known, last, written) && n !in logs && logs' == logs[n := []]
    requires synced' == synced[n := 0]
    ensures BaseLogged(logs', base, known, last, written)
  {
    NewLog(logs, synced, base, n, logs', synced');
    SameSlots(logs, synced, base, logs', synced', known);
  }

  /** The records of the current log are later than what is in the manifest and in imm_. */
  lemma MemLater(d: Disk, m: Memory)
    requires MemLogged(d, m) && m.logFile in d.logs
    ensures L.Later(m.core.mem, Known(d.manifest) + L.ImmEntries(m.core))
    ensures m.core.mem <= Logged(d.logs, m.logFile)
  {
    TopLogged(d.logs, m.logFile);
    LoggedAfter(d.logs, m.logFile, Known(d.manifest) + L.ImmEntries(m.core));
  }

  lemma SwitchAttached(s: State, s': State)
    requires SwitchMemTable(s, s') && LogsKept(s.disk, s.up.value) && Attached(s.disk, s.up.value, s.sure, s.written)
    requires CallOk(s.disk, s.up.value, Only(s.up.value)) && !s.up.value.doubtful
    requires Logged(s'.disk.logs, s.disk.manifest.logNumber) == Logged(s.disk.logs, s.disk.manifest.logNumber)
    requires s.disk.manifest.logNumber <= s.up.value.logFile
    ensures Attached(s'.disk, s'.up.value, s'.sure, s'.written)
  {
    var d, d', m := s.disk, s'.disk, s.up.value;
    TopLog(d'.logs, m.nextFile);
    MemLater(d, m);
    LoggedFromHigher(d.logs, d.manifest.logNumber, m.logFile);
    EmptyLogBase(
      d.logs, d.synced, m.logNumber, Known(d.manifest), m.core.lastSequence, s.written, m.nextFile, d'.logs, d'.synced);
    assert L.ImmEntries(m.core) == {} && L.ImmEntries(s'.up.value.core) == m.core.mem;
    assert !(Only(m).Logging? && Only(m).work.Flushing?);
  }

  lemma SwitchLinked(d: Disk, m: Memory, d': Disk, m': Memory, sure: set<Entry>)
    requires Linked(d, m, sure) && d'.manifest == d.manifest && m'.calls == m.calls
    requires Logged(d'.logs, d.manifest.logNumber) == Logged(d.logs, d.manifest.logNumber)
    requires NumbersUpTo(d'.logs, d.manifest.logNumber, m.core.lastSequence)
    requires m'.core == m.core.(mem := m'.core.mem, imm := m'.core.imm) && m.core.imm.None?
    requires !(Only(m).Logging? && Only(m).work.Flushing?)
    ensures Linked(d', m', sure)
  {
  }

  lemma SwitchReads(s: State, s': State)
    requires ReadInv(s) && SwitchMemTable(s, s') && LogsKept(s.disk, s.up.value) && !s.up.value.doubtful
    requires CallOk(s.disk, s.up.value, Only(s.up.value))
    ensures ReadInv(s')
  {
    var d, d', m := s.disk, s'.disk, s.up.value;
    IsShadowed(s);
    EmptyLogReads(d, m.nextFile, d', s.sure, s.written);
    NewLog(d.logs, d.synced, d.manifest.logNumber, m.nextFile, d'.logs, d'.synced);
    SameSlots(d.logs, d.synced, d.manifest.logNumber, d'.logs, d'.synced, Known(d.manifest));
    SwitchLinked(d, m, d', s'.up.value, s.sure);
    if m.tail != CutOff {
      SwitchAttached(s, s');
    }
    L.SwitchKeepsInv(m.core, s'.up.value.core);
  }
}
