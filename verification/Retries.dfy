/** Records that do not fit, and a manifest that is spoilt, can come about in clean steps of the code. */
module Retries {
  import opened Options
  import opened Keys
  import opened Version
  import opened Inputs
  import opened Selection
  import opened Compaction
  import opened Disks
  import opened Durability
  import opened ReadInvariants
  import opened QuietSteps
  import opened LandingSteps
  import opened DurableReads
  import opened Survival
  import opened Landings
  import L = Lsm

  /** The same table under another number fits where the first did. */
  lemma RenumberedFits(core: L.State, level: nat, f: FileMeta, version: Levels, n: nat)
    returns (g: FileMeta, version': Levels)
    requires Fits(core, level, f, version) && L.ImmEntries(core) != {}
    ensures g == f.(number := n) && Fits(core, level, g, version')
  {
    g := f.(number := n);
    var files := HoldsExists(Files(core.version[level]) + {g});
    version' := core.version[level := files];
    assert Ent(g) == Ent(f);
  }

  /** A flush from inside the merge loop has its record in the manifest file. */
  ghost predicate NestedLanded(s: State, i: nat) {
    && Running(s, i) && FlushLanded(s.up.value.calls[i]) && s.up.value.calls[i].work.within.Some?
    && !s.up.value.doubtful && s.up.value.tail == Whole && L.ImmEntries(s.up.value.core) != {}
  }

  /** The failure of a nested flush, and the call back at its next flush. */
  lemma RetryBegins(s: State) returns (s1: State, s2: State)
    requires NestedLanded(s, 0) && s.up.value.calls == [Only(s.up.value)]
    ensures Fails(s, 0, s1) && FlushBegin(s1, 0, s2)
    ensures s2.disk == s.disk && s2.up.Some? && s2.up.value.core == s.up.value.core && s2.up.value.tail == Whole
    ensures Only(s2.up.value) == Building(s.up.value.nextFile, Only(s.up.value).work.within)
    ensures s2.up.value.calls == [Only(s2.up.value)]
  {
    s1 := s.(up := Some(Failed(s.up.value, 0)));
    var m1 := s1.up.value;
    s2 := s1.(up := Some(
      Goes(m1, 0, Building(m1.nextFile, Some(m1.calls[0].outs))).(
        pending := m1.pending + {m1.nextFile}, nextFile := m1.nextFile + 1)));
  }

  lemma RetryLands(s: State, level: nat, g: FileMeta, version: Levels) returns (s1: State, s2: State)
    requires s.up.Some? && s.up.value.calls == [Only(s.up.value)] && Only(s.up.value).Building?
    requires s.up.value.tail == Whole
    requires g.number == Only(s.up.value).number && Fits(s.up.value.core, level, g, version)
    requires L.ImmEntries(s.up.value.core) != {}
    ensures FlushBuilt(s, 0, level, g, version, s1) && Lands(s1, 0, true, s2)
    ensures s2.disk.manifest.files == s.disk.manifest.files + {Place(level, g)}
  {
    var m := s.up.value;
    var edit := Edit({}, {Place(level, g)}, m.logFile, m.nextFile, m.core.lastSequence, LeftOut(m.core, version));
    s1 := s.(
      disk := s.disk.(tables := s.disk.tables[g.number := g.entries]),
      up := Some(Goes(m, 0, Logging(Flushing(level, g, Only(m).within), version, edit, false))
                 .(pending := m.pending - {g.number})));
    s2 := s1.(
      disk := s1.disk.(manifest := Apply(s1.disk.manifest, edit)),
      up := Some(Goes(s1.up.value, 0, s1.up.value.calls[0].(landed := true))));
    assert s.disk.manifest.files - {} == s.disk.manifest.files;
  }

  lemma LandedFile(s: State)
    requires FileInv(s) && NestedLanded(s, 0)
    ensures var work := s.up.value.calls[0].work;
      && Fits(s.up.value.core, work.level, work.file, s.up.value.calls[0].version)
      && Place(work.level, work.file) in s.disk.manifest.files && work.file.number < s.up.value.nextFile
  {
    TheCall(s, 0);
    var work := Only(s.up.value).work;
    AddedPlaces(s.up.value.core.version, work.level, work.file, Only(s.up.value).version);
  }

  /** A flush that failed although its record landed is tried again from inside the merge loop,
      under a new number. Below the first level the second table comes to lie over the first
      one, four steps on: no well-formed version has the manifest's tables any more. */
  lemma RetryIsPossible(s: State, i: nat)
    returns (level: nat, g: FileMeta, version: Levels, s1: State, s2: State, s3: State, s4: State)
    requires FileInv(s) && NestedLanded(s, i) && s.up.value.calls[i].work.level > 0
    ensures CallNext(s, i, FailsStep, s1) && CallNext(s1, i, FlushBeginStep, s2)
    ensures CallNext(s2, i, FlushBuiltStep(level, g, version), s3) && CallNext(s3, i, LandsStep(true), s4)
    ensures Malformed(s4.disk.manifest.files)
  {
    TheCall(s, i);
    LandedFile(s);
    var m := s.up.value;
    var f := Only(m).work.file;
    level := Only(m).work.level;
    g, version := RenumberedFits(m.core, level, f, Only(m).version, m.nextFile);
    s1, s2 := RetryBegins(s);
    s3, s4 := RetryLands(s2, level, g, version);
    CopiesMalformed(s4.disk.manifest.files, level, f, g);
  }

  /** A flush from inside the merge loop is about to append its record. */
  ghost predicate NestedLogging(s: State, i: nat) {
    && Running(s, i) && s.up.value.calls[i].Logging? && !s.up.value.calls[i].landed
    && s.up.value.calls[i].work.Flushing? && s.up.value.calls[i].work.within.Some?
    && s.up.value.tail == Whole && L.ImmEntries(s.up.value.core) != {}
  }

  lemma LoggingFits(s: State)
    requires FileInv(s) && NestedLogging(s, 0)
    ensures var m := s.up.value; Fits(m.core, Only(m).work.level, Only(m).work.file, Only(m).version)
  {
    TheCall(s, 0);
  }

  /** Its append fails, and the merge loop comes back to the flush. */
  lemma TearBegins(s: State) returns (s1: State, s2: State)
    requires NestedLogging(s, 0) && s.up.value.calls == [Only(s.up.value)]
    ensures Fails(s, 0, s1) && FlushBegin(s1, 0, s2) && s2.acked == s.acked
    ensures s2.up.Some? && s2.up.value.core == s.up.value.core && s2.up.value.tail == Torn
    ensures Only(s2.up.value) == Building(s.up.value.nextFile, Only(s.up.value).work.within)
    ensures s2.up.value.calls == [Only(s2.up.value)]
  {
    s1 := s.(disk := Tried(s.disk, s.up.value), up := Some(Failed(s.up.value, 0)));
    var m1 := s1.up.value;
    var within := Some(m1.calls[0].outs);
    s2 := s1.(up := Some(
      Goes(m1, 0, Building(m1.nextFile, within)).(
        pending := m1.pending + {m1.nextFile}, nextFile := m1.nextFile + 1)));
  }

  /** The second append is tried behind the first, and fails as well. */
  lemma TearAgain(s: State, level: nat, g: FileMeta, version: Levels)
    returns (s1: State, s2: State)
    requires s.up.Some? && s.up.value.calls == [Only(s.up.value)] && Only(s.up.value).Building?
    requires g.number == Only(s.up.value).number && Fits(s.up.value.core, level, g, version)
    requires L.ImmEntries(s.up.value.core) != {} && s.up.value.tail == Torn
    ensures FlushBuilt(s, 0, level, g, version, s1) && Fails(s1, 0, s2) && TriedBehindTear(s1, Calling(0, FailsStep))
    ensures s2.disk.frayed && s2.acked == s.acked
  {
    var m := s.up.value;
    var edit := Edit({}, {Place(level, g)}, m.logFile, m.nextFile, m.core.lastSequence, LeftOut(m.core, version));
    s1 := s.(
      disk := s.disk.(tables := s.disk.tables[g.number := g.entries]),
      up := Some(Goes(m, 0, Logging(Flushing(level, g, Only(m).within), version, edit, false))
                 .(pending := m.pending - {g.number})));
    s2 := s1.(disk := Tried(s1.disk, s1.up.value), up := Some(Failed(s1.up.value, 0)));
  }

  /** The merge loop does not look at the background error, so a flush whose append to the
      manifest failed is tried again behind the tear. Four clean steps on, none of them a write, a
      crash may leave a manifest that no recovery gets through (`Survival.SpoiltForGood`). */
  lemma SpoilIsPossible(s: State, i: nat, kept: Logs, down: State)
    returns (level: nat, g: FileMeta, version: Levels, s1: State, s2: State, s3: State, s4: State, s5: State)
    requires FileInv(s) && NestedLogging(s, i) && Crash(s, kept, false, down)
    ensures CallNext(s, i, FailsStep, s1) && CallNext(s1, i, FlushBeginStep, s2)
    ensures CallNext(s2, i, FlushBuiltStep(level, g, version), s3) && CallNext(s3, i, FailsStep, s4)
    ensures Clean(s, Calling(i, FailsStep)) && Clean(s1, Calling(i, FlushBeginStep))
    ensures Clean(s2, Calling(i, FlushBuiltStep(level, g, version))) && Clean(s3, Calling(i, FailsStep))
    ensures Crash(s4, kept, true, s5) && s5.disk.spoilt && s5.up.None? && s5.acked == s.acked
  {
    TheCall(s, i);
    LoggingFits(s);
    var m := s.up.value;
    level := Only(m).work.level;
    g, version := RenumberedFits(m.core, level, Only(m).work.file, Only(m).version, m.nextFile);
    s1, s2 := TearBegins(s);
    s3, s4 := TearAgain(s2, level, g, version);
    s5 := s4.(disk := s4.disk.(logs := kept, spoilt := true), up := None);
  }

  lemma ReturnFails(s: State, outputs: seq<Output>, version: Levels) returns (s1: State, s2: State)
    requires NestedLanded(s, 0) && s.up.value.calls == [Only(s.up.value)]
    requires var m := s.up.value; var work := Compacting(outputs, Only(m).work.within.value);
      L.FinishCompaction(m.core, outputs, work.outs, Installs(m.core, work, version, m.nextFile))
    ensures Fails(s, 0, s1) && CompactLog(s1, 0, outputs, version, s2)
    ensures s2.disk == s.disk && s2.up.Some? && s2.up.value.logNumber == s.up.value.logNumber
    ensures s2.up.value.tail == Whole
    ensures s2.up.value.calls == [Only(s2.up.value)] && s2.up.value.doubtful && s2.up.value.core == s.up.value.core
    ensures Only(s2.up.value).Logging? && Only(s2.up.value).work.Compacting? && !Only(s2.up.value).landed
    ensures Only(s2.up.value).edit.logNumber == s.up.value.logNumber
    ensures s2.sure == s.sure && s2.written == s.written
  {
    s1 := s.(up := Some(Failed(s.up.value, 0)));
    var m1 := s1.up.value;
    var work := Compacting(outputs, m1.calls[0].outs);
    var c := m1.core.job.value.c;
    var edit := Edit(
      InputPlaces(c), PlacedAt(c.level + 1, work.outs), m1.logNumber, m1.nextFile, m1.core.lastSequence,
      LeftOut(m1.core, version));
    s2 := s1.(up := Some(Goes(m1, 0, Logging(work, version, edit, false))));
  }

  lemma ReturnInv(s: State, outputs: seq<Output>, version: Levels, s1: State, s2: State)
    requires Inv(s) && Fails(s, 0, s1) && CompactLog(s1, 0, outputs, version, s2)
    ensures Inv(s2)
  {
    NextReads(s, Calling(0, FailsStep), s1);
    NextReads(s1, Calling(0, CompactLogStep(outputs, version)), s2);
  }

  /** What the landed record of a compaction makes of the logs that come back. */
  lemma ReturnHides(s: State, s': State, a: Slot, x: Entry, e: Entry)
    requires Inv(s) && Single(s, 0) && Lands(s, 0, true, s') && Landing(s.disk, s.up.value)
    requires s.up.value.doubtful && Only(s.up.value).work.Compacting?
    requires MayHide(s.disk, s.up.value.logNumber, a, x, e) && e in Known(s.disk.manifest)
    ensures DiskOk(s'.disk) && (exists v :: Describes(s'.disk.manifest, v))
    ensures Numbered(s'.disk.logs, s'.disk.manifest.logNumber)
    ensures !NothingHidden(s'.disk.logs, s'.disk.synced, s'.disk.manifest.logNumber, Known(s'.disk.manifest))
  {
    var d, m := s.disk, s.up.value;
    AstrayParts(s);
    ReturnedWell(d, m, s.sure, s.written);
    LandingNumbers(d, m);
    LandsFiles(s, 0, true, s');
  }

  lemma LandedImm(s: State)
    requires Inv(s) && NestedLanded(s, 0) && s.up.value.calls == [Only(s.up.value)]
    ensures L.ImmEntries(s.up.value.core) <= Known(s.disk.manifest)
  {
  }

  lemma ReturnLanding(s: State)
    requires Inv(s) && Single(s, 0) && Only(s.up.value).Logging? && !Only(s.up.value).landed && s.up.value.tail == Whole
    requires Only(s.up.value).work.Compacting? && s.up.value.core.job.Some? ==> NoneLost(s.up.value.core)
    ensures Landing(s.disk, s.up.value)
  {
  }

  lemma LandsRead(s: State) returns (s': State)
    requires Single(s, 0) && Only(s.up.value).Logging? && !Only(s.up.value).landed && s.up.value.tail == Whole
    ensures Lands(s, 0, true, s') && s'.disk.spoilt == s.disk.spoilt
  {
    s' := s.(
      disk := s.disk.(manifest := Apply(s.disk.manifest, Only(s.up.value).edit)), up := Some(Landed(s.up.value)));
  }

  /** The same failure, and the merge loop then ends: its record takes the log number back to
      the log of the flushed memtable. If a power failure can take from that log a newer entry
      of a user key and leave an older one, a state follows in which replay may hide the newer
      one, which is in a table (and `HiddenIsMisread` says what is then read). */
  lemma ReturnIsPossible(
    s: State, i: nat, outputs: seq<Output>, version: Levels, a: Slot, x: Entry, e: Entry)
    returns (s1: State, s2: State, s3: State)
    requires Inv(s) && NestedLanded(s, i) && s.up.value.core.job.Some? && NoneLost(s.up.value.core)
    requires var m := s.up.value; var work := Compacting(outputs, m.calls[i].work.within.value);
      L.FinishCompaction(m.core, outputs, work.outs, Installs(m.core, work, version, m.nextFile))
    requires e in L.ImmEntries(s.up.value.core) && MayHide(s.disk, s.up.value.logNumber, a, x, e)
    ensures CallNext(s, i, FailsStep, s1) && CallNext(s1, i, CompactLogStep(outputs, version), s2)
    ensures CallNext(s2, i, LandsStep(true), s3) && s3.disk.spoilt == s.disk.spoilt
    ensures DiskOk(s3.disk) && (exists v :: Describes(s3.disk.manifest, v))
    ensures Numbered(s3.disk.logs, s3.disk.manifest.logNumber)
    ensures !NothingHidden(s3.disk.logs, s3.disk.synced, s3.disk.manifest.logNumber, Known(s3.disk.manifest))
  {
    IsSingle(s, i);
    LandedImm(s);
    s1, s2 := ReturnFails(s, outputs, version);
    ReturnInv(s, outputs, version, s1, s2);
    ReturnLanding(s2);
    s3 := LandsRead(s2);
    ReturnHides(s2, s3, a, x, e);
  }
}
