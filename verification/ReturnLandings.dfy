/** A compaction lands beside such copies and takes the log number back; and all landings. */
module ReturnLandings {
  import opened Options
  import opened Keys
  import opened Version
  import opened Inputs
  import opened Selection
  import opened Compaction
  import opened Install
  import opened Disks
  import opened Durability
  import opened ReadInvariants
  import opened QuietSteps
  import opened InstallSteps
  import opened LandingSteps
  import opened CopyLandings
  import L = Lsm

  // ----- the compaction lands beside such copies

  lemma UpperPlaces(v: Levels, w: Levels, level: nat)
    requires Placed(v) <= Placed(w)
    ensures UpperEntries(v, level) <= UpperEntries(w, level)
  {
    forall e | e in UpperEntries(v, level) ensures e in UpperEntries(w, level) {
      var l :| 0 <= l < level && l < |v| && e in LevelEntries(v[l]);
      var i :| 0 <= i < |v[l]| && e in v[l][i].entries;
      FilePlace(v, l, i);
      var j :| 0 <= j < |w[l]| && w[l][j] == v[l][i];
      assert e in LevelEntries(w[l]);
    }
  }

  lemma DeeperPlaces(v: Levels, w: Levels, level: nat)
    requires Placed(v) <= Placed(w)
    ensures DeeperEntries(v, level) <= DeeperEntries(w, level)
  {
    forall e | e in DeeperEntries(v, level) ensures e in DeeperEntries(w, level) {
      var l :| level + 2 <= l < |v| && e in LevelEntries(v[l]);
      var i :| 0 <= i < |v[l]| && e in v[l][i].entries;
      FilePlace(v, l, i);
      var j :| 0 <= j < |w[l]| && w[l][j] == v[l][i];
      assert e in LevelEntries(w[l]);
    }
  }

  lemma SurroundingsPlaces(v: Levels, w: Levels, c: Inputs2)
    requires Placed(v) <= Placed(w) && c.level + 1 < |v| && c.level + 1 < |w|
    ensures var sv, sw := SurroundingsOf(v, c), SurroundingsOf(w, c);
      sv.above <= sw.above && sv.side <= sw.side && sv.deeper <= sw.deeper
  {
    UpperPlaces(v, w, c.level);
    RestGrows(v, w, c.level, c.in0);
    RestGrows(v, w, c.level + 1, c.in1);
    DeeperPlaces(v, w, c.level);
  }

  lemma LossCarries(
    sv: Surroundings, sw: Surroundings, m: seq<Entry>, snapshot: nat, picked: Levels, level: nat, k: UserKey)
    requires sv.above <= sw.above && sv.side <= sw.side && sv.deeper <= sw.deeper && KeyUnique(sw.side)
    requires forall x, e :: x in sw.side && e in m && x.key.user == e.key.user ==> x in sv.side
    requires TombstoneLost(sw, m, snapshot, picked, level, k)
    ensures TombstoneLost(sv, m, snapshot, picked, level, k)
  {
    var e :| e in m && e !in sw.above && IsNewest(Before(sw, m), k, snapshot, e)
      && Obsolete(e, snapshot, picked, level);
    assert e in SetOf(m) && IsNewest(Before(sv, m), k, snapshot, e);
    VisibleSame(sw.side, snapshot, sv.side, snapshot, k);
  }

  /** What is not lost of the engine's version is not lost of the manifest's. */
  lemma ShadowLoss(v: Levels, w: Levels, j: L.Job)
    requires Placed(v) <= Placed(w) && SideSame(w, v, j) && JobReady(w, j.picked, j.c, j.merged, j.snapshot)
    requires L.NothingLost(v, j)
    ensures L.NothingLost(w, j)
  {
    var sv, sw := SurroundingsOf(v, j.c), SurroundingsOf(w, j.c);
    SurroundingsPlaces(v, w, j.c);
    assert KeyUnique(Before(sw, j.merged)) && sw.side <= Before(sw, j.merged);
    forall k ensures !TombstoneLost(sw, j.merged, j.snapshot, j.picked, j.c.level, k) {
      if TombstoneLost(sw, j.merged, j.snapshot, j.picked, j.c.level, k) {
        LossCarries(sv, sw, j.merged, j.snapshot, j.picked, j.c.level, k);
      }
    }
  }

  lemma ReturnVersion(w: Levels, c: Inputs2, outs: seq<FileMeta>) returns (w': Levels)
    requires FromLevels(w, c)
    ensures Installed(w, c, outs, w')
  {
    var upper := HoldsExists(RemainingFiles(w[c.level], c.in0));
    var lower := HoldsExists(RemainingFiles(w[c.level + 1], c.in1) + Files(outs));
    w' := w[c.level := upper][c.level + 1 := lower];
  }

  lemma {:induction false} ReturnReads(w: Levels, j: L.Job, outputs: seq<Output>, outs: seq<FileMeta>, w': Levels)
    requires VersionOk(w) && JobReady(w, j.picked, j.c, j.merged, j.snapshot) && L.NothingLost(w, j)
    requires Installed(w, j.c, outs, w') && Materialized(outs, outputs)
    requires Flatten(outputs) == Kept(j.merged, |j.merged|, j.snapshot, j.picked, j.c.level)
    ensures VersionOk(w') && VersionEntries(w') <= VersionEntries(w)
    ensures forall k, t :: j.snapshot <= t ==> Visible(VersionEntries(w'), k, t) == Visible(VersionEntries(w), k, t)
  {
    L.FinishPreservesIff(w, j, outputs, outs, w');
  }

  lemma InputsPlaced(v: Levels, c: Inputs2)
    requires FromLevels(v, c)
    ensures InputPlaces(c) <= Placed(v)
  {
    forall f | f in c.in0 ensures Place(c.level, f) in Placed(v) {
      var i :| 0 <= i < |v[c.level]| && v[c.level][i] == f;
    }
    forall f | f in c.in1 ensures Place(c.level + 1, f) in Placed(v) {
      var i :| 0 <= i < |v[c.level + 1]| && v[c.level + 1][i] == f;
    }
  }

  /** What the compaction leaves out of its outputs is retired, and nothing else. */
  lemma ReturnKnown(
    files: set<Place>, retired: set<Entry>, v: set<Place>, v': set<Place>, deleted: set<Place>, added: set<Place>,
    dropped: set<Entry>)
    requires v <= files && deleted <= v && v' == v - deleted + added && dropped == PlaceEntries(v) - PlaceEntries(v')
    requires PlaceEntries(files - deleted + added) <= PlaceEntries(files)
    ensures PlaceEntries(files - deleted + added) + (retired + dropped) == PlaceEntries(files) + retired
  {
    forall e | e in PlaceEntries(files) ensures e in PlaceEntries(files - deleted + added) + dropped {
      var p :| p in files && e in p.file.entries;
      if p in deleted {
        assert p in v && e in PlaceEntries(v);
        if e in PlaceEntries(v') {
          var q :| q in v' && e in q.file.entries;
          assert q in files - deleted + added;
        }
      } else {
        assert p in files - deleted + added;
      }
    }
    forall e | e in dropped ensures e in PlaceEntries(files) {
      var p :| p in v && e in p.file.entries;
      assert p in files;
    }
  }

  lemma ReturnEdit(mf: Manifest, core: L.State, w: Levels, version: Levels, edit: Edit, w': Levels)
    requires Placed(w) == mf.files && Placed(core.version) <= mf.files && edit.dropped == LeftOut(core, version)
    requires edit.deleted <= Placed(core.version) && Placed(version) == Placed(core.version) - edit.deleted + edit.added
    requires Placed(w') == Placed(w) - edit.deleted + edit.added && VersionEntries(w') <= VersionEntries(w)
    ensures Known(Apply(mf, edit)) == Known(mf)
  {
    PlacedEntries(w);
    PlacedEntries(w');
    PlacedEntries(core.version);
    PlacedEntries(version);
    ReturnKnown(mf.files, mf.retired, Placed(core.version), Placed(version), edit.deleted, edit.added, edit.dropped);
  }

  lemma {:induction false} ReturnLayered(
    w: Levels, last: nat, j: L.Job, outputs: seq<Output>, outs: seq<FileMeta>, floor: nat, w': Levels)
    requires VersionOk(w) && Layered(w, last) && last <= floor && JobReady(w, j.picked, j.c, j.merged, j.snapshot)
    requires j.snapshot <= floor && Installed(w, j.c, outs, w') && Materialized(outs, outputs)
    requires Flatten(outputs) == Kept(j.merged, |j.merged|, j.snapshot, j.picked, j.c.level)
    ensures Layered(w', floor)
  {
    LayeredLater(w, last, floor);
    InstallLayered(w, j.picked, j.c, j.merged, j.snapshot, floor, outputs, outs, w');
  }

  lemma ReturnDescribes(mf: Manifest, v: Levels, w: Levels, mf': Manifest, snapshot: nat, w': Levels)
    requires Describes(mf, v) && Placed(w) == mf.files && VersionOk(w') && Layered(w', mf'.lastSequence)
    requires Placed(w') == mf'.files && mf.lastSequence <= mf'.lastSequence < MAX_SEQUENCE && Known(mf') == Known(mf)
    requires snapshot <= mf'.lastSequence
    requires forall k, t :: snapshot <= t ==> Visible(VersionEntries(w'), k, t) == Visible(VersionEntries(w), k, t)
    ensures Describes(mf', w')
  {
    ShadowKnown(mf, v, w);
    DescribesToo(mf, v, mf', w');
  }

  /** The running compaction, installed on the manifest's version. */
  lemma ReturnInstalls(
    mf: Manifest, core: L.State, w: Levels, outputs: seq<Output>, outs: seq<FileMeta>, floor: nat) returns (w': Levels)
    requires core.job.Some? && Shadow(mf, core, w) && NoneLost(core) && core.job.value.snapshot <= floor
    requires mf.lastSequence <= floor
    requires Materialized(outs, outputs)
    requires var j := core.job.value; Flatten(outputs) == Kept(j.merged, |j.merged|, j.snapshot, j.picked, j.c.level)
    ensures VersionOk(w') && Layered(w', floor) && VersionEntries(w') <= VersionEntries(w)
    ensures forall k, t :: core.job.value.snapshot <= t ==>
      Visible(VersionEntries(w'), k, t) == Visible(VersionEntries(w), k, t)
    ensures Placed(w') == mf.files - InputPlaces(core.job.value.c) + PlacedAt(core.job.value.c.level + 1, outs)
  {
    var j := core.job.value;
    ShadowLoss(core.version, w, j);
    w' := ReturnVersion(w, j.c, outs);
    ReturnReads(w, j, outputs, outs, w');
    ReturnLayered(w, mf.lastSequence, j, outputs, outs, floor, w');
    InstalledPlaces(w, j.c, outs, w');
  }

  lemma CompactingFacts(core: L.State, work: Work, version: Levels)
    requires L.Inv(core) && work.Compacting? && WorkOk(core, work, version)
    ensures core.job.Some? && Materialized(work.outs, work.outputs)
    ensures var j := core.job.value;
      && Flatten(work.outputs) == Kept(j.merged, |j.merged|, j.snapshot, j.picked, j.c.level)
      && InputPlaces(j.c) <= Placed(core.version)
  {
    InputsPlaced(core.version, core.job.value.c);
  }

  /** The compaction's edit lands on the manifest's version too. */
  lemma ReturnLands(
    mf: Manifest, v: Levels, core: L.State, w: Levels, work: Work, version: Levels, edit: Edit)
    requires Describes(mf, v) && core.job.Some? && Shadow(mf, core, w) && NoneLost(core) && work.Compacting?
    requires Materialized(work.outs, work.outputs) && InputPlaces(core.job.value.c) <= Placed(core.version)
    requires var j := core.job.value;
      Flatten(work.outputs) == Kept(j.merged, |j.merged|, j.snapshot, j.picked, j.c.level)
    requires Intended(core, work, edit) && edit.dropped == LeftOut(core, version)
    requires core.job.value.snapshot <= edit.lastSequence
    requires Placed(version) == Placed(core.version) - edit.deleted + edit.added
    requires mf.lastSequence <= edit.lastSequence < MAX_SEQUENCE
    ensures var mf' := Apply(mf, edit); (exists w' :: Describes(mf', w')) && Known(mf') == Known(mf)
  {
    var w' := ReturnInstalls(mf, core, w, work.outputs, work.outs, edit.lastSequence);
    ReturnEdit(mf, core, w, version, edit, w');
    ReturnDescribes(mf, v, w, Apply(mf, edit), core.job.value.snapshot, w');
  }

  lemma ImmFacts(core: L.State)
    requires L.Inv(core)
    ensures L.Later(L.ImmEntries(core), VersionEntries(core.version)) && AllParse(L.ImmEntries(core))
    ensures VersionOk(core.version)
  {
    assert L.ImmEntries(core) <= L.Stored(core);
  }

  lemma FlushDropsNothing(core: L.State, work: Work, version: Levels)
    requires WorkOk(core, work, version) && work.Flushing?
    ensures LeftOut(core, version) == {}
  {
    FlushedPlaces(core, work, version);
    PlacedEntries(core.version);
    PlacedEntries(version);
  }

  lemma IsCopy(d: Disk, core: L.State, w: Levels, work: Work, version: Levels, edit: Edit)
    requires core.job.Some? && Shadow(d.manifest, core, w) && work.Flushing? && WorkOk(core, work, version)
    requires Intended(core, work, edit) && L.ImmEntries(core) != {} && DiskOk(d)
    requires d.manifest.nextFile <= work.file.number
    requires L.Later(L.ImmEntries(core), VersionEntries(core.version)) && AllParse(L.ImmEntries(core))
    requires VersionOk(core.version)
    requires forall e :: e in L.ImmEntries(core) ==> e.key.sn <= edit.lastSequence
    requires work.level > 0 ==> NoneOverlaps(d.manifest.files, edit.added)
    ensures Copy(d.manifest, core, w, work.level, work.file, edit.lastSequence)
    ensures edit.added == {Place(work.level, work.file)}
  {
    forall p | p in d.manifest.files ensures p.file.number < work.file.number {
      assert p.file in FilesOf(d.manifest.files);
    }
  }

  ghost predicate AgainReady(mf: Manifest, core: L.State, work: Work, version: Levels, edit: Edit) {
    && core.job.Some? && work.Flushing? && WorkOk(core, work, version) && Intended(core, work, edit)
    && edit.dropped == LeftOut(core, version) && mf.lastSequence <= edit.lastSequence < MAX_SEQUENCE
    && (forall e :: e in L.ImmEntries(core) ==> e.key.sn <= edit.lastSequence)
    && (work.level > 0 ==> NoneOverlaps(mf.files, edit.added))
  }

  lemma AgainCopy(
    d: Disk, v: Levels, core: L.State, w: Levels, work: Work, version: Levels, edit: Edit)
    requires DiskOk(d) && Describes(d.manifest, v) && L.Inv(core) && AgainReady(d.manifest, core, work, version, edit)
    requires Shadow(d.manifest, core, w) && L.ImmEntries(core) != {} && d.manifest.nextFile <= work.file.number
    ensures var mf' := Apply(d.manifest, edit);
      && (exists w' :: Describes(mf', w') && Shadow(mf', core, w')) && Known(mf') == Known(d.manifest)
  {
    FlushDropsNothing(core, work, version);
    ImmFacts(core);
    IsCopy(d, core, w, work, version, edit);
    CopyLands(d.manifest, v, core, w, work.level, work.file, edit);
  }

  lemma AgainEmpty(
    mf: Manifest, v: Levels, core: L.State, w: Levels, work: Work, version: Levels, edit: Edit)
    requires Describes(mf, v) && AgainReady(mf, core, work, version, edit)
    requires Shadow(mf, core, w) && L.ImmEntries(core) == {}
    ensures var mf' := Apply(mf, edit);
      && (exists w' :: Describes(mf', w') && Shadow(mf', core, w')) && Known(mf') == Known(mf)
  {
    FlushDropsNothing(core, work, version);
    EmptyLands(mf, v, core, w, edit);
  }

  lemma ImmKnown(mf: Manifest, v: Levels, core: L.State, w: Levels)
    requires Describes(mf, v) && core.job.Some? && Shadow(mf, core, w)
    ensures Known(mf) + L.ImmEntries(core) == Known(mf)
  {
    ShadowKnown(mf, v, w);
  }

  lemma AgainDescribes(d: Disk, core: L.State, work: Work, version: Levels, edit: Edit)
    requires DiskOk(d) && (exists v :: Describes(d.manifest, v)) && L.Inv(core)
    requires AgainReady(d.manifest, core, work, version, edit)
    requires (exists w :: Shadow(d.manifest, core, w)) && d.manifest.nextFile <= work.file.number
    ensures var mf' := Apply(d.manifest, edit);
      && (exists w' :: Describes(mf', w') && Shadow(mf', core, w'))
      && Known(mf') == Known(d.manifest) + L.ImmEntries(core)
  {
    var v :| Describes(d.manifest, v);
    var w :| Shadow(d.manifest, core, w);
    ImmKnown(d.manifest, v, core, w);
    if L.ImmEntries(core) == {} {
      AgainEmpty(d.manifest, v, core, w, work, version, edit);
    } else {
      AgainCopy(d, v, core, w, work, version, edit);
    }
  }

  lemma AgainLandsWell(d: Disk, m: Memory, sure: set<Entry>, written: set<Entry>)
    requires Landing(d, m) && L.Inv(m.core) && Linked(d, m, sure) && Attached(d, m, sure, written)
    requires DiskOk(d) && DiskReads(d) && Accounts(d, sure, written)
    requires m.doubtful && Only(m).work.Flushing? && Fitting(d, Only(m))
    ensures LandsWell(d, m, Apply(d.manifest, Only(m).edit), sure, written)
  {
    var call := Only(m);
    AgainDescribes(d, m.core, call.work, call.version, call.edit);
    LandingNumbers(d, m);
    ImmOnDisk(d, m);
    AgainWell(d, m, Apply(d.manifest, call.edit), sure, written);
  }

  lemma AgainWell(d: Disk, m: Memory, mf': Manifest, sure: set<Entry>, written: set<Entry>)
    requires Linked(d, m, sure) && Attached(d, m, sure, written) && DiskReads(d) && Accounts(d, sure, written)
    requires LogsKept(d, m)
    requires m.calls == [Only(m)] && Only(m).Logging? && Only(m).work.Flushing? && m.tail != CutOff
    requires mf' == Apply(d.manifest, Only(m).edit) && m.core.job.Some?
    requires exists w' :: Describes(mf', w') && Shadow(mf', m.core, w')
    requires Only(m).edit.lastSequence <= m.core.lastSequence && Only(m).edit.logNumber == m.logFile
    requires Known(mf') == Known(d.manifest) + L.ImmEntries(m.core) && L.ImmEntries(m.core) <= OnDisk(d)
    ensures LandsWell(d, m, mf', sure, written)
  {
    FlushLandsWell(d, m, mf', sure, written);
  }

  lemma ReturnLandsWell(d: Disk, m: Memory, sure: set<Entry>, written: set<Entry>)
    requires Landing(d, m) && L.Inv(m.core) && Linked(d, m, sure) && Attached(d, m, sure, written)
    requires DiskReads(d) && Accounts(d, sure, written)
    requires m.doubtful && Only(m).work.Compacting? && Fitting(d, Only(m))
    ensures LandsWell(d, m, Apply(d.manifest, Only(m).edit), sure, written)
  {
    var call := Only(m);
    var v :| Describes(d.manifest, v);
    var w :| Shadow(d.manifest, m.core, w);
    CompactingFacts(m.core, call.work, call.version);
    ReturnLands(d.manifest, v, m.core, w, call.work, call.version, call.edit);
    LandingNumbers(d, m);
    BaseHidesNothing(d, call, m.logNumber);
    ReturnWell(d, m, Apply(d.manifest, call.edit), sure, written);
  }

  lemma BaseHidesNothing(d: Disk, call: Call, base: nat)
    requires DiskReads(d) && call.Logging? && Fitting(d, call) && call.edit.logNumber == base <= d.manifest.logNumber
    ensures NothingHidden(d.logs, d.synced, base, Known(d.manifest))
  {
  }

  lemma ReturnWell(d: Disk, m: Memory, mf': Manifest, sure: set<Entry>, written: set<Entry>)
    requires Linked(d, m, sure) && Attached(d, m, sure, written) && DiskReads(d) && Accounts(d, sure, written)
    requires m.calls == [Only(m)] && Only(m).Logging? && !Only(m).landed && Only(m).work.Compacting?
    requires m.core.job.Some? ==> NoneLost(m.core)
    requires (exists v :: Describes(mf', v)) && mf' == Apply(d.manifest, Only(m).edit)
    requires Known(mf') == Known(d.manifest)
    requires Only(m).edit.lastSequence <= m.core.lastSequence
    requires Only(m).edit.logNumber == m.logNumber <= d.manifest.logNumber
    requires NothingHidden(d.logs, d.synced, m.logNumber, Known(d.manifest))
    ensures LandsWell(d, m, mf', sure, written)
  {
    OtherLandsWell(d, m, mf', sure, written);
  }

  lemma AstrayLandsWell(d: Disk, m: Memory, sure: set<Entry>, written: set<Entry>)
    requires Landing(d, m) && L.Inv(m.core) && Linked(d, m, sure) && Attached(d, m, sure, written)
    requires DiskOk(d) && DiskReads(d) && Accounts(d, sure, written) && m.doubtful && Fitting(d, Only(m))
    ensures LandsWell(d, m, Apply(d.manifest, Only(m).edit), sure, written)
  {
    if Only(m).work.Flushing? {
      AgainLandsWell(d, m, sure, written);
    } else {
      ReturnLandsWell(d, m, sure, written);
    }
  }

  // ----- all landings

  lemma SameFields(d: Disk, d': Disk, m: Memory, sure: set<Entry>, written: set<Entry>)
    requires SameLogs(d, d')
    ensures (DiskReads(d) ==> DiskReads(d')) && (Accounts(d, sure, written) ==> Accounts(d', sure, written))
    ensures Linked(d, m, sure) ==> Linked(d', m, sure)
    ensures Attached(d, m, sure, written) ==> Attached(d', m, sure, written)
  {
  }

  /** A record that is not read leaves the disk as it was, and memory is no longer attached to it. */
  lemma UnreadLands(d: Disk, m: Memory, d': Disk, m': Memory, sure: set<Entry>)
    requires Linked(d, m, sure) && SameLogs(d, d') && m.calls == [Only(m)] && Only(m).Logging?
    requires Only(m).work.Compacting? && m.core.job.Some? ==> NoneLost(m.core)
    requires m' == Landed(m).(tail := CutOff)
    ensures Linked(d', m', sure)
  {
  }

  lemma ReadLands(s: State, i: nat, s': State)
    requires ReadInv(s) && Single(s, i) && Lands(s, i, true, s') && Landing(s.disk, s.up.value)
    requires DiskOk(s.disk) && ManifestKnown(s.disk, s.up.value) && Fitting(s.disk, Only(s.up.value))
    ensures ReadInv(s')
  {
    var d, m := s.disk, s.up.value;
    var mf' := Apply(d.manifest, Only(m).edit);
    IsShadowed(s);
    if m.doubtful {
      AstrayLandsWell(d, m, s.sure, s.written);
    } else {
      KnownLandsWell(d, m, s.sure, s.written);
    }
    SameFields(d.(manifest := mf'), s'.disk, Landed(m), s.sure, s.written);
  }

  lemma LandsReads(s: State, i: nat, read: bool, s': State)
    requires ReadInv(s) && Single(s, i) && Lands(s, i, read, s') && DiskOk(s.disk)
    requires CallOk(s.disk, s.up.value, Only(s.up.value)) && ManifestKnown(s.disk, s.up.value)
    requires LogsKept(s.disk, s.up.value)
    requires Clean(s, Calling(i, LandsStep(read)))
    ensures ReadInv(s')
  {
    var d, m := s.disk, s.up.value;
    if read {
      ReadLands(s, i, s');
    } else {
      SameFields(d, s'.disk, m, s.sure, s.written);
      UnreadLands(d, m, s'.disk, s'.up.value, s.sure);
    }
  }
}
