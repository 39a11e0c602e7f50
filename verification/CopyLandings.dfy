/** A flushed table lands in a manifest that has copies of it already: the flush was tried
    before, and its record landed although it was reported to have failed. */
module CopyLandings {
  import opened Options
  import opened Keys
  import opened Version
  import opened Inputs
  import opened Install
  import opened Flush
  import opened Disks
  import opened ReadInvariants
  import L = Lsm

  lemma FilePlace(v: Levels, u: nat, i: nat)
    requires u < |v| && i < |v[u]|
    ensures Place(u, v[u][i]) in Placed(v)
  {
  }

  lemma PlaceFile(v: Levels, e: Entry) returns (p: Place)
    requires e in VersionEntries(v)
    ensures p in Placed(v) && e in p.file.entries
  {
    PlacedEntries(v);
    p :| p in Placed(v) && e in p.file.entries;
  }

  lemma InPlace(v: Levels, p: Place, e: Entry)
    requires p in Placed(v) && e in p.file.entries
    ensures e in VersionEntries(v)
  {
    PlacedEntries(v);
  }

  lemma CopyStands(files: set<Place>, w: Levels, level: nat, g: FileMeta)
    requires Placed(w) == files && level < |w| && FileOk(g) && forall p :: p in files ==> p.file.number < g.number
    requires level > 0 ==> NoneOverlaps(files, {Place(level, g)})
    ensures Stands(w, level, g)
  {
    if level == 0 {
      forall h | h in w[0] ensures h.number < g.number {
        var i :| 0 <= i < |w[0]| && w[0][i] == h;
        FilePlace(w, 0, i);
      }
    } else {
      forall i | 0 <= i < |w[level]| ensures !Overlaps(w[level][i], Some(g.smallest.user), Some(g.largest.user)) {
        FilePlace(w, level, i);
        assert Place(level, g) in {Place(level, g)};
      }
    }
  }

  /** What the copy hides of the manifest's version it holds itself. */
  lemma CopyAhead(w: Levels, v: Levels, g: FileMeta, floor: nat)
    requires CopiesOnly(Placed(w), v, Ent(g)) && L.Later(Ent(g), VersionEntries(v))
    requires AllParse(Ent(g)) && forall e :: e in Ent(g) ==> e.key.sn <= floor
    ensures Ahead(Ent(g), VersionEntries(w), Ent(g), floor)
  {
    forall x, e | x in Ent(g) && e in VersionEntries(w) && x.key.user == e.key.user && Tag(x.key) <= Tag(e.key)
      ensures Covers(Ent(g), e, floor)
    {
      var p := PlaceFile(w, e);
      if p in Placed(v) {
        InPlace(v, p, e);
      }
    }
  }

  /** What is hidden of the copy by the levels above is in an older copy there. */
  lemma CopyBehind(w: Levels, v: Levels, level: nat, g: FileMeta, u: nat, floor: nat)
    requires VersionOk(w) && CopiesOnly(Placed(w), v, Ent(g)) && FileOk(g) && u < level && u < |w| && |w| == |v|
    requires ClearThrough(v, level, g.smallest.user, g.largest.user)
    requires AllParse(Ent(g)) && forall e :: e in Ent(g) ==> e.key.sn <= floor
    ensures Ahead(LevelEntries(w[u]), Ent(g), UpperEntries(w, u + 1), floor)
  {
    forall x, e | x in LevelEntries(w[u]) && e in Ent(g) && x.key.user == e.key.user && Tag(x.key) <= Tag(e.key)
      ensures Covers(UpperEntries(w, u + 1), e, floor)
    {
      var i :| 0 <= i < |w[u]| && x in w[u][i].entries;
      FilePlace(w, u, i);
      if Place(u, w[u][i]) in Placed(v) {
        var j :| 0 <= j < |v[u]| && v[u][j] == w[u][i];
        ClearOfKey(w, v, level, g, u, i, j, x, e);
      } else {
        assert e in Ent(w[u][i]) && e in LevelEntries(w[u]) && e in UpperEntries(w, u + 1);
      }
    }
  }

  lemma ClearOfKey(
    w: Levels, v: Levels, level: nat, g: FileMeta, u: nat, i: nat, j: nat, x: Entry, e: Entry)
    requires VersionOk(w) && FileOk(g) && u <= level && u < |w| && u < |v| && i < |w[u]| && j < |v[u]|
    requires v[u][j] == w[u][i]
    requires ClearThrough(v, level, g.smallest.user, g.largest.user) && x in w[u][i].entries && e in Ent(g)
    ensures x.key.user != e.key.user
  {
    LevelFacts(w, u);
    EntryInFile(w[u][i], x);
    EntryInFile(g, e);
    assert !Overlaps(v[u][j], Some(g.smallest.user), Some(g.largest.user));
  }

  lemma CopyAdded(w: Levels, level: nat, g: FileMeta) returns (w': Levels)
    requires level < |w|
    ensures Added(w, level, g, w')
  {
    var files := HoldsExists(Files(w[level]) + {g});
    w' := w[level := files];
  }

  /** `g` is the table of another attempt to flush `imm` while its compaction goes on. */
  ghost predicate Copy(mf: Manifest, core: L.State, w: Levels, level: nat, g: FileMeta, floor: nat) {
    && core.job.Some? && Shadow(mf, core, w) && core.imm.Some? && FileOk(g) && Ent(g) == core.imm.value
    && level < |w| == |core.version| && (forall p :: p in mf.files ==> p.file.number < g.number)
    && (level > 0 ==>
          && ClearThrough(core.version, level, g.smallest.user, g.largest.user)
          && NoneOverlaps(mf.files, {Place(level, g)}))
    && L.Later(Ent(g), VersionEntries(core.version)) && AllParse(Ent(g))
    && forall e :: e in Ent(g) ==> e.key.sn <= floor
  }

  lemma CopyBetween(mf: Manifest, core: L.State, w: Levels, level: nat, g: FileMeta, floor: nat)
    requires Copy(mf, core, w, level, g, floor)
    ensures Between(w, level, g, floor) && Stands(w, level, g)
  {
    CopyStands(mf.files, w, level, g);
    CopyAhead(w, core.version, g, floor);
    forall u | 0 <= u < level && u < |w| ensures Ahead(LevelEntries(w[u]), Ent(g), UpperEntries(w, u + 1), floor) {
      CopyBehind(w, core.version, level, g, u, floor);
    }
  }

  /** The copy keeps the manifest's version well formed and its layers in order, and adds no entry. */
  lemma CopyOk(
    mf: Manifest, core: L.State, w: Levels, level: nat, g: FileMeta, floor: nat, w': Levels)
    requires Copy(mf, core, w, level, g, floor) && Added(w, level, g, w') && mf.lastSequence <= floor
    ensures VersionOk(w') && Layered(w', floor) && VersionEntries(w') == VersionEntries(w)
    ensures Placed(w') == mf.files + {Place(level, g)}
  {
    CopyBetween(mf, core, w, level, g, floor);
    AddedOk(w, level, g, w');
    LayeredLater(w, mf.lastSequence, floor);
    AddedLayered(w, floor, level, g, w');
    AddedPlaces(w, level, g, w');
  }

  lemma CopySide(w: Levels, v: Levels, level: nat, g: FileMeta, w': Levels, j: L.Job)
    requires SideSame(w, v, j) && Added(w, level, g, w') && FileOk(g) && SetOf(j.merged) == InputEntries(j.c)
    requires FilesOk(j.c.in0) && FilesOk(j.c.in1) && (j.c.level < level ==> Avoids(g, j.c))
    ensures SideSame(w', v, j)
  {
    AddedEntries(w, level, g, w');
    AddedSurroundings(w, level, g, w', j.c);
    forall x, e | x in SurroundingsOf(w', j.c).side && e in j.merged && x.key.user == e.key.user
      ensures x in SurroundingsOf(v, j.c).side
    {
      if x !in SurroundingsOf(w, j.c).side {
        assert e in SetOf(j.merged) && x in Ent(g);
        FlushAvoidsInputs(g, j.c, e);
        EntryInFile(g, x);
      }
    }
  }

  lemma CopySame(mf: Manifest, core: L.State, w: Levels, level: nat, g: FileMeta, floor: nat)
    requires Copy(mf, core, w, level, g, floor) && KeyUnique(VersionEntries(w))
    ensures VersionEntries(w) + Ent(g) == VersionEntries(w)
    ensures NewerThan(Ent(g), VersionEntries(core.version)) && AllParse(Ent(g)) && KeyUnique(VersionEntries(w) + Ent(g))
    ensures SideSame(w, core.version, core.job.value)
    ensures var j := core.job.value; JobReady(w, j.picked, j.c, j.merged, j.snapshot)
  {
  }

  lemma CopyAvoids(mf: Manifest, core: L.State, w: Levels, level: nat, g: FileMeta, floor: nat)
    requires Copy(mf, core, w, level, g, floor) && FromLevels(core.version, core.job.value.c)
    ensures core.job.value.c.level < level ==> Avoids(g, core.job.value.c)
  {
    if core.job.value.c.level < level {
      FlushAvoids(core.version, level, g, core.job.value.c);
    }
  }

  lemma CopyKeepsJob(
    mf: Manifest, core: L.State, w: Levels, level: nat, g: FileMeta, floor: nat, w': Levels)
    requires Copy(mf, core, w, level, g, floor) && Added(w, level, g, w') && L.Inv(core) && KeyUnique(VersionEntries(w))
    ensures var j := core.job.value;
      JobReady(w', j.picked, j.c, j.merged, j.snapshot) && SideSame(w', core.version, j)
  {
    JobFacts(core);
    CopyAvoids(mf, core, w, level, g, floor);
    CopySame(mf, core, w, level, g, floor);
    CopyNewer(core, g);
    CopyJob(w, core.version, level, g, w', core.job.value);
  }

  lemma CopyJob(w: Levels, v: Levels, level: nat, g: FileMeta, w': Levels, j: L.Job)
    requires VersionOk(w) && FileOk(g) && Added(w, level, g, w') && SideSame(w, v, j)
    requires JobReady(w, j.picked, j.c, j.merged, j.snapshot) && AllParse(Ent(g))
    requires KeyUnique(VersionEntries(w) + Ent(g))
    requires NewerThan(Ent(g), SetOf(j.merged)) && (j.c.level < level ==> Avoids(g, j.c))
    requires Covered(Files(j.c.in0) + Files(j.c.in1)) && FilesOk(j.c.in0) && FilesOk(j.c.in1)
    ensures JobReady(w', j.picked, j.c, j.merged, j.snapshot) && SideSame(w', v, j)
  {
    AddedKeepsJob(w, level, g, w', j.picked, j.c, j.merged, j.snapshot);
    CopySide(w, v, level, g, w', j);
  }

  lemma JobFacts(core: L.State)
    requires L.Inv(core) && core.job.Some?
    ensures var j := core.job.value;
      && JobReady(core.version, j.picked, j.c, j.merged, j.snapshot) && Covered(Files(j.c.in0) + Files(j.c.in1))
      && FilesOk(j.c.in0) && FilesOk(j.c.in1) && SetOf(j.merged) <= VersionEntries(core.version)
  {
    var j := core.job.value;
    InputsOk(core.version, j.c);
    Partition(core.version, j.c, j.merged);
  }

  lemma CopyNewer(core: L.State, g: FileMeta)
    requires core.job.Some? && SetOf(core.job.value.merged) <= VersionEntries(core.version)
    requires L.Later(Ent(g), VersionEntries(core.version))
    ensures NewerThan(Ent(g), SetOf(core.job.value.merged))
  {
  }

  lemma ShadowKnown(mf: Manifest, v: Levels, w: Levels)
    requires Describes(mf, v) && Placed(w) == mf.files
    ensures VersionEntries(w) == VersionEntries(v) == PlaceEntries(mf.files) && VersionEntries(w) <= Known(mf)
    ensures KeyUnique(VersionEntries(w))
  {
    PlacedEntries(v);
    PlacedEntries(w);
  }

  /** A manifest that describes a version describes another one that reads the same. */
  lemma DescribesToo(mf: Manifest, v: Levels, mf': Manifest, w: Levels)
    requires Describes(mf, v) && VersionOk(w) && Layered(w, mf'.lastSequence) && Placed(w) == mf'.files
    requires mf.lastSequence <= mf'.lastSequence < MAX_SEQUENCE && Known(mf') == Known(mf)
    requires forall k, t :: mf'.lastSequence <= t ==>
      Visible(VersionEntries(w), k, t) == Visible(VersionEntries(v), k, t)
    ensures Describes(mf', w)
  {
  }

  lemma CopyKnown(mf: Manifest, w: Levels, level: nat, g: FileMeta, edit: Edit)
    requires Placed(w) == mf.files && Ent(g) <= VersionEntries(w)
    requires edit.deleted == {} && edit.added == {Place(level, g)} && edit.dropped == {}
    ensures Known(Apply(mf, edit)) == Known(mf) && Apply(mf, edit).files == mf.files + {Place(level, g)}
  {
    PlacedEntries(w);
    assert PlaceEntries(mf.files + {Place(level, g)}) == PlaceEntries(mf.files) + Ent(g);
  }

  lemma CopyDescribes(
    mf: Manifest, v: Levels, core: L.State, w: Levels, level: nat, g: FileMeta, edit: Edit, w': Levels)
    requires Describes(mf, v) && Copy(mf, core, w, level, g, edit.lastSequence) && Added(w, level, g, w')
    requires mf.lastSequence <= edit.lastSequence < MAX_SEQUENCE
    requires edit.deleted == {} && edit.added == {Place(level, g)} && edit.dropped == {}
    ensures Describes(Apply(mf, edit), w') && Known(Apply(mf, edit)) == Known(mf)
  {
    ShadowKnown(mf, v, w);
    CopyOk(mf, core, w, level, g, edit.lastSequence, w');
    CopyKnown(mf, w, level, g, edit);
    DescribesToo(mf, v, Apply(mf, edit), w');
  }

  /** Another attempt to flush lands. */
  lemma CopyLands(
    mf: Manifest, v: Levels, core: L.State, w: Levels, level: nat, g: FileMeta, edit: Edit)
    requires Describes(mf, v) && L.Inv(core) && Copy(mf, core, w, level, g, edit.lastSequence)
    requires mf.lastSequence <= edit.lastSequence < MAX_SEQUENCE
    requires edit.deleted == {} && edit.added == {Place(level, g)} && edit.dropped == {}
    ensures var mf' := Apply(mf, edit);
      && (exists w' :: Describes(mf', w') && Shadow(mf', core, w')) && Known(mf') == Known(mf)
  {
    var w' := CopyAdded(w, level, g);
    ShadowKnown(mf, v, w);
    CopyDescribes(mf, v, core, w, level, g, edit, w');
    CopyOk(mf, core, w, level, g, edit.lastSequence, w');
    CopyKeepsJob(mf, core, w, level, g, edit.lastSequence, w');
    CopyShadow(mf, core, w, level, g, edit, w');
  }

  lemma CopyShadow(
    mf: Manifest, core: L.State, w: Levels, level: nat, g: FileMeta, edit: Edit, w': Levels)
    requires core.job.Some? && Shadow(mf, core, w) && core.imm.Some? && Ent(g) == core.imm.value
    requires edit.deleted == {} && edit.added == {Place(level, g)}
    requires VersionOk(w') && Layered(w', edit.lastSequence) && Placed(w') == mf.files + {Place(level, g)}
    requires VersionEntries(w') == VersionEntries(w)
    requires var j := core.job.value;
      JobReady(w', j.picked, j.c, j.merged, j.snapshot) && SideSame(w', core.version, j)
    ensures Shadow(Apply(mf, edit), core, w')
  {
    assert Apply(mf, edit).files == mf.files + {Place(level, g)};
  }

  /** So does one of an empty memtable. */
  lemma EmptyLands(mf: Manifest, v: Levels, core: L.State, w: Levels, edit: Edit)
    requires Describes(mf, v) && core.job.Some? && Shadow(mf, core, w)
    requires mf.lastSequence <= edit.lastSequence < MAX_SEQUENCE
    requires edit.deleted == {} && edit.added == {} && edit.dropped == {}
    ensures var mf' := Apply(mf, edit);
      && (exists w' :: Describes(mf', w') && Shadow(mf', core, w')) && Known(mf') == Known(mf)
  {
    var mf' := Apply(mf, edit);
    assert mf'.files == mf.files && mf'.retired == mf.retired;
    ShadowKnown(mf, v, w);
    LayeredLater(w, mf.lastSequence, edit.lastSequence);
    DescribesToo(mf, v, mf', w);
    assert Shadow(mf', core, w);
  }
}
