/** Placing a flushed memtable, also while a compaction is running. */
module Flush {
  import opened Options
  import opened Keys
  import opened Version
  import opened Inputs
  import opened Selection
  import opened Compaction
  import opened Install

  const MAX_MEM_COMPACT_LEVEL: nat := 2

  /** No file of levels 0..`level` meets [lo, hi]. */
  ghost predicate ClearThrough(v: Levels, level: nat, lo: UserKey, hi: UserKey) {
    forall l :: 0 <= l <= level && l < |v| ==> !SomeOverlap(v[l], Some(lo), Some(hi))
  }

  /** The output goes no deeper than `level`: a file of the next one overlaps it, or those below that
      have too many bytes. */
  ghost predicate StopsAt(v: Levels, level: nat, lo: UserKey, hi: UserKey, maxGrandParentBytes: nat)
    requires level + 2 < |v|
  {
    || SomeOverlap(v[level + 1], Some(lo), Some(hi))
    || TotalFileSize(Pick(v[level + 2], Some(lo), Some(hi))) > maxGrandParentBytes
  }

  /** The output goes as deep as MAX_MEM_COMPACT_LEVEL while nothing overlaps it on
      the way and the level below the next one does not overlap too much. */
  method PickLevelForMemTableOutput(v: Levels, lo: UserKey, hi: UserKey, maxGrandParentBytes: nat)
    returns (level: nat)
    requires VersionOk(v)
    ensures level <= MAX_MEM_COMPACT_LEVEL
    ensures level > 0 ==> ClearThrough(v, level, lo, hi)
    ensures SomeOverlap(v[0], Some(lo), Some(hi)) ==> level == 0
    ensures !SomeOverlap(v[0], Some(lo), Some(hi)) ==>
      && (level < MAX_MEM_COMPACT_LEVEL ==> StopsAt(v, level, lo, hi, maxGrandParentBytes))
      && forall l :: 0 <= l < level ==> !StopsAt(v, l, lo, hi, maxGrandParentBytes)
  {
    level := 0;
    LevelFacts(v, 0);
    var overlap := SomeFileOverlapsRange(false, v[0], Some(lo), Some(hi));
    if !overlap {
      while level < MAX_MEM_COMPACT_LEVEL
        invariant level <= MAX_MEM_COMPACT_LEVEL
        invariant ClearThrough(v, level, lo, hi)
        invariant forall l :: 0 <= l < level ==> !StopsAt(v, l, lo, hi, maxGrandParentBytes)
      {
        LevelFacts(v, level + 1);
        LevelFacts(v, level + 2);
        overlap := SomeFileOverlapsRange(true, v[level + 1], Some(lo), Some(hi));
        if overlap {
          break;
        }
        var overlaps, _, _ := GetOverlappingInputs(level + 2, v[level + 2], Some(lo), Some(hi));
        if TotalFileSize(overlaps) > maxGrandParentBytes {
          break;
        }
        level := level + 1;
      }
    }
  }

  // ----- the version with the flushed file

  /** LogAndApply of an edit that adds `f` at `level`. */
  ghost predicate Added(v: Levels, level: nat, f: FileMeta, v': Levels) {
    && level < |v| && |v'| == |v|
    && (forall l :: 0 <= l < |v| && l != level ==> v'[l] == v[l])
    && Holds(v'[level], Files(v[level]) + {f})
  }

  /** The flushed file is newer than everything in the version, and where it lands
      below level 0 nothing on the way overlaps it. */
  ghost predicate FlushFits(v: Levels, level: nat, f: FileMeta) {
    && level < |v| && FileOk(f)
    && NewerThan(Ent(f), VersionEntries(v))
    && (forall g :: g in v[0] ==> g.number < f.number)
    && (level > 0 ==> ClearThrough(v, level, f.smallest.user, f.largest.user))
  }

  lemma NoSharedKey(v: Levels, level: nat, f: FileMeta, l: nat, i: nat, x: Entry, e: Entry)
    requires VersionOk(v) && FlushFits(v, level, f) && 0 < level && l <= level && l < |v| && i < |v[l]|
    requires x in v[l][i].entries && e in Ent(f)
    ensures x.key.user != e.key.user
  {
    LevelFacts(v, l);
    EntryInFile(v[l][i], x);
    EntryInFile(f, e);
    assert !Overlaps(v[l][i], Some(f.smallest.user), Some(f.largest.user));
  }

  lemma AddedEntries(v: Levels, level: nat, f: FileMeta, v': Levels)
    requires Added(v, level, f, v')
    ensures LevelEntries(v'[level]) == LevelEntries(v[level]) + Ent(f)
    ensures VersionEntries(v') == VersionEntries(v) + Ent(f)
  {
    HoldsEntries(v'[level], Files(v[level]) + {f});
    HoldsEntries(v[level], Files(v[level]));
    assert SetEntries(Files(v[level]) + {f}) == SetEntries(Files(v[level])) + Ent(f) by {
      assert SetEntries({f}) == Ent(f);
      assert SetEntries(Files(v[level]) + {f}) == SetEntries(Files(v[level])) + SetEntries({f});
    }
    forall e | e in VersionEntries(v') ensures e in VersionEntries(v) + Ent(f) {
      var l :| 0 <= l < |v'| && e in LevelEntries(v'[l]);
      assert l != level ==> e in LevelEntries(v[l]);
    }
    forall e | e in VersionEntries(v) + Ent(f) ensures e in VersionEntries(v') {
      if e in Ent(f) {
        assert e in LevelEntries(v'[level]);
      } else {
        var l :| 0 <= l < |v| && e in LevelEntries(v[l]);
        assert e in LevelEntries(v'[l]);
      }
    }
  }

  /** `f` can stand at `level`: below the first level nothing there overlaps it. */
  ghost predicate Stands(v: Levels, level: nat, f: FileMeta) {
    && level < |v| && FileOk(f)
    && if level == 0 then forall g :: g in v[0] ==> g.number < f.number
       else !SomeOverlap(v[level], Some(f.smallest.user), Some(f.largest.user))
  }

  lemma AddedDisjoint(files: seq<FileMeta>, f: FileMeta, files': seq<FileMeta>)
    requires FilesOk(files) && Disjoint(files) && FileOk(f) && Holds(files', Files(files) + {f})
    requires !SomeOverlap(files, Some(f.smallest.user), Some(f.largest.user))
    ensures FilesOk(files') && Disjoint(files')
  {
    FileRange(f, 0);
    RemainingGood(files, []);
    assert RemainingFiles(files, []) == Files(files);
    forall g | g in Files(files) ensures Less(f.largest, g.smallest) || Less(g.largest, f.smallest) {
      var i :| 0 <= i < |files| && files[i] == g;
      assert !Overlaps(files[i], Some(f.smallest.user), Some(f.largest.user));
    }
    HoldsDisjoint(files', Files(files) + {f});
  }

  lemma AddedDistinct(files: seq<FileMeta>, f: FileMeta, files': seq<FileMeta>)
    requires FilesOk(files) && DistinctNumbers(files) && FileOk(f) && Holds(files', Files(files) + {f})
    requires forall g :: g in files ==> g.number < f.number
    ensures FilesOk(files') && DistinctNumbers(files')
  {
    forall i | 0 <= i < |files'| ensures FileOk(files'[i]) && (files'[i] == f || files'[i] in files) {
      assert files'[i] in Files(files) + {f};
      if files'[i] != f {
        var a :| 0 <= a < |files| && files[a] == files'[i];
      }
    }
    forall i, j | 0 <= i < |files'| && 0 <= j < |files'| && i != j ensures files'[i].number != files'[j].number {
      assert files'[i] != files'[j];
    }
  }

  /** A file that can stand at its level keeps the version well formed. */
  lemma AddedOk(v: Levels, level: nat, f: FileMeta, v': Levels)
    requires VersionOk(v) && Stands(v, level, f) && Added(v, level, f, v')
    ensures VersionOk(v') && VersionEntries(v') == VersionEntries(v) + Ent(f)
  {
    AddedEntries(v, level, f, v');
    forall l | 0 <= l < |v'| ensures LevelOk(v', l) {
      LevelFacts(v, l);
      if l == level {
        if l == 0 {
          AddedDistinct(v[0], f, v'[0]);
        } else {
          AddedDisjoint(v[l], f, v'[l]);
        }
      }
    }
    AllLevelsOk(v', |v'|);
  }

  /** The entries of `f` are ahead of the version's, and behind those of the levels above. */
  ghost predicate Between(v: Levels, level: nat, f: FileMeta, floor: nat) {
    && Ahead(Ent(f), VersionEntries(v), Ent(f), floor)
    && forall u :: 0 <= u < level && u < |v| ==> Ahead(LevelEntries(v[u]), Ent(f), UpperEntries(v, u + 1), floor)
  }

  lemma InLayers(v: Levels, l: nat)
    requires l < |v|
    ensures LevelEntries(v[l]) <= VersionEntries(v)
  {
  }

  lemma InFiles(files: seq<FileMeta>, i: nat)
    requires i < |files|
    ensures Ent(files[i]) <= LevelEntries(files)
  {
  }

  lemma MoreFrom(files: seq<FileMeta>, f: FileMeta, files': seq<FileMeta>, n: nat)
    requires Files(files') == Files(files) + {f}
    ensures NumberedFrom(files, n) <= NumberedFrom(files', n)
    ensures n <= f.number ==> Ent(f) <= NumberedFrom(files', n)
  {
    forall e | e in NumberedFrom(files, n) ensures e in NumberedFrom(files', n) {
      var i :| 0 <= i < |files| && files[i].number >= n && e in files[i].entries;
      assert files[i] in Files(files');
      var j :| 0 <= j < |files'| && files'[j] == files[i];
    }
    if n <= f.number {
      assert f in Files(files');
      var j :| 0 <= j < |files'| && files'[j] == f;
    }
  }

  lemma AddedByNumber(files: seq<FileMeta>, f: FileMeta, files': seq<FileMeta>, floor: nat)
    requires NewestByNumber(files, floor) && Holds(files', Files(files) + {f})
    requires forall g :: g in files ==> g.number < f.number && Ahead(Ent(f), Ent(g), Ent(f), floor)
    ensures NewestByNumber(files', floor)
  {
    forall i, j | 0 <= i < |files'| && 0 <= j < |files'| && files'[i].number > files'[j].number
      ensures Ahead(Ent(files'[i]), Ent(files'[j]), NumberedFrom(files', files'[i].number), floor)
    {
      var g, h := files'[i], files'[j];
      assert g in Files(files') && h in Files(files');
      MoreFrom(files, f, files', g.number);
      if g == f {
        AheadMore(Ent(f), Ent(h), Ent(f), floor, NumberedFrom(files', g.number), floor);
      } else {
        var a :| 0 <= a < |files| && files[a] == g;
        var b :| 0 <= b < |files| && files[b] == h;
        AheadMore(Ent(g), Ent(h), NumberedFrom(files, g.number), floor, NumberedFrom(files', g.number), floor);
      }
    }
  }

  lemma MoreUpper(v: Levels, level: nat, f: FileMeta, v': Levels, n: nat)
    requires |v'| == |v| && level < |v| && LevelEntries(v'[level]) == LevelEntries(v[level]) + Ent(f)
    requires forall l :: 0 <= l < |v| && l != level ==> v'[l] == v[l]
    ensures UpperEntries(v, n) <= UpperEntries(v', n) && (level < n ==> Ent(f) <= UpperEntries(v', n))
  {
    forall e | e in UpperEntries(v, n) ensures e in UpperEntries(v', n) {
      var l :| 0 <= l < n && l < |v| && e in LevelEntries(v[l]);
      assert e in LevelEntries(v'[l]);
    }
  }

  lemma AddedOrder(
    v: Levels, floor: nat, level: nat, f: FileMeta, v': Levels, u: nat, l: nat, x: Entry, e: Entry)
    requires Layered(v, floor) && Between(v, level, f, floor) && Added(v, level, f, v') && u < l < |v'|
    requires LevelEntries(v'[level]) == LevelEntries(v[level]) + Ent(f)
    requires x in LevelEntries(v'[u]) && e in LevelEntries(v'[l]) && x.key.user == e.key.user
    requires Tag(x.key) <= Tag(e.key)
    ensures Covers(UpperEntries(v', u + 1), e, floor)
  {
    MoreUpper(v, level, f, v', u + 1);
    if u == level && x in Ent(f) {
      InLayers(v, l);
      CoversMore(Ent(f), e, floor, UpperEntries(v', u + 1), floor);
    } else {
      if l == level && e in Ent(f) {
        assert Ahead(LevelEntries(v[u]), Ent(f), UpperEntries(v, u + 1), floor);
      } else {
        LevelOrder(v, floor, u, l, x, e);
      }
      CoversMore(UpperEntries(v, u + 1), e, floor, UpperEntries(v', u + 1), floor);
    }
  }

  lemma AddedLayerZero(v: Levels, floor: nat, level: nat, f: FileMeta, v': Levels)
    requires Layered(v, floor) && Between(v, level, f, floor) && Added(v, level, f, v')
    requires level == 0 ==> forall g :: g in v[0] ==> g.number < f.number
    ensures NewestByNumber(v'[0], floor)
  {
    LevelZeroOrder(v, floor);
    if level == 0 {
      forall g | g in v[0] ensures Ahead(Ent(f), Ent(g), Ent(f), floor) {
        var i :| 0 <= i < |v[0]| && v[0][i] == g;
        InFiles(v[0], i);
        InLayers(v, 0);
      }
      AddedByNumber(v[0], f, v'[0], floor);
    }
  }

  /** Adding a file that fits between the layers keeps them in order. */
  lemma AddedLayered(v: Levels, floor: nat, level: nat, f: FileMeta, v': Levels)
    requires Layered(v, floor) && Between(v, level, f, floor) && Added(v, level, f, v')
    requires level == 0 ==> forall g :: g in v[0] ==> g.number < f.number
    ensures Layered(v', floor)
  {
    AddedEntries(v, level, f, v');
    AddedLayerZero(v, floor, level, f, v');
    forall l | 0 <= l < |v'| ensures LayerOk(v', l, floor) {
      forall u | 0 <= u < l ensures Ahead(LevelEntries(v'[u]), LevelEntries(v'[l]), UpperEntries(v', u + 1), floor) {
        forall x, e | x in LevelEntries(v'[u]) && e in LevelEntries(v'[l]) && x.key.user == e.key.user
          && Tag(x.key) <= Tag(e.key)
          ensures Covers(UpperEntries(v', u + 1), e, floor)
        {
          AddedOrder(v, floor, level, f, v', u, l, x, e);
        }
      }
    }
    AllLayersOk(v', |v'|, floor);
  }

  lemma FlushBetween(v: Levels, floor: nat, level: nat, f: FileMeta)
    requires VersionOk(v) && FlushFits(v, level, f)
    ensures Between(v, level, f, floor)
  {
    forall u | 0 <= u < level ensures Ahead(LevelEntries(v[u]), Ent(f), UpperEntries(v, u + 1), floor) {
      forall x, e | x in LevelEntries(v[u]) && e in Ent(f) ensures x.key.user != e.key.user {
        var i :| 0 <= i < |v[u]| && x in v[u][i].entries;
        NoSharedKey(v, level, f, u, i, x, e);
      }
    }
  }

  /** Adding the flushed file keeps the version well formed and its layers in order. */
  lemma FlushOk(v: Levels, floor: nat, level: nat, f: FileMeta, v': Levels)
    requires VersionOk(v) && Layered(v, floor) && FlushFits(v, level, f) && Added(v, level, f, v')
    ensures VersionOk(v') && Layered(v', floor) && VersionEntries(v') == VersionEntries(v) + Ent(f)
  {
    AddedOk(v, level, f, v');
    FlushBetween(v, floor, level, f);
    AddedLayered(v, floor, level, f, v');
  }

  // ----- flushing while a compaction runs

  /** No input file overlaps `f`. */
  ghost predicate Avoids(f: FileMeta, c: Inputs2) {
    forall h :: h in Files(c.in0) + Files(c.in1) ==> !Overlaps(h, Some(f.smallest.user), Some(f.largest.user))
  }

  /** A file flushed below the level of the inputs avoids them. */
  lemma FlushAvoids(v: Levels, level: nat, f: FileMeta, c: Inputs2)
    requires ClearThrough(v, level, f.smallest.user, f.largest.user) && FromLevels(v, c) && c.level < level
    ensures Avoids(f, c)
  {
    forall h | h in Files(c.in0) + Files(c.in1) ensures !Overlaps(h, Some(f.smallest.user), Some(f.largest.user)) {
      var l := if h in c.in0 then c.level else c.level + 1;
      var i :| 0 <= i < |v[l]| && v[l][i] == h;
      assert !SomeOverlap(v[l], Some(f.smallest.user), Some(f.largest.user));
    }
  }

  lemma InputFile(c: Inputs2, x: Entry) returns (h: FileMeta)
    requires FilesOk(c.in0) && FilesOk(c.in1) && x in InputEntries(c)
    ensures h in Files(c.in0) + Files(c.in1) && FileOk(h) && x in h.entries
  {
    if x in LevelEntries(c.in0) {
      var j :| 0 <= j < |c.in0| && x in c.in0[j].entries;
      h := c.in0[j];
    } else {
      var j :| 0 <= j < |c.in1| && x in c.in1[j].entries;
      h := c.in1[j];
    }
  }

  /** It shares no user key with them. */
  lemma FlushAvoidsInputs(f: FileMeta, c: Inputs2, x: Entry)
    requires FilesOk(c.in0) && FilesOk(c.in1) && Avoids(f, c) && x in InputEntries(c)
    ensures x.key.user < f.smallest.user || f.largest.user < x.key.user
  {
    var h := InputFile(c, x);
    EntryInFile(h, x);
  }

  /** It even lies wholly on one side of them, because the inputs leave no gap. */
  lemma FlushApart(f: FileMeta, c: Inputs2)
    requires FileOk(f) && FilesOk(c.in0) && FilesOk(c.in1) && Avoids(f, c)
    requires Covered(Files(c.in0) + Files(c.in1))
    ensures Apart(f, InputEntries(c))
  {
    var es := InputEntries(c);
    if a, b :| a in es && b in es && !Less(f.largest, a.key) && !Less(b.key, f.smallest) {
      FlushAvoidsInputs(f, c, a);
      FlushAvoidsInputs(f, c, b);
      FileRange(f, 0);
      GapImpossible(f, c, a, b);
    }
  }

  lemma NotCoveredBy(f: FileMeta, c: Inputs2)
    requires f.smallest.user <= f.largest.user && Avoids(f, c)
    ensures !CoversKey(Files(c.in0) + Files(c.in1), f.smallest.user)
  {
  }

  lemma GapImpossible(f: FileMeta, c: Inputs2, a: Entry, b: Entry)
    requires FileOk(f) && FilesOk(c.in0) && FilesOk(c.in1) && Avoids(f, c)
    requires Covered(Files(c.in0) + Files(c.in1))
    requires a in InputEntries(c) && b in InputEntries(c)
    ensures !(a.key.user < f.smallest.user && f.largest.user < b.key.user)
  {
    if a.key.user < f.smallest.user && f.largest.user < b.key.user {
      var g := InputFile(c, a);
      var h := InputFile(c, b);
      EntryInFile(g, a);
      EntryInFile(h, b);
      FileRange(f, 0);
      NotCoveredBy(f, c);
    }
  }

  lemma AddedRest(files: seq<FileMeta>, f: FileMeta, files': seq<FileMeta>, c: seq<FileMeta>)
    requires Files(files') == Files(files) + {f}
    ensures RestEntries(files, c) <= RestEntries(files', c) <= RestEntries(files, c) + Ent(f)
  {
    forall e | e in RestEntries(files, c) ensures e in RestEntries(files', c) {
      var i :| 0 <= i < |files| && files[i] !in c && e in files[i].entries;
      assert files[i] in Files(files');
      var j :| 0 <= j < |files'| && files'[j] == files[i];
    }
    forall e | e in RestEntries(files', c) ensures e in RestEntries(files, c) + Ent(f) {
      var i :| 0 <= i < |files'| && files'[i] !in c && e in files'[i].entries;
      assert files'[i] in Files(files');
      if files'[i] != f {
        var j :| 0 <= j < |files| && files[j] == files'[i];
      }
    }
  }

  /** How the surroundings of a running compaction grow by the flush. */
  lemma AddedSurroundings(v: Levels, level: nat, f: FileMeta, v': Levels, c: Inputs2)
    requires c.level + 1 < |v| && Added(v, level, f, v')
    requires LevelEntries(v'[level]) == LevelEntries(v[level]) + Ent(f)
    ensures var w, w' := SurroundingsOf(v, c), SurroundingsOf(v', c);
      && w.above <= w'.above <= w.above + Ent(f)
      && w'.side <= w.side + (if level == c.level + 1 then Ent(f) else {})
      && w'.deeper <= w.deeper + (if level > c.level + 1 then Ent(f) else {})
  {
    MoreUpper(v, level, f, v', c.level);
    if level == c.level {
      AddedRest(v[level], f, v'[level], c.in0);
    } else if level == c.level + 1 {
      AddedRest(v[level], f, v'[level], c.in1);
    }
    forall e | e in UpperEntries(v', c.level) ensures e in UpperEntries(v, c.level) + Ent(f) {
      var l :| 0 <= l < c.level && e in LevelEntries(v'[l]);
      assert e in LevelEntries(v[l]) || e in Ent(f);
    }
    forall e | e in DeeperEntries(v', c.level)
      ensures e in DeeperEntries(v, c.level) || (level > c.level + 1 && e in Ent(f))
    {
      var l :| c.level + 2 <= l < |v'| && e in LevelEntries(v'[l]);
      assert e in LevelEntries(v[l]) || (l == level && e in Ent(f));
    }
  }

  lemma GrownSurroundings(
    w: Surroundings, w': Surroundings, m: seq<Entry>, snapshot: nat, picked: Levels, level: nat, es: set<Entry>,
    side: set<Entry>, deeper: set<Entry>)
    requires SurroundingsOk(w, m, snapshot, picked, level)
    requires w.above <= w'.above <= w.above + es && w'.side <= w.side + side && w'.deeper <= w.deeper + deeper
    requires side <= es && deeper <= es
    requires KeyUnique(Before(w, m) + es) && AllParse(es) && NewerThan(es, SetOf(m))
    requires forall e, x :: e in deeper && x in SetOf(m) ==> e.key.user != x.key.user
    ensures SurroundingsOk(w', m, snapshot, picked, level)
    ensures NewerThan(w.side, SetOf(m)) ==> NewerThan(w'.side, SetOf(m))
  {
    assert Before(w', m) <= Before(w, m) + es;
    forall e | e in es ensures e !in SetOf(m) {
      assert e in SetOf(m) ==> Tag(e.key) > Tag(e.key);
    }
    AheadMore(w.above, SetOf(m), w.above, snapshot, w'.above, snapshot);
  }

  /** What a flush changes around a running compaction. */
  lemma FlushKeepsSurroundings(
    v: Levels, level: nat, f: FileMeta, v': Levels, picked: Levels, c: Inputs2, m: seq<Entry>, snapshot: nat)
    requires FileOk(f) && Added(v, level, f, v') && FilesOk(c.in0) && FilesOk(c.in1)
    requires JobReady(v, picked, c, m, snapshot) && AllParse(Ent(f))
    requires KeyUnique(VersionEntries(v) + Ent(f)) && NewerThan(Ent(f), SetOf(m))
    requires c.level < level ==> Avoids(f, c)
    ensures SurroundingsOk(SurroundingsOf(v', c), m, snapshot, picked, c.level)
    ensures NewerThan(SurroundingsOf(v, c).side, SetOf(m)) ==> NewerThan(SurroundingsOf(v', c).side, SetOf(m))
  {
    Partition(v, c, m);
    AddedEntries(v, level, f, v');
    AddedSurroundings(v, level, f, v', c);
    var side := if level == c.level + 1 then Ent(f) else {};
    var deeper := if level > c.level + 1 then Ent(f) else {};
    forall e, x | e in deeper && x in SetOf(m) ensures e.key.user != x.key.user {
      FlushAvoidsInputs(f, c, x);
      EntryInFile(f, e);
    }
    GrownSurroundings(
      SurroundingsOf(v, c), SurroundingsOf(v', c), m, snapshot, picked, c.level, Ent(f), side, deeper);
  }

  lemma FlushKeepsInputs(v: Levels, level: nat, f: FileMeta, v': Levels, c: Inputs2)
    requires Added(v, level, f, v') && FromLevels(v, c)
    ensures FromLevels(v', c)
  {
    forall g | g in c.in0 ensures g in v'[c.level] {
      assert g in Files(v[c.level]);
      assert c.level == level ==> g in Files(v'[level]);
    }
    forall g | g in c.in1 ensures g in v'[c.level + 1] {
      assert g in Files(v[c.level + 1]);
      assert c.level + 1 == level ==> g in Files(v'[level]);
    }
  }

  lemma InputsOk(v: Levels, c: Inputs2)
    requires VersionOk(v) && FromLevels(v, c)
    ensures FilesOk(c.in0) && FilesOk(c.in1)
  {
    LevelFacts(v, c.level);
    LevelFacts(v, c.level + 1);
    SubsetOk(v[c.level], c.in0);
    SubsetOk(v[c.level + 1], c.in1);
  }

  lemma GrownRest(v: Levels, level: nat, f: FileMeta, v': Levels, c: Inputs2)
    requires Added(v, level, f, v') && c.level < |v| && NewerThan(RestEntries(v[c.level], c.in0), LevelEntries(c.in0))
    requires NewerThan(Ent(f), LevelEntries(c.in0))
    ensures NewerThan(RestEntries(v'[c.level], c.in0), LevelEntries(c.in0))
  {
    if level == c.level {
      AddedRest(v[level], f, v'[level], c.in0);
    }
  }

  /** A newer file leaves a running compaction ready to be installed if below the level of
      the inputs it avoids them. */
  lemma AddedKeepsJob(
    v: Levels, level: nat, f: FileMeta, v': Levels, picked: Levels, c: Inputs2, m: seq<Entry>, snapshot: nat)
    requires VersionOk(v) && FileOk(f) && Added(v, level, f, v')
    requires JobReady(v, picked, c, m, snapshot) && AllParse(Ent(f))
    requires KeyUnique(VersionEntries(v) + Ent(f)) && NewerThan(Ent(f), SetOf(m))
    requires c.level < level ==> Avoids(f, c)
    requires Covered(Files(c.in0) + Files(c.in1))
    ensures JobReady(v', picked, c, m, snapshot)
    ensures NewerThan(SurroundingsOf(v, c).side, SetOf(m)) ==> NewerThan(SurroundingsOf(v', c).side, SetOf(m))
  {
    InputsOk(v, c);
    FlushKeepsSurroundings(v, level, f, v', picked, c, m, snapshot);
    FlushSideApart(v, level, f, v', c);
    FlushKeepsInputs(v, level, f, v', c);
    GrownRest(v, level, f, v', c);
  }

  /** So does a flush. */
  lemma FlushKeepsJob(
    v: Levels, level: nat, f: FileMeta, v': Levels, picked: Levels, c: Inputs2, m: seq<Entry>, snapshot: nat)
    requires VersionOk(v) && FlushFits(v, level, f) && Added(v, level, f, v')
    requires JobReady(v, picked, c, m, snapshot) && AllParse(Ent(f)) && KeyUnique(VersionEntries(v) + Ent(f))
    requires Covered(Files(c.in0) + Files(c.in1))
    ensures JobReady(v', picked, c, m, snapshot)
    ensures NewerThan(SurroundingsOf(v, c).side, SetOf(m)) ==> NewerThan(SurroundingsOf(v', c).side, SetOf(m))
  {
    Partition(v, c, m);
    assert SetOf(m) <= VersionEntries(v);
    if c.level < level {
      FlushAvoids(v, level, f, c);
    }
    AddedKeepsJob(v, level, f, v', picked, c, m, snapshot);
  }

  lemma AddedLevel(v: Levels, level: nat, f: FileMeta, v': Levels, l: nat)
    requires Added(v, level, f, v') && l < |v|
    ensures v'[l] == v[l] || (l == level && Holds(v'[l], Files(v[l]) + {f}))
  {
  }

  /** What is left at the output level stays apart from the inputs. */
  lemma MoreApart(files: seq<FileMeta>, f: FileMeta, files': seq<FileMeta>, c: Inputs2)
    requires SideApart(files, c)
    requires files' == files || (Holds(files', Files(files) + {f}) && Avoids(f, c))
    requires FileOk(f) && FilesOk(c.in0) && FilesOk(c.in1) && Covered(Files(c.in0) + Files(c.in1))
    ensures SideApart(files', c)
  {
    if files' != files {
      FlushApart(f, c);
      OneMoreApart(files, f, files', c);
    }
  }

  lemma FlushSideApart(v: Levels, level: nat, f: FileMeta, v': Levels, c: Inputs2)
    requires FileOk(f) && FilesOk(c.in0) && FilesOk(c.in1) && Added(v, level, f, v') && c.level + 1 < |v|
    requires c.level < level ==> Avoids(f, c)
    requires Covered(Files(c.in0) + Files(c.in1)) && SideApart(v[c.level + 1], c)
    ensures SideApart(v'[c.level + 1], c)
  {
    AddedLevel(v, level, f, v', c.level + 1);
    MoreApart(v[c.level + 1], f, v'[c.level + 1], c);
  }

  lemma OneMoreApart(files: seq<FileMeta>, f: FileMeta, files': seq<FileMeta>, c: Inputs2)
    requires Files(files') == Files(files) + {f} && SideApart(files, c) && Apart(f, InputEntries(c))
    ensures SideApart(files', c)
  {
    forall i | 0 <= i < |files'| && files'[i] !in c.in1 ensures Apart(files'[i], InputEntries(c)) {
      assert files'[i] in Files(files');
      if files'[i] != f {
        var j :| 0 <= j < |files| && files[j] == files'[i];
      }
    }
  }
}
