/** Installing compaction results: the new version is well formed and reads the same. */
module Install {
  import opened Options
  import opened Keys
  import opened Version
  import opened Inputs
  import opened Selection
  import opened Compaction

  ghost function RestEntries(files: seq<FileMeta>, c: seq<FileMeta>): set<Entry> {
    set i, e | 0 <= i < |files| && files[i] !in c && e in files[i].entries :: e
  }

  ghost function InputEntries(c: Inputs2): set<Entry> {
    LevelEntries(c.in0) + LevelEntries(c.in1)
  }

  ghost function DeeperEntries(v: Levels, level: nat): set<Entry> {
    set l, e | level + 2 <= l < |v| && e in LevelEntries(v[l]) :: e
  }

  ghost function SurroundingsOf(v: Levels, c: Inputs2): Surroundings
    requires c.level + 1 < |v|
  {
    Surroundings(
      UpperEntries(v, c.level) + RestEntries(v[c.level], c.in0),
      RestEntries(v[c.level + 1], c.in1),
      DeeperEntries(v, c.level))
  }

  ghost predicate FromLevels(v: Levels, c: Inputs2) {
    && c.level + 1 < |v|
    && (forall f :: f in c.in0 ==> f in v[c.level])
    && (forall f :: f in c.in1 ==> f in v[c.level + 1])
  }

  lemma SplitLevel(files: seq<FileMeta>, c: seq<FileMeta>)
    requires forall f :: f in c ==> f in files
    ensures LevelEntries(files) == LevelEntries(c) + RestEntries(files, c)
  {
    forall e | e in LevelEntries(files) ensures e in LevelEntries(c) + RestEntries(files, c) {
      var i :| 0 <= i < |files| && e in files[i].entries;
      if files[i] in c {
        var j :| 0 <= j < |c| && c[j] == files[i];
      }
    }
    forall e | e in LevelEntries(c) ensures e in LevelEntries(files) {
      var j :| 0 <= j < |c| && e in c[j].entries;
      assert c[j] in c;
      var i :| 0 <= i < |files| && files[i] == c[j];
    }
  }

  /** Every entry of the version is an input or is in exactly one surrounding. */
  lemma Partition(v: Levels, c: Inputs2, m: seq<Entry>)
    requires FromLevels(v, c) && SetOf(m) == InputEntries(c)
    ensures Before(SurroundingsOf(v, c), m) == VersionEntries(v)
  {
    var w := SurroundingsOf(v, c);
    SplitLevel(v[c.level], c.in0);
    SplitLevel(v[c.level + 1], c.in1);
    forall e | e in VersionEntries(v) ensures e in Before(w, m) {
      var l :| 0 <= l < |v| && e in LevelEntries(v[l]);
      assert l < c.level ==> e in UpperEntries(v, c.level);
      assert l > c.level + 1 ==> e in DeeperEntries(v, c.level);
    }
  }

  // ----- the inputs SetupOtherInputs selects are closed

  /** At `level`, files left behind hold only newer entries for shared user keys. */
  lemma RestNewer(v: Levels, level: nat, in0: seq<FileMeta>)
    requires VersionOk(v) && level < |v| && Shape(v, level, in0)
    ensures NewerThan(RestEntries(v[level], in0), LevelEntries(in0))
  {
    var files := v[level];
    LevelFacts(v, level);
    forall x, e | x in RestEntries(files, in0) && e in LevelEntries(in0) && x.key.user == e.key.user
      ensures Tag(x.key) > Tag(e.key)
    {
      var i :| 0 <= i < |files| && files[i] !in in0 && x in files[i].entries;
      var j :| 0 <= j < |in0| && e in in0[j].entries;
      assert in0[j] in in0;
      if level == 0 {
        Level0Apart(files, in0, i, in0[j], x, e);
      } else {
        SortedRestNewer(files, in0, i, j, x, e);
      }
    }
  }

  lemma EntryInFile(f: FileMeta, e: Entry)
    requires FileOk(f) && e in f.entries
    ensures Contains(f, e.key.user) && AtMost(f.smallest, e.key) && AtMost(e.key, f.largest)
  {
    var y :| 0 <= y < |f.entries| && f.entries[y] == e;
    FileRange(f, y);
  }

  lemma Level0Apart(
    files: seq<FileMeta>, in0: seq<FileMeta>, i: nat, g: FileMeta, x: Entry, e: Entry)
    requires FilesOk(files) && Level0Shape(files, in0)
    requires i < |files| && files[i] !in in0 && x in files[i].entries
    requires g in in0 && e in g.entries
    ensures x.key.user != e.key.user
  {
    var lo, hi :| ClosedRange(files, lo, hi) && in0 == Pick(files, lo, hi);
    PickMembers(files, lo, hi);
    assert files[i] in files;
    var j :| 0 <= j < |files| && files[j] == g;
    EntryInFile(files[i], x);
    EntryInFile(files[j], e);
  }

  /** A run of a sorted level that ends before no boundary file is older than the rest
      of the level wherever they share a user key. */
  lemma RunRestNewer(files: seq<FileMeta>, a: nat, b: nat, i: nat, t: nat, x: Entry, e: Entry)
    requires FilesOk(files) && Disjoint(files) && a <= t < b <= |files| && i < |files| && !(a <= i < b)
    requires NoBoundary(files, files[b - 1].largest)
    requires x in files[i].entries && e in files[t].entries && x.key.user == e.key.user
    ensures Tag(x.key) > Tag(e.key)
  {
    if i < a {
      AcrossFiles(files, i, t, x, e);
    } else {
      AfterRun(files, b, i, t, x, e);
    }
  }

  lemma SortedRun(files: seq<FileMeta>, in0: seq<FileMeta>) returns (a: nat, b: nat)
    requires FilesOk(files) && Disjoint(files) && SortedShape(files, in0) && in0 != []
    ensures a < b <= |files| && in0 == files[a..b] && NoBoundary(files, files[b - 1].largest)
  {
    a, b :| a < b <= |files| && in0 == files[a..b];
    var k := LargestExists(in0);
    RunLargest(files, a, b, k);
  }

  lemma SortedRestNewer(files: seq<FileMeta>, in0: seq<FileMeta>, i: nat, j: nat, x: Entry, e: Entry)
    requires FilesOk(files) && Disjoint(files) && SortedShape(files, in0)
    requires i < |files| && files[i] !in in0 && x in files[i].entries
    requires j < |in0| && e in in0[j].entries && x.key.user == e.key.user
    ensures Tag(x.key) > Tag(e.key)
  {
    var a, b := SortedRun(files, in0);
    InRun(files, a, b, i);
    assert in0[j] == files[a + j];
    RunRestNewer(files, a, b, i, a + j, x, e);
  }

  lemma InRun(files: seq<FileMeta>, a: nat, b: nat, i: nat)
    requires a <= b <= |files| && i < |files|
    ensures a <= i < b ==> files[i] in files[a..b]
  {
  }

  lemma AfterRun(files: seq<FileMeta>, b: nat, i: nat, j: nat, x: Entry, e: Entry)
    requires FilesOk(files) && Disjoint(files) && j < b <= i < |files|
    requires NoBoundary(files, files[b - 1].largest)
    requires x in files[i].entries && e in files[j].entries
    ensures x.key.user != e.key.user
  {
    EntryInFile(files[i], x);
    EntryInFile(files[j], e);
    if j < b - 1 {
      SmallestIncreasing(files, j, b - 1);
      LargestIncreasing(files);
    }
    assert Less(files[b - 1].largest, files[b].smallest);
    if b < i {
      SmallestIncreasing(files, b, i);
    }
    assert !IsBoundary(files[b], files[b - 1].largest);
  }

  /** `g` lies wholly before or wholly after every input key. */
  ghost predicate Apart(g: FileMeta, es: set<Entry>) {
    || (forall e :: e in es ==> Less(g.largest, e.key))
    || (forall e :: e in es ==> Less(e.key, g.smallest))
  }

  ghost predicate SideApart(files: seq<FileMeta>, c: Inputs2) {
    forall i :: 0 <= i < |files| && files[i] !in c.in1 ==> Apart(files[i], InputEntries(c))
  }

  lemma MinimaBound(c: seq<FileMeta>, lo: InternalKey, hi: InternalKey, e: Entry)
    requires FilesOk(c) && IsSmallest(c, lo) && IsLargest(c, hi) && e in LevelEntries(c)
    ensures lo.user <= e.key.user <= hi.user
  {
    var j :| 0 <= j < |c| && e in c[j].entries;
    EntryInFile(c[j], e);
  }

  /** No file of level + 1 left behind lies between the inputs. */
  lemma HullApart(files: seq<FileMeta>, c: Inputs2)
    requires FilesOk(files) && Disjoint(files) && FilesOk(c.in0) && HullPick(files, c.in0, c.in1)
    ensures SideApart(files, c)
  {
    var lo, hi :| IsSmallest(c.in0, lo) && IsLargest(c.in0, hi) && c.in1 == Pick(files, Some(lo.user), Some(hi.user));
    var p, q := PickIsSlice(files, Some(lo.user), Some(hi.user));
    forall i | 0 <= i < |files| && files[i] !in c.in1 ensures Apart(files[i], InputEntries(c)) {
      InRun(files, p, q, i);
      if files[i].largest.user < lo.user {
        forall e | e in InputEntries(c) ensures Less(files[i].largest, e.key) {
          ApartEntry(files, c, p, q, lo, hi, i, e);
        }
      } else {
        forall e | e in InputEntries(c) ensures Less(e.key, files[i].smallest) {
          ApartEntry(files, c, p, q, lo, hi, i, e);
        }
      }
    }
  }

  lemma SelectedApart(v: Levels, start: seq<FileMeta>, c: Inputs2)
    requires VersionOk(v) && c.level + 1 < |v| && Selected(v, c.level, start, c.in0, c.in1)
    ensures SideApart(v[c.level + 1], c)
  {
    LevelFacts(v, c.level + 1);
    HullApart(v[c.level + 1], c);
  }

  lemma SelectedFrom(v: Levels, start: seq<FileMeta>, c: Inputs2)
    requires c.level + 1 < |v| && Selected(v, c.level, start, c.in0, c.in1)
    ensures FromLevels(v, c)
  {
    HullMembers(v[c.level + 1], c.in0, c.in1);
  }

  lemma HullMembers(files: seq<FileMeta>, in0: seq<FileMeta>, in1: seq<FileMeta>)
    requires HullPick(files, in0, in1)
    ensures forall f :: f in in1 ==> f in files
  {
    var lo: InternalKey, hi: InternalKey :|
      IsSmallest(in0, lo) && IsLargest(in0, hi) && in1 == Pick(files, Some(lo.user), Some(hi.user));
    PickMembers(files, Some(lo.user), Some(hi.user));
  }

  lemma ApartEntry(
    files: seq<FileMeta>, c: Inputs2, p: nat, q: nat, lo: InternalKey, hi: InternalKey, i: nat, e: Entry)
    requires FilesOk(files) && Disjoint(files) && FilesOk(c.in0) && p <= q <= |files| && i < |files|
    requires IsSmallest(c.in0, lo) && IsLargest(c.in0, hi) && c.in1 == files[p..q]
    requires forall j :: 0 <= j < |files| ==> (Overlaps(files[j], Some(lo.user), Some(hi.user)) <==> p <= j < q)
    requires !(p <= i < q) && e in InputEntries(c)
    ensures files[i].largest.user < lo.user ==> Less(files[i].largest, e.key)
    ensures files[i].largest.user >= lo.user ==> Less(e.key, files[i].smallest)
  {
    assert !Overlaps(files[i], Some(lo.user), Some(hi.user));
    if e in LevelEntries(c.in0) {
      HullSide(files[i], c.in0, lo, hi, e);
    } else {
      var j := SliceHolds(files, p, q, e);
      SideOrder(files, j, i, lo.user, hi.user, e);
    }
  }

  lemma SliceHolds(files: seq<FileMeta>, p: nat, q: nat, e: Entry) returns (j: nat)
    requires p <= q <= |files| && e in LevelEntries(files[p..q])
    ensures p <= j < q && e in files[j].entries
  {
    var k :| 0 <= k < |files[p..q]| && e in files[p..q][k].entries;
    assert files[p..q][k] == files[p + k];
    j := p + k;
  }

  lemma HullSide(g: FileMeta, in0: seq<FileMeta>, lo: InternalKey, hi: InternalKey, e: Entry)
    requires FileOk(g) && FilesOk(in0) && IsSmallest(in0, lo) && IsLargest(in0, hi) && e in LevelEntries(in0)
    requires !Overlaps(g, Some(lo.user), Some(hi.user))
    ensures g.largest.user < lo.user ==> Less(g.largest, e.key)
    ensures g.largest.user >= lo.user ==> Less(e.key, g.smallest)
  {
    FileRange(g, 0);
    MinimaBound(in0, lo, hi, e);
  }

  lemma SideOrder(files: seq<FileMeta>, j: nat, i: nat, lo: UserKey, hi: UserKey, e: Entry)
    requires FilesOk(files) && Disjoint(files) && i < |files| && j < |files| && i != j && e in files[j].entries
    requires Overlaps(files[j], Some(lo), Some(hi)) && !Overlaps(files[i], Some(lo), Some(hi))
    ensures files[i].largest.user < lo ==> Less(files[i].largest, e.key)
    ensures files[i].largest.user >= lo ==> Less(e.key, files[i].smallest)
  {
    FileRange(files[i], 0);
    FileRange(files[j], 0);
    EntryInFile(files[j], e);
    if i < j {
      SmallestIncreasing(files, i, j);
    } else {
      SmallestIncreasing(files, j, i);
    }
    LargestIncreasing(files);
  }

  // ----- a compaction that is ready to be installed

  /** What must hold of the current version `v`, when a compaction of inputs `c`
      picked on version `picked` delivers its merged entries `m`. */
  ghost predicate JobReady(v: Levels, picked: Levels, c: Inputs2, m: seq<Entry>, snapshot: nat) {
    && FromLevels(v, c) && SetOf(m) == InputEntries(c)
    && SurroundingsOk(SurroundingsOf(v, c), m, snapshot, picked, c.level)
    && SideApart(v[c.level + 1], c)
    && NewerThan(RestEntries(v[c.level], c.in0), LevelEntries(c.in0))
  }

  lemma InLevel(files: seq<FileMeta>, c: seq<FileMeta>, e: Entry)
    requires forall f :: f in c ==> f in files
    requires e in LevelEntries(c)
    ensures e in LevelEntries(files)
  {
    SplitLevel(files, c);
  }

  lemma UpperGrows(v: Levels, l: nat, level: nat)
    requires l <= level
    ensures UpperEntries(v, l) <= UpperEntries(v, level)
  {
  }

  lemma UpperOn(v: Levels, level: nat)
    requires level < |v|
    ensures UpperEntries(v, level + 1) == UpperEntries(v, level) + LevelEntries(v[level])
  {
  }

  lemma UpperAhead(v: Levels, floor: nat, c: Inputs2)
    requires Layered(v, floor) && FromLevels(v, c)
    ensures Ahead(UpperEntries(v, c.level), InputEntries(c), UpperEntries(v, c.level), floor)
  {
    var upper := UpperEntries(v, c.level);
    forall x, e | x in upper && e in InputEntries(c) && x.key.user == e.key.user && Tag(x.key) <= Tag(e.key)
      ensures Covers(upper, e, floor)
    {
      var l :| 0 <= l < c.level && x in LevelEntries(v[l]);
      if e in LevelEntries(c.in0) {
        InLevel(v[c.level], c.in0, e);
        LevelOrder(v, floor, l, c.level, x, e);
      } else {
        InLevel(v[c.level + 1], c.in1, e);
        LevelOrder(v, floor, l, c.level + 1, x, e);
      }
      UpperGrows(v, l + 1, c.level);
      CoversMore(UpperEntries(v, l + 1), e, floor, upper, floor);
    }
  }

  /** What covers an entry behind the rest of a level is an input only if the rest is newer anyway. */
  lemma RestCover(
    upper: set<Entry>, rest: set<Entry>, in0: set<Entry>, x: Entry, e: Entry, floor: nat)
    requires NewerThan(rest, in0) && x in rest && x.key.user == e.key.user
    requires Covers(upper + (in0 + rest), e, floor)
    ensures Tag(x.key) > Tag(e.key) || Covers(upper + rest, e, floor)
  {
    var c :| c in upper + (in0 + rest) && c.key.user == e.key.user && Tag(c.key) >= Tag(e.key) && Parses(c.key)
          && c.key.sn <= floor;
    assert c in in0 ==> Tag(x.key) > Tag(c.key);
  }

  lemma RestBehind(v: Levels, floor: nat, c: Inputs2, l: nat, x: Entry, e: Entry)
    requires Layered(v, floor) && FromLevels(v, c) && c.level < l < |v|
    requires NewerThan(RestEntries(v[c.level], c.in0), LevelEntries(c.in0))
    requires x in RestEntries(v[c.level], c.in0) && e in LevelEntries(v[l]) && x.key.user == e.key.user
    ensures Tag(x.key) > Tag(e.key) || Covers(SurroundingsOf(v, c).above, e, floor)
  {
    SplitLevel(v[c.level], c.in0);
    LevelOrder(v, floor, c.level, l, x, e);
    UpperOn(v, c.level);
    if Tag(x.key) <= Tag(e.key) {
      RestCover(UpperEntries(v, c.level), RestEntries(v[c.level], c.in0), LevelEntries(c.in0), x, e, floor);
    }
  }

  lemma RestAheadOfNext(v: Levels, floor: nat, c: Inputs2)
    requires Layered(v, floor) && FromLevels(v, c)
    requires NewerThan(RestEntries(v[c.level], c.in0), LevelEntries(c.in0))
    ensures Ahead(RestEntries(v[c.level], c.in0), LevelEntries(c.in1), SurroundingsOf(v, c).above, floor)
  {
    forall x, e | x in RestEntries(v[c.level], c.in0) && e in LevelEntries(c.in1) && x.key.user == e.key.user
      ensures Tag(x.key) > Tag(e.key) || Covers(SurroundingsOf(v, c).above, e, floor)
    {
      InLevel(v[c.level + 1], c.in1, e);
      RestBehind(v, floor, c, c.level + 1, x, e);
    }
  }

  lemma SideDisjoint(files: seq<FileMeta>, c: Inputs2)
    requires FilesOk(files) && SideApart(files, c)
    ensures RestEntries(files, c.in1) !! InputEntries(c)
  {
    forall x | x in RestEntries(files, c.in1) ensures x !in InputEntries(c) {
      var i :| 0 <= i < |files| && files[i] !in c.in1 && x in files[i].entries;
      EntryInFile(files[i], x);
      assert Apart(files[i], InputEntries(c));
    }
  }

  lemma DeeperCovered(v: Levels, level: nat, e: Entry)
    requires VersionOk(v) && e in DeeperEntries(v, level)
    ensures !BaseLevel(v, level, e.key.user)
  {
    var l :| level + 2 <= l < |v| && e in LevelEntries(v[l]);
    var i :| 0 <= i < |v[l]| && e in v[l][i].entries;
    LevelFacts(v, l);
    EntryInFile(v[l][i], e);
  }

  lemma MakeSurroundings(
    upper: set<Entry>, rest: set<Entry>, in0: set<Entry>, in1: set<Entry>, side: set<Entry>, deeper: set<Entry>,
    m: seq<Entry>, snapshot: nat, v: Levels, level: nat)
    requires SortedKeys(m) && SetOf(m) == in0 + in1
    requires var all := upper + rest + SetOf(m) + side + deeper; KeyUnique(all) && AllParse(all)
    requires Ahead(upper, in0 + in1, upper, snapshot)
    requires NewerThan(rest, in0) && Ahead(rest, in1, upper + rest, snapshot)
    requires side !! in0 + in1
    requires forall e :: e in deeper ==> !BaseLevel(v, level, e.key.user)
    ensures SurroundingsOk(Surroundings(upper + rest, side, deeper), m, snapshot, v, level)
  {
    AheadMore(upper, in0 + in1, upper, snapshot, upper + rest, snapshot);
  }

  /** What SetupOtherInputs selects is ready to be installed on the same version. */
  lemma SelectedReady(v: Levels, snapshot: nat, start: seq<FileMeta>, c: Inputs2, m: seq<Entry>)
    requires VersionOk(v) && Layered(v, snapshot) && KeyUnique(VersionEntries(v)) && AllParse(VersionEntries(v))
    requires c.level + 1 < |v| && Selected(v, c.level, start, c.in0, c.in1)
    requires SortedKeys(m) && SetOf(m) == InputEntries(c)
    ensures JobReady(v, v, c, m, snapshot)
  {
    SelectedApart(v, start, c);
    SelectedFrom(v, start, c);
    RestNewer(v, c.level, c.in0);
    ReadySurroundings(v, snapshot, c, m);
  }

  lemma ReadySurroundings(v: Levels, snapshot: nat, c: Inputs2, m: seq<Entry>)
    requires VersionOk(v) && Layered(v, snapshot) && KeyUnique(VersionEntries(v)) && AllParse(VersionEntries(v))
    requires FromLevels(v, c) && SideApart(v[c.level + 1], c)
    requires NewerThan(RestEntries(v[c.level], c.in0), LevelEntries(c.in0))
    requires SortedKeys(m) && SetOf(m) == InputEntries(c)
    ensures SurroundingsOk(SurroundingsOf(v, c), m, snapshot, v, c.level)
  {
    Partition(v, c, m);
    UpperAhead(v, snapshot, c);
    RestAheadOfNext(v, snapshot, c);
    LevelFacts(v, c.level + 1);
    SideDisjoint(v[c.level + 1], c);
    forall e | e in DeeperEntries(v, c.level) ensures !BaseLevel(v, c.level, e.key.user) {
      DeeperCovered(v, c.level, e);
    }
    MakeSurroundings(
      UpperEntries(v, c.level), RestEntries(v[c.level], c.in0), LevelEntries(c.in0), LevelEntries(c.in1),
      RestEntries(v[c.level + 1], c.in1), DeeperEntries(v, c.level), m, snapshot, v, c.level);
  }

  /** No boundary file continues the inputs. */
  ghost predicate Closes(files: seq<FileMeta>, c: seq<FileMeta>) {
    forall k :: IsLargest(c, k) ==> NoBoundary(files, k)
  }

  /** The check the code makes for `level` but not for level + 1. */
  ghost predicate NextLevelClosed(v: Levels, c: Inputs2)
    requires c.level + 1 < |v|
  {
    Closes(v[c.level + 1], c.in1)
  }

  /** What is left at the next level is newer than the inputs. */
  ghost predicate RestAhead(v: Levels, c: Inputs2)
    requires c.level + 1 < |v|
  {
    NewerThan(RestEntries(v[c.level + 1], c.in1), InputEntries(c))
  }

  /** With that check, side entries of a shared user key are newer than the inputs. */
  lemma ClosedSideNewer(v: Levels, start: seq<FileMeta>, c: Inputs2)
    requires VersionOk(v) && c.level + 1 < |v| && Selected(v, c.level, start, c.in0, c.in1)
    requires NextLevelClosed(v, c)
    ensures RestAhead(v, c)
  {
    LevelFacts(v, c.level + 1);
    ClosedHullNewer(v[c.level + 1], c);
  }

  lemma {:induction false} OutsideHull(
    files: seq<FileMeta>, c: Inputs2, p: nat, q: nat, lo: InternalKey, hi: InternalKey, i: nat, x: Entry, e: Entry)
    requires FilesOk(files) && FilesOk(c.in0) && IsSmallest(c.in0, lo) && IsLargest(c.in0, hi)
    requires c.in1 == Pick(files, Some(lo.user), Some(hi.user))
    requires i < |files| && files[i] !in c.in1 && x in files[i].entries && e in LevelEntries(c.in0)
    ensures x.key.user != e.key.user
  {
    PickMembers(files, Some(lo.user), Some(hi.user));
    assert files[i] in files;
    EntryInFile(files[i], x);
    MinimaBound(c.in0, lo, hi, e);
  }

  lemma ClosedHullNewer(files: seq<FileMeta>, c: Inputs2)
    requires FilesOk(files) && Disjoint(files) && FilesOk(c.in0) && HullPick(files, c.in0, c.in1)
    requires Closes(files, c.in1)
    ensures NewerThan(RestEntries(files, c.in1), InputEntries(c))
  {
    var lo, hi :| IsSmallest(c.in0, lo) && IsLargest(c.in0, hi) && c.in1 == Pick(files, Some(lo.user), Some(hi.user));
    var p, q := PickIsSlice(files, Some(lo.user), Some(hi.user));
    forall x, e | x in RestEntries(files, c.in1) && e in InputEntries(c) && x.key.user == e.key.user
      ensures Tag(x.key) > Tag(e.key)
    {
      var i :| 0 <= i < |files| && files[i] !in c.in1 && x in files[i].entries;
      if e in LevelEntries(c.in0) {
        OutsideHull(files, c, p, q, lo, hi, i, x, e);
      } else {
        var j :| 0 <= j < |c.in1| && e in c.in1[j].entries;
        NextLevelOrder(files, c.in1, p, q, i, j, x, e);
      }
    }
  }

  lemma NextLevelOrder(
    files: seq<FileMeta>, in1: seq<FileMeta>, p: nat, q: nat, i: nat, j: nat, x: Entry, e: Entry)
    requires FilesOk(files) && Disjoint(files) && p <= q <= |files| && in1 == files[p..q]
    requires Closes(files, in1) && i < |files| && files[i] !in in1 && x in files[i].entries
    requires j < |in1| && e in in1[j].entries && x.key.user == e.key.user
    ensures Tag(x.key) > Tag(e.key)
  {
    assert SortedShape(files, in1);
    SortedRestNewer(files, in1, i, j, x, e);
  }

  lemma NewerSideSafe(
    w: Surroundings, m: seq<Entry>, snapshot: nat, v: Levels, level: nat, k: UserKey)
    requires SurroundingsOk(w, m, snapshot, v, level) && NewerThan(w.side, SetOf(m))
    ensures !TombstoneLost(w, m, snapshot, v, level, k)
  {
    forall e | e in m && IsNewest(Before(w, m), k, snapshot, e) ensures !HasCandidate(w.side, k, snapshot) {
      assert e in SetOf(m);
      forall x | x in w.side ensures !Candidate(x, k, snapshot) {
        assert x in Before(w, m);
      }
    }
  }

  // ----- the outputs

  /** The output files hold what the merge loop wrote, in order. */
  ghost predicate Materialized(outs: seq<FileMeta>, outputs: seq<Output>) {
    && |outs| == |outputs|
    && forall i :: 0 <= i < |outs| ==>
         outs[i].smallest == outputs[i].smallest && outs[i].largest == outputs[i].largest
         && outs[i].entries == outputs[i].entries && OutputOk(outputs[i])
  }

  ghost predicate InOrder(os: seq<Output>) {
    forall i, j, a, b :: 0 <= i < j < |os| && a in os[i].entries && b in os[j].entries ==> Less(a.key, b.key)
  }

  lemma {:induction false} FlattenSorted(os: seq<Output>)
    requires SortedKeys(Flatten(os))
    ensures forall i :: 0 <= i < |os| ==> SortedKeys(os[i].entries)
    ensures InOrder(os)
    ensures forall e :: e in Flatten(os) <==> exists i :: 0 <= i < |os| && e in os[i].entries
  {
    if os != [] {
      var n := |os| - 1;
      var front, last := Flatten(os[..n]), os[n].entries;
      assert Flatten(os) == front + last;
      assert SortedKeys(front) && SortedKeys(last) by {
        SortedParts(front, last);
      }
      FlattenSorted(os[..n]);
      assert forall i :: 0 <= i < n ==> os[..n][i] == os[i];
      forall i, j, a, b | 0 <= i < j < |os| && a in os[i].entries && b in os[j].entries ensures Less(a.key, b.key) {
        if j == n {
          assert os[..n][i] == os[i] && a in front;
          SortedAcross(front, last, a, b);
        } else {
          assert os[..n][i] == os[i] && os[..n][j] == os[j];
        }
      }
      forall e ensures e in Flatten(os) <==> exists i :: 0 <= i < |os| && e in os[i].entries {
        if e in front {
          var i :| 0 <= i < n && e in os[..n][i].entries;
          assert e in os[i].entries;
        }
        if i :| 0 <= i < |os| && e in os[i].entries {
          assert i < n ==> os[..n][i] == os[i];
        }
      }
    }
  }

  lemma SortedParts(a: seq<Entry>, b: seq<Entry>)
    requires SortedKeys(a + b)
    ensures SortedKeys(a) && SortedKeys(b)
  {
    forall i, j | 0 <= i < j < |a| ensures Less(a[i].key, a[j].key) {
      assert (a + b)[i] == a[i] && (a + b)[j] == a[j];
    }
    forall i, j | 0 <= i < j < |b| ensures Less(b[i].key, b[j].key) {
      assert (a + b)[|a| + i] == b[i] && (a + b)[|a| + j] == b[j];
    }
  }

  lemma SortedAcross(a: seq<Entry>, b: seq<Entry>, x: Entry, y: Entry)
    requires SortedKeys(a + b) && x in a && y in b
    ensures Less(x.key, y.key)
  {
    var i :| 0 <= i < |a| && a[i] == x;
    var j :| 0 <= j < |b| && b[j] == y;
    assert (a + b)[i] == x && (a + b)[|a| + j] == y;
  }

  ghost predicate PairwiseDisjoint(s: set<FileMeta>) {
    forall f, g :: f in s && g in s && f != g ==> Less(f.largest, g.smallest) || Less(g.largest, f.smallest)
  }

  ghost predicate AllFilesOk(s: set<FileMeta>) {
    forall f :: f in s ==> FileOk(f)
  }

  /** What a Builder leaves at a level: each file of the set once, by smallest key. */
  ghost predicate Holds(files: seq<FileMeta>, s: set<FileMeta>) {
    && Files(files) == s
    && (forall i, j :: 0 <= i < j < |files| ==> files[i] != files[j])
    && forall i, j :: 0 <= i < j < |files| ==> AtMost(files[i].smallest, files[j].smallest)
  }

  lemma HoldsDisjoint(files: seq<FileMeta>, s: set<FileMeta>)
    requires Holds(files, s) && PairwiseDisjoint(s) && AllFilesOk(s)
    ensures FilesOk(files) && Disjoint(files)
  {
    forall i | 0 <= i < |files| ensures FileOk(files[i]) {
      assert files[i] in s;
    }
    forall i, j | 0 <= i < j < |files| ensures Less(files[i].largest, files[j].smallest) {
      assert files[i] in s && files[j] in s && files[i] != files[j];
      FileRange(files[i], 0);
      FileRange(files[j], 0);
    }
  }

  ghost function SetEntries(s: set<FileMeta>): set<Entry> {
    set f, e | f in s && e in f.entries :: e
  }

  lemma HoldsEntries(files: seq<FileMeta>, s: set<FileMeta>)
    requires Files(files) == s
    ensures LevelEntries(files) == SetEntries(s)
  {
    forall e | e in SetEntries(s) ensures e in LevelEntries(files) {
      var f :| f in s && e in f.entries;
      var i :| 0 <= i < |files| && files[i] == f;
    }
  }

  lemma OutputsDisjoint(outs: seq<FileMeta>)
    requires Disjoint(outs)
    ensures PairwiseDisjoint(Files(outs))
  {
    forall f, g | f in Files(outs) && g in Files(outs) && f != g
      ensures Less(f.largest, g.smallest) || Less(g.largest, f.smallest)
    {
      var i :| 0 <= i < |outs| && outs[i] == f;
      var j :| 0 <= j < |outs| && outs[j] == g;
      assert i < j || j < i;
    }
  }

  lemma OutputBefore(os: seq<Output>, i: nat, j: nat)
    requires InOrder(os) && i < j < |os| && OutputOk(os[i]) && OutputOk(os[j])
    ensures Less(os[i].largest, os[j].smallest)
  {
    var a, b := os[i].entries, os[j].entries;
    assert a[|a| - 1] in a && b[0] in b;
  }

  lemma OutputsOk(outs: seq<FileMeta>, outputs: seq<Output>)
    requires Materialized(outs, outputs)
    requires forall i :: 0 <= i < |outputs| ==> SortedKeys(outputs[i].entries)
    requires forall i, e :: 0 <= i < |outputs| && e in outputs[i].entries ==> Packs(e.key)
    ensures AllFilesOk(Files(outs))
  {
  }

  lemma {:induction false} OutputsEntries(outs: seq<FileMeta>, outputs: seq<Output>)
    requires Materialized(outs, outputs)
    requires forall e :: e in Flatten(outputs) <==> exists i :: 0 <= i < |outputs| && e in outputs[i].entries
    ensures SetEntries(Files(outs)) == SetOf(Flatten(outputs))
  {
    forall e | e in Flatten(outputs) ensures e in SetEntries(Files(outs)) {
      var i :| 0 <= i < |outputs| && e in outputs[i].entries;
      assert outs[i] in Files(outs);
    }
    forall e | e in SetEntries(Files(outs)) ensures e in Flatten(outputs) {
      var f :| f in Files(outs) && e in f.entries;
      var i :| 0 <= i < |outs| && outs[i] == f;
      assert e in outputs[i].entries;
    }
  }

  /** The outputs are well-formed, disjoint files that hold exactly the kept entries. */
  lemma {:induction false} OutputsGood(
    outs: seq<FileMeta>, outputs: seq<Output>, m: seq<Entry>, snapshot: nat, v: Levels, level: nat)
    requires SortedKeys(m) && Materialized(outs, outputs)
    requires Flatten(outputs) == Kept(m, |m|, snapshot, v, level)
    requires forall e :: e in m ==> Packs(e.key)
    ensures AllFilesOk(Files(outs)) && PairwiseDisjoint(Files(outs))
    ensures SetEntries(Files(outs)) == SetOf(Kept(m, |m|, snapshot, v, level))
  {
    KeptSorted(m, |m|, snapshot, v, level);
    KeptSubset(m, snapshot, v, level);
    FlattenSorted(outputs);
    forall i, e | 0 <= i < |outputs| && e in outputs[i].entries ensures Packs(e.key) {
      assert e in Flatten(outputs) && e in SetOf(m);
    }
    OutputsOk(outs, outputs);
    forall i, j | 0 <= i < j < |outs| ensures Less(outs[i].largest, outs[j].smallest) {
      OutputBefore(outputs, i, j);
    }
    OutputsDisjoint(outs);
    OutputsEntries(outs, outputs);
  }

  // ----- the installed version

  ghost function RemainingFiles(files: seq<FileMeta>, c: seq<FileMeta>): set<FileMeta> {
    Files(files) - Files(c)
  }

  /** LogAndApply of the compaction's edit: inputs deleted, outputs added at level + 1. */
  ghost predicate Installed(v: Levels, c: Inputs2, outs: seq<FileMeta>, v': Levels) {
    && FromLevels(v, c) && |v'| == |v|
    && (forall l :: 0 <= l < |v| && l != c.level && l != c.level + 1 ==> v'[l] == v[l])
    && Holds(v'[c.level], RemainingFiles(v[c.level], c.in0))
    && Holds(v'[c.level + 1], RemainingFiles(v[c.level + 1], c.in1) + Files(outs))
  }

  lemma RemainingEntries(files: seq<FileMeta>, c: seq<FileMeta>)
    ensures SetEntries(RemainingFiles(files, c)) == RestEntries(files, c)
  {
    forall e | e in SetEntries(RemainingFiles(files, c)) ensures e in RestEntries(files, c) {
      var f :| f in RemainingFiles(files, c) && e in f.entries;
      var i :| 0 <= i < |files| && files[i] == f;
      assert files[i] !in c;
    }
    forall e | e in RestEntries(files, c) ensures e in SetEntries(RemainingFiles(files, c)) {
      var i :| 0 <= i < |files| && files[i] !in c && e in files[i].entries;
      assert files[i] in RemainingFiles(files, c);
    }
  }

  lemma RemainingGood(files: seq<FileMeta>, c: seq<FileMeta>)
    requires FilesOk(files)
    ensures AllFilesOk(RemainingFiles(files, c))
    ensures Disjoint(files) ==> PairwiseDisjoint(RemainingFiles(files, c))
  {
    if Disjoint(files) {
      forall f, g | f in RemainingFiles(files, c) && g in RemainingFiles(files, c) && f != g
        ensures Less(f.largest, g.smallest) || Less(g.largest, f.smallest)
      {
        var i :| 0 <= i < |files| && files[i] == f;
        var j :| 0 <= j < |files| && files[j] == g;
        assert i < j || j < i;
      }
    }
  }

  lemma RemainingNumbers(files: seq<FileMeta>, files': seq<FileMeta>, c: seq<FileMeta>)
    requires DistinctNumbers(files) && Holds(files', RemainingFiles(files, c))
    ensures DistinctNumbers(files')
  {
    forall i, j | 0 <= i < |files'| && 0 <= j < |files'| && i != j ensures files'[i].number != files'[j].number {
      assert files'[i] in Files(files') && files'[j] in Files(files') && files'[i] != files'[j];
      var a :| 0 <= a < |files| && files[a] == files'[i];
      var b :| 0 <= b < |files| && files[b] == files'[j];
    }
  }

  lemma RemainingFrom(
    files: seq<FileMeta>, files': seq<FileMeta>, c: seq<FileMeta>, n: nat, e: Entry)
    requires Files(files') == RemainingFiles(files, c) && e in NumberedFrom(files, n)
    ensures e in NumberedFrom(files', n) || e in LevelEntries(c)
  {
    var g :| 0 <= g < |files| && files[g].number >= n && e in files[g].entries;
    if files[g] in c {
      var k :| 0 <= k < |c| && c[k] == files[g];
    } else {
      assert files[g] in Files(files');
      var k :| 0 <= k < |files'| && files'[k] == files[g];
    }
  }

  lemma RemainingPair(
    files: seq<FileMeta>, files': seq<FileMeta>, c: seq<FileMeta>, floor: nat, a: nat, b: nat, x: Entry, e: Entry)
    requires NewestByNumber(files, floor) && Files(files') == RemainingFiles(files, c)
    requires NewerThan(RestEntries(files, c), LevelEntries(c))
    requires a < |files| && b < |files| && files[a].number > files[b].number && files[a] !in c
    requires x in Ent(files[a]) && e in Ent(files[b]) && x.key.user == e.key.user && Tag(x.key) <= Tag(e.key)
    ensures Covers(NumberedFrom(files', files[a].number), e, floor)
  {
    var met := NumberedFrom(files, files[a].number);
    assert Ahead(Ent(files[a]), Ent(files[b]), met, floor);
    var z :| z in met && z.key.user == e.key.user && Tag(z.key) >= Tag(e.key) && Parses(z.key) && z.key.sn <= floor;
    assert x in RestEntries(files, c);
    RemainingFrom(files, files', c, files[a].number, z);
  }

  /** Level 0 keeps its order by number when files are removed whose rest is newer. */
  lemma RemainingByNumber(files: seq<FileMeta>, files': seq<FileMeta>, c: seq<FileMeta>, floor: nat)
    requires NewestByNumber(files, floor) && Holds(files', RemainingFiles(files, c))
    requires NewerThan(RestEntries(files, c), LevelEntries(c))
    ensures NewestByNumber(files', floor)
  {
    forall i, j | 0 <= i < |files'| && 0 <= j < |files'| && files'[i].number > files'[j].number
      ensures Ahead(Ent(files'[i]), Ent(files'[j]), NumberedFrom(files', files'[i].number), floor)
    {
      assert files'[i] in Files(files') && files'[j] in Files(files');
      var a :| 0 <= a < |files| && files[a] == files'[i];
      var b :| 0 <= b < |files| && files[b] == files'[j];
      forall x, e | x in Ent(files'[i]) && e in Ent(files'[j]) && x.key.user == e.key.user && Tag(x.key) <= Tag(e.key)
        ensures Covers(NumberedFrom(files', files'[i].number), e, floor)
      {
        RemainingPair(files, files', c, floor, a, b, x, e);
      }
    }
  }

  /** The outputs fit between the files of level + 1 that were left alone. */
  lemma NextLevelDisjoint(files: seq<FileMeta>, c: Inputs2, outs: seq<FileMeta>)
    requires FilesOk(files) && Disjoint(files) && SideApart(files, c)
    requires AllFilesOk(Files(outs)) && PairwiseDisjoint(Files(outs)) && SetEntries(Files(outs)) <= InputEntries(c)
    ensures PairwiseDisjoint(RemainingFiles(files, c.in1) + Files(outs))
  {
    RemainingGood(files, c.in1);
    forall f, g | f in RemainingFiles(files, c.in1) && g in Files(outs)
      ensures Less(f.largest, g.smallest) || Less(g.largest, f.smallest)
    {
      var i :| 0 <= i < |files| && files[i] == f;
      assert files[i] !in c.in1;
      assert g.entries[0] in g.entries && g.entries[|g.entries| - 1] in g.entries;
      assert g.entries[0] in SetEntries(Files(outs)) && g.entries[|g.entries| - 1] in SetEntries(Files(outs));
    }
  }

  lemma InputLevelOk(files: seq<FileMeta>, c: seq<FileMeta>, files': seq<FileMeta>)
    requires FilesOk(files) && Holds(files', RemainingFiles(files, c))
    ensures FilesOk(files') && (Disjoint(files) ==> Disjoint(files'))
    ensures DistinctNumbers(files) ==> DistinctNumbers(files')
  {
    RemainingGood(files, c);
    HoldsOk(files', RemainingFiles(files, c));
    if DistinctNumbers(files) {
      RemainingNumbers(files, files', c);
    }
  }

  lemma NextLevelOk(files: seq<FileMeta>, c: Inputs2, outs: seq<FileMeta>, files': seq<FileMeta>)
    requires FilesOk(files) && Disjoint(files) && SideApart(files, c)
    requires AllFilesOk(Files(outs)) && PairwiseDisjoint(Files(outs)) && SetEntries(Files(outs)) <= InputEntries(c)
    requires Holds(files', RemainingFiles(files, c.in1) + Files(outs))
    ensures FilesOk(files') && Disjoint(files')
  {
    RemainingGood(files, c.in1);
    NextLevelDisjoint(files, c, outs);
    HoldsDisjoint(files', RemainingFiles(files, c.in1) + Files(outs));
  }

  /** The version after the compaction, level by level. */
  lemma InstalledLevelOk(
    v: Levels, c: Inputs2, kept: set<Entry>, outs: seq<FileMeta>, v': Levels, l: nat)
    requires VersionOk(v) && Installed(v, c, outs, v') && SideApart(v[c.level + 1], c)
    requires AllFilesOk(Files(outs)) && PairwiseDisjoint(Files(outs))
    requires SetEntries(Files(outs)) == kept && kept <= InputEntries(c) && l < |v'|
    ensures LevelOk(v', l)
  {
    LevelFacts(v, l);
    if l == c.level {
      InputLevelOk(v[l], c.in0, v'[l]);
    } else if l == c.level + 1 {
      NextLevelOk(v[l], c, outs, v'[l]);
    }
  }

  lemma HoldsOk(files: seq<FileMeta>, s: set<FileMeta>)
    requires Holds(files, s) && AllFilesOk(s)
    ensures FilesOk(files) && (PairwiseDisjoint(s) ==> Disjoint(files))
  {
    forall i | 0 <= i < |files| ensures FileOk(files[i]) {
      assert files[i] in s;
    }
    if PairwiseDisjoint(s) {
      HoldsDisjoint(files, s);
    }
  }

  /** Where an entry of the new version comes from. */
  lemma InstalledOrigin(v: Levels, c: Inputs2, kept: set<Entry>, outs: seq<FileMeta>, v': Levels)
    requires Installed(v, c, outs, v') && SetEntries(Files(outs)) == kept
    ensures LevelEntries(v'[c.level]) == RestEntries(v[c.level], c.in0)
    ensures LevelEntries(v'[c.level + 1]) == RestEntries(v[c.level + 1], c.in1) + kept
  {
    HoldsEntries(v'[c.level], RemainingFiles(v[c.level], c.in0));
    RemainingEntries(v[c.level], c.in0);
    var next := RemainingFiles(v[c.level + 1], c.in1);
    HoldsEntries(v'[c.level + 1], next + Files(outs));
    RemainingEntries(v[c.level + 1], c.in1);
    assert SetEntries(next + Files(outs)) == SetEntries(next) + SetEntries(Files(outs));
  }

  ghost function Rebuilt(w: Surroundings, kept: set<Entry>): set<Entry> {
    w.above + kept + w.side + w.deeper
  }

  /** Reads are answered from the surroundings and the kept entries. */
  lemma InstalledEntries(v: Levels, c: Inputs2, kept: set<Entry>, outs: seq<FileMeta>, v': Levels)
    requires Installed(v, c, outs, v') && SetEntries(Files(outs)) == kept
    ensures VersionEntries(v') == Rebuilt(SurroundingsOf(v, c), kept)
  {
    InstalledOrigin(v, c, kept, outs, v');
    var new' := Rebuilt(SurroundingsOf(v, c), kept);
    forall e | e in VersionEntries(v') ensures e in new' {
      var l :| 0 <= l < |v'| && e in LevelEntries(v'[l]);
      assert l < c.level ==> e in UpperEntries(v, c.level);
      assert l > c.level + 1 ==> e in DeeperEntries(v, c.level);
    }
    forall e | e in new' ensures e in VersionEntries(v') {
      if e in UpperEntries(v, c.level) {
        var l :| 0 <= l < c.level && e in LevelEntries(v[l]);
        assert e in LevelEntries(v'[l]);
      } else if e in DeeperEntries(v, c.level) {
        var l :| c.level + 2 <= l < |v| && e in LevelEntries(v[l]);
        assert e in LevelEntries(v'[l]);
      } else {
        assert e in LevelEntries(v'[c.level]) || e in LevelEntries(v'[c.level + 1]);
      }
    }
  }

  /** An input or side entry of level + 1 lies at `level` or `level + 1` of the old version. */
  lemma OldLevel(v: Levels, c: Inputs2, m: seq<Entry>, x: Entry) returns (l: nat)
    requires FromLevels(v, c) && SetOf(m) == InputEntries(c)
    requires x in RestEntries(v[c.level + 1], c.in1) || x in SetOf(m)
    ensures (l == c.level || l == c.level + 1) && x in LevelEntries(v[l])
    ensures x !in SetOf(m) ==> l == c.level + 1
  {
    if x in LevelEntries(c.in0) {
      InLevel(v[c.level], c.in0, x);
      l := c.level;
    } else {
      SplitLevel(v[c.level + 1], c.in1);
      l := c.level + 1;
    }
  }

  // ----- the order of its layers

  /** Where something lies deeper, what covered it among the inputs is still covered by what was kept. */
  ghost predicate KeptCovers(deeper: set<Entry>, m: seq<Entry>, kept: set<Entry>, floor: nat) {
    forall z, e :: z in SetOf(m) && e in deeper && z.key.user == e.key.user && Parses(z.key) && z.key.sn <= floor ==>
      Covers(kept, z, floor)
  }

  lemma UpperUntouched(v: Levels, c: Inputs2, v': Levels, level: nat)
    requires |v'| == |v| && level <= c.level
    requires forall i :: 0 <= i < |v| && i != c.level && i != c.level + 1 ==> v'[i] == v[i]
    ensures UpperEntries(v', level) == UpperEntries(v, level)
  {
  }

  lemma UpperInstalled(v: Levels, c: Inputs2, v': Levels)
    requires c.level + 1 < |v| == |v'|
    requires forall i :: 0 <= i < |v| && i != c.level && i != c.level + 1 ==> v'[i] == v[i]
    requires LevelEntries(v'[c.level]) == RestEntries(v[c.level], c.in0)
    ensures UpperEntries(v', c.level + 1) == SurroundingsOf(v, c).above
  {
    UpperUntouched(v, c, v', c.level);
    UpperOn(v', c.level);
  }

  /** What a new version changes above level `u`, at or below the output level. */
  lemma UpperReplaced(v: Levels, c: Inputs2, m: seq<Entry>, kept: set<Entry>, v': Levels, u: nat)
    requires FromLevels(v, c) && SetOf(m) == InputEntries(c) && |v'| == |v| && c.level + 1 <= u < |v|
    requires forall i :: 0 <= i < |v| && i != c.level && i != c.level + 1 ==> v'[i] == v[i]
    requires LevelEntries(v'[c.level]) == RestEntries(v[c.level], c.in0)
    requires LevelEntries(v'[c.level + 1]) == RestEntries(v[c.level + 1], c.in1) + kept
    ensures UpperEntries(v, u + 1) <= UpperEntries(v', u + 1) + SetOf(m) && kept <= UpperEntries(v', u + 1)
  {
    SplitLevel(v[c.level], c.in0);
    SplitLevel(v[c.level + 1], c.in1);
    var n: nat := u + 1;
    forall e | e in UpperEntries(v, n) ensures e in UpperEntries(v', n) + SetOf(m) {
      var l :| 0 <= l < n && l < |v| && e in LevelEntries(v[l]);
      assert e in LevelEntries(v'[l]) || e in SetOf(m);
    }
    forall e | e in kept ensures e in UpperEntries(v', n) {
      assert e in LevelEntries(v'[c.level + 1]);
    }
  }

  lemma CoveredByKept(
    met: set<Entry>, met': set<Entry>, m: seq<Entry>, kept: set<Entry>, deeper: set<Entry>, e: Entry, floor: nat)
    requires Covers(met, e, floor) && met <= met' + SetOf(m) && kept <= met' && e in deeper
    requires KeptCovers(deeper, m, kept, floor)
    ensures Covers(met', e, floor)
  {
    var z :| z in met && z.key.user == e.key.user && Tag(z.key) >= Tag(e.key) && Parses(z.key) && z.key.sn <= floor;
    if z !in met' {
      assert z in SetOf(m) && Covers(kept, z, floor);
      var y :| y in kept && y.key.user == z.key.user && Tag(y.key) >= Tag(z.key) && Parses(y.key) && y.key.sn <= floor;
      assert y in met';
    }
  }

  /** The new version `v'` of `v` has its two levels from the surroundings and `kept`. */
  ghost predicate Replaced(v: Levels, c: Inputs2, kept: set<Entry>, v': Levels) {
    && c.level + 1 < |v| == |v'|
    && (forall i :: 0 <= i < |v| && i != c.level && i != c.level + 1 ==> v'[i] == v[i])
    && LevelEntries(v'[c.level]) == RestEntries(v[c.level], c.in0)
    && LevelEntries(v'[c.level + 1]) == RestEntries(v[c.level + 1], c.in1) + kept
  }

  lemma OrderAbove(
    v: Levels, floor: nat, c: Inputs2, m: seq<Entry>, kept: set<Entry>, v': Levels, u: nat, l: nat, x: Entry, e: Entry)
    requires Layered(v, floor) && FromLevels(v, c) && SetOf(m) == InputEntries(c) && kept <= SetOf(m)
    requires Replaced(v, c, kept, v') && u < c.level && u < l < |v|
    requires x in LevelEntries(v'[u]) && e in LevelEntries(v'[l]) && x.key.user == e.key.user
    ensures Tag(x.key) > Tag(e.key) || Covers(UpperEntries(v', u + 1), e, floor)
  {
    SplitLevel(v[c.level], c.in0);
    var l' := l;
    if l == c.level + 1 {
      l' := OldLevel(v, c, m, e);
    }
    LevelOrder(v, floor, u, l', x, e);
    UpperUntouched(v, c, v', u + 1);
  }

  lemma AheadOfInputs(
    above: set<Entry>, m: seq<Entry>, snapshot: nat, floor: nat, x: Entry, e: Entry)
    requires Ahead(above, SetOf(m), above, snapshot) && snapshot <= floor
    requires x in above && e in SetOf(m) && x.key.user == e.key.user
    ensures Tag(x.key) > Tag(e.key) || Covers(above, e, floor)
  {
    AheadMore(above, SetOf(m), above, snapshot, above, floor);
  }

  lemma OrderAtInput(
    v: Levels, snapshot: nat, floor: nat, c: Inputs2, m: seq<Entry>, kept: set<Entry>, v': Levels, l: nat, x: Entry,
    e: Entry)
    requires Layered(v, floor) && FromLevels(v, c) && SetOf(m) == InputEntries(c) && snapshot <= floor
    requires NewerThan(RestEntries(v[c.level], c.in0), LevelEntries(c.in0))
    requires var above := SurroundingsOf(v, c).above; Ahead(above, SetOf(m), above, snapshot)
    requires Replaced(v, c, kept, v') && kept <= SetOf(m) && c.level < l < |v|
    requires x in LevelEntries(v'[c.level]) && e in LevelEntries(v'[l]) && x.key.user == e.key.user
    ensures Tag(x.key) > Tag(e.key) || Covers(SurroundingsOf(v, c).above, e, floor)
  {
    if e in SetOf(m) {
      AheadOfInputs(SurroundingsOf(v, c).above, m, snapshot, floor, x, e);
    } else {
      SplitLevel(v[c.level + 1], c.in1);
      RestBehind(v, floor, c, l, x, e);
    }
  }

  lemma OrderBelow(
    v: Levels, floor: nat, c: Inputs2, m: seq<Entry>, kept: set<Entry>, v': Levels, u: nat, l: nat, x: Entry, e: Entry)
    requires Layered(v, floor) && FromLevels(v, c) && SetOf(m) == InputEntries(c) && kept <= SetOf(m)
    requires Replaced(v, c, kept, v') && c.level < u < l < |v| && KeptCovers(DeeperEntries(v, c.level), m, kept, floor)
    requires x in LevelEntries(v'[u]) && e in LevelEntries(v'[l]) && x.key.user == e.key.user
    ensures Tag(x.key) > Tag(e.key) || Covers(UpperEntries(v', u + 1), e, floor)
  {
    var u' := u;
    if u == c.level + 1 {
      u' := OldLevel(v, c, m, x);
    }
    LevelOrder(v, floor, u', l, x, e);
    if Tag(x.key) <= Tag(e.key) {
      UpperReplaced(v, c, m, kept, v', u);
      UpperGrows(v, u' + 1, u + 1);
      assert e in DeeperEntries(v, c.level);
      CoveredByKept(UpperEntries(v, u' + 1), UpperEntries(v', u + 1), m, kept, DeeperEntries(v, c.level), e, floor);
    }
  }

  /** Replacing the inputs keeps the order of the layers. */
  lemma ReplaceLayered(
    v: Levels, picked: Levels, snapshot: nat, floor: nat, c: Inputs2, m: seq<Entry>, kept: set<Entry>,
    outs: seq<FileMeta>,
    v': Levels)
    requires Layered(v, floor) && JobReady(v, picked, c, m, snapshot) && snapshot <= floor && Installed(v, c, outs, v')
    requires SetEntries(Files(outs)) == kept && kept <= SetOf(m)
    requires KeptCovers(DeeperEntries(v, c.level), m, kept, floor)
    ensures Layered(v', floor)
  {
    InstalledOrigin(v, c, kept, outs, v');
    forall l | 0 <= l < |v'| ensures LayerOk(v', l, floor) {
      if l == 0 {
        LevelZeroOrder(v, floor);
        if c.level == 0 {
          RemainingByNumber(v[0], v'[0], c.in0, floor);
        }
      }
      forall u | 0 <= u < l ensures Ahead(LevelEntries(v'[u]), LevelEntries(v'[l]), UpperEntries(v', u + 1), floor) {
        forall x, e | x in LevelEntries(v'[u]) && e in LevelEntries(v'[l]) && x.key.user == e.key.user
          ensures Tag(x.key) > Tag(e.key) || Covers(UpperEntries(v', u + 1), e, floor)
        {
          if u < c.level {
            OrderAbove(v, floor, c, m, kept, v', u, l, x, e);
          } else if u == c.level {
            UpperInstalled(v, c, v');
            OrderAtInput(v, snapshot, floor, c, m, kept, v', l, x, e);
          } else {
            OrderBelow(v, floor, c, m, kept, v', u, l, x, e);
          }
        }
      }
    }
    AllLayersOk(v', |v'|, floor);
  }

  /** Replacing the inputs by well-formed outputs that hold some of their entries
      yields a well-formed version. */
  lemma ReplaceOk(
    v: Levels, c: Inputs2, m: seq<Entry>, kept: set<Entry>, outs: seq<FileMeta>, v': Levels)
    requires VersionOk(v) && Installed(v, c, outs, v') && SideApart(v[c.level + 1], c) && SetOf(m) == InputEntries(c)
    requires AllFilesOk(Files(outs)) && PairwiseDisjoint(Files(outs))
    requires SetEntries(Files(outs)) == kept && kept <= SetOf(m)
    ensures VersionOk(v') && VersionEntries(v') == Rebuilt(SurroundingsOf(v, c), kept)
  {
    InstalledEntries(v, c, kept, outs, v');
    forall l | 0 <= l < |v'| ensures LevelOk(v', l) {
      InstalledLevelOk(v, c, kept, outs, v', l);
    }
    AllLevelsOk(v', |v'|);
  }

  /** The newest input that the snapshot sees stays, unless it is an obsolete tombstone. */
  lemma {:induction false} NewestKept(m: seq<Entry>, z: Entry, snapshot: nat, v: Levels, level: nat)
    requires SortedKeys(m) && z in m && IsNewest(SetOf(m), z.key.user, snapshot, z) && AllParse(SetOf(m))
    requires !BaseLevel(v, level, z.key.user)
    ensures z in Kept(m, |m|, snapshot, v, level)
  {
    var i :| 0 <= i < |m| && m[i] == z;
    if Hidden(m, i, snapshot) {
      assert Less(m[i - 1].key, m[i].key);
      assert m[i - 1] in SetOf(m) && Candidate(m[i - 1], z.key.user, snapshot);
    }
    KeptMembers(m, |m|, snapshot, v, level, z);
  }

  lemma {:induction false} DroppedCovered(m: seq<Entry>, z: Entry, snapshot: nat, floor: nat, v: Levels, level: nat)
    requires SortedKeys(m) && z in m && AllParse(SetOf(m)) && KeyUnique(SetOf(m)) && !BaseLevel(v, level, z.key.user)
    requires snapshot <= floor && z.key.sn <= floor
    ensures Covers(SetOf(Kept(m, |m|, snapshot, v, level)), z, floor)
  {
    if z !in Kept(m, |m|, snapshot, v, level) {
      DroppedWhy(m, z, snapshot, v, level);
      var x :| x in m && x.key.user == z.key.user && Tag(x.key) > Tag(z.key) && x.key.sn <= snapshot;
      assert x in SetOf(m) && Candidate(x, z.key.user, snapshot);
      NewestExists(SetOf(m), z.key.user, snapshot);
      var y :| IsNewest(SetOf(m), z.key.user, snapshot, y);
      NewestKept(m, y, snapshot, v, level);
      assert y.key.sn <= snapshot by {
        CandidateIsOldEnough(y, z.key.user, snapshot);
      }
    } else {
      assert z in SetOf(m);
    }
  }

  lemma {:induction false} KeptCoversAll(
    w: Surroundings, m: seq<Entry>, snapshot: nat, floor: nat, v: Levels, level: nat)
    requires SurroundingsOk(w, m, snapshot, v, level) && snapshot <= floor
    ensures KeptCovers(w.deeper, m, SetOf(Kept(m, |m|, snapshot, v, level)), floor)
  {
    forall z, e | z in SetOf(m) && e in w.deeper && z.key.user == e.key.user && Parses(z.key) && z.key.sn <= floor
      ensures Covers(SetOf(Kept(m, |m|, snapshot, v, level)), z, floor)
    {
      assert KeyUnique(SetOf(m)) && AllParse(SetOf(m));
      DroppedCovered(m, z, snapshot, floor, v, level);
    }
  }

  /** Installing a finished compaction yields a well-formed version that holds the
      surroundings and the kept entries. */
  lemma {:induction false} InstallOk(
    v: Levels, picked: Levels, c: Inputs2, m: seq<Entry>, snapshot: nat,
    outputs: seq<Output>, outs: seq<FileMeta>, v': Levels)
    requires VersionOk(v) && JobReady(v, picked, c, m, snapshot) && Installed(v, c, outs, v')
    requires Materialized(outs, outputs) && Flatten(outputs) == Kept(m, |m|, snapshot, picked, c.level)
    ensures VersionOk(v')
    ensures VersionEntries(v') == After(SurroundingsOf(v, c), m, snapshot, picked, c.level)
  {
    InputsPack(v, c, m);
    OutputsGood(outs, outputs, m, snapshot, picked, c.level);
    KeptSubset(m, snapshot, picked, c.level);
    ReplaceOk(v, c, m, SetOf(Kept(m, |m|, snapshot, picked, c.level)), outs, v');
  }

  /** Its layers are in order for every reader at or above a floor that the snapshot is at or below. */
  lemma {:induction false} InstallLayered(
    v: Levels, picked: Levels, c: Inputs2, m: seq<Entry>, snapshot: nat, floor: nat,
    outputs: seq<Output>, outs: seq<FileMeta>, v': Levels)
    requires VersionOk(v) && Layered(v, floor) && JobReady(v, picked, c, m, snapshot) && snapshot <= floor
    requires Installed(v, c, outs, v')
    requires Materialized(outs, outputs) && Flatten(outputs) == Kept(m, |m|, snapshot, picked, c.level)
    ensures Layered(v', floor)
  {
    InputsPack(v, c, m);
    OutputsGood(outs, outputs, m, snapshot, picked, c.level);
    KeptSubset(m, snapshot, picked, c.level);
    KeptCoversAll(SurroundingsOf(v, c), m, snapshot, floor, picked, c.level);
    ReplaceLayered(v, picked, snapshot, floor, c, m, SetOf(Kept(m, |m|, snapshot, picked, c.level)), outs, v');
  }

  lemma InputsPack(v: Levels, c: Inputs2, m: seq<Entry>)
    requires VersionOk(v) && FromLevels(v, c) && SetOf(m) == InputEntries(c)
    ensures forall e :: e in m ==> Packs(e.key)
  {
    forall e | e in m ensures Packs(e.key) {
      assert e in SetOf(m);
      var l := OldLevel(v, c, m, e);
      LevelFacts(v, l);
      var i :| 0 <= i < |v[l]| && e in v[l][i].entries;
    }
  }

  /** Compaction preserves meaning: when no side entry of a shared user key is older
      than an input, every read at or above the snapshot gets the same answer. */
  lemma {:induction false} CompactionPreservesReads(
    v: Levels, picked: Levels, c: Inputs2, m: seq<Entry>, snapshot: nat,
    outputs: seq<Output>, outs: seq<FileMeta>, v': Levels, k: UserKey, s: nat)
    requires VersionOk(v) && JobReady(v, picked, c, m, snapshot) && Installed(v, c, outs, v')
    requires Materialized(outs, outputs) && Flatten(outputs) == Kept(m, |m|, snapshot, picked, c.level)
    requires NewerThan(SurroundingsOf(v, c).side, SetOf(m)) && snapshot <= s
    ensures Visible(VersionEntries(v'), k, s) == Visible(VersionEntries(v), k, s)
  {
    InstallOk(v, picked, c, m, snapshot, outputs, outs, v');
    Partition(v, c, m);
    NewerSideSafe(SurroundingsOf(v, c), m, snapshot, picked, c.level, k);
    PreservedAt(SurroundingsOf(v, c), m, snapshot, picked, c.level, k, s);
  }

  /** When the newest visible entry is an obsolete input tombstone, readers of the
      new version see whatever the non-input files of level + 1 hold. */
  lemma {:induction false} TombstoneUncovers(
    v: Levels, c: Inputs2, m: seq<Entry>, snapshot: nat, outputs: seq<Output>, outs: seq<FileMeta>, v': Levels,
    k: UserKey, e: Entry)
    requires VersionOk(v) && JobReady(v, v, c, m, snapshot) && Installed(v, c, outs, v')
    requires Materialized(outs, outputs) && Flatten(outputs) == Kept(m, |m|, snapshot, v, c.level)
    requires e in m && IsNewest(VersionEntries(v), k, snapshot, e) && Obsolete(e, snapshot, v, c.level)
    requires e !in SurroundingsOf(v, c).above
    ensures VersionOk(v')
    ensures Visible(VersionEntries(v), k, snapshot) == NotFound
    ensures Visible(VersionEntries(v'), k, snapshot) == Visible(SurroundingsOf(v, c).side, k, snapshot)
  {
    InstallOk(v, v, c, m, snapshot, outputs, outs, v');
    Partition(v, c, m);
    VisibleNewest(VersionEntries(v), k, snapshot, e);
    SideOnly(SurroundingsOf(v, c), m, snapshot, v, c.level, k, snapshot, e);
  }
}
