/** PickCompaction and SetupOtherInputs: which files a compaction reads, and why
    reading exactly those files is safe. */
module Selection {
  import opened Options
  import opened Keys
  import opened Version
  import opened Inputs

  datatype Inputs2 = Inputs2(level: nat, in0: seq<FileMeta>, in1: seq<FileMeta>)

  function TotalFileSize(files: seq<FileMeta>): nat {
    if files == [] then 0 else files[0].fileSize + TotalFileSize(files[1..])
  }

  // ----- facts about Pick

  lemma {:induction false} PickSkips(files: seq<FileMeta>, a: nat, n: nat, lo: Option<UserKey>, hi: Option<UserKey>)
    requires a <= n <= |files| && forall i :: a <= i < n ==> !Overlaps(files[i], lo, hi)
    ensures Pick(files[..n], lo, hi) == Pick(files[..a], lo, hi)
  {
    if a < n {
      PickSkips(files, a, n - 1, lo, hi);
      PickStep(files, n - 1, lo, hi);
    }
  }

  lemma {:induction false} PickTakes(files: seq<FileMeta>, a: nat, n: nat, lo: Option<UserKey>, hi: Option<UserKey>)
    requires a <= n <= |files| && forall i :: a <= i < n ==> Overlaps(files[i], lo, hi)
    ensures Pick(files[..n], lo, hi) == Pick(files[..a], lo, hi) + files[a..n]
  {
    if a < n {
      PickTakes(files, a, n - 1, lo, hi);
      PickStep(files, n - 1, lo, hi);
      SliceAppend(Pick(files[..a], lo, hi), files, a, n);
    } else {
      assert files[a..a] == [];
    }
  }

  lemma SliceAppend(p: seq<FileMeta>, files: seq<FileMeta>, a: nat, n: nat)
    requires a < n <= |files|
    ensures p + files[a..n - 1] + [files[n - 1]] == p + files[a..n]
  {
    assert files[a..n] == files[a..n - 1] + [files[n - 1]];
  }

  lemma OverlapInterval(files: seq<FileMeta>, lo: Option<UserKey>, hi: Option<UserKey>)
    returns (a: nat, b: nat)
    requires FilesOk(files) && Disjoint(files)
    ensures a <= b <= |files|
    ensures forall i :: 0 <= i < |files| ==> (Overlaps(files[i], lo, hi) <==> a <= i < b)
  {
    a := 0;
    while a < |files| && !Overlaps(files[a], lo, hi)
      invariant a <= |files|
      invariant forall i :: 0 <= i < a ==> !Overlaps(files[i], lo, hi)
    {
      a := a + 1;
    }
    b := a;
    while b < |files| && Overlaps(files[b], lo, hi)
      invariant a <= b <= |files|
      invariant forall i :: a <= i < b ==> Overlaps(files[i], lo, hi)
    {
      b := b + 1;
    }
    forall i | b <= i < |files| ensures !Overlaps(files[i], lo, hi) {
      if b < i && a < b && Overlaps(files[i], lo, hi) {
        OverlapConvex(files, a, b, i, lo, hi);
      }
    }
  }

  /** At a sorted level the files that meet a range are adjacent. */
  lemma PickIsSlice(files: seq<FileMeta>, lo: Option<UserKey>, hi: Option<UserKey>)
    returns (a: nat, b: nat)
    requires FilesOk(files) && Disjoint(files)
    ensures a <= b <= |files| && Pick(files, lo, hi) == files[a..b]
    ensures forall i :: 0 <= i < |files| ==> (Overlaps(files[i], lo, hi) <==> a <= i < b)
  {
    a, b := OverlapInterval(files, lo, hi);
    PickSkips(files, 0, a, lo, hi);
    PickTakes(files, a, b, lo, hi);
    PickSkips(files, b, |files|, lo, hi);
    assert files[..|files|] == files;
  }

  lemma OverlapConvex(
    files: seq<FileMeta>, i: nat, j: nat, k: nat, lo: Option<UserKey>, hi: Option<UserKey>)
    requires FilesOk(files) && Disjoint(files) && i < j < k < |files|
    requires Overlaps(files[i], lo, hi) && Overlaps(files[k], lo, hi)
    ensures Overlaps(files[j], lo, hi)
  {
    SmallestIncreasing(files, j, k);
    FileRange(files[j], 0);
  }

  lemma {:induction false} PickWider(
    files: seq<FileMeta>, lo: Option<UserKey>, hi: Option<UserKey>, lo': Option<UserKey>, hi': Option<UserKey>)
    requires Wider(lo', hi', lo, hi)
    ensures |Pick(files, lo, hi)| <= |Pick(files, lo', hi')|
    ensures |Pick(files, lo, hi)| == |Pick(files, lo', hi')| ==> Pick(files, lo, hi) == Pick(files, lo', hi')
  {
    if files != [] {
      PickWider(files[..|files| - 1], lo, hi, lo', hi');
    }
  }

  // ----- coverage

  ghost predicate MeetsHull(d: set<FileMeta>, lo: InternalKey, hi: InternalKey) {
    forall f :: f in d ==> Overlaps(f, Some(lo.user), Some(hi.user))
  }

  /** Adding files that meet the hull of a gap-free set leaves no gap. */
  lemma CoverOverlap(c: seq<FileMeta>, d: set<FileMeta>, lo: InternalKey, hi: InternalKey)
    requires Covered(Files(c)) && IsSmallest(c, lo) && IsLargest(c, hi) && MeetsHull(d, lo, hi)
    ensures Covered(Files(c) + d)
  {
    var i :| 0 <= i < |c| && c[i].smallest == lo;
    var j :| 0 <= j < |c| && c[j].largest == hi;
    forall k, x, y | x in Files(c) + d && y in Files(c) + d && x.smallest.user <= k <= y.largest.user
      ensures CoversKey(Files(c) + d, k)
    {
      if lo.user <= k <= hi.user {
        assert c[i] in Files(c) && c[j] in Files(c) && CoversKey(Files(c), k);
        var h :| h in Files(c) && Contains(h, k);
        assert h in Files(c) + d;
      } else if k < lo.user {
        assert x in d && Contains(x, k);
      } else {
        assert y in d && Contains(y, k);
      }
    }
  }

  /** A closed level-0 range grown from a gap-free set leaves no gap. */
  lemma {:induction false} CoverGrown(
    files: seq<FileMeta>, c: set<FileMeta>, begin: UserKey, end: UserKey, lo: Option<UserKey>, hi: Option<UserKey>)
    requires NoGap(files, Some(begin), Some(end), lo, hi) && Wider(lo, hi, Some(begin), Some(end))
    requires ClosedRange(files, lo, hi)
    requires Covered(c) && (exists f :: f in c && f.smallest.user <= begin)
    requires (exists f :: f in c && end <= f.largest.user)
    requires forall f :: f in c ==> Within(f, Some(begin), Some(end))
    ensures Covered(c + Files(Pick(files, lo, hi)))
  {
    var p := Files(Pick(files, lo, hi));
    PickMembers(files, lo, hi);
    forall k, x, y | x in c + p && y in c + p && x.smallest.user <= k <= y.largest.user
      ensures CoversKey(c + p, k)
    {
      if begin <= k <= end {
        var f :| f in c && f.smallest.user <= begin;
        var g :| g in c && end <= g.largest.user;
        assert CoversKey(c, k);
        var h :| h in c && Contains(h, k);
        assert h in c + p;
      } else {
        assert InRange(k, lo, hi);
        var h :| h in p && Contains(h, k);
        assert h in c + p;
      }
    }
  }

  // ----- SetupOtherInputs

  /** What the files of `level` picked for a compaction look like. */
  ghost predicate Level0Shape(files: seq<FileMeta>, in0: seq<FileMeta>) {
    exists lo, hi :: ClosedRange(files, lo, hi) && in0 == Pick(files, lo, hi)
  }

  ghost predicate SortedShape(files: seq<FileMeta>, in0: seq<FileMeta>) {
    IsRun(files, in0) && forall k :: IsLargest(in0, k) ==> NoBoundary(files, k)
  }

  ghost predicate Shape(v: Levels, level: nat, in0: seq<FileMeta>)
    requires level < |v|
  {
    in0 != [] && if level == 0 then Level0Shape(v[0], in0) else SortedShape(v[level], in0)
  }

  /** A starting set: at level 0 a closed pick, elsewhere a run of adjacent files. */
  ghost predicate StartOk(v: Levels, level: nat, start: seq<FileMeta>)
    requires level < |v|
  {
    start != [] && if level == 0 then Level0Shape(v[0], start) else IsRun(v[level], start)
  }

  /** The next level's inputs are exactly the files that meet the user-key hull. */
  ghost predicate HullPick(files: seq<FileMeta>, in0: seq<FileMeta>, in1: seq<FileMeta>) {
    exists lo: InternalKey, hi: InternalKey :: IsSmallest(in0, lo) && IsLargest(in0, hi)
      && in1 == Pick(files, Some(lo.user), Some(hi.user))
  }

  lemma SubsetOk(files: seq<FileMeta>, c: seq<FileMeta>)
    requires FilesOk(files) && forall f :: f in c ==> f in files
    ensures FilesOk(c)
  {
    forall i | 0 <= i < |c| ensures FileOk(c[i]) {
      assert c[i] in files;
    }
  }

  lemma StartInLevel(v: Levels, level: nat, start: seq<FileMeta>)
    requires level < |v| && StartOk(v, level, start)
    ensures forall f :: f in start ==> f in v[level]
  {
    if level == 0 {
      var lo, hi :| ClosedRange(v[0], lo, hi) && start == Pick(v[0], lo, hi);
      PickMembers(v[0], lo, hi);
    }
  }

  /** A closed level-0 pick has no boundary file. */
  lemma ClosedHasNoBoundary(files: seq<FileMeta>, c: seq<FileMeta>)
    requires FilesOk(files) && Level0Shape(files, c)
    ensures forall k :: IsLargest(c, k) ==> NoBoundary(files, k)
  {
    var lo, hi :| ClosedRange(files, lo, hi) && c == Pick(files, lo, hi);
    PickMembers(files, lo, hi);
    forall k | IsLargest(c, k) ensures NoBoundary(files, k) {
      var m :| 0 <= m < |c| && c[m].largest == k;
      assert c[m] in c;
      forall i | 0 <= i < |files| ensures !IsBoundary(files[i], k) {
        FileRange(files[i], 0);
        assert files[i] in files;
        if Overlaps(files[i], lo, hi) {
          LargestBounds(c, k, files[i]);
        }
      }
    }
  }

  lemma LargestBounds(c: seq<FileMeta>, k: InternalKey, f: FileMeta)
    requires IsLargest(c, k) && f in c
    ensures AtMost(f.largest, k)
  {
  }

  /** AddBoundaryInputs on a legitimate starting set. */
  method Extend(v: Levels, level: nat, start: seq<FileMeta>, ghost extra: set<FileMeta>) returns (out: seq<FileMeta>)
    requires VersionOk(v) && level < |v| && StartOk(v, level, start)
    ensures BoundaryClosure(v[level], start, out) && Shape(v, level, out)
    ensures forall f :: f in start ==> f in out
    ensures forall f :: f in out ==> f in v[level]
    ensures FilesOk(out)
    ensures Covered(Files(start) + extra) ==> Covered(Files(out) + extra)
  {
    LevelFacts(v, level);
    StartInLevel(v, level, start);
    SubsetOk(v[level], start);
    out := AddBoundaryInputs(v[level], start, extra);
    if level == 0 {
      ClosedHasNoBoundary(v[0], start);
      var k := LargestExists(start);
      assert IsLargest(start, k) && NoBoundary(v[0], k);
    }
  }

  /** The hull of a larger set is wider. */
  lemma HullWider(
    c: seq<FileMeta>, d: seq<FileMeta>, lo: InternalKey, hi: InternalKey, lo': InternalKey, hi': InternalKey)
    requires IsSmallest(c, lo) && IsLargest(c, hi) && IsSmallest(d, lo') && IsLargest(d, hi')
    requires forall f :: f in c ==> f in d
    ensures lo'.user <= lo.user && hi.user <= hi'.user
  {
    var i :| 0 <= i < |c| && c[i].smallest == lo;
    var j :| 0 <= j < |c| && c[j].largest == hi;
    assert c[i] in c && c[j] in c;
    var m :| 0 <= m < |d| && d[m] == c[i];
    var n :| 0 <= n < |d| && d[n] == c[j];
  }

  lemma InsideHull(c: seq<FileMeta>, lo: InternalKey, hi: InternalKey, f: FileMeta)
    requires IsSmallest(c, lo) && IsLargest(c, hi) && f in c && FilesOk(c)
    ensures Within(f, Some(lo.user), Some(hi.user)) && Overlaps(f, Some(lo.user), Some(hi.user))
  {
    var i :| 0 <= i < |c| && c[i] == f;
    FileRange(f, 0);
  }

  /** The files of `level` that meet the hull of `c` are a legitimate starting set,
      contain every file of `level` in `c`, and leave no gap beside `c`. */
  lemma {:induction false} ExpandedStart(
    v: Levels, level: nat, c: seq<FileMeta>, f: FileMeta, begin: InternalKey, end: InternalKey, pick: seq<FileMeta>,
    lo: Option<UserKey>, hi: Option<UserKey>)
    requires VersionOk(v) && level < |v| && FilesOk(c)
    requires IsSmallest(c, begin) && IsLargest(c, end) && f in c && f in v[level]
    requires pick == Pick(v[level], lo, hi) && NoGap(v[level], Some(begin.user), Some(end.user), lo, hi)
    requires level > 0 ==> lo == Some(begin.user) && hi == Some(end.user)
    requires level == 0 ==> LeastClosed(v[0], Some(begin.user), Some(end.user), lo, hi)
    ensures StartOk(v, level, pick) && f in pick
    ensures Covered(Files(c)) ==> Covered(Files(pick) + Files(c))
  {
    LevelFacts(v, level);
    PickMembers(v[level], lo, hi);
    InsideHull(c, begin, end, f);
    assert f in pick;
    if level > 0 {
      var a, b := PickIsSlice(v[level], lo, hi);
      assert a < b;
    }
    if Covered(Files(c)) {
      assert Files(pick) + Files(c) == Files(c) + Files(pick);
      if level == 0 {
        var i :| 0 <= i < |c| && c[i].smallest == begin;
        var j :| 0 <= j < |c| && c[j].largest == end;
        assert c[i] in Files(c) && c[j] in Files(c);
        forall g | g in Files(c) ensures Within(g, Some(begin.user), Some(end.user)) {
          InsideHull(c, begin, end, g);
        }
        CoverGrown(v[0], Files(c), begin.user, end.user, lo, hi);
      } else {
        CoverOverlap(c, Files(pick), begin, end);
      }
    }
  }

  /** The files of `level` that the keys of `c` ask for; at level 0 those that meet the least
      closed range around them. */
  ghost predicate Meeting(v: Levels, level: nat, c: seq<FileMeta>, pick: seq<FileMeta>)
    requires level < |v|
  {
    if level > 0 then HullPick(v[level], c, pick)
    else exists lo: InternalKey, hi: InternalKey ::
           IsSmallest(c, lo) && IsLargest(c, hi) && ClosedPick(v[0], Some(lo.user), Some(hi.user), pick)
  }

  /** The files that meet the least closed range around [begin, end]. */
  ghost predicate ClosedPick(
    files: seq<FileMeta>, begin: Option<UserKey>, end: Option<UserKey>, pick: seq<FileMeta>)
  {
    exists lo, hi :: LeastClosed(files, begin, end, lo, hi) && pick == Pick(files, lo, hi)
  }

  /** The inputs of `level` that the files of both levels together would ask for. */
  ghost predicate WideInputs(v: Levels, level: nat, c: seq<FileMeta>, wide: seq<FileMeta>)
    requires level < |v|
  {
    exists pick :: Meeting(v, level, c, pick) && BoundaryClosure(v[level], pick, wide)
  }

  /** The first inputs are widened: there are files of the next level among them, the wide ones
      are more and not too large, and they meet no more files of the next level. */
  ghost predicate Widens(
    v: Levels, level: nat, first0: seq<FileMeta>, in1: seq<FileMeta>, expandedLimit: nat, wide: seq<FileMeta>)
    requires level + 1 < |v|
  {
    && in1 != [] && WideInputs(v, level, first0 + in1, wide)
    && |wide| > |first0| && TotalFileSize(in1) + TotalFileSize(wide) < expandedLimit
    && HullPick(v[level + 1], wide, in1)
  }

  /** Which inputs SetupOtherInputs settles on: the boundary-closed start, or what it widens to. */
  ghost predicate Settled(
    v: Levels, level: nat, start: seq<FileMeta>, expandedLimit: nat, in0: seq<FileMeta>, in1: seq<FileMeta>)
    requires level + 1 < |v|
  {
    exists first0 ::
      && BoundaryClosure(v[level], start, first0) && HullPick(v[level + 1], first0, in1)
      && SettledOn(v, level, first0, expandedLimit, in0, in1)
  }

  ghost predicate SettledOn(
    v: Levels, level: nat, first0: seq<FileMeta>, expandedLimit: nat, in0: seq<FileMeta>, in1: seq<FileMeta>)
    requires level + 1 < |v|
  {
    || Widens(v, level, first0, in1, expandedLimit, in0)
    || (in0 == first0 && forall wide :: !Widens(v, level, first0, in1, expandedLimit, wide))
  }

  // ----- there is one outcome

  lemma BoundsUnique(c: seq<FileMeta>, lo: InternalKey, lo': InternalKey, hi: InternalKey, hi': InternalKey)
    requires IsSmallest(c, lo) && IsSmallest(c, lo') && IsLargest(c, hi) && IsLargest(c, hi')
    ensures lo == lo' && hi == hi'
  {
    LargestUnique(c, hi);
    TagInjective(lo, lo');
  }

  lemma HullPickUnique(files: seq<FileMeta>, c: seq<FileMeta>, pick: seq<FileMeta>, pick': seq<FileMeta>)
    requires HullPick(files, c, pick) && HullPick(files, c, pick')
    ensures pick == pick'
  {
    var lo: InternalKey, hi: InternalKey :|
      IsSmallest(c, lo) && IsLargest(c, hi) && pick == Pick(files, Some(lo.user), Some(hi.user));
    var lo': InternalKey, hi': InternalKey :|
      IsSmallest(c, lo') && IsLargest(c, hi') && pick' == Pick(files, Some(lo'.user), Some(hi'.user));
    BoundsUnique(c, lo, lo', hi, hi');
  }

  lemma MeetingUnique(v: Levels, level: nat, c: seq<FileMeta>, pick: seq<FileMeta>, pick': seq<FileMeta>)
    requires level < |v| && Meeting(v, level, c, pick) && Meeting(v, level, c, pick')
    ensures pick == pick'
  {
    if level > 0 {
      HullPickUnique(v[level], c, pick, pick');
    } else {
      var lo: InternalKey, hi: InternalKey :|
        IsSmallest(c, lo) && IsLargest(c, hi) && ClosedPick(v[0], Some(lo.user), Some(hi.user), pick);
      var lo': InternalKey, hi': InternalKey :|
        IsSmallest(c, lo') && IsLargest(c, hi') && ClosedPick(v[0], Some(lo'.user), Some(hi'.user), pick');
      BoundsUnique(c, lo, lo', hi, hi');
      ClosedPickUnique(v[0], Some(lo.user), Some(hi.user), pick, pick');
    }
  }

  lemma ClosedPickUnique(
    files: seq<FileMeta>, begin: Option<UserKey>, end: Option<UserKey>, pick: seq<FileMeta>, pick': seq<FileMeta>)
    requires ClosedPick(files, begin, end, pick) && ClosedPick(files, begin, end, pick')
    ensures pick == pick' && Level0Shape(files, pick)
  {
    var lo, hi :| LeastClosed(files, begin, end, lo, hi) && pick == Pick(files, lo, hi);
    var lo', hi' :| LeastClosed(files, begin, end, lo', hi') && pick' == Pick(files, lo', hi');
    assert Wider(lo, hi, lo', hi') && Wider(lo', hi', lo, hi);
  }

  lemma ClosedStays(v: Levels, start: seq<FileMeta>, out: seq<FileMeta>)
    requires VersionOk(v) && 0 < |v| && (start == [] || Level0Shape(v[0], start)) && BoundaryClosure(v[0], start, out)
    ensures out == start
  {
    if start != [] {
      LevelFacts(v, 0);
      ClosedHasNoBoundary(v[0], start);
      var k := LargestExists(start);
      NothingContinues(v[0], start, out, k);
    }
  }

  /** Extending a start by boundary files has one outcome. */
  lemma StartClosure(v: Levels, level: nat, start: seq<FileMeta>, out: seq<FileMeta>, out': seq<FileMeta>)
    requires VersionOk(v) && level < |v|
    requires level == 0 ==> start == [] || Level0Shape(v[0], start)
    requires BoundaryClosure(v[level], start, out) && BoundaryClosure(v[level], start, out')
    ensures out == out'
  {
    if level == 0 {
      ClosedStays(v, start, out);
      ClosedStays(v, start, out');
    } else if start != [] {
      LevelFacts(v, level);
      assert out[..|start|] == start == out'[..|start|];
      ClosureUnique(v[level], start, out, out', |start|);
    }
  }

  lemma WideUnique(v: Levels, level: nat, c: seq<FileMeta>, wide: seq<FileMeta>, wide': seq<FileMeta>)
    requires VersionOk(v) && level < |v| && WideInputs(v, level, c, wide) && WideInputs(v, level, c, wide')
    ensures wide == wide'
  {
    var pick :| Meeting(v, level, c, pick) && BoundaryClosure(v[level], pick, wide);
    var pick' :| Meeting(v, level, c, pick') && BoundaryClosure(v[level], pick', wide');
    MeetingUnique(v, level, c, pick, pick');
    if level == 0 {
      var lo: InternalKey, hi: InternalKey :|
        IsSmallest(c, lo) && IsLargest(c, hi) && ClosedPick(v[0], Some(lo.user), Some(hi.user), pick);
      ClosedPickUnique(v[0], Some(lo.user), Some(hi.user), pick, pick);
    }
    StartClosure(v, level, pick, wide, wide');
  }

  /** The version, the start and the size limit determine the inputs. */
  lemma SettledOnce(
    v: Levels, level: nat, start: seq<FileMeta>, expandedLimit: nat, in0: seq<FileMeta>, in1: seq<FileMeta>,
    in0': seq<FileMeta>, in1': seq<FileMeta>)
    requires VersionOk(v) && level + 1 < |v| && StartOk(v, level, start)
    requires Settled(v, level, start, expandedLimit, in0, in1) && Settled(v, level, start, expandedLimit, in0', in1')
    ensures in0 == in0' && in1 == in1'
  {
    var first :| BoundaryClosure(v[level], start, first) && HullPick(v[level + 1], first, in1)
      && SettledOn(v, level, first, expandedLimit, in0, in1);
    var first' :| BoundaryClosure(v[level], start, first') && HullPick(v[level + 1], first', in1')
      && SettledOn(v, level, first', expandedLimit, in0', in1');
    StartClosure(v, level, start, first, first');
    HullPickUnique(v[level + 1], first, in1, in1');
    SettledOnOnce(v, level, first, expandedLimit, in0, in0', in1);
  }

  lemma SettledOnOnce(
    v: Levels, level: nat, first0: seq<FileMeta>, expandedLimit: nat, in0: seq<FileMeta>, in0': seq<FileMeta>,
    in1: seq<FileMeta>)
    requires VersionOk(v) && level + 1 < |v|
    requires SettledOn(v, level, first0, expandedLimit, in0, in1)
    requires SettledOn(v, level, first0, expandedLimit, in0', in1)
    ensures in0 == in0'
  {
    if Widens(v, level, first0, in1, expandedLimit, in0) && Widens(v, level, first0, in1, expandedLimit, in0') {
      WideUnique(v, level, first0 + in1, in0, in0');
    }
  }

  /** What SetupOtherInputs promises about the inputs it settles on. */
  ghost predicate Selected(v: Levels, level: nat, start: seq<FileMeta>, in0: seq<FileMeta>, in1: seq<FileMeta>)
    requires level + 1 < |v|
  {
    && Shape(v, level, in0) && FilesOk(in0)
    && (forall f :: f in start ==> f in in0)
    && (forall f :: f in in0 ==> f in v[level])
    && HullPick(v[level + 1], in0, in1)
    && (Covered(Files(start)) ==> Covered(Files(in0) + Files(in1)))
  }

  lemma FirstSelection(
    v: Levels, level: nat, start: seq<FileMeta>, in0: seq<FileMeta>, in1: seq<FileMeta>, lo: InternalKey,
    hi: InternalKey)
    requires VersionOk(v) && level + 1 < |v|
    requires Shape(v, level, in0) && FilesOk(in0) && IsSmallest(in0, lo) && IsLargest(in0, hi)
    requires forall f :: f in start ==> f in in0
    requires forall f :: f in in0 ==> f in v[level]
    requires Covered(Files(start)) ==> Covered(Files(in0))
    requires in1 == Pick(v[level + 1], Some(lo.user), Some(hi.user))
    ensures Selected(v, level, start, in0, in1) && FilesOk(in0 + in1)
  {
    LevelFacts(v, level + 1);
    FirstPick(v[level + 1], in0, in1, lo, hi);
  }

  lemma {:induction false} FirstPick(
    files: seq<FileMeta>, in0: seq<FileMeta>, in1: seq<FileMeta>, lo: InternalKey, hi: InternalKey)
    requires FilesOk(files) && FilesOk(in0) && IsSmallest(in0, lo) && IsLargest(in0, hi)
    requires in1 == Pick(files, Some(lo.user), Some(hi.user))
    ensures FilesOk(in0 + in1)
    ensures Covered(Files(in0)) ==> Covered(Files(in0) + Files(in1))
  {
    PickMembers(files, Some(lo.user), Some(hi.user));
    SubsetOk(files, in1);
    if Covered(Files(in0)) {
      CoverOverlap(in0, Files(in1), lo, hi);
    }
  }

  lemma WidenedSelection(
    v: Levels, level: nat, start: seq<FileMeta>, in0: seq<FileMeta>, in1: seq<FileMeta>,
    lo: InternalKey, hi: InternalKey, wide: seq<FileMeta>, wide1: seq<FileMeta>, lo': InternalKey, hi': InternalKey)
    requires VersionOk(v) && level + 1 < |v| && Selected(v, level, start, in0, in1)
    requires IsSmallest(in0, lo) && IsLargest(in0, hi) && in1 == Pick(v[level + 1], Some(lo.user), Some(hi.user))
    requires Shape(v, level, wide) && FilesOk(wide) && IsSmallest(wide, lo') && IsLargest(wide, hi')
    requires forall f :: f in in0 ==> f in wide
    requires forall f :: f in wide ==> f in v[level]
    requires Covered(Files(in0) + Files(in1)) ==> Covered(Files(wide) + (Files(in0) + Files(in1)))
    requires wide1 == Pick(v[level + 1], Some(lo'.user), Some(hi'.user)) && |wide1| == |in1|
    ensures wide1 == in1 && Selected(v, level, start, wide, in1)
  {
    HullWider(in0, wide, lo, hi, lo', hi');
    PickWider(v[level + 1], Some(lo.user), Some(hi.user), Some(lo'.user), Some(hi'.user));
    assert wide1 == in1;
    FilesAbsorb(wide, in0, in1);
  }

  lemma FilesAbsorb(wide: seq<FileMeta>, in0: seq<FileMeta>, in1: seq<FileMeta>)
    requires forall f :: f in in0 ==> f in wide
    ensures Files(wide) + (Files(in0) + Files(in1)) == Files(wide) + Files(in1)
  {
  }

  method SetupOtherInputs(v: Levels, level: nat, start: seq<FileMeta>, expandedLimit: nat)
    returns (c: Inputs2, compactPointer: InternalKey)
    requires VersionOk(v) && level + 1 < |v| && StartOk(v, level, start)
    ensures c.level == level && Selected(v, level, start, c.in0, c.in1)
    ensures Settled(v, level, start, expandedLimit, c.in0, c.in1)
    ensures IsLargest(c.in0, compactPointer)
  {
    var in0 := Extend(v, level, start, {});
    assert Files(start) + {} == Files(start) && Files(in0) + {} == Files(in0);
    var smallest, largest, in1 := NextInputs(v, level, in0);
    FirstSelection(v, level, start, in0, in1, smallest, largest);
    assert HullPick(v[level + 1], in0, in1);
    if in1 != [] {
      var wide, limit, grow := Expand(v, level, start, in0, in1, smallest, largest, expandedLimit);
      OneWidening(v, level, in0, in1, expandedLimit, wide);
      if grow {
        return Inputs2(level, wide, in1), limit;
      }
    }
    return Inputs2(level, in0, in1), largest;
  }

  /** The range of the inputs of `level`, and the files of the next level that meet it. */
  method NextInputs(v: Levels, level: nat, in0: seq<FileMeta>)
    returns (smallest: InternalKey, largest: InternalKey, in1: seq<FileMeta>)
    requires VersionOk(v) && level + 1 < |v| && in0 != []
    ensures IsSmallest(in0, smallest) && IsLargest(in0, largest)
    ensures in1 == Pick(v[level + 1], Some(smallest.user), Some(largest.user))
  {
    smallest, largest := GetRange(in0);
    LevelFacts(v, level + 1);
    var lo, hi;
    in1, lo, hi := GetOverlappingInputs(level + 1, v[level + 1], Some(smallest.user), Some(largest.user));
  }

  /** Whether the inputs of `level` can grow without more files of the next level, and to what. */
  method Expand(
    v: Levels, level: nat, ghost start: seq<FileMeta>, in0: seq<FileMeta>, in1: seq<FileMeta>, smallest: InternalKey,
    largest: InternalKey, expandedLimit: nat)
    returns (wide: seq<FileMeta>, limit: InternalKey, grow: bool)
    requires VersionOk(v) && level + 1 < |v| && in1 != [] && FilesOk(in0 + in1)
    requires Selected(v, level, start, in0, in1) && IsSmallest(in0, smallest) && IsLargest(in0, largest)
    requires in1 == Pick(v[level + 1], Some(smallest.user), Some(largest.user))
    ensures WideInputs(v, level, in0 + in1, wide)
    ensures grow <==> Widens(v, level, in0, in1, expandedLimit, wide)
    ensures grow ==> Selected(v, level, start, wide, in1) && IsLargest(wide, limit)
  {
    wide := ExpandedFiles(v, level, in0, in1);
    limit, grow := largest, false;
    if |wide| > |in0| && TotalFileSize(in1) + TotalFileSize(wide) < expandedLimit {
      var newStart, newLimit, expanded1 := NextInputs(v, level, wide);
      NoMoreFiles(v[level + 1], wide, in1, expanded1, newStart, newLimit);
      if |expanded1| == |in1| {
        WidenedSelection(v, level, start, in0, in1, smallest, largest, wide, expanded1, newStart, newLimit);
        limit, grow := newLimit, true;
      }
    }
  }

  lemma OneWidening(
    v: Levels, level: nat, in0: seq<FileMeta>, in1: seq<FileMeta>, expandedLimit: nat, wide: seq<FileMeta>)
    requires VersionOk(v) && level + 1 < |v| && WideInputs(v, level, in0 + in1, wide)
    ensures forall w :: Widens(v, level, in0, in1, expandedLimit, w) ==> w == wide
  {
    forall w | Widens(v, level, in0, in1, expandedLimit, w) ensures w == wide {
      WideUnique(v, level, in0 + in1, w, wide);
    }
  }

  lemma {:induction false} NoMoreFiles(
    files: seq<FileMeta>, wide: seq<FileMeta>, in1: seq<FileMeta>, wide1: seq<FileMeta>, lo: InternalKey,
    hi: InternalKey)
    requires IsSmallest(wide, lo) && IsLargest(wide, hi) && wide1 == Pick(files, Some(lo.user), Some(hi.user))
    ensures HullPick(files, wide, in1) <==> wide1 == in1
  {
    assert HullPick(files, wide, wide1);
    if HullPick(files, wide, in1) {
      HullPickUnique(files, wide, in1, wide1);
    }
  }

  /** The larger `level` input that would not need more files of the next level. */
  method ExpandedFiles(v: Levels, level: nat, in0: seq<FileMeta>, in1: seq<FileMeta>) returns (wide: seq<FileMeta>)
    requires VersionOk(v) && level < |v| && in0 != [] && FilesOk(in0 + in1)
    requires forall f :: f in in0 ==> f in v[level]
    ensures WideInputs(v, level, in0 + in1, wide) && Shape(v, level, wide) && FilesOk(wide)
    ensures forall f :: f in in0 ==> f in wide
    ensures forall f :: f in wide ==> f in v[level]
    ensures Covered(Files(in0) + Files(in1)) ==> Covered(Files(wide) + (Files(in0) + Files(in1)))
  {
    var all := in0 + in1;
    assert Files(all) == Files(in0) + Files(in1);
    var allStart, allLimit := GetRange(all);
    LevelFacts(v, level);
    var expanded0, lo, hi := GetOverlappingInputs(level, v[level], Some(allStart.user), Some(allLimit.user));
    forall f | f in in0 ensures f in expanded0 {
      ExpandedStart(v, level, all, f, allStart, allLimit, expanded0, lo, hi);
    }
    ExpandedStart(v, level, all, in0[0], allStart, allLimit, expanded0, lo, hi);
    wide := Extend(v, level, expanded0, Files(all));
  }

  /** At level 0 the file is replaced by all that meet the least closed range around it. */
  ghost predicate StartsFrom(v: Levels, level: nat, f: FileMeta, start: seq<FileMeta>)
    requires level < |v|
  {
    if level == 0 then Meeting(v, 0, [f], start) else start == [f]
  }

  /** PickCompaction, with the seed file chosen by the caller (by size score or by seeks). */
  method PickCompaction(v: Levels, level: nat, seed: nat, expandedLimit: nat)
    returns (c: Inputs2, compactPointer: InternalKey)
    requires VersionOk(v) && level + 1 < |v| && seed < |v[level]|
    ensures c.level == level && v[level][seed] in c.in0
    ensures Selected(v, level, [v[level][seed]], c.in0, c.in1)
    ensures exists start ::
      StartsFrom(v, level, v[level][seed], start) && Settled(v, level, start, expandedLimit, c.in0, c.in1)
    ensures Covered(Files(c.in0) + Files(c.in1)) && IsLargest(c.in0, compactPointer)
  {
    LevelFacts(v, level);
    var f := v[level][seed];
    var start := [f];
    FileRange(f, 0);
    assert Covered({f}) by {
      forall k | f.smallest.user <= k <= f.largest.user ensures CoversKey({f}, k) {
        assert f in {f} && Contains(f, k);
      }
    }
    assert Files([f]) == {f};
    assert f in start;
    if level == 0 {
      var smallest, largest := GetRange(start);
      var lo, hi;
      start, lo, hi := GetOverlappingInputs(0, v[0], Some(smallest.user), Some(largest.user));
      PickMembers(v[0], lo, hi);
      assert f in v[0] && Overlaps(f, lo, hi);
      CoverGrown(v[0], {f}, smallest.user, largest.user, lo, hi);
      assert {f} + Files(start) == Files(start);
    } else {
      assert start == v[level][seed..seed + 1];
    }
    c, compactPointer := SetupOtherInputs(v, level, start, expandedLimit);
    assert Files([f]) == {f};
  }

  /** The first file that ends beyond the compaction pointer, or else the first file of all. */
  ghost predicate NextInTurn(files: seq<FileMeta>, pointer: Option<InternalKey>, k: nat) {
    && k < |files|
    && (pointer.None? ==> k == 0)
    && (pointer.Some? && AllUpTo(files, |files|, pointer.value) ==> k == 0)
    && (pointer.Some? && !AllUpTo(files, |files|, pointer.value) ==>
          Less(pointer.value, files[k].largest) && AllUpTo(files, k, pointer.value))
  }

  ghost predicate AllUpTo(files: seq<FileMeta>, n: nat, pointer: InternalKey)
    requires n <= |files|
  {
    forall i :: 0 <= i < n ==> AtMost(files[i].largest, pointer)
  }

  /** PickCompaction for a level that is too large: its files take turns. */
  method PickBySize(v: Levels, level: nat, pointer: Option<InternalKey>, expandedLimit: nat)
    returns (c: Inputs2, compactPointer: InternalKey)
    requires VersionOk(v) && level + 1 < |v| && v[level] != []
    ensures exists k: nat ::
      NextInTurn(v[level], pointer, k) && v[level][k] in c.in0 && Selected(v, level, [v[level][k]], c.in0, c.in1)
      && exists start ::
           StartsFrom(v, level, v[level][k], start) && Settled(v, level, start, expandedLimit, c.in0, c.in1)
    ensures c.level == level && Covered(Files(c.in0) + Files(c.in1)) && IsLargest(c.in0, compactPointer)
  {
    var k := 0;
    while k < |v[level]| && pointer.Some? && !Less(pointer.value, v[level][k].largest)
      invariant 0 <= k <= |v[level]| && (pointer.None? ==> k == 0)
      invariant pointer.Some? ==> AllUpTo(v[level], k, pointer.value)
    {
      k := k + 1;
    }
    if k == |v[level]| {
      k := 0;
    }
    assert NextInTurn(v[level], pointer, k);
    c, compactPointer := PickCompaction(v, level, k, expandedLimit);
  }

  /** At a sorted level the next turn is the file right behind the last inputs, or the first again. */
  lemma TurnsAdvance(files: seq<FileMeta>, a: nat, b: nat, pointer: InternalKey, k: nat)
    requires FilesOk(files) && Disjoint(files) && a < b <= |files| && IsLargest(files[a..b], pointer)
    requires NextInTurn(files, Some(pointer), k)
    ensures k == if b < |files| then b else 0
  {
    RunLargest(files, a, b, pointer);
    LargestIncreasing(files);
    assert AllUpTo(files, b, pointer);
    if b < |files| {
      assert Less(pointer, files[b].largest);
    }
  }
}
