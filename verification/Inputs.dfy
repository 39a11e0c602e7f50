/** Choosing the input files of a compaction (db/version_set.cc). */
module Inputs {
  import opened Options
  import opened Keys
  import opened Version

  // ----- Version::GetOverlappingInputs

  /** The files that meet [lo, hi], in file order. */
  function Pick(files: seq<FileMeta>, lo: Option<UserKey>, hi: Option<UserKey>): (r: seq<FileMeta>)
    ensures |r| <= |files|
  {
    if files == [] then []
    else
      var n := |files| - 1;
      Pick(files[..n], lo, hi) + (if Overlaps(files[n], lo, hi) then [files[n]] else [])
  }

  lemma {:induction false} PickMembers(files: seq<FileMeta>, lo: Option<UserKey>, hi: Option<UserKey>)
    ensures forall f :: f in Pick(files, lo, hi) <==> f in files && Overlaps(f, lo, hi)
  {
    if files != [] {
      var n := |files| - 1;
      PickMembers(files[..n], lo, hi);
      assert files == files[..n] + [files[n]];
    }
  }

  /** [lo, hi] contains [lo', hi']; None is an open end. */
  predicate Wider(lo: Option<UserKey>, hi: Option<UserKey>, lo': Option<UserKey>, hi': Option<UserKey>) {
    && (lo.Some? ==> lo'.Some? && lo.value <= lo'.value)
    && (hi.Some? ==> hi'.Some? && hi'.value <= hi.value)
  }

  predicate Within(f: FileMeta, lo: Option<UserKey>, hi: Option<UserKey>) {
    && (lo.Some? ==> lo.value <= f.smallest.user)
    && (hi.Some? ==> f.largest.user <= hi.value)
  }

  ghost predicate AllWithin(files: seq<FileMeta>, lo: Option<UserKey>, hi: Option<UserKey>) {
    forall i :: 0 <= i < |files| ==> Within(files[i], lo, hi)
  }

  predicate InRange(k: UserKey, lo: Option<UserKey>, hi: Option<UserKey>) {
    (lo.Some? ==> lo.value <= k) && (hi.Some? ==> k <= hi.value)
  }

  /** Every file that meets the range lies inside it. */
  ghost predicate ClosedRange(files: seq<FileMeta>, lo: Option<UserKey>, hi: Option<UserKey>) {
    forall f :: f in files && Overlaps(f, lo, hi) ==> Within(f, lo, hi)
  }

  /** [lo, hi] is the least closed range that contains [begin, end]. */
  ghost predicate LeastClosed(
    files: seq<FileMeta>, begin: Option<UserKey>, end: Option<UserKey>, lo: Option<UserKey>, hi: Option<UserKey>)
  {
    && Wider(lo, hi, begin, end) && ClosedRange(files, lo, hi)
    && BelowEveryClosed(files, begin, end, lo, hi)
  }

  ghost predicate BelowEveryClosed(
    files: seq<FileMeta>, begin: Option<UserKey>, end: Option<UserKey>, lo: Option<UserKey>, hi: Option<UserKey>)
  {
    forall a, b :: Wider(a, b, begin, end) && ClosedRange(files, a, b) ==> Wider(a, b, lo, hi)
  }

  ghost predicate CoversKey(c: set<FileMeta>, k: UserKey) {
    exists f :: f in c && Contains(f, k)
  }

  ghost function Files(s: seq<FileMeta>): set<FileMeta> {
    set f | f in s
  }

  /** Growing the range added no gap: a key of it is in the old range or in a picked file. */
  ghost predicate NoGap(
    files: seq<FileMeta>, begin: Option<UserKey>, end: Option<UserKey>, lo: Option<UserKey>, hi: Option<UserKey>)
  {
    forall k :: InRange(k, lo, hi) ==> InRange(k, begin, end) || CoversKey(Files(Pick(files, lo, hi)), k)
  }

  ghost predicate Grown(
    files: seq<FileMeta>, begin: Option<UserKey>, end: Option<UserKey>, lo: Option<UserKey>, hi: Option<UserKey>)
  {
    && Wider(lo, hi, begin, end)
    && BelowEveryClosed(files, begin, end, lo, hi) && NoGap(files, begin, end, lo, hi)
  }

  function StartsBefore(files: seq<FileMeta>, lo: Option<UserKey>): nat {
    if files == [] then 0
    else (if lo.Some? && files[0].smallest.user < lo.value then 1 else 0) + StartsBefore(files[1..], lo)
  }

  function EndsAfter(files: seq<FileMeta>, hi: Option<UserKey>): nat {
    if files == [] then 0
    else (if hi.Some? && files[0].largest.user > hi.value then 1 else 0) + EndsAfter(files[1..], hi)
  }

  lemma {:induction false} RangeGrows(files: seq<FileMeta>, i: nat, lo: UserKey, hi: UserKey)
    requires i < |files|
    ensures files[i].smallest.user < lo ==>
      StartsBefore(files, Some(files[i].smallest.user)) < StartsBefore(files, Some(lo))
    ensures files[i].largest.user > hi ==>
      EndsAfter(files, Some(files[i].largest.user)) < EndsAfter(files, Some(hi))
  {
    if files[i].smallest.user < lo {
      CountsMonotone(files, files[i].smallest.user, lo, 0, 0);
    }
    if files[i].largest.user > hi {
      CountsMonotone(files, 0, 0, files[i].largest.user, hi);
    }
    if i > 0 {
      assert files[1..][i - 1] == files[i];
      RangeGrows(files[1..], i - 1, lo, hi);
    } else {
      if files[0].smallest.user < lo {
        CountsMonotone(files[1..], files[0].smallest.user, lo, 0, 0);
      }
      if files[0].largest.user > hi {
        CountsMonotone(files[1..], 0, 0, files[0].largest.user, hi);
      }
    }
  }

  lemma {:induction false} CountsMonotone(files: seq<FileMeta>, lo: UserKey, lo': UserKey, hi: UserKey, hi': UserKey)
    requires lo <= lo' && hi >= hi'
    ensures StartsBefore(files, Some(lo)) <= StartsBefore(files, Some(lo'))
    ensures EndsAfter(files, Some(hi)) <= EndsAfter(files, Some(hi'))
  {
    if files != [] {
      CountsMonotone(files[1..], lo, lo', hi, hi');
    }
  }

  /** A level-0 file that sticks out of the range forces every closed range to grow with it. */
  lemma {:induction false} GrowStep(
    files: seq<FileMeta>, i: nat, begin: Option<UserKey>, end: Option<UserKey>,
    lo: Option<UserKey>, hi: Option<UserKey>, lo': Option<UserKey>, hi': Option<UserKey>)
    requires i < |files| && FilesOk(files) && Overlaps(files[i], lo, hi)
    requires Grown(files, begin, end, lo, hi)
    requires (lo' == lo && hi.Some? && hi.value < files[i].largest.user && hi' == Some(files[i].largest.user))
          || (hi' == hi && lo.Some? && files[i].smallest.user < lo.value && lo' == Some(files[i].smallest.user))
    ensures Grown(files, begin, end, lo', hi')
    ensures StartsBefore(files, lo') + EndsAfter(files, hi') < StartsBefore(files, lo) + EndsAfter(files, hi)
  {
    if lo.Some? && lo' != lo {
      RangeGrows(files, i, lo.value, 0);
    } else {
      RangeGrows(files, i, 0, hi.value);
    }
    forall a, b | Wider(a, b, begin, end) && ClosedRange(files, a, b) ensures Wider(a, b, lo', hi') {
      assert files[i] in files && Overlaps(files[i], a, b) && Within(files[i], a, b);
    }
    forall k | InRange(k, lo', hi') && !InRange(k, begin, end)
      ensures CoversKey(Files(Pick(files, lo', hi')), k)
    {
      NoGapGrows(files, i, begin, end, lo, hi, lo', hi', k);
    }
  }

  lemma {:induction false} NoGapGrows(
    files: seq<FileMeta>, i: nat, begin: Option<UserKey>, end: Option<UserKey>,
    lo: Option<UserKey>, hi: Option<UserKey>, lo': Option<UserKey>, hi': Option<UserKey>, k: UserKey)
    requires i < |files| && FilesOk(files) && Overlaps(files[i], lo, hi)
    requires NoGap(files, begin, end, lo, hi) && Wider(lo', hi', lo, hi)
    requires lo' == lo || (lo.Some? && lo' == Some(files[i].smallest.user))
    requires hi' == hi || (hi.Some? && hi' == Some(files[i].largest.user))
    requires InRange(k, lo', hi') && !InRange(k, begin, end)
    ensures CoversKey(Files(Pick(files, lo', hi')), k)
  {
    PickMembers(files, lo, hi);
    PickMembers(files, lo', hi');
    if InRange(k, lo, hi) {
      var g :| g in Files(Pick(files, lo, hi)) && Contains(g, k);
      assert g in Files(Pick(files, lo', hi'));
    } else {
      FileRange(files[i], 0);
      assert files[i] in Files(Pick(files, lo', hi')) && Contains(files[i], k);
    }
  }

  lemma {:induction false} PickStep(files: seq<FileMeta>, i: nat, lo: Option<UserKey>, hi: Option<UserKey>)
    requires i < |files|
    ensures Pick(files[..i + 1], lo, hi)
         == if Overlaps(files[i], lo, hi) then Pick(files[..i], lo, hi) + [files[i]] else Pick(files[..i], lo, hi)
  {
    assert files[..i + 1][..i] == files[..i];
  }

  /** What one pass over the first `n` files has established. */
  ghost predicate Scan(
    level: nat, files: seq<FileMeta>, n: nat, begin: Option<UserKey>, end: Option<UserKey>,
    lo: Option<UserKey>, hi: Option<UserKey>, inputs: seq<FileMeta>)
  {
    && n <= |files| && inputs == Pick(files[..n], lo, hi)
    && Grown(files, begin, end, lo, hi)
    && (level > 0 ==> lo == begin && hi == end)
    && (level == 0 ==> AllWithin(inputs, lo, hi))
  }

  lemma ScanNext(
    level: nat, files: seq<FileMeta>, n: nat, begin: Option<UserKey>, end: Option<UserKey>,
    lo: Option<UserKey>, hi: Option<UserKey>, inputs: seq<FileMeta>)
    requires n < |files| && Scan(level, files, n, begin, end, lo, hi, inputs)
    ensures !Overlaps(files[n], lo, hi) ==> Scan(level, files, n + 1, begin, end, lo, hi, inputs)
    ensures Overlaps(files[n], lo, hi) && (level == 0 ==> Within(files[n], lo, hi)) ==>
      Scan(level, files, n + 1, begin, end, lo, hi, inputs + [files[n]])
  {
    PickStep(files, n, lo, hi);
  }

  lemma ScanStart(
    level: nat, files: seq<FileMeta>, begin: Option<UserKey>, end: Option<UserKey>,
    lo: Option<UserKey>, hi: Option<UserKey>)
    requires Grown(files, begin, end, lo, hi) && (level > 0 ==> lo == begin && hi == end)
    ensures Scan(level, files, 0, begin, end, lo, hi, [])
  {
  }

  lemma {:induction false} ScanAgain(
    files: seq<FileMeta>, i: nat, begin: Option<UserKey>, end: Option<UserKey>,
    lo: Option<UserKey>, hi: Option<UserKey>, lo': Option<UserKey>, hi': Option<UserKey>)
    requires i < |files| && FilesOk(files) && Overlaps(files[i], lo, hi) && Grown(files, begin, end, lo, hi)
    requires (lo' == lo && hi.Some? && hi.value < files[i].largest.user && hi' == Some(files[i].largest.user))
          || (hi' == hi && lo.Some? && files[i].smallest.user < lo.value && lo' == Some(files[i].smallest.user))
    ensures Scan(0, files, 0, begin, end, lo', hi', [])
    ensures StartsBefore(files, lo') + EndsAfter(files, hi') < StartsBefore(files, lo) + EndsAfter(files, hi)
  {
    GrowStep(files, i, begin, end, lo, hi, lo', hi');
    ScanStart(0, files, begin, end, lo', hi');
  }

  lemma {:induction false} ScanEnd(
    level: nat, files: seq<FileMeta>, begin: Option<UserKey>, end: Option<UserKey>,
    lo: Option<UserKey>, hi: Option<UserKey>, inputs: seq<FileMeta>)
    requires Scan(level, files, |files|, begin, end, lo, hi, inputs)
    ensures inputs == Pick(files, lo, hi) && NoGap(files, begin, end, lo, hi)
    ensures level > 0 ==> lo == begin && hi == end
    ensures level == 0 ==> LeastClosed(files, begin, end, lo, hi)
  {
    assert files[..|files|] == files;
    PickMembers(files, lo, hi);
  }

  /** At level 0 the range is grown to the least closed one; elsewhere it is used as given. */
  method GetOverlappingInputs(level: nat, files: seq<FileMeta>, begin: Option<UserKey>, end: Option<UserKey>)
    returns (inputs: seq<FileMeta>, lo: Option<UserKey>, hi: Option<UserKey>)
    requires FilesOk(files)
    ensures inputs == Pick(files, lo, hi)
    ensures level > 0 ==> lo == begin && hi == end
    ensures level == 0 ==> LeastClosed(files, begin, end, lo, hi)
    ensures NoGap(files, begin, end, lo, hi)
  {
    lo, hi := begin, end;
    inputs := [];
    var i := 0;
    ScanStart(level, files, begin, end, lo, hi);
    while i < |files|
      invariant 0 <= i <= |files|
      invariant Scan(level, files, i, begin, end, lo, hi, inputs)
      decreases StartsBefore(files, lo) + EndsAfter(files, hi), |files| - i
    {
      var f := files[i];
      ScanNext(level, files, i, begin, end, lo, hi, inputs);
      i := i + 1;
      if lo.Some? && f.largest.user < lo.value {
        // completely before the range
      } else if hi.Some? && f.smallest.user > hi.value {
        // completely after the range
      } else {
        inputs := inputs + [f];
        if level == 0 {
          if lo.Some? && f.smallest.user < lo.value {
            ScanAgain(files, i - 1, begin, end, lo, hi, Some(f.smallest.user), hi);
            lo := Some(f.smallest.user);
            inputs := [];
            i := 0;
          } else if hi.Some? && f.largest.user > hi.value {
            ScanAgain(files, i - 1, begin, end, lo, hi, lo, Some(f.largest.user));
            hi := Some(f.largest.user);
            inputs := [];
            i := 0;
          }
        }
      }
    }
    ScanEnd(level, files, begin, end, lo, hi, inputs);
  }

  // ----- GetRange, FindLargestKey, FindSmallestBoundaryFile, AddBoundaryInputs

  ghost predicate IsSmallest(c: seq<FileMeta>, lo: InternalKey) {
    && (exists i :: 0 <= i < |c| && c[i].smallest == lo)
    && forall i :: 0 <= i < |c| ==> AtMost(lo, c[i].smallest)
  }

  ghost predicate IsLargest(c: seq<FileMeta>, hi: InternalKey) {
    && (exists i :: 0 <= i < |c| && c[i].largest == hi)
    && forall i :: 0 <= i < |c| ==> AtMost(c[i].largest, hi)
  }

  /** The minimal range that covers all of `inputs`. */
  method GetRange(inputs: seq<FileMeta>) returns (smallest: InternalKey, largest: InternalKey)
    requires inputs != []
    ensures IsSmallest(inputs, smallest) && IsLargest(inputs, largest)
  {
    smallest, largest := inputs[0].smallest, inputs[0].largest;
    var i := 1;
    while i < |inputs|
      invariant 1 <= i <= |inputs|
      invariant IsSmallest(inputs[..i], smallest) && IsLargest(inputs[..i], largest)
    {
      var f := inputs[i];
      if Less(f.smallest, smallest) {
        smallest := f.smallest;
      }
      if Less(largest, f.largest) {
        largest := f.largest;
      }
      assert inputs[..i + 1] == inputs[..i] + [f];
      i := i + 1;
    }
    assert inputs[..i] == inputs;
  }

  method FindLargestKey(files: seq<FileMeta>) returns (r: Option<InternalKey>)
    ensures r.None? <==> files == []
    ensures r.Some? ==> IsLargest(files, r.value)
  {
    if files == [] {
      return None;
    }
    var largest := files[0].largest;
    var i := 1;
    while i < |files|
      invariant 1 <= i <= |files|
      invariant IsLargest(files[..i], largest)
    {
      if Less(largest, files[i].largest) {
        largest := files[i].largest;
      }
      assert files[..i + 1] == files[..i] + [files[i]];
      i := i + 1;
    }
    assert files[..i] == files;
    return Some(largest);
  }

  /** `f` starts after `largest` but inside the same user key. */
  predicate IsBoundary(f: FileMeta, largest: InternalKey) {
    Less(largest, f.smallest) && f.smallest.user == largest.user
  }

  ghost predicate NoBoundary(files: seq<FileMeta>, largest: InternalKey) {
    forall i :: 0 <= i < |files| ==> !IsBoundary(files[i], largest)
  }

  method FindSmallestBoundaryFile(files: seq<FileMeta>, largest: InternalKey) returns (r: Option<FileMeta>)
    ensures r.None? <==> NoBoundary(files, largest)
    ensures r.Some? ==> r.value in files && IsBoundary(r.value, largest)
    ensures r.Some? ==> forall i :: 0 <= i < |files| && IsBoundary(files[i], largest) ==>
      AtMost(r.value.smallest, files[i].smallest)
  {
    r := None;
    var i := 0;
    while i < |files|
      invariant 0 <= i <= |files|
      invariant r.None? <==> NoBoundary(files[..i], largest)
      invariant r.Some? ==> r.value in files && IsBoundary(r.value, largest)
      invariant r.Some? ==> forall j :: 0 <= j < i && IsBoundary(files[j], largest) ==>
        AtMost(r.value.smallest, files[j].smallest)
    {
      var f := files[i];
      if Less(largest, f.smallest) && f.smallest.user == largest.user {
        if r.None? || Less(f.smallest, r.value.smallest) {
          r := Some(f);
        }
      }
      assert files[..i + 1] == files[..i] + [f];
      i := i + 1;
    }
    assert files[..i] == files;
  }

  /** No gap in user-key space between the smallest and the largest key of `c`. */
  ghost predicate Covered(c: set<FileMeta>) {
    forall k, f, g :: f in c && g in c && f.smallest.user <= k <= g.largest.user ==> CoversKey(c, k)
  }

  /** `c` is a non-empty run of adjacent files. */
  ghost predicate IsRun(files: seq<FileMeta>, c: seq<FileMeta>) {
    exists a, b :: 0 <= a < b <= |files| && c == files[a..b]
  }

  function StartsAfter(files: seq<FileMeta>, k: InternalKey): nat {
    if files == [] then 0 else (if Less(k, files[0].smallest) then 1 else 0) + StartsAfter(files[1..], k)
  }

  lemma {:induction false} StartsAfterDrops(files: seq<FileMeta>, f: FileMeta, k: InternalKey, k': InternalKey)
    requires Less(k, k')
    ensures StartsAfter(files, k') <= StartsAfter(files, k)
    ensures f in files && Less(k, f.smallest) && AtMost(f.smallest, k') ==>
      StartsAfter(files, k') < StartsAfter(files, k)
  {
    if files != [] {
      StartsAfterDrops(files[1..], f, k, k');
    }
  }

  lemma RunLargest(files: seq<FileMeta>, a: nat, b: nat, largest: InternalKey)
    requires FilesOk(files) && Disjoint(files) && a < b <= |files|
    requires IsLargest(files[a..b], largest)
    ensures largest == files[b - 1].largest
  {
    LargestIncreasing(files);
    assert files[a..b][b - a - 1] == files[b - 1];
  }

  lemma SmallestIncreasing(files: seq<FileMeta>, i: nat, j: nat)
    requires FilesOk(files) && Disjoint(files) && i < j < |files|
    ensures Less(files[i].smallest, files[j].smallest)
  {
    FileRange(files[i], |files[i].entries| - 1);
  }

  lemma NextStarts(files: seq<FileMeta>, b: nat, j: nat)
    requires FilesOk(files) && Disjoint(files) && 0 < b <= j < |files|
    requires IsBoundary(files[j], files[b - 1].largest)
    ensures IsBoundary(files[b], files[b - 1].largest)
  {
    assert Less(files[b - 1].largest, files[b].smallest);
    if b < j {
      SmallestIncreasing(files, b, j);
    }
  }

  lemma RunExtends(files: seq<FileMeta>, a: nat, b: nat)
    requires a < b < |files|
    ensures IsRun(files, files[a..b] + [files[b]])
  {
    assert files[a..b + 1] == files[a..b] + [files[b]];
  }

  lemma BoundaryIndex(files: seq<FileMeta>, b: nat, j: nat)
    requires FilesOk(files) && Disjoint(files) && 0 < b <= |files| && j < |files|
    requires IsBoundary(files[j], files[b - 1].largest)
    requires b < |files| && IsBoundary(files[b], files[b - 1].largest) ==> AtMost(files[j].smallest, files[b].smallest)
    ensures j == b
  {
    if j < b {
      FileRange(files[j], 0);
      assert j < b - 1 ==> Less(files[j].largest, files[b - 1].smallest);
      FileRange(files[b - 1], 0);
      assert false;
    }
    NextStarts(files, b, j);
    if j > b {
      SmallestIncreasing(files, b, j);
    }
  }

  /** At a sorted level the boundary file of a run is the file right after it. */
  lemma BoundaryIsNext(files: seq<FileMeta>, c: seq<FileMeta>, largest: InternalKey, f: FileMeta)
    requires FilesOk(files) && Disjoint(files) && IsRun(files, c) && IsLargest(c, largest)
    requires f in files && IsBoundary(f, largest)
    requires forall i :: 0 <= i < |files| && IsBoundary(files[i], largest) ==> AtMost(f.smallest, files[i].smallest)
    ensures IsRun(files, c + [f])
  {
    var a, b :| 0 <= a < b <= |files| && c == files[a..b];
    RunLargest(files, a, b, largest);
    var j :| 0 <= j < |files| && files[j] == f;
    BoundaryIndex(files, b, j);
    RunExtends(files, a, b);
  }

  /** Adding a file that meets a file of a gap-free set leaves no gap. */
  lemma CoverMeets(c: set<FileMeta>, f: FileMeta, g: FileMeta)
    requires Covered(c) && g in c
    requires f.smallest.user <= g.largest.user && g.smallest.user <= f.largest.user
    ensures Covered(c + {f})
  {
    forall k, x, y | x in c + {f} && y in c + {f} && x.smallest.user <= k <= y.largest.user
      ensures CoversKey(c + {f}, k)
    {
      if Contains(f, k) {
        assert f in c + {f};
      } else {
        assert k < f.smallest.user ==> x in c && CoversKey(c, k);
        assert k > f.largest.user ==> y in c && CoversKey(c, k);
        var h :| h in c && Contains(h, k);
        assert h in c + {f};
      }
    }
  }

  /** The first of the files that go on with the user key at which `largest` stopped. */
  ghost predicate Continues(files: seq<FileMeta>, largest: InternalKey, f: FileMeta) {
    && f in files && IsBoundary(f, largest)
    && forall i :: 0 <= i < |files| && IsBoundary(files[i], largest) ==> AtMost(f.smallest, files[i].smallest)
  }

  /** Every file that `out` has behind those of `c` goes on with the last user key before it. */
  ghost predicate Continued(files: seq<FileMeta>, c: seq<FileMeta>, out: seq<FileMeta>) {
    && c <= out && (c == [] ==> out == [])
    && forall n, k :: |c| <= n < |out| && IsLargest(out[..n], k) ==> Continues(files, k, out[n])
  }

  /** And no other file goes on with the last one. */
  ghost predicate BoundaryClosure(files: seq<FileMeta>, c: seq<FileMeta>, out: seq<FileMeta>) {
    Continued(files, c, out) && forall k :: IsLargest(out, k) ==> NoBoundary(files, k)
  }

  lemma ContinuedOne(files: seq<FileMeta>, c: seq<FileMeta>, out: seq<FileMeta>, largest: InternalKey, f: FileMeta)
    requires Continued(files, c, out) && IsLargest(out, largest) && Continues(files, largest, f)
    ensures Continued(files, c, out + [f])
  {
    var next := out + [f];
    forall n, k | |c| <= n < |next| && IsLargest(next[..n], k) ensures Continues(files, k, next[n]) {
      if n < |out| {
        assert next[..n] == out[..n];
      } else {
        assert next[..n] == out;
        LargestUnique(out, largest);
      }
    }
  }

  lemma LargestExists(c: seq<FileMeta>) returns (k: InternalKey)
    requires c != []
    ensures IsLargest(c, k)
  {
    k := c[|c| - 1].largest;
    if |c| > 1 {
      var front := c[..|c| - 1];
      var k' := LargestExists(front);
      if Less(k, k') {
        k := k';
      }
    }
  }

  /** Where no file goes on with the last user key nothing is added. */
  lemma NothingContinues(files: seq<FileMeta>, c: seq<FileMeta>, out: seq<FileMeta>, k: InternalKey)
    requires Continued(files, c, out) && IsLargest(c, k) && NoBoundary(files, k)
    ensures out == c
  {
    assert out[..|c|] == c;
  }

  /** A closed list does not go on. */
  lemma NotLonger(files: seq<FileMeta>, c: seq<FileMeta>, out: seq<FileMeta>, out': seq<FileMeta>)
    requires c != [] && Continued(files, c, out) && BoundaryClosure(files, c, out')
    requires |out'| <= |out| && out[..|out'|] == out'
    ensures out == out'
  {
    var k := LargestExists(out');
    assert NoBoundary(files, k);
  }

  /** At a sorted level there is one such list. */
  lemma ClosureUnique(
    files: seq<FileMeta>, c: seq<FileMeta>, out: seq<FileMeta>, out': seq<FileMeta>, n: nat)
    requires FilesOk(files) && Disjoint(files) && c != []
    requires BoundaryClosure(files, c, out) && BoundaryClosure(files, c, out')
    requires |c| <= n <= |out| && n <= |out'| && out[..n] == out'[..n]
    ensures out == out'
    decreases |out| - n
  {
    if n == |out| {
      assert out[..n] == out;
      NotLonger(files, c, out', out);
    } else if n == |out'| {
      assert out'[..n] == out';
      NotLonger(files, c, out, out');
    } else {
      var k := LargestExists(out[..n]);
      assert Continues(files, k, out[n]) && Continues(files, k, out'[n]);
      SameSmallest(files, out[n], out'[n]);
      assert out[..n + 1] == out[..n] + [out[n]] == out'[..n + 1];
      ClosureUnique(files, c, out, out', n + 1);
    }
  }

  lemma SameSmallest(files: seq<FileMeta>, f: FileMeta, g: FileMeta)
    requires FilesOk(files) && Disjoint(files) && f in files && g in files
    requires AtMost(f.smallest, g.smallest) && AtMost(g.smallest, f.smallest)
    ensures f == g
  {
    var i :| 0 <= i < |files| && files[i] == f;
    var j :| 0 <= j < |files| && files[j] == g;
    if i < j {
      SmallestIncreasing(files, i, j);
    } else if j < i {
      SmallestIncreasing(files, j, i);
    }
  }

  /** Extends the files with every file that continues the last user key.
      `extra` stands for files that are part of the compaction already. */
  method AddBoundaryInputs(files: seq<FileMeta>, compaction: seq<FileMeta>, ghost extra: set<FileMeta>)
    returns (out: seq<FileMeta>)
    requires FilesOk(files) && FilesOk(compaction)
    ensures compaction <= out && FilesOk(out)
    ensures forall f :: f in out ==> f in compaction || f in files
    ensures BoundaryClosure(files, compaction, out)
    ensures (exists k :: IsLargest(compaction, k) && NoBoundary(files, k)) ==> out == compaction
    ensures Disjoint(files) && IsRun(files, compaction) ==> IsRun(files, out)
    ensures Covered(Files(compaction) + extra) ==> Covered(Files(out) + extra)
  {
    out := compaction;
    var found := FindLargestKey(compaction);
    if found.None? {
      return;
    }
    var largestKey := found.value;
    var continueSearching := true;
    while continueSearching
      invariant Continued(files, compaction, out) && FilesOk(out)
      invariant forall f :: f in out ==> f in compaction || f in files
      invariant IsLargest(out, largestKey)
      invariant !continueSearching ==> NoBoundary(files, largestKey)
      invariant out != compaction ==> exists k :: IsLargest(compaction, k) && !NoBoundary(files, k)
      invariant Disjoint(files) && IsRun(files, compaction) ==> IsRun(files, out)
      invariant Covered(Files(compaction) + extra) ==> Covered(Files(out) + extra)
      decreases continueSearching, StartsAfter(files, largestKey)
    {
      var next := FindSmallestBoundaryFile(files, largestKey);
      if next.Some? {
        var f := next.value;
        AppendBoundary(files, out, largestKey, f, extra);
        ContinuedOne(files, compaction, out, largestKey, f);
        if Disjoint(files) && IsRun(files, out) {
          BoundaryIsNext(files, out, largestKey, f);
        }
        out := out + [f];
        largestKey := f.largest;
      } else {
        continueSearching := false;
      }
    }
    LargestUnique(out, largestKey);
  }

  lemma LargestUnique(c: seq<FileMeta>, k: InternalKey)
    requires IsLargest(c, k)
    ensures forall k' :: IsLargest(c, k') ==> k'.user == k.user && Tag(k') == Tag(k) && k' == k
  {
    forall k' | IsLargest(c, k') ensures k' == k {
      TagInjective(k, k');
    }
  }

  lemma {:induction false} AppendBoundary(
    files: seq<FileMeta>, out: seq<FileMeta>, largest: InternalKey, f: FileMeta, extra: set<FileMeta>)
    requires FilesOk(files) && FilesOk(out) && IsLargest(out, largest)
    requires f in files && IsBoundary(f, largest)
    ensures FilesOk(out + [f]) && IsLargest(out + [f], f.largest)
    ensures StartsAfter(files, f.largest) < StartsAfter(files, largest)
    ensures Covered(Files(out) + extra) ==> Covered(Files(out + [f]) + extra)
  {
    var j :| 0 <= j < |files| && files[j] == f;
    FileRange(f, 0);
    StartsAfterDrops(files, f, largest, f.largest);
    assert IsLargest(out + [f], f.largest) by {
      assert (out + [f])[|out|] == f;
    }
    if Covered(Files(out) + extra) {
      var m :| 0 <= m < |out| && out[m].largest == largest;
      FileRange(out[m], 0);
      CoverMeets(Files(out) + extra, f, out[m]);
      assert Files(out + [f]) + extra == Files(out) + extra + {f};
    }
  }
}
