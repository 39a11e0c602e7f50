/** Table files arranged in levels, and the level-by-level point lookup. */
module Version {
  import opened Options
  import opened Keys

  /** `entries` is the content of the table file the metadata describes. */
  datatype FileMeta = FileMeta(
    number: nat, fileSize: nat, smallest: InternalKey, largest: InternalKey, entries: seq<Entry>)

  type Levels = seq<seq<FileMeta>>

  const NUM_LEVELS: nat := 7

  // ----- invariants

  ghost predicate SortedKeys(es: seq<Entry>) {
    forall i, j :: 0 <= i < j < |es| ==> Less(es[i].key, es[j].key)
  }

  /** Nothing sorts before the earliest possible key of its user key. */
  predicate Packs(k: InternalKey) {
    Tag(k) <= Tag(SeekKey(k.user, MAX_SEQUENCE))
  }

  ghost predicate FileOk(f: FileMeta) {
    && f.entries != [] && SortedKeys(f.entries)
    && f.smallest == f.entries[0].key
    && f.largest == f.entries[|f.entries| - 1].key
    && forall e :: e in f.entries ==> Packs(e.key)
  }

  ghost predicate FilesOk(files: seq<FileMeta>) {
    forall i :: 0 <= i < |files| ==> FileOk(files[i])
  }

  /** Sorted and pairwise disjoint in internal-key order (levels 1 and up). */
  ghost predicate Disjoint(files: seq<FileMeta>) {
    forall i, j :: 0 <= i < j < |files| ==> Less(files[i].largest, files[j].smallest)
  }

  ghost function Ent(f: FileMeta): set<Entry> {
    set e | e in f.entries
  }

  ghost function LevelEntries(files: seq<FileMeta>): set<Entry> {
    set i, e | 0 <= i < |files| && e in files[i].entries :: e
  }

  ghost function VersionEntries(v: Levels): set<Entry> {
    set l, e | 0 <= l < |v| && e in LevelEntries(v[l]) :: e
  }

  /** Level-0 files may overlap; no two share a number. */
  ghost predicate DistinctNumbers(files: seq<FileMeta>) {
    forall i, j :: 0 <= i < |files| && 0 <= j < |files| && i != j ==> files[i].number != files[j].number
  }

  /** Level `l` is well formed. */
  ghost predicate LevelOk(v: Levels, l: nat)
    requires l < |v|
  {
    FilesOk(v[l]) && if l == 0 then DistinctNumbers(v[0]) else Disjoint(v[l])
  }

  ghost predicate LevelsOk(v: Levels, n: nat)
    requires n <= |v|
  {
    n == 0 || (LevelsOk(v, n - 1) && LevelOk(v, n - 1))
  }

  /** The shape of every version. */
  ghost predicate VersionOk(v: Levels) {
    |v| == NUM_LEVELS && LevelsOk(v, |v|)
  }

  lemma {:induction false} LevelsOkAt(v: Levels, n: nat, l: nat)
    requires l < n <= |v| && LevelsOk(v, n)
    ensures LevelOk(v, l)
  {
    if l < n - 1 {
      LevelsOkAt(v, n - 1, l);
    }
  }

  lemma LevelFacts(v: Levels, l: nat)
    requires VersionOk(v) && l < |v|
    ensures FilesOk(v[l]) && (if l == 0 then DistinctNumbers(v[0]) else Disjoint(v[l]))
  {
    LevelsOkAt(v, |v|, l);
  }

  lemma {:induction false} AllLevelsOk(v: Levels, n: nat)
    requires n <= |v| && forall l :: 0 <= l < n ==> LevelOk(v, l)
    ensures LevelsOk(v, n)
  {
    if n > 0 {
      AllLevelsOk(v, n - 1);
    }
  }

  // ----- the order of the layers

  /** `met` holds something of the same user key that is no older, and old enough for
      every reader at or above `floor`. */
  ghost predicate Covers(met: set<Entry>, e: Entry, floor: nat) {
    exists c :: c in met && c.key.user == e.key.user && Tag(c.key) >= Tag(e.key) && Parses(c.key) && c.key.sn <= floor
  }

  /** Where `es` and `fs` share a user key the entry of `es` is newer, or no reader at or
      above `floor` who has met `met` needs the entry of `fs`: a copy of it, say, is in `met`. */
  ghost predicate Ahead(es: set<Entry>, fs: set<Entry>, met: set<Entry>, floor: nat) {
    forall x, e :: x in es && e in fs && x.key.user == e.key.user ==> Tag(x.key) > Tag(e.key) || Covers(met, e, floor)
  }

  /** The entries of the levels above `level`. */
  ghost function UpperEntries(v: Levels, level: nat): set<Entry> {
    set l, e | 0 <= l < level && l < |v| && e in LevelEntries(v[l]) :: e
  }

  ghost function NumberedFrom(files: seq<FileMeta>, n: nat): set<Entry> {
    set i, e | 0 <= i < |files| && files[i].number >= n && e in files[i].entries :: e
  }

  /** At level 0 files are read from the highest number down. */
  ghost predicate NewestByNumber(files: seq<FileMeta>, floor: nat) {
    forall i, j :: 0 <= i < |files| && 0 <= j < |files| && files[i].number > files[j].number ==>
      Ahead(Ent(files[i]), Ent(files[j]), NumberedFrom(files, files[i].number), floor)
  }

  ghost predicate LayerOk(v: Levels, l: nat, floor: nat)
    requires l < |v|
  {
    && (l == 0 ==> NewestByNumber(v[0], floor))
    && forall u :: 0 <= u < l ==> Ahead(LevelEntries(v[u]), LevelEntries(v[l]), UpperEntries(v, u + 1), floor)
  }

  ghost predicate LayersOk(v: Levels, n: nat, floor: nat)
    requires n <= |v|
  {
    n == 0 || (LayersOk(v, n - 1, floor) && LayerOk(v, n - 1, floor))
  }

  /** What a reader at or above `floor` meets first is what it needs. */
  ghost predicate Layered(v: Levels, floor: nat) {
    LayersOk(v, |v|, floor)
  }

  lemma {:induction false} LayersOkAt(v: Levels, n: nat, l: nat, floor: nat)
    requires l < n <= |v| && LayersOk(v, n, floor)
    ensures LayerOk(v, l, floor)
  {
    if l < n - 1 {
      LayersOkAt(v, n - 1, l, floor);
    }
  }

  lemma {:induction false} AllLayersOk(v: Levels, n: nat, floor: nat)
    requires n <= |v| && forall l :: 0 <= l < n ==> LayerOk(v, l, floor)
    ensures LayersOk(v, n, floor)
  {
    if n > 0 {
      AllLayersOk(v, n - 1, floor);
    }
  }

  /** An entry of an upper level is newer than one of a lower level, or that one is covered. */
  lemma LevelOrder(v: Levels, floor: nat, l: nat, m: nat, x: Entry, e: Entry)
    requires Layered(v, floor) && l < m < |v| && x in LevelEntries(v[l]) && e in LevelEntries(v[m])
    requires x.key.user == e.key.user
    ensures Tag(x.key) > Tag(e.key) || Covers(UpperEntries(v, l + 1), e, floor)
  {
    LayersOkAt(v, |v|, m, floor);
  }

  lemma LevelZeroOrder(v: Levels, floor: nat)
    requires Layered(v, floor) && 0 < |v|
    ensures NewestByNumber(v[0], floor)
  {
    LayersOkAt(v, |v|, 0, floor);
  }

  lemma CoversMore(met: set<Entry>, e: Entry, floor: nat, met': set<Entry>, floor': nat)
    requires Covers(met, e, floor) && met <= met' && floor <= floor'
    ensures Covers(met', e, floor')
  {
  }

  lemma AheadMore(
    es: set<Entry>, fs: set<Entry>, met: set<Entry>, floor: nat, met': set<Entry>, floor': nat)
    requires Ahead(es, fs, met, floor) && met <= met' && floor <= floor'
    ensures Ahead(es, fs, met', floor')
  {
    forall x, e | x in es && e in fs && x.key.user == e.key.user && Tag(x.key) <= Tag(e.key)
      ensures Covers(met', e, floor')
    {
      CoversMore(met, e, floor, met', floor');
    }
  }

  lemma LayerLater(v: Levels, l: nat, floor: nat, floor': nat)
    requires l < |v| && LayerOk(v, l, floor) && floor <= floor'
    ensures LayerOk(v, l, floor')
  {
    forall u | 0 <= u < l ensures Ahead(LevelEntries(v[u]), LevelEntries(v[l]), UpperEntries(v, u + 1), floor') {
      AheadMore(LevelEntries(v[u]), LevelEntries(v[l]), UpperEntries(v, u + 1), floor, UpperEntries(v, u + 1), floor');
    }
    if l == 0 {
      forall i, j | 0 <= i < |v[0]| && 0 <= j < |v[0]| && v[0][i].number > v[0][j].number
        ensures Ahead(Ent(v[0][i]), Ent(v[0][j]), NumberedFrom(v[0], v[0][i].number), floor')
      {
        var met := NumberedFrom(v[0], v[0][i].number);
        AheadMore(Ent(v[0][i]), Ent(v[0][j]), met, floor, met, floor');
      }
    }
  }

  lemma {:induction false} LayersLater(v: Levels, n: nat, floor: nat, floor': nat)
    requires n <= |v| && LayersOk(v, n, floor) && floor <= floor'
    ensures LayersOk(v, n, floor')
  {
    if n > 0 {
      LayersLater(v, n - 1, floor, floor');
      LayerLater(v, n - 1, floor, floor');
    }
  }

  /** Later readers need no more. */
  lemma LayeredLater(v: Levels, floor: nat, floor': nat)
    requires Layered(v, floor) && floor <= floor'
    ensures Layered(v, floor')
  {
    LayersLater(v, |v|, floor, floor');
  }

  lemma AheadBounded(es: set<Entry>, fs: set<Entry>, met: set<Entry>, floor: nat, bound: nat)
    requires Ahead(es, fs, met, floor) && forall e :: e in met ==> e.key.sn <= bound
    ensures Ahead(es, fs, met, bound)
  {
    forall x, e | x in es && e in fs && x.key.user == e.key.user && Tag(x.key) <= Tag(e.key)
      ensures Covers(met, e, bound)
    {
      assert Covers(met, e, floor);
    }
  }

  lemma LayerBounded(v: Levels, l: nat, floor: nat, bound: nat)
    requires l < |v| && LayerOk(v, l, floor) && forall e :: e in VersionEntries(v) ==> e.key.sn <= bound
    ensures LayerOk(v, l, bound)
  {
    forall u | 0 <= u < l ensures Ahead(LevelEntries(v[u]), LevelEntries(v[l]), UpperEntries(v, u + 1), bound) {
      var met := UpperEntries(v, u + 1);
      assert met <= VersionEntries(v);
      AheadBounded(LevelEntries(v[u]), LevelEntries(v[l]), met, floor, bound);
    }
    if l == 0 {
      forall i, j | 0 <= i < |v[0]| && 0 <= j < |v[0]| && v[0][i].number > v[0][j].number
        ensures Ahead(Ent(v[0][i]), Ent(v[0][j]), NumberedFrom(v[0], v[0][i].number), bound)
      {
        var met := NumberedFrom(v[0], v[0][i].number);
        assert met <= LevelEntries(v[0]) <= VersionEntries(v);
        AheadBounded(Ent(v[0][i]), Ent(v[0][j]), met, floor, bound);
      }
    }
  }

  /** A floor above every entry is as good as any. */
  lemma LayeredBounded(v: Levels, floor: nat, bound: nat)
    requires Layered(v, floor) && forall e :: e in VersionEntries(v) ==> e.key.sn <= bound
    ensures Layered(v, bound)
  {
    forall l | 0 <= l < |v| ensures LayerOk(v, l, bound) {
      LayersOkAt(v, |v|, l, floor);
      LayerBounded(v, l, floor, bound);
    }
    AllLayersOk(v, |v|, bound);
  }

  lemma NewerIsAhead(es: set<Entry>, fs: set<Entry>, met: set<Entry>, floor: nat)
    requires NewerThan(es, fs)
    ensures Ahead(es, fs, met, floor)
  {
  }

  lemma FileRange(f: FileMeta, i: nat)
    requires FileOk(f) && i < |f.entries|
    ensures AtMost(f.smallest, f.entries[i].key) && AtMost(f.entries[i].key, f.largest)
    ensures f.smallest.user <= f.entries[i].key.user <= f.largest.user
  {
    assert i > 0 ==> Less(f.entries[0].key, f.entries[i].key);
    assert i < |f.entries| - 1 ==> Less(f.entries[i].key, f.entries[|f.entries| - 1].key);
  }

  lemma AcrossFiles(files: seq<FileMeta>, i: nat, j: nat, a: Entry, b: Entry)
    requires FilesOk(files) && Disjoint(files) && i < j < |files|
    requires a in files[i].entries && b in files[j].entries
    ensures Less(a.key, b.key)
  {
    var x :| 0 <= x < |files[i].entries| && files[i].entries[x] == a;
    var y :| 0 <= y < |files[j].entries| && files[j].entries[y] == b;
    FileRange(files[i], x);
    FileRange(files[j], y);
    assert Less(files[i].largest, files[j].smallest);
  }

  /** No entry is stored twice. */
  ghost predicate Once(v: Levels) {
    forall l, m, f, g, e ::
      0 <= l < |v| && 0 <= m < |v| && f in v[l] && g in v[m] && e in f.entries && e in g.entries ==>
      l == m && f == g
  }

  // ----- searching one file

  /** What TableCache::Get hands to the callback: the first entry at or after `key`. */
  function TableSeek(es: seq<Entry>, key: InternalKey): (r: Option<Entry>)
    ensures r.Some? ==> r.value in es && !Less(r.value.key, key)
  {
    if es == [] then None
    else if Less(es[0].key, key) then TableSeek(es[1..], key)
    else Some(es[0])
  }

  lemma {:induction false} TableSeekFirst(es: seq<Entry>, key: InternalKey)
    requires SortedKeys(es)
    ensures TableSeek(es, key).None? ==> forall e :: e in es ==> Less(e.key, key)
    ensures TableSeek(es, key).Some? ==>
      forall e :: e in es && !Less(e.key, key) ==> AtMost(TableSeek(es, key).value.key, e.key)
  {
    if es != [] {
      assert es == [es[0]] + es[1..];
      if Less(es[0].key, key) {
        TableSeekFirst(es[1..], key);
      } else {
        forall e | e in es ensures AtMost(es[0].key, e.key) {
          var i :| 0 <= i < |es| && es[i] == e;
        }
      }
    }
  }

  /** Searching one table finds the newest visible entry of that table. */
  lemma TableSeekNewest(f: FileMeta, k: UserKey, s: nat)
    requires FileOk(f)
    ensures var r := TableSeek(f.entries, SeekKey(k, s));
      if r.Some? && r.value.key.user == k then IsNewest(Ent(f), k, s, r.value)
      else !HasCandidate(Ent(f), k, s)
  {
    TableSeekFirst(f.entries, SeekKey(k, s));
  }

  // ----- searching the files of a level

  /** FindFile: the first file whose largest key is at or after `key`. */
  method FindFile(files: seq<FileMeta>, key: InternalKey) returns (right: nat)
    requires FilesOk(files) && Disjoint(files)
    ensures right <= |files|
    ensures forall i :: 0 <= i < right ==> Less(files[i].largest, key)
    ensures forall i :: right <= i < |files| ==> !Less(files[i].largest, key)
  {
    var left := 0;
    right := |files|;
    while left < right
      invariant 0 <= left <= right <= |files|
      invariant forall i :: 0 <= i < left ==> Less(files[i].largest, key)
      invariant forall i :: right <= i < |files| ==> !Less(files[i].largest, key)
    {
      var mid := (left + right) / 2;
      LargestIncreasing(files);
      if Less(files[mid].largest, key) {
        left := mid + 1;
      } else {
        right := mid;
      }
    }
  }

  lemma LargestIncreasing(files: seq<FileMeta>)
    requires FilesOk(files) && Disjoint(files)
    ensures forall i, j :: 0 <= i < j < |files| ==> Less(files[i].largest, files[j].largest)
  {
    forall i, j | 0 <= i < j < |files| ensures Less(files[i].largest, files[j].largest) {
      FileRange(files[j], 0);
    }
  }

  predicate AfterFile(k: Option<UserKey>, f: FileMeta) {
    k.Some? && k.value > f.largest.user
  }

  predicate BeforeFile(k: Option<UserKey>, f: FileMeta) {
    k.Some? && k.value < f.smallest.user
  }

  /** The file's user-key range meets [lo, hi]; None is an open end. */
  predicate Overlaps(f: FileMeta, lo: Option<UserKey>, hi: Option<UserKey>) {
    !AfterFile(lo, f) && !BeforeFile(hi, f)
  }

  ghost predicate SomeOverlap(files: seq<FileMeta>, lo: Option<UserKey>, hi: Option<UserKey>) {
    exists i :: 0 <= i < |files| && Overlaps(files[i], lo, hi)
  }

  /** The binary search answers what the linear scan answers. */
  method SomeFileOverlapsRange(disjoint: bool, files: seq<FileMeta>, lo: Option<UserKey>, hi: Option<UserKey>)
    returns (overlap: bool)
    requires FilesOk(files)
    requires disjoint ==> Disjoint(files)
    ensures overlap <==> SomeOverlap(files, lo, hi)
  {
    if !disjoint {
      var i := 0;
      while i < |files|
        invariant 0 <= i <= |files|
        invariant forall j :: 0 <= j < i ==> !Overlaps(files[j], lo, hi)
      {
        if AfterFile(lo, files[i]) || BeforeFile(hi, files[i]) {
          // No overlap
        } else {
          return true;
        }
        i := i + 1;
      }
      return false;
    }
    var index := 0;
    if lo.Some? {
      index := FindFile(files, SeekKey(lo.value, MAX_SEQUENCE));
      assert forall i :: 0 <= i < index ==> AfterFile(lo, files[i]) by {
        forall i | 0 <= i < index ensures AfterFile(lo, files[i]) {
          assert FileOk(files[i]);
          assert files[i].entries[|files[i].entries| - 1] in files[i].entries;
        }
      }
    }
    if index >= |files| {
      return false;
    }
    overlap := !BeforeFile(hi, files[index]);
    if overlap {
      assert Overlaps(files[index], lo, hi);
    } else {
      forall i | index < i < |files| ensures BeforeFile(hi, files[i]) {
        FileRange(files[index], |files[index].entries| - 1);
        assert Less(files[index].largest, files[i].smallest);
      }
    }
  }

  // ----- Version::Get

  ghost predicate NewestFirst(files: seq<FileMeta>) {
    forall i, j :: 0 <= i < j < |files| ==> files[i].number >= files[j].number
  }

  function InsertByNumber(f: FileMeta, files: seq<FileMeta>): (r: seq<FileMeta>)
    ensures multiset(r) == multiset{f} + multiset(files)
  {
    if files == [] || f.number >= files[0].number then [f] + files
    else
      assert files == [files[0]] + files[1..];
      [files[0]] + InsertByNumber(f, files[1..])
  }

  lemma {:induction false} InsertKeepsOrder(f: FileMeta, files: seq<FileMeta>)
    requires NewestFirst(files)
    ensures NewestFirst(InsertByNumber(f, files))
  {
    if files == [] || f.number >= files[0].number {
    } else {
      var rest := InsertByNumber(f, files[1..]);
      InsertKeepsOrder(f, files[1..]);
      assert files == [files[0]] + files[1..];
      forall j | 0 <= j < |rest| ensures files[0].number >= rest[j].number {
        assert rest[j] in multiset(rest);
        if rest[j] != f {
          assert rest[j] in multiset(files[1..]);
        }
      }
    }
  }

  /** std::sort with the NewestFirst comparator. */
  function SortNewestFirst(files: seq<FileMeta>): (r: seq<FileMeta>)
    ensures multiset(r) == multiset(files)
    ensures NewestFirst(r)
  {
    if files == [] then []
    else
      assert files == [files[0]] + files[1..];
      InsertKeepsOrder(files[0], SortNewestFirst(files[1..]));
      InsertByNumber(files[0], SortNewestFirst(files[1..]))
  }

  /** SaveValue: a table's answer for `user`; None means keep searching. */
  function Save(e: Option<Entry>, user: UserKey): Option<Answer> {
    if e.None? then None
    else if !Parses(e.value.key) then Some(Corrupt)
    else if e.value.key.user == user then Some(Meaning(e.value))
    else None
  }

  /** One table either answers with its newest visible entry, or it holds an
      entry that does not parse, or it holds nothing visible. */
  lemma SaveAnswers(f: FileMeta, k: UserKey, s: nat)
    requires FileOk(f)
    ensures var e := TableSeek(f.entries, SeekKey(k, s));
      match Save(e, k)
      case None => !HasCandidate(Ent(f), k, s)
      case Some(Corrupt) => !AllParse(Ent(f))
      case Some(a) => IsNewest(Ent(f), k, s, e.value) && a == Meaning(e.value)
  {
    TableSeekNewest(f, k, s);
  }

  ghost predicate InLevels(v: Levels, upto: nat, k: UserKey, s: nat) {
    exists l :: 0 <= l < upto && l < |v| && HasCandidate(LevelEntries(v[l]), k, s)
  }

  /** A cover is a candidate wherever what it covers is one. */
  lemma CoverIsCandidate(met: set<Entry>, x: Entry, floor: nat, k: UserKey, s: nat)
    returns (c: Entry)
    requires Covers(met, x, floor) && floor <= s && Candidate(x, k, s)
    ensures c in met && Candidate(c, k, s) && Tag(c.key) >= Tag(x.key)
  {
    c :| c in met && c.key.user == x.key.user && Tag(c.key) >= Tag(x.key) && Parses(c.key) && c.key.sn <= floor;
  }

  lemma NoneBelow(v: Levels, floor: nat, l: nat, m: nat, k: UserKey, s: nat, e: Entry, x: Entry)
    requires Layered(v, floor) && floor <= s && l < m < |v| && !InLevels(v, l, k, s)
    requires IsNewest(LevelEntries(v[l]), k, s, e) && x in LevelEntries(v[m]) && Candidate(x, k, s)
    ensures Tag(x.key) <= Tag(e.key)
  {
    LevelOrder(v, floor, l, m, e, x);
    if Tag(e.key) <= Tag(x.key) {
      var c := CoverIsCandidate(UpperEntries(v, l + 1), x, floor, k, s);
      var u :| 0 <= u < l + 1 && u < |v| && c in LevelEntries(v[u]);
      assert u == l;
    }
  }

  /** The newest entry of the first level that has a candidate is the newest of all. */
  lemma FirstLevelDecides(v: Levels, floor: nat, l: nat, k: UserKey, s: nat, e: Entry)
    requires Layered(v, floor) && floor <= s && KeyUnique(VersionEntries(v)) && l < |v|
    requires !InLevels(v, l, k, s)
    requires IsNewest(LevelEntries(v[l]), k, s, e)
    ensures IsNewest(VersionEntries(v), k, s, e) && Visible(VersionEntries(v), k, s) == Meaning(e)
  {
    forall x | x in VersionEntries(v) && Candidate(x, k, s) ensures Tag(x.key) <= Tag(e.key) {
      var m :| 0 <= m < |v| && x in LevelEntries(v[m]);
      assert m >= l;
      if m > l {
        NoneBelow(v, floor, l, m, k, s, e, x);
      }
    }
    VisibleNewest(VersionEntries(v), k, s, e);
  }

  ghost predicate NoneBefore(plan: seq<FileMeta>, n: nat, k: UserKey, s: nat) {
    forall j :: 0 <= j < n && j < |plan| ==> !HasCandidate(Ent(plan[j]), k, s)
  }

  /** Searching the tables of `plan` in order and stopping at the first one with
      a candidate yields the newest candidate of the whole level. */
  ghost predicate PlanOk(files: seq<FileMeta>, plan: seq<FileMeta>, k: UserKey, s: nat) {
    && (forall i :: 0 <= i < |plan| ==> plan[i] in files)
    && (NoneBefore(plan, |plan|, k, s) ==> !HasCandidate(LevelEntries(files), k, s))
    && forall i, e :: 0 <= i < |plan| && IsNewest(Ent(plan[i]), k, s, e) && NoneBefore(plan, i, k, s)
         ==> IsNewest(LevelEntries(files), k, s, e)
  }

  predicate Contains(f: FileMeta, user: UserKey) {
    f.smallest.user <= user <= f.largest.user
  }

  function FilesContaining(files: seq<FileMeta>, user: UserKey): (r: seq<FileMeta>)
    ensures forall f :: f in r <==> f in files && Contains(f, user)
  {
    if files == [] then []
    else
      assert files == [files[0]] + files[1..];
      (if Contains(files[0], user) then [files[0]] else []) + FilesContaining(files[1..], user)
  }

  lemma CandidateFile(files: seq<FileMeta>, x: Entry, k: UserKey) returns (j: nat)
    requires FilesOk(files) && x in LevelEntries(files) && x.key.user == k
    ensures j < |files| && x in Ent(files[j]) && Contains(files[j], k)
  {
    j :| 0 <= j < |files| && x in files[j].entries;
    var y :| 0 <= y < |files[j].entries| && files[j].entries[y] == x;
    FileRange(files[j], y);
  }

  lemma CoverInPlan(
    files: seq<FileMeta>, plan: seq<FileMeta>, k: UserKey, s: nat, i: nat, m: nat, e: Entry, c: Entry)
    requires FilesOk(files) && DistinctNumbers(files) && NewestFirst(plan)
    requires forall f :: f in files && Contains(f, k) ==> f in plan
    requires forall p :: 0 <= p < |plan| ==> plan[p] in files
    requires i < |plan| && m < |files| && files[m] == plan[i]
    requires IsNewest(Ent(plan[i]), k, s, e) && NoneBefore(plan, i, k, s)
    requires c in NumberedFrom(files, files[m].number) && Candidate(c, k, s)
    ensures Tag(c.key) <= Tag(e.key)
  {
    var g :| 0 <= g < |files| && files[g].number >= files[m].number && c in files[g].entries;
    var y :| 0 <= y < |files[g].entries| && files[g].entries[y] == c;
    FileRange(files[g], y);
    assert files[g] in files && Contains(files[g], k);
    var p :| 0 <= p < |plan| && plan[p] == files[g];
    assert c in Ent(files[g]) && HasCandidate(Ent(plan[p]), k, s);
    assert p >= i;
    if p > i {
      assert plan[i].number >= plan[p].number;
    }
    assert g == m;
  }

  lemma LevelZeroFirst(
    files: seq<FileMeta>, floor: nat, plan: seq<FileMeta>, k: UserKey, s: nat, i: nat, m: nat, e: Entry, x: Entry)
    requires FilesOk(files) && DistinctNumbers(files) && NewestByNumber(files, floor) && floor <= s && NewestFirst(plan)
    requires forall f :: f in files && Contains(f, k) ==> f in plan
    requires forall p :: 0 <= p < |plan| ==> plan[p] in files
    requires i < |plan| && m < |files| && files[m] == plan[i]
    requires IsNewest(Ent(plan[i]), k, s, e) && NoneBefore(plan, i, k, s)
    requires x in LevelEntries(files) && Candidate(x, k, s)
    ensures Tag(x.key) <= Tag(e.key)
  {
    var j := CandidateFile(files, x, k);
    assert HasCandidate(Ent(files[j]), k, s);
    var n :| 0 <= n < |plan| && plan[n] == files[j];
    assert n >= i;
    if n != i && j != m {
      assert plan[i].number >= plan[n].number;
      assert files[m].number > files[j].number;
      assert e in Ent(files[m]) && x in Ent(files[j]);
      if Tag(e.key) <= Tag(x.key) {
        var c := CoverIsCandidate(NumberedFrom(files, files[m].number), x, floor, k, s);
        CoverInPlan(files, plan, k, s, i, m, e, c);
      }
    }
  }

  lemma {:induction false} SortKeepsMembers(tmp: seq<FileMeta>, f: FileMeta)
    ensures f in SortNewestFirst(tmp) <==> f in tmp
  {
    assert f in SortNewestFirst(tmp) <==> f in multiset(SortNewestFirst(tmp));
    assert f in tmp <==> f in multiset(tmp);
  }

  lemma LevelZeroPlan(files: seq<FileMeta>, floor: nat, plan: seq<FileMeta>, k: UserKey, s: nat)
    requires FilesOk(files) && DistinctNumbers(files) && NewestByNumber(files, floor) && floor <= s && NewestFirst(plan)
    requires forall f :: f in files && Contains(f, k) ==> f in plan
    requires forall i :: 0 <= i < |plan| ==> plan[i] in files
    ensures PlanOk(files, plan, k, s)
  {
    forall x | x in LevelEntries(files) && Candidate(x, k, s) ensures !NoneBefore(plan, |plan|, k, s) {
      var j := CandidateFile(files, x, k);
      var n :| 0 <= n < |plan| && plan[n] == files[j];
      assert HasCandidate(Ent(plan[n]), k, s);
    }
    forall i, e | 0 <= i < |plan| && IsNewest(Ent(plan[i]), k, s, e) && NoneBefore(plan, i, k, s)
      ensures IsNewest(LevelEntries(files), k, s, e)
    {
      var m :| 0 <= m < |files| && files[m] == plan[i];
      assert e in files[m].entries;
      forall x | x in LevelEntries(files) && Candidate(x, k, s) ensures Tag(x.key) <= Tag(e.key) {
        LevelZeroFirst(files, floor, plan, k, s, i, m, e, x);
      }
    }
  }

  /** At a sorted level a candidate outside file `index` is older than the last
      entry of that file, which is then a candidate too. */
  lemma CandidateBeyond(files: seq<FileMeta>, index: nat, k: UserKey, s: nat, j: nat, x: Entry)
    requires FilesOk(files) && Disjoint(files) && index < j < |files|
    requires !Less(files[index].largest, SeekKey(k, s))
    requires x in files[j].entries && Candidate(x, k, s)
    ensures HasCandidate(Ent(files[index]), k, s) && files[index].smallest.user <= k
    ensures forall e :: e in Ent(files[index]) && e.key.user == k ==> Tag(e.key) > Tag(x.key)
  {
    var f := files[index];
    var last := f.entries[|f.entries| - 1];
    FileRange(f, |f.entries| - 1);
    AcrossFiles(files, index, j, last, x);
    assert last in Ent(f) && Candidate(last, k, s);
    forall e | e in Ent(f) && e.key.user == k ensures Tag(e.key) > Tag(x.key) {
      AcrossFiles(files, index, j, e, x);
    }
  }

  lemma CandidateNotBefore(files: seq<FileMeta>, k: UserKey, s: nat, j: nat, x: Entry)
    requires FilesOk(files) && j < |files|
    requires x in files[j].entries && Candidate(x, k, s)
    ensures !Less(files[j].largest, SeekKey(k, s)) && files[j].smallest.user <= k
  {
    var y :| 0 <= y < |files[j].entries| && files[j].entries[y] == x;
    FileRange(files[j], y);
  }

  /** A candidate of a sorted level is matched by file `index`, the first one
      whose largest key is not before the seek key. */
  lemma CandidateAt(files: seq<FileMeta>, index: nat, k: UserKey, s: nat, x: Entry)
    requires FilesOk(files) && Disjoint(files)
    requires forall i :: 0 <= i < index && i < |files| ==> Less(files[i].largest, SeekKey(k, s))
    requires index < |files| ==> !Less(files[index].largest, SeekKey(k, s))
    requires x in LevelEntries(files) && Candidate(x, k, s)
    ensures index < |files| && k >= files[index].smallest.user
    ensures HasCandidate(Ent(files[index]), k, s)
    ensures forall e :: IsNewest(Ent(files[index]), k, s, e) ==> Tag(x.key) <= Tag(e.key)
  {
    var j :| 0 <= j < |files| && x in files[j].entries;
    CandidateNotBefore(files, k, s, j, x);
    assert j >= index;
    if j == index {
      assert x in Ent(files[index]);
    } else {
      CandidateBeyond(files, index, k, s, j, x);
    }
  }

  lemma SortedLevelPlan(files: seq<FileMeta>, index: nat, k: UserKey, s: nat, plan: seq<FileMeta>)
    requires FilesOk(files) && Disjoint(files) && index <= |files|
    requires forall i :: 0 <= i < index ==> Less(files[i].largest, SeekKey(k, s))
    requires index < |files| ==> !Less(files[index].largest, SeekKey(k, s))
    requires plan == if index < |files| && k >= files[index].smallest.user then [files[index]] else []
    ensures PlanOk(files, plan, k, s)
  {
    forall x | x in LevelEntries(files) && Candidate(x, k, s) ensures !NoneBefore(plan, |plan|, k, s) {
      CandidateAt(files, index, k, s, x);
      assert HasCandidate(Ent(plan[0]), k, s);
    }
    forall i, e | 0 <= i < |plan| && IsNewest(Ent(plan[i]), k, s, e) && NoneBefore(plan, i, k, s)
      ensures IsNewest(LevelEntries(files), k, s, e)
    {
      forall x | x in LevelEntries(files) && Candidate(x, k, s) ensures Tag(x.key) <= Tag(e.key) {
        CandidateAt(files, index, k, s, x);
      }
    }
  }

  // ----- the search

  /** Of the files of a level the search takes `e` from the first that has a candidate: at level 0
      the one with the largest number. */
  ghost predicate LevelFinds(files: seq<FileMeta>, level: nat, k: UserKey, s: nat, e: Entry) {
    if level > 0 then IsNewest(LevelEntries(files), k, s, e)
    else exists f :: f in files && IsNewest(Ent(f), k, s, e) && Foremost(files, f, k, s)
  }

  ghost predicate Foremost(files: seq<FileMeta>, f: FileMeta, k: UserKey, s: nat) {
    forall g :: g in files && g != f && HasCandidate(Ent(g), k, s) ==> g.number < f.number
  }

  /** The search finds `e`, at the first level that has a candidate. */
  ghost predicate SearchFinds(v: Levels, k: UserKey, s: nat, e: Entry) {
    exists l :: 0 <= l < |v| && !InLevels(v, l, k, s) && LevelFinds(v[l], l, k, s, e)
  }

  lemma FoundInPlan(files: seq<FileMeta>, plan: seq<FileMeta>, k: UserKey, s: nat, i: nat, e: Entry)
    requires FilesOk(files) && DistinctNumbers(files) && NewestFirst(plan)
    requires forall f :: f in files && Contains(f, k) ==> f in plan
    requires i < |plan| && plan[i] in files && IsNewest(Ent(plan[i]), k, s, e) && NoneBefore(plan, i, k, s)
    ensures LevelFinds(files, 0, k, s, e)
  {
    forall g | g in files && g != plan[i] && HasCandidate(Ent(g), k, s) ensures g.number < plan[i].number {
      var x :| x in Ent(g) && Candidate(x, k, s);
      FileHolds(files, g, x);
      var n :| 0 <= n < |plan| && plan[n] == g;
      NumbersDiffer(files, g, plan[i]);
    }
    assert Foremost(files, plan[i], k, s);
  }

  lemma FileHolds(files: seq<FileMeta>, g: FileMeta, x: Entry)
    requires FilesOk(files) && g in files && x in Ent(g)
    ensures Contains(g, x.key.user)
  {
    var y :| 0 <= y < |g.entries| && g.entries[y] == x;
    FileRange(g, y);
  }

  lemma NumbersDiffer(files: seq<FileMeta>, f: FileMeta, g: FileMeta)
    requires DistinctNumbers(files) && f in files && g in files && f != g
    ensures f.number != g.number
  {
    var i :| 0 <= i < |files| && files[i] == f;
    var j :| 0 <= j < |files| && files[j] == g;
  }

  /** Two entries of one file are told apart by their keys, so the newest is one. */
  lemma NewestInFile(f: FileMeta, k: UserKey, s: nat, a: Entry, b: Entry)
    requires FileOk(f) && IsNewest(Ent(f), k, s, a) && IsNewest(Ent(f), k, s, b)
    ensures a == b
  {
    var x :| 0 <= x < |f.entries| && f.entries[x] == a;
    var y :| 0 <= y < |f.entries| && f.entries[y] == b;
    assert Tag(a.key) == Tag(b.key) && a.key.user == b.key.user;
  }

  lemma ZeroFindsOne(files: seq<FileMeta>, k: UserKey, s: nat, a: Entry, b: Entry)
    requires FilesOk(files) && LevelFinds(files, 0, k, s, a) && LevelFinds(files, 0, k, s, b)
    ensures a == b
  {
    var f :| f in files && IsNewest(Ent(f), k, s, a) && Foremost(files, f, k, s);
    var g :| g in files && IsNewest(Ent(g), k, s, b) && Foremost(files, g, k, s);
    var i :| 0 <= i < |files| && files[i] == f;
    if f == g {
      NewestInFile(f, k, s, a, b);
    }
  }

  lemma ZeroHasCandidate(v: Levels, k: UserKey, s: nat, a: Entry, l: nat)
    requires 0 < |v| && LevelFinds(v[0], 0, k, s, a) && l < |v| && !InLevels(v, l, k, s)
    ensures l == 0
  {
    var f :| f in v[0] && IsNewest(Ent(f), k, s, a);
    var i :| 0 <= i < |v[0]| && v[0][i] == f;
    assert a in LevelEntries(v[0]);
  }

  /** What the search finds at level 0 is all it can find. */
  lemma FoundAtZero(v: Levels, k: UserKey, s: nat, a: Entry, b: Entry)
    requires 0 < |v| && FilesOk(v[0]) && LevelFinds(v[0], 0, k, s, a) && SearchFinds(v, k, s, b)
    ensures a == b
  {
    var l :| 0 <= l < |v| && !InLevels(v, l, k, s) && LevelFinds(v[l], l, k, s, b);
    ZeroHasCandidate(v, k, s, a, l);
    ZeroFindsOne(v[0], k, s, a, b);
  }

  /** Where the levels are in order the search is a flat read. */
  lemma SearchIsRead(v: Levels, floor: nat, k: UserKey, s: nat, e: Entry)
    requires VersionOk(v) && Layered(v, floor) && KeyUnique(VersionEntries(v)) && floor <= s && SearchFinds(v, k, s, e)
    ensures IsNewest(VersionEntries(v), k, s, e) && Visible(VersionEntries(v), k, s) == Meaning(e)
  {
    var l :| 0 <= l < |v| && !InLevels(v, l, k, s) && LevelFinds(v[l], l, k, s, e);
    LevelFacts(v, l);
    if l == 0 {
      LevelZeroOrder(v, floor);
      ZeroFindsNewest(v[0], floor, k, s, e);
    }
    FirstLevelDecides(v, floor, l, k, s, e);
  }

  lemma PlanFor(files: seq<FileMeta>, k: UserKey) returns (plan: seq<FileMeta>)
    ensures NewestFirst(plan) && forall g :: g in plan <==> g in files && Contains(g, k)
  {
    plan := SortNewestFirst(FilesContaining(files, k));
    forall g ensures g in plan <==> g in files && Contains(g, k) {
      SortKeepsMembers(FilesContaining(files, k), g);
    }
  }

  lemma ForemostFirst(
    files: seq<FileMeta>, plan: seq<FileMeta>, f: FileMeta, i: nat, k: UserKey, s: nat)
    requires Foremost(files, f, k, s) && NewestFirst(plan) && i < |plan| && plan[i] == f
    requires forall j :: 0 <= j < i ==> plan[j] in files && plan[j] != f
    ensures NoneBefore(plan, i, k, s)
  {
    forall j | 0 <= j < i ensures !HasCandidate(Ent(plan[j]), k, s) {
      assert plan[j].number >= plan[i].number;
    }
  }

  lemma FirstIndex(plan: seq<FileMeta>, f: FileMeta) returns (i: nat)
    requires f in plan
    ensures i < |plan| && plan[i] == f && forall j :: 0 <= j < i ==> plan[j] != f
  {
    if plan[0] == f {
      i := 0;
    } else {
      i := FirstIndex(plan[1..], f);
      i := i + 1;
    }
  }

  lemma ZeroFindsNewest(files: seq<FileMeta>, floor: nat, k: UserKey, s: nat, e: Entry)
    requires FilesOk(files) && DistinctNumbers(files) && NewestByNumber(files, floor) && floor <= s
    requires LevelFinds(files, 0, k, s, e)
    ensures IsNewest(LevelEntries(files), k, s, e)
  {
    var f :| f in files && IsNewest(Ent(f), k, s, e) && Foremost(files, f, k, s);
    var plan := PlanFor(files, k);
    FileHolds(files, f, e);
    var i := FirstIndex(plan, f);
    ForemostFirst(files, plan, f, i, k, s);
    LevelZeroPlan(files, floor, plan, k, s);
  }

  /** Version::Get answers with what the search finds, whatever the order of the levels; so where
      they are in order it agrees with a flat search of every entry of every file. Or it reports
      corruption when some entry does not parse. */
  method Get(v: Levels, ghost floor: nat, user: UserKey, snapshot: nat) returns (r: Answer)
    requires VersionOk(v)
    ensures (r == Corrupt && !AllParse(VersionEntries(v)))
         || (r == NotFound && !HasCandidate(VersionEntries(v), user, snapshot))
         || exists e :: SearchFinds(v, user, snapshot, e) && r == Meaning(e)
    ensures Layered(v, floor) && KeyUnique(VersionEntries(v)) && floor <= snapshot ==>
         r == Visible(VersionEntries(v), user, snapshot) || (r == Corrupt && !AllParse(VersionEntries(v)))
  {
    var ikey := SeekKey(user, snapshot);
    var level := 0;
    while level < NUM_LEVELS
      invariant 0 <= level <= NUM_LEVELS
      invariant !InLevels(v, level, user, snapshot)
    {
      var files := [];
      LevelFacts(v, level);
      if level == 0 {
        files := SortNewestFirst(FilesContaining(v[0], user));
        forall f ensures f in files <==> f in v[0] && Contains(f, user) {
          SortKeepsMembers(FilesContaining(v[0], user), f);
        }
        AllPlanned(v[0], files, user, snapshot);
      } else {
        var index := FindFile(v[level], ikey);
        if index < |v[level]| && user >= v[level][index].smallest.user {
          files := [v[level][index]];
        }
        SortedLevelPlan(v[level], index, user, snapshot, files);
      }
      var saved := SearchFiles(v[level], files, user, snapshot);
      if saved.Some? {
        if saved.value == Corrupt && !AllParse(LevelEntries(v[level])) {
          var e :| e in LevelEntries(v[level]) && !Parses(e.key);
          assert e in VersionEntries(v);
        } else {
          ghost var i, e :| FoundAt(files, user, snapshot, i, e) && saved.value == Meaning(e);
          if level == 0 {
            FoundInPlan(v[0], files, user, snapshot, i, e);
          }
          assert LevelFinds(v[level], level, user, snapshot, e);
          assert SearchFinds(v, user, snapshot, e);
          if Layered(v, floor) && KeyUnique(VersionEntries(v)) && floor <= snapshot {
            SearchIsRead(v, floor, user, snapshot, e);
          }
        }
        return saved.value;
      }
      level := level + 1;
    }
    assert !HasCandidate(VersionEntries(v), user, snapshot);
    return NotFound;
  }

  lemma AllPlanned(files: seq<FileMeta>, plan: seq<FileMeta>, k: UserKey, s: nat)
    requires FilesOk(files) && forall f :: f in files && Contains(f, k) ==> f in plan
    ensures NoneBefore(plan, |plan|, k, s) ==> !HasCandidate(LevelEntries(files), k, s)
  {
    forall x | x in LevelEntries(files) && Candidate(x, k, s) ensures !NoneBefore(plan, |plan|, k, s) {
      var j := CandidateFile(files, x, k);
      var n :| 0 <= n < |plan| && plan[n] == files[j];
      assert HasCandidate(Ent(plan[n]), k, s);
    }
  }

  /** `e` is the newest candidate of the first table of the plan that has one. */
  ghost predicate FoundAt(plan: seq<FileMeta>, k: UserKey, s: nat, i: nat, e: Entry) {
    i < |plan| && IsNewest(Ent(plan[i]), k, s, e) && NoneBefore(plan, i, k, s)
  }

  /** The inner loop of Version::Get over the tables picked at one level. */
  method SearchFiles(files: seq<FileMeta>, plan: seq<FileMeta>, user: UserKey, snapshot: nat)
    returns (r: Option<Answer>)
    requires FilesOk(files) && forall i :: 0 <= i < |plan| ==> plan[i] in files
    ensures r.None? ==> NoneBefore(plan, |plan|, user, snapshot)
    ensures r.Some? ==>
      (r.value == Corrupt && !AllParse(LevelEntries(files)))
      || exists i, e :: FoundAt(plan, user, snapshot, i, e) && r.value == Meaning(e)
  {
    var i := 0;
    while i < |plan|
      invariant 0 <= i <= |plan|
      invariant NoneBefore(plan, i, user, snapshot)
    {
      var f := plan[i];
      ghost var m: nat :| m < |files| && files[m] == f;
      SaveAnswers(f, user, snapshot);
      var e := TableSeek(f.entries, SeekKey(user, snapshot));
      var saved := Save(e, user);
      if saved.Some? {
        assert e.value in LevelEntries(files);
        if saved.value != Corrupt {
          assert FoundAt(plan, user, snapshot, i, e.value);
        }
        return saved;
      }
      i := i + 1;
    }
    return None;
  }
}
