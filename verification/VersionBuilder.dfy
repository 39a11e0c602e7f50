/** Applying version edits: one builder for many edits, as recovery does, or one version
    per edit, as a running database does. */
module VersionBuilders {
  import opened Options
  import opened Coding
  import opened VersionEdits
  import Comparators

  type File = FileMeta<Bytes>

  /** The comparator of internal keys: a strict total order. */
  ghost predicate IsOrder(before: (Bytes, Bytes) -> bool) {
    && (forall a :: !before(a, a))
    && (forall a, b :: before(a, b) || a == b || before(b, a))
    && (forall a, b, c :: before(a, b) && before(b, c) ==> before(a, c))
  }

  type Order = b: (Bytes, Bytes) -> bool | IsOrder(b) ghost witness DefaultOrder()

  ghost function DefaultOrder(): (Bytes, Bytes) -> bool
    ensures IsOrder(DefaultOrder())
  {
    DefaultIsOrder();
    (a, b) => Comparators.Before(a, b)
  }

  lemma DefaultIsOrder()
    ensures IsOrder((a, b) => Comparators.Before(a, b))
  {
    forall a ensures !Comparators.Before(a, a) {
      Comparators.Irreflexive(a);
    }
    forall a, b ensures Comparators.Before(a, b) || a == b || Comparators.Before(b, a) {
      Comparators.Trichotomy(a, b);
    }
    forall a, b, c | Comparators.Before(a, b) && Comparators.Before(b, c) ensures Comparators.Before(a, c) {
      Comparators.Transitive(a, b, c);
    }
  }

  /** BySmallestKey: ties are broken by file number. */
  predicate FileBefore(o: Order, f: File, g: File) {
    o(f.smallest, g.smallest) || (f.smallest == g.smallest && f.number < g.number)
  }

  lemma FileBeforeTransitive(o: Order, f: File, g: File, h: File)
    requires FileBefore(o, f, g) && FileBefore(o, g, h)
    ensures FileBefore(o, f, h)
  {
  }

  // ----- sorted lists of files

  ghost predicate Sorted(o: Order, fs: seq<File>) {
    |fs| < 2 || (FileBefore(o, fs[0], fs[1]) && Sorted(o, fs[1..]))
  }

  lemma {:induction false} FirstIsLeast(o: Order, fs: seq<File>, f: File)
    requires Sorted(o, fs) && fs != [] && f in fs
    ensures f == fs[0] || FileBefore(o, fs[0], f)
  {
    if f != fs[0] {
      assert f in fs[1..];
      FirstIsLeast(o, fs[1..], f);
      if f != fs[1] {
        FileBeforeTransitive(o, fs[0], fs[1], f);
      }
    }
  }

  lemma NoFileBeforeItself(o: Order, f: File)
    ensures !FileBefore(o, f, f)
  {
  }

  lemma HasElement(b: seq<File>)
    ensures b == [] || exists f :: f in b
  {
    if b != [] {
      assert b[0] in b;
    }
  }

  /** A sorted list is determined by its elements. */
  lemma {:induction false} SortedIsUnique(o: Order, a: seq<File>, b: seq<File>)
    requires Sorted(o, a) && Sorted(o, b) && forall f :: f in a <==> f in b
    ensures a == b
    decreases |a|
  {
    HasElement(b);
    if a != [] {
      assert a[0] in a && a[0] in b;
      assert b[0] in b && b[0] in a;
      FirstIsLeast(o, a, b[0]);
      FirstIsLeast(o, b, a[0]);
      if a[0] != b[0] {
        FileBeforeTransitive(o, a[0], b[0], a[0]);
        NoFileBeforeItself(o, a[0]);
      }
      forall f ensures f in a[1..] <==> f in b[1..] {
        RestOfSorted(o, a, f);
        RestOfSorted(o, b, f);
      }
      SortedIsUnique(o, a[1..], b[1..]);
    }
  }

  lemma {:induction false} RestOfSorted(o: Order, a: seq<File>, f: File)
    requires Sorted(o, a) && a != []
    ensures f in a[1..] <==> f in a && f != a[0]
  {
    if f in a[1..] {
      FirstIsLeast(o, a[1..], f);
      NoFileBeforeItself(o, a[0]);
      if f == a[0] && f != a[1] {
        FileBeforeTransitive(o, a[0], a[1], a[0]);
      }
    }
  }

  // ----- one level of a builder

  datatype LevelState = LevelState(deleted: set<nat>, added: seq<File>)

  /** What one edit does to one level. */
  datatype LevelEdit = LevelEdit(deleted: set<nat>, added: seq<File>)

  function Numbers(fs: seq<File>): set<nat> {
    set f | f in fs :: f.number
  }

  /** Insertion into a std::set: nothing happens when an equal element is there. */
  function InsertFile(o: Order, fs: seq<File>, f: File): seq<File> {
    if fs == [] then [f]
    else if FileBefore(o, f, fs[0]) then [f] + fs
    else if FileBefore(o, fs[0], f) then [fs[0]] + InsertFile(o, fs[1..], f)
    else fs
  }

  function InsertAll(o: Order, fs: seq<File>, more: seq<File>): seq<File>
    decreases |more|
  {
    if more == [] then fs else InsertAll(o, InsertFile(o, fs, more[0]), more[1..])
  }

  /** Deletions first, then additions, each of which undoes a deletion. */
  function ApplyLevel(o: Order, st: LevelState, e: LevelEdit): LevelState {
    LevelState(st.deleted + e.deleted - Numbers(e.added), InsertAll(o, st.added, e.added))
  }

  /** The merge of SaveTo: base files up to each added file, then the added file. */
  function Merge(o: Order, base: seq<File>, added: seq<File>): seq<File> {
    if added == [] then base
    else if base != [] && !FileBefore(o, added[0], base[0]) then [base[0]] + Merge(o, base[1..], added)
    else [added[0]] + Merge(o, base, added[1..])
  }

  function Keep(fs: seq<File>, deleted: set<nat>): seq<File> {
    if fs == [] then [] else (if fs[0].number in deleted then [] else [fs[0]]) + Keep(fs[1..], deleted)
  }

  function Saved(o: Order, base: seq<File>, st: LevelState): seq<File> {
    Keep(Merge(o, base, st.added), st.deleted)
  }

  const FRESH: LevelState := LevelState({}, [])

  /** `f` comes before everything in the list. */
  ghost predicate Heads(o: Order, f: File, fs: seq<File>) {
    fs == [] || FileBefore(o, f, fs[0])
  }

  lemma {:induction false} SortedCons(o: Order, f: File, fs: seq<File>)
    requires Sorted(o, fs) && Heads(o, f, fs)
    ensures Sorted(o, [f] + fs)
  {
    assert ([f] + fs)[1..] == fs;
  }

  lemma {:induction false} InsertSorted(o: Order, fs: seq<File>, f: File)
    requires Sorted(o, fs)
    ensures Sorted(o, InsertFile(o, fs, f))
    ensures InsertFile(o, fs, f) != []
    ensures InsertFile(o, fs, f)[0] == f || (fs != [] && InsertFile(o, fs, f)[0] == fs[0])
  {
    if fs == [] {
    } else if FileBefore(o, f, fs[0]) {
      SortedCons(o, f, fs);
    } else if FileBefore(o, fs[0], f) {
      InsertSorted(o, fs[1..], f);
      SortedCons(o, fs[0], InsertFile(o, fs[1..], f));
    }
  }

  lemma {:induction false} KeepSorted(o: Order, fs: seq<File>, deleted: set<nat>)
    requires Sorted(o, fs)
    ensures Sorted(o, Keep(fs, deleted))
    ensures Keep(fs, deleted) != [] ==>
      fs != [] && (Keep(fs, deleted)[0] == fs[0] || FileBefore(o, fs[0], Keep(fs, deleted)[0]))
  {
    if fs != [] {
      var rest := Keep(fs[1..], deleted);
      KeepSorted(o, fs[1..], deleted);
      if rest != [] && rest[0] != fs[1] {
        FileBeforeTransitive(o, fs[0], fs[1], rest[0]);
      }
      if fs[0].number !in deleted {
        SortedCons(o, fs[0], rest);
      } else {
        assert [] + rest == rest;
      }
    }
  }

  // ----- one builder or one version per edit

  /** The edits in one builder. */
  function ApplyAll(o: Order, st: LevelState, es: seq<LevelEdit>): LevelState
    decreases |es|
  {
    if es == [] then st else ApplyAll(o, ApplyLevel(o, st, es[0]), es[1..])
  }

  /** A version for every edit. */
  function StepAll(o: Order, version: seq<File>, es: seq<LevelEdit>): seq<File>
    decreases |es|
  {
    if es == [] then version else StepAll(o, Saved(o, version, ApplyLevel(o, FRESH, es[0])), es[1..])
  }

  // ----- what is in the lists

  /** Two files that a std::set ordered by BySmallestKey takes for the same. */
  predicate SameSlot(f: File, g: File) {
    f.number == g.number && f.smallest == g.smallest
  }

  /** The first file of `fs` in the slot of `f`. */
  function FirstLike(fs: seq<File>, f: File): (r: Option<File>)
    ensures r.Some? ==> r.value in fs && SameSlot(r.value, f)
    ensures r.None? ==> forall g :: g in fs ==> !SameSlot(g, f)
  {
    if fs == [] then None else if SameSlot(fs[0], f) then Some(fs[0]) else FirstLike(fs[1..], f)
  }

  lemma SlotOrder(o: Order, f: File, g: File)
    ensures FileBefore(o, f, g) ==> !SameSlot(f, g) && !FileBefore(o, g, f)
    ensures FileBefore(o, f, g) || SameSlot(f, g) || FileBefore(o, g, f)
  {
  }

  lemma {:induction false} FirstLikeSum(a: seq<File>, b: seq<File>, f: File)
    ensures FirstLike(a + b, f) == if FirstLike(a, f).Some? then FirstLike(a, f) else FirstLike(b, f)
  {
    if a == [] {
      assert a + b == b;
    } else {
      assert (a + b)[1..] == a[1..] + b;
      FirstLikeSum(a[1..], b, f);
    }
  }

  /** In a set every slot is filled once. */
  lemma {:induction false} SortedSlots(o: Order, fs: seq<File>, f: File)
    requires Sorted(o, fs)
    ensures f in fs <==> FirstLike(fs, f) == Some(f)
    ensures multiset(fs)[f] == if f in fs then 1 else 0
  {
    if fs != [] {
      assert fs == [fs[0]] + fs[1..];
      SortedSlots(o, fs[1..], f);
      if f in fs {
        FirstIsLeast(o, fs, f);
        SlotOrder(o, fs[0], f);
        RestOfSorted(o, fs, f);
      }
    }
  }

  lemma {:induction false} InsertFirst(o: Order, fs: seq<File>, f: File, g: File)
    requires Sorted(o, fs)
    ensures FirstLike(InsertFile(o, fs, f), g) == FirstLike(fs + [f], g)
  {
    FirstLikeSum(fs, [f], g);
    assert [f][1..] == [];
    if fs != [] {
      SlotOrder(o, f, fs[0]);
      if FileBefore(o, f, fs[0]) {
        assert ([f] + fs)[1..] == fs;
        if SameSlot(f, g) {
          BeforeAll(o, fs, f, g);
        }
      } else if FileBefore(o, fs[0], f) {
        InsertFirst(o, fs[1..], f, g);
        FirstLikeSum(fs[1..], [f], g);
        assert ([fs[0]] + InsertFile(o, fs[1..], f))[1..] == InsertFile(o, fs[1..], f);
      }
    }
  }

  lemma {:induction false} BeforeAll(o: Order, fs: seq<File>, f: File, g: File)
    requires Sorted(o, fs) && fs != [] && FileBefore(o, f, fs[0]) && SameSlot(f, g)
    ensures FirstLike(fs, g).None?
  {
    SlotOrder(o, f, fs[0]);
    if |fs| > 1 {
      FileBeforeTransitive(o, f, fs[0], fs[1]);
      BeforeAll(o, fs[1..], f, g);
    }
  }

  /** Of the files inserted for a slot the first one stays. */
  lemma {:induction false} InsertAllFirst(o: Order, fs: seq<File>, more: seq<File>, f: File)
    requires Sorted(o, fs)
    ensures Sorted(o, InsertAll(o, fs, more))
    ensures FirstLike(InsertAll(o, fs, more), f) == FirstLike(fs + more, f)
    decreases |more|
  {
    if more == [] {
      assert fs + more == fs;
    } else {
      InsertSorted(o, fs, more[0]);
      InsertFirst(o, fs, more[0], f);
      InsertAllFirst(o, InsertFile(o, fs, more[0]), more[1..], f);
      FirstLikeSum(InsertFile(o, fs, more[0]), more[1..], f);
      FirstLikeSum(fs + [more[0]], more[1..], f);
      assert fs + [more[0]] + more[1..] == fs + more;
    }
  }

  lemma FirstCounted(fs: seq<File>, f: File)
    requires fs != []
    ensures multiset(fs)[f] == (if fs[0] == f then 1 else 0) + multiset(fs[1..])[f]
  {
    assert fs == [fs[0]] + fs[1..];
  }

  lemma ConsCounted(g: File, fs: seq<File>, f: File)
    ensures multiset([g] + fs)[f] == (if g == f then 1 else 0) + multiset(fs)[f]
  {
  }

  lemma {:induction false} MergeCounts(o: Order, base: seq<File>, added: seq<File>, f: File)
    ensures multiset(Merge(o, base, added))[f] == multiset(base)[f] + multiset(added)[f]
  {
    if added == [] {
    } else if base != [] && !FileBefore(o, added[0], base[0]) {
      MergeCounts(o, base[1..], added, f);
      FirstCounted(base, f);
      ConsCounted(base[0], Merge(o, base[1..], added), f);
    } else {
      MergeCounts(o, base, added[1..], f);
      FirstCounted(added, f);
      ConsCounted(added[0], Merge(o, base, added[1..]), f);
    }
  }

  lemma {:induction false} KeepCounts(fs: seq<File>, deleted: set<nat>, f: File)
    ensures multiset(Keep(fs, deleted))[f] == if f.number in deleted then 0 else multiset(fs)[f]
  {
    if fs != [] {
      KeepCounts(fs[1..], deleted, f);
      assert fs == [fs[0]] + fs[1..];
    }
  }

  // ----- lists in order that may hold equals

  ghost predicate NonDecreasing(o: Order, fs: seq<File>) {
    |fs| < 2 || (!FileBefore(o, fs[1], fs[0]) && NonDecreasing(o, fs[1..]))
  }

  lemma NotBeforeTransitive(o: Order, f: File, g: File, h: File)
    requires !FileBefore(o, g, f) && !FileBefore(o, h, g)
    ensures !FileBefore(o, h, f)
  {
  }

  lemma {:induction false} OrderCons(o: Order, f: File, fs: seq<File>)
    requires NonDecreasing(o, fs) && (fs == [] || !FileBefore(o, fs[0], f))
    ensures NonDecreasing(o, [f] + fs)
  {
    assert ([f] + fs)[1..] == fs;
  }

  lemma {:induction false} MergeOrdered(o: Order, base: seq<File>, added: seq<File>)
    requires NonDecreasing(o, base) && Sorted(o, added)
    ensures NonDecreasing(o, Merge(o, base, added))
    ensures var m := Merge(o, base, added);
            m != [] ==> (base != [] && m[0] == base[0]) || (added != [] && m[0] == added[0])
  {
    if added == [] {
    } else if base != [] && !FileBefore(o, added[0], base[0]) {
      MergeOrdered(o, base[1..], added);
      OrderCons(o, base[0], Merge(o, base[1..], added));
    } else {
      MergeOrdered(o, base, added[1..]);
      if base != [] {
        SlotOrder(o, added[0], base[0]);
      }
      if |added| > 1 {
        SlotOrder(o, added[0], added[1]);
      }
      OrderCons(o, added[0], Merge(o, base, added[1..]));
    }
  }

  lemma {:induction false} KeepOrdered(o: Order, fs: seq<File>, deleted: set<nat>)
    requires NonDecreasing(o, fs)
    ensures NonDecreasing(o, Keep(fs, deleted))
    ensures Keep(fs, deleted) != [] ==> fs != [] && !FileBefore(o, Keep(fs, deleted)[0], fs[0])
  {
    if fs != [] {
      var rest := Keep(fs[1..], deleted);
      KeepOrdered(o, fs[1..], deleted);
      NoFileBeforeItself(o, fs[0]);
      if rest != [] {
        NotBeforeTransitive(o, fs[0], fs[1], rest[0]);
      }
      if fs[0].number !in deleted {
        OrderCons(o, fs[0], rest);
      } else {
        assert [] + rest == rest;
      }
    }
  }

  lemma {:induction false} NoneBeforeFirst(o: Order, fs: seq<File>, f: File)
    requires NonDecreasing(o, fs) && f in fs
    ensures !FileBefore(o, f, fs[0])
  {
    NoFileBeforeItself(o, fs[0]);
    if f != fs[0] {
      assert f in fs[1..];
      NoneBeforeFirst(o, fs[1..], f);
      NotBeforeTransitive(o, fs[0], fs[1], f);
    }
  }

  /** A set and a list in order with the same elements are the same list. */
  lemma {:induction false} SameCountsSameList(o: Order, a: seq<File>, b: seq<File>)
    requires Sorted(o, a) && NonDecreasing(o, b) && multiset(a) == multiset(b)
    ensures a == b
    decreases |a|
  {
    assert |a| == |multiset(a)| == |b|;
    if a != [] {
      assert a[0] in multiset(b) && b[0] in multiset(a);
      FirstIsLeast(o, a, b[0]);
      NoneBeforeFirst(o, b, a[0]);
      assert a == [a[0]] + a[1..] && b == [b[0]] + b[1..];
      assert multiset(a[1..]) == multiset(a) - multiset{a[0]} == multiset(b[1..]);
      SameCountsSameList(o, a[1..], b[1..]);
    }
  }

  // ----- when one builder is enough

  /** The edit deletes the number and does not add it. */
  predicate Kills(e: LevelEdit, n: nat) {
    n in e.deleted && n !in Numbers(e.added)
  }

  predicate KilledIn(es: seq<LevelEdit>, n: nat) {
    es != [] && (Kills(es[0], n) || KilledIn(es[1..], n))
  }

  /** Whether a builder that has the number deleted or not ends with it deleted. */
  predicate EndsDeleted(es: seq<LevelEdit>, deleted: bool, n: nat)
    decreases |es|
  {
    if es == [] then deleted
    else EndsDeleted(es[1..], n !in Numbers(es[0].added) && (deleted || n in es[0].deleted), n)
  }

  function AllAdded(es: seq<LevelEdit>): seq<File> {
    if es == [] then [] else es[0].added + AllAdded(es[1..])
  }

  /** What the edits since the number was last deleted put into the slot of `f`, one file
      an edit. */
  function Lasting(es: seq<LevelEdit>, f: File): seq<File> {
    if es == [] then []
    else
      (if KilledIn(es[1..], f.number) || FirstLike(es[0].added, f).None? then [] else [FirstLike(es[0].added, f).value])
      + Lasting(es[1..], f)
  }

  /** For every number that is not deleted in the end: since it was last deleted, exactly
      one edit fills each of its slots, with the very file that filled it first of all. */
  predicate Reproducible(es: seq<LevelEdit>) {
    forall f :: f in AllAdded(es) && !EndsDeleted(es, false, f.number)
      ==> Lasting(es, f) == [FirstLike(AllAdded(es), f).value]
  }

  lemma {:induction false} EndsKilled(es: seq<LevelEdit>, n: nat)
    ensures EndsDeleted(es, false, n) ==> KilledIn(es, n)
    decreases |es|
  {
    if es != [] && !Kills(es[0], n) {
      EndsKilled(es[1..], n);
    }
  }

  lemma {:induction false} DeletedLeavesNothing(es: seq<LevelEdit>, deleted: bool, f: File)
    requires EndsDeleted(es, deleted, f.number)
    ensures Lasting(es, f) == []
    decreases |es|
  {
    if es != [] {
      var now := f.number !in Numbers(es[0].added) && (deleted || f.number in es[0].deleted);
      DeletedLeavesNothing(es[1..], now, f);
      if FirstLike(es[0].added, f).Some? {
        assert f.number in Numbers(es[0].added);
        EndsKilled(es[1..], f.number);
      }
    }
  }

  lemma {:induction false} LastingSlots(es: seq<LevelEdit>, f: File, g: File)
    requires g in Lasting(es, f)
    ensures SameSlot(g, f) && Lasting(es, g) == Lasting(es, f) && g in AllAdded(es)
  {
    SameSlotSame(es, f, g);
    if g !in Lasting(es[1..], f) {
      assert g in es[0].added;
    } else {
      LastingSlots(es[1..], f, g);
    }
  }

  lemma {:induction false} SameSlotSame(es: seq<LevelEdit>, f: File, g: File)
    ensures SameSlot(f, g) ==> Lasting(es, f) == Lasting(es, g)
    ensures g in Lasting(es, f) ==> SameSlot(g, f)
  {
    if es != [] {
      SameSlotSame(es[1..], f, g);
      SlotFirst(es[0].added, f, g);
    }
  }

  lemma {:induction false} SlotFirst(fs: seq<File>, f: File, g: File)
    ensures SameSlot(f, g) ==> FirstLike(fs, f) == FirstLike(fs, g)
  {
    if fs != [] {
      SlotFirst(fs[1..], f, g);
    }
  }

  // ----- both sides counted

  /** How often one builder saves a file. */
  function SavedTimes(es: seq<LevelEdit>, f: File): nat {
    if !EndsDeleted(es, false, f.number) && FirstLike(AllAdded(es), f) == Some(f) then 1 else 0
  }

  lemma {:induction false} BuilderDeleted(o: Order, st: LevelState, es: seq<LevelEdit>, n: nat)
    ensures n in ApplyAll(o, st, es).deleted <==> EndsDeleted(es, n in st.deleted, n)
    decreases |es|
  {
    if es != [] {
      BuilderDeleted(o, ApplyLevel(o, st, es[0]), es[1..], n);
    }
  }

  lemma {:induction false} BuilderAdded(o: Order, st: LevelState, es: seq<LevelEdit>, f: File)
    requires Sorted(o, st.added)
    ensures var end := ApplyAll(o, st, es);
            Sorted(o, end.added) && FirstLike(end.added, f) == FirstLike(st.added + AllAdded(es), f)
    decreases |es|
  {
    if es == [] {
      assert st.added + [] == st.added;
    } else {
      var next := ApplyLevel(o, st, es[0]);
      InsertAllFirst(o, st.added, es[0].added, f);
      BuilderAdded(o, next, es[1..], f);
      FirstOfThree(next.added, st.added, es[0].added, AllAdded(es[1..]), f);
    }
  }

  lemma {:induction false} FirstOfThree(ab: seq<File>, a: seq<File>, b: seq<File>, c: seq<File>, f: File)
    requires FirstLike(ab, f) == FirstLike(a + b, f)
    ensures FirstLike(ab + c, f) == FirstLike(a + (b + c), f)
  {
    FirstLikeSum(ab, c, f);
    FirstLikeSum(a + b, c, f);
    assert a + b + c == a + (b + c);
  }

  /** A file occurs in what one builder saves at most once. */
  lemma {:induction false} SavedCounts(o: Order, es: seq<LevelEdit>, f: File)
    ensures Sorted(o, Saved(o, [], ApplyAll(o, FRESH, es)))
    ensures multiset(Saved(o, [], ApplyAll(o, FRESH, es)))[f] == SavedTimes(es, f)
  {
    var st := ApplyAll(o, FRESH, es);
    BuilderAdded(o, FRESH, es, f);
    BuilderDeleted(o, FRESH, es, f.number);
    assert [] + AllAdded(es) == AllAdded(es);
    MergeNone(o, st.added);
    KeepSorted(o, st.added, st.deleted);
    KeepCounts(st.added, st.deleted, f);
    SortedSlots(o, st.added, f);
  }

  lemma {:induction false} MergeNone(o: Order, added: seq<File>)
    ensures Merge(o, [], added) == added
  {
    if added != [] {
      MergeNone(o, added[1..]);
    }
  }

  /** One version: what the edit adds comes to what was there, without what it deletes. */
  lemma {:induction false} VersionCounts(o: Order, v: seq<File>, e: LevelEdit, f: File)
    requires NonDecreasing(o, v)
    ensures var v' := Saved(o, v, ApplyLevel(o, FRESH, e));
            && NonDecreasing(o, v')
            && multiset(v')[f] == (if Kills(e, f.number) then 0
                                   else multiset(v)[f] + if FirstLike(e.added, f) == Some(f) then 1 else 0)
  {
    var one := ApplyLevel(o, FRESH, e);
    InsertAllFirst(o, [], e.added, f);
    assert [] + e.added == e.added;
    SortedSlots(o, one.added, f);
    MergeCounts(o, v, one.added, f);
    MergeOrdered(o, v, one.added);
    KeepCounts(Merge(o, v, one.added), one.deleted, f);
    KeepOrdered(o, Merge(o, v, one.added), one.deleted);
    if FirstLike(e.added, f) == Some(f) {
      assert f.number in Numbers(e.added);
    }
  }

  lemma {:induction false} KillsNone(e: LevelEdit, f: File)
    ensures Kills(e, f.number) ==> FirstLike(e.added, f).None?
  {
    assert FirstLike(e.added, f).Some? ==> f.number in Numbers(e.added);
  }

  lemma {:induction false} StepCounts(o: Order, v: seq<File>, es: seq<LevelEdit>, f: File)
    requires NonDecreasing(o, v)
    ensures NonDecreasing(o, StepAll(o, v, es))
    ensures multiset(StepAll(o, v, es))[f]
         == (if KilledIn(es, f.number) then 0 else multiset(v)[f]) + multiset(Lasting(es, f))[f]
    decreases |es|
  {
    if es != [] {
      VersionCounts(o, v, es[0], f);
      StepCounts(o, Saved(o, v, ApplyLevel(o, FRESH, es[0])), es[1..], f);
      KillsNone(es[0], f);
    }
  }

  /** One builder for all edits saves what building a version for every edit leads to if
      and only if the edits are reproducible. */
  lemma {:induction false} OneBuilderIff(o: Order, es: seq<LevelEdit>)
    ensures Saved(o, [], ApplyAll(o, FRESH, es)) == StepAll(o, [], es) <==> Reproducible(es)
  {
    var saved, stepped := Saved(o, [], ApplyAll(o, FRESH, es)), StepAll(o, [], es);
    if Reproducible(es) {
      forall f ensures multiset(saved)[f] == multiset(stepped)[f] {
        SavedCounts(o, es, f);
        StepCounts(o, [], es, f);
        ReproducedCount(es, f);
      }
      BothOrdered(o, es);
      assert multiset(saved) == multiset(stepped);
      SameCountsSameList(o, saved, stepped);
    }
    if saved == stepped {
      forall f | f in AllAdded(es) && !EndsDeleted(es, false, f.number)
        ensures Lasting(es, f) == [FirstLike(AllAdded(es), f).value]
      {
        var r := FirstLike(AllAdded(es), f).value;
        forall g ensures multiset(Lasting(es, g))[g] == SavedTimes(es, g) {
          SavedCounts(o, es, g);
          StepCounts(o, [], es, g);
        }
        OnlyTheFirst(es, f, r);
      }
    }
  }

  lemma {:induction false} BothOrdered(o: Order, es: seq<LevelEdit>)
    ensures Sorted(o, Saved(o, [], ApplyAll(o, FRESH, es))) && NonDecreasing(o, StepAll(o, [], es))
  {
    var any := FileMeta(0, 0, [], []);
    SavedCounts(o, es, any);
    StepCounts(o, [], es, any);
  }

  lemma {:induction false} ReproducedCount(es: seq<LevelEdit>, f: File)
    requires Reproducible(es)
    ensures multiset(Lasting(es, f))[f] == SavedTimes(es, f)
  {
    if EndsDeleted(es, false, f.number) {
      DeletedLeavesNothing(es, false, f);
    } else if FirstLike(AllAdded(es), f).Some? {
      var r := FirstLike(AllAdded(es), f).value;
      SlotFirst(AllAdded(es), f, r);
      SameSlotSame(es, f, r);
      assert Lasting(es, r) == [r];
    } else if f in Lasting(es, f) {
      LastingSlots(es, f, f);
    }
  }

  lemma {:induction false} OnlyTheFirst(es: seq<LevelEdit>, f: File, r: File)
    requires f in AllAdded(es) && !EndsDeleted(es, false, f.number) && FirstLike(AllAdded(es), f) == Some(r)
    requires forall g :: multiset(Lasting(es, g))[g] == SavedTimes(es, g)
    ensures Lasting(es, f) == [r]
  {
    var l := Lasting(es, f);
    SlotFirst(AllAdded(es), f, r);
    SameSlotSame(es, f, r);
    assert multiset(l)[r] == 1;
    forall g | g in l ensures g == r {
      LastingSlots(es, f, g);
      SlotFirst(AllAdded(es), f, g);
      assert multiset(l)[g] > 0;
    }
    OnlyOne(l, r);
    assert l[0] in l;
  }

  lemma OnlyOne(l: seq<File>, r: File)
    requires forall g :: g in l ==> g == r
    ensures |l| == multiset(l)[r]
  {
    if l != [] {
      assert l[0] in l;
      forall g | g in l[1..] ensures g == r {
        assert g in l;
      }
      FirstCounted(l, r);
      OnlyOne(l[1..], r);
    }
  }

  // ----- numbers that are not reused

  ghost predicate DistinctNumbers(fs: seq<File>) {
    forall i, j :: 0 <= i < j < |fs| ==> fs[i].number != fs[j].number
  }

  /** No number is added twice, in one edit or in several. */
  ghost predicate AddedOnce(seen: set<nat>, es: seq<LevelEdit>)
    decreases |es|
  {
    es == [] || (DistinctNumbers(es[0].added) && Numbers(es[0].added) !! seen
      && AddedOnce(seen + Numbers(es[0].added), es[1..]))
  }

  lemma {:induction false} DistinctFirst(fs: seq<File>, f: File)
    requires DistinctNumbers(fs) && f in fs
    ensures FirstLike(fs, f) == Some(f)
  {
    if fs[0] != f {
      var j :| 0 <= j < |fs| && fs[j] == f;
      assert f in fs[1..];
      DistinctFirst(fs[1..], f);
    }
  }

  lemma {:induction false} SeenNotAdded(seen: set<nat>, es: seq<LevelEdit>, f: File)
    requires AddedOnce(seen, es) && f.number in seen
    ensures FirstLike(AllAdded(es), f).None? && Lasting(es, f) == []
    ensures KilledIn(es, f.number) ==> EndsDeleted(es, false, f.number)
    ensures EndsDeleted(es, true, f.number)
    decreases |es|
  {
    if es != [] {
      SeenNotAdded(seen + Numbers(es[0].added), es[1..], f);
      FirstLikeSum(es[0].added, AllAdded(es[1..]), f);
      forall g | g in es[0].added ensures !SameSlot(g, f) {
        assert g.number in Numbers(es[0].added);
      }
    }
  }

  lemma {:induction false} AddedOnceLasts(seen: set<nat>, es: seq<LevelEdit>, deleted: bool, f: File)
    requires AddedOnce(seen, es) && f in AllAdded(es) && !EndsDeleted(es, deleted, f.number)
    ensures Lasting(es, f) == [f] && FirstLike(AllAdded(es), f) == Some(f)
    decreases |es|
  {
    var seen' := seen + Numbers(es[0].added);
    FirstLikeSum(es[0].added, AllAdded(es[1..]), f);
    if f in es[0].added {
      assert f.number in seen';
      SeenNotAdded(seen', es[1..], f);
      DistinctFirst(es[0].added, f);
    } else {
      NotInFirst(seen', es[1..], f);
      forall g | g in es[0].added ensures !SameSlot(g, f) {
        assert g.number in seen';
      }
      AddedOnceLasts(seen', es[1..], f.number !in Numbers(es[0].added) && (deleted || f.number in es[0].deleted), f);
    }
  }

  lemma {:induction false} NotInFirst(seen: set<nat>, es: seq<LevelEdit>, f: File)
    requires AddedOnce(seen, es) && f in AllAdded(es)
    ensures f.number !in seen
    decreases |es|
  {
    if f in es[0].added {
      assert f.number in Numbers(es[0].added);
    } else {
      NotInFirst(seen + Numbers(es[0].added), es[1..], f);
    }
  }

  /** Numbers that are never reused are the plainest reproducible edits. */
  lemma {:induction false} OneBuilderIsEnough(o: Order, es: seq<LevelEdit>)
    requires AddedOnce({}, es)
    ensures Reproducible(es) && Saved(o, [], ApplyAll(o, FRESH, es)) == StepAll(o, [], es)
  {
    forall f | f in AllAdded(es) && !EndsDeleted(es, false, f.number)
      ensures Lasting(es, f) == [FirstLike(AllAdded(es), f).value]
    {
      AddedOnceLasts({}, es, false, f);
    }
    OneBuilderIff(o, es);
  }

  /** When a number comes back with other bounds, one builder keeps both files. */
  lemma NumberReused(o: Order, f: File, g: File)
    requires f.number == g.number && o(f.smallest, g.smallest)
    ensures var es := [LevelEdit({}, [f]), LevelEdit({f.number}, []), LevelEdit({}, [g])];
            && StepAll(o, [], es) == [g]
            && Saved(o, [], ApplyAll(o, FRESH, es)) == [f, g]
  {
    var n := f.number;
    var add, del, again := LevelEdit({}, [f]), LevelEdit({n}, []), LevelEdit({}, [g]);
    var es := [add, del, again];
    assert es[1..] == [del, again] && [del, again][1..] == [again] && [again][1..] == [];
    AddFirst(o, FRESH, f);
    AddFirst(o, FRESH, g);
    AddSecond(o, LevelState({n}, [f]), f, g);
    assert Numbers([]) == {};
    assert ApplyLevel(o, FRESH, del) == LevelState({n}, []);
    assert ApplyLevel(o, LevelState({}, [f]), del) == LevelState({n}, [f]);
    KeepOne(o, f);
    KeepOne(o, g);
    KeepNone(o, f);
    KeepTwo(o, f, g);
    assert StepAll(o, [], [again]) == [g];
    assert StepAll(o, [f], [del, again]) == [g];
    assert ApplyAll(o, LevelState({n}, [f]), [again]) == LevelState({}, [f, g]);
    assert ApplyAll(o, LevelState({}, [f]), [del, again]) == LevelState({}, [f, g]);
  }

  lemma AddFirst(o: Order, st: LevelState, f: File)
    requires st == FRESH
    ensures ApplyLevel(o, st, LevelEdit({}, [f])) == LevelState({}, [f])
  {
    assert [f][1..] == [] && Numbers([f]) == {f.number};
    assert InsertAll(o, [], [f]) == InsertAll(o, [f], []);
    assert {} + {} - {f.number} == {};
  }

  lemma AddSecond(o: Order, st: LevelState, f: File, g: File)
    requires st == LevelState({g.number}, [f]) && o(f.smallest, g.smallest)
    ensures ApplyLevel(o, st, LevelEdit({}, [g])) == LevelState({}, [f, g])
  {
    assert [g][1..] == [] && [f][1..] == [] && Numbers([g]) == {g.number};
    if FileBefore(o, g, f) {
      FileBeforeTransitive(o, g, f, g);
      NoFileBeforeItself(o, g);
    }
    assert InsertFile(o, [f], g) == [f] + InsertFile(o, [], g) == [f, g];
    assert InsertAll(o, [f], [g]) == InsertAll(o, [f, g], []);
    assert {g.number} + {} - {g.number} == {};
  }

  lemma KeepOne(o: Order, f: File)
    ensures Saved(o, [], LevelState({}, [f])) == [f]
  {
    assert [f][1..] == [];
    assert Merge(o, [], [f]) == [f] + Merge(o, [], []) == [f];
    assert Keep([f], {}) == [f] + Keep([], {}) == [f];
  }

  lemma KeepNone(o: Order, f: File)
    ensures Saved(o, [f], LevelState({f.number}, [])) == []
  {
    assert [f][1..] == [];
    assert Keep([f], {f.number}) == [] + Keep([], {f.number}) == [];
  }

  lemma KeepTwo(o: Order, f: File, g: File)
    ensures Saved(o, [], LevelState({}, [f, g])) == [f, g]
  {
    assert [f, g][1..] == [g] && [g][1..] == [];
    assert Merge(o, [], [g]) == [g] + Merge(o, [], []) == [g];
    assert Merge(o, [], [f, g]) == [f] + Merge(o, [], [g]) == [f, g];
    assert Keep([g], {}) == [g] + Keep([], {}) == [g];
    assert Keep([f, g], {}) == [f] + Keep([g], {}) == [f, g];
  }
}
