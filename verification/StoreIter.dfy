/** The iterator of the whole store: DBIter over MergingIterator over the iterators of the
    memtables, of the level-0 tables, and of the sorted levels, which are two-level ones. */
module StoreIterators {
  import opened Options
  import opened Keys
  import opened Version
  import opened Cursor
  import opened Merger
  import opened IteratorWrappers
  import opened TwoLevel
  import opened DbIter
  import Disks
  import opened Flush
  import opened Install
  import L = Lsm

  // ----- the parts of the store

  /** The tables of a sorted level one after another, as the two-level iterator reads them. */
  function Chain(files: seq<FileMeta>): seq<Entry> {
    if files == [] then [] else Chain(files[..|files| - 1]) + files[|files| - 1].entries
  }

  /** The blocks of a sorted level's iterator are its tables. */
  function Blocks(files: seq<FileMeta>): (bs: seq<seq<Entry>>) {
    seq(|files|, i requires 0 <= i < |files| => files[i].entries)
  }

  /** LevelFileNumIterator stands at the largest keys of the tables. */
  function LargestKeys(files: seq<FileMeta>): (ks: seq<Entry>) {
    seq(|files|, i requires 0 <= i < |files| => Entry(files[i].largest, ""))
  }

  lemma {:induction false} ChainIsFlat(files: seq<FileMeta>)
    ensures Flat(Blocks(files)) == Chain(files)
  {
    if files != [] {
      var n := |files| - 1;
      ChainIsFlat(files[..n]);
      assert Blocks(files)[..n] == Blocks(files[..n]);
    }
  }

  lemma LargestBetween(files: seq<FileMeta>, i: nat, e: Entry)
    requires FilesOk(files) && Disjoint(files) && i < |files| && e in LevelEntries(files)
    ensures e in files[i].entries ==> AtMost(e.key, files[i].largest)
    ensures (exists j :: i < j < |files| && e in files[j].entries) ==> Less(files[i].largest, e.key)
  {
    var f := files[i];
    assert FileOk(f);
    if e in f.entries {
      var k :| 0 <= k < |f.entries| && f.entries[k] == e;
      assert k < |f.entries| - 1 ==> Less(e.key, f.entries[|f.entries| - 1].key);
    }
    if exists j :: i < j < |files| && e in files[j].entries {
      var j :| i < j < |files| && e in files[j].entries;
      AcrossFiles(files, i, j, f.entries[|f.entries| - 1], e);
    }
  }

  /** The tables of a sorted level lie under their largest keys as two-level iteration needs. */
  lemma LevelIndexed(files: seq<FileMeta>)
    requires FilesOk(files) && Disjoint(files)
    ensures IndexOk(LargestKeys(files), Blocks(files))
  {
    var ks: seq<Entry>, bs: seq<seq<Entry>> := LargestKeys(files), Blocks(files);
    forall i, j, q | 0 <= i <= j < |bs| && 0 <= q < |bs[j]|
      ensures if i == j then AtMost(bs[j][q].key, ks[i].key) else Less(ks[i].key, bs[j][q].key)
    {
      assert bs[j][q] in files[j].entries;
      LargestBetween(files, i, bs[j][q]);
    }
    forall i | 0 <= i < |bs| ensures SortedKeys(bs[i]) {
      assert FileOk(files[i]);
    }
    forall i, j | 0 <= i < j < |ks| ensures Less(ks[i].key, ks[j].key) {
      assert FileOk(files[j]);
      assert bs[j][|bs[j]| - 1].key == ks[j].key;
    }
  }

  function TableParts(files: seq<FileMeta>): seq<seq<Entry>> {
    if files == [] then [] else TableParts(files[..|files| - 1]) + [files[|files| - 1].entries]
  }

  /** One part for each level from 1 up to `l` that has files. */
  function LevelParts(v: Levels, l: nat): seq<seq<Entry>>
    requires l <= |v|
  {
    if l <= 1 then [] else LevelParts(v, l - 1) + if v[l - 1] == [] then [] else [Chain(v[l - 1])]
  }

  function MemParts(mem: seq<Entry>, imm: Option<seq<Entry>>): seq<seq<Entry>> {
    [mem] + if imm.Some? then [imm.value] else []
  }

  /** NewInternalIterator: the memtables, then Version::AddIterators. */
  function StoreParts(mem: seq<Entry>, imm: Option<seq<Entry>>, v: Levels): seq<seq<Entry>>
    requires |v| > 0
  {
    MemParts(mem, imm) + TableParts(v[0]) + LevelParts(v, |v|)
  }

  /** The parts are sorted, share no entry, and hold `s` together. */
  ghost predicate Divides(parts: seq<seq<Entry>>, s: set<Entry>) {
    && (forall i :: 0 <= i < |parts| ==> SortedKeys(parts[i]) && SetOf(parts[i]) <= s)
    && (forall e :: e in s ==> exists i :: 0 <= i < |parts| && e in parts[i])
    && forall i, j, e :: 0 <= i < j < |parts| && e in parts[i] ==> e !in parts[j]
  }

  lemma OneMore(parts: seq<seq<Entry>>, s: set<Entry>, es: seq<Entry>)
    requires Divides(parts, s) && SortedKeys(es) && SetOf(es) !! s
    ensures Divides(parts + [es], s + SetOf(es))
  {
    var more := parts + [es];
    forall e | e in s + SetOf(es) ensures exists i :: 0 <= i < |more| && e in more[i] {
      if e in s {
        var i :| 0 <= i < |parts| && e in parts[i];
        assert more[i] == parts[i];
      } else {
        assert more[|parts|] == es;
      }
    }
    forall i, j, e | 0 <= i < j < |more| && e in more[i] ensures e !in more[j] {
      assert e in SetOf(parts[i]);
    }
  }

  lemma {:induction false} ChainEntries(files: seq<FileMeta>)
    ensures SetOf(Chain(files)) == LevelEntries(files)
  {
    if files != [] {
      var n := |files| - 1;
      ChainEntries(files[..n]);
      LevelEntriesOn(files);
    }
  }

  lemma LevelEntriesOn(files: seq<FileMeta>)
    requires files != []
    ensures LevelEntries(files) == LevelEntries(files[..|files| - 1]) + Ent(files[|files| - 1])
  {
    var front, last := files[..|files| - 1], files[|files| - 1];
    forall e | e in LevelEntries(files) ensures e in LevelEntries(front) + Ent(last) {
      var i :| 0 <= i < |files| && e in files[i].entries;
      assert i < |front| ==> front[i] == files[i];
    }
    forall e | e in LevelEntries(front) ensures e in LevelEntries(files) {
      var i :| 0 <= i < |front| && e in front[i].entries;
      assert front[i] == files[i];
    }
  }

  lemma {:induction false} ChainSorted(files: seq<FileMeta>)
    requires FilesOk(files) && Disjoint(files)
    ensures SortedKeys(Chain(files))
  {
    if files != [] {
      var front, last := files[..|files| - 1], files[|files| - 1];
      ChainSorted(front);
      ChainEntries(front);
      assert FileOk(last);
      forall a, b | a in Chain(front) && b in last.entries ensures Less(a.key, b.key) {
        assert a in SetOf(Chain(front));
        var i :| 0 <= i < |front| && a in front[i].entries;
        assert front[i] == files[i];
        AcrossFiles(files, i, |files| - 1, a, b);
      }
      Joined(Chain(front), last.entries);
    }
  }

  lemma Joined(a: seq<Entry>, b: seq<Entry>)
    requires SortedKeys(a) && SortedKeys(b) && forall x, y :: x in a && y in b ==> Less(x.key, y.key)
    ensures SortedKeys(a + b)
  {
    forall i, j | 0 <= i < j < |a + b| ensures Less((a + b)[i].key, (a + b)[j].key) {
      if i < |a| <= j {
        assert a[i] in a && b[j - |a|] in b;
      }
    }
  }

  // ----- the parts of a well-formed store divide what it stores

  ghost predicate TablesApart(files: seq<FileMeta>) {
    forall i, j, e :: 0 <= i < j < |files| && e in files[i].entries ==> e !in files[j].entries
  }

  ghost predicate LevelsApart(v: Levels) {
    forall u, l :: 0 <= u < l < |v| ==> LevelEntries(v[u]) !! LevelEntries(v[l])
  }

  lemma OnceTables(v: Levels)
    requires VersionOk(v) && Once(v)
    ensures TablesApart(v[0])
  {
    LevelFacts(v, 0);
    forall i, j, e | 0 <= i < j < |v[0]| && e in v[0][i].entries ensures e !in v[0][j].entries {
      var f, g := v[0][i], v[0][j];
      assert f in v[0] && g in v[0] && f != g;
    }
  }

  lemma OnceLevels(v: Levels)
    requires Once(v)
    ensures LevelsApart(v)
  {
    forall u, l, e | 0 <= u < l < |v| && e in LevelEntries(v[u]) ensures e !in LevelEntries(v[l]) {
      var i :| 0 <= i < |v[u]| && e in v[u][i].entries;
      var f := v[u][i];
      assert f in v[u];
      forall j | 0 <= j < |v[l]| ensures e !in v[l][j].entries {
        var g := v[l][j];
        assert g in v[l];
      }
    }
  }

  lemma TableApart(files: seq<FileMeta>, i: nat, e: Entry)
    requires TablesApart(files) && i < |files| && e in files[i].entries
    ensures e in LevelEntries(files) && e !in LevelEntries(files[..i])
  {
  }

  lemma TablesDivide(parts: seq<seq<Entry>>, s: set<Entry>, files: seq<FileMeta>, n: nat)
    requires FilesOk(files) && TablesApart(files) && n <= |files| && Divides(parts, s) && LevelEntries(files) !! s
    ensures Divides(parts + TableParts(files[..n]), s + LevelEntries(files[..n]))
  {
    if n == 0 {
      assert parts + TableParts(files[..0]) == parts && s + LevelEntries(files[..0]) == s;
    } else {
      var some, front, last := files[..n], files[..n - 1], files[n - 1];
      TablesDivide(parts, s, files, n - 1);
      assert some[..n - 1] == front && some[n - 1] == last;
      LevelEntriesOn(some);
      forall e | e in Ent(last) ensures e !in s + LevelEntries(front) {
        TableApart(files, n - 1, e);
      }
      OneMore(parts + TableParts(front), s + LevelEntries(front), last.entries);
      assert parts + TableParts(some) == parts + TableParts(front) + [last.entries];
      assert s + LevelEntries(some) == s + LevelEntries(front) + SetOf(last.entries);
    }
  }

  lemma LevelApart(v: Levels, l: nat, e: Entry)
    requires LevelsApart(v) && l < |v| && e in LevelEntries(v[l])
    ensures e in VersionEntries(v) && e !in UpperEntries(v, l)
  {
  }

  lemma LevelDivides(parts: seq<seq<Entry>>, s: set<Entry>, v: Levels, l: nat)
    requires VersionOk(v) && LevelsApart(v) && 1 <= l < |v|
    requires Divides(parts, s + UpperEntries(v, l)) && VersionEntries(v) !! s
    ensures Divides(parts + (if v[l] == [] then [] else [Chain(v[l])]), s + UpperEntries(v, l + 1))
  {
    var files := v[l];
    UpperOn(v, l);
    LevelFacts(v, l);
    ChainSorted(files);
    ChainEntries(files);
    if files == [] {
      assert parts + [] == parts;
      assert s + UpperEntries(v, l + 1) == s + UpperEntries(v, l);
    } else {
      forall e | e in LevelEntries(files) ensures e !in s + UpperEntries(v, l) {
        LevelApart(v, l, e);
      }
      OneMore(parts, s + UpperEntries(v, l), Chain(files));
      assert s + UpperEntries(v, l + 1) == s + UpperEntries(v, l) + SetOf(Chain(files));
    }
  }

  lemma {:induction false} LevelsDivide(parts: seq<seq<Entry>>, s: set<Entry>, v: Levels, l: nat)
    requires VersionOk(v) && LevelsApart(v) && 1 <= l <= |v|
    requires Divides(parts, s + UpperEntries(v, 1)) && VersionEntries(v) !! s
    ensures Divides(parts + LevelParts(v, l), s + UpperEntries(v, l))
  {
    if l == 1 {
      assert parts + LevelParts(v, 1) == parts;
    } else {
      LevelsDivide(parts, s, v, l - 1);
      LevelDivides(parts + LevelParts(v, l - 1), s, v, l - 1);
      var last := if v[l - 1] == [] then [] else [Chain(v[l - 1])];
      assert parts + LevelParts(v, l) == parts + LevelParts(v, l - 1) + last;
    }
  }

  lemma MemsDivide(core: L.State, mem: seq<Entry>, imm: Option<seq<Entry>>)
    requires L.Later(core.mem, L.ImmEntries(core)) && SortedKeys(mem) && SetOf(mem) == core.mem
    requires imm.Some? <==> core.imm.Some?
    requires imm.Some? ==> SortedKeys(imm.value) && SetOf(imm.value) == core.imm.value
    ensures Divides(MemParts(mem, imm), core.mem + L.ImmEntries(core))
  {
    assert [mem][0] == mem;
    assert Divides([mem], core.mem);
    if imm.Some? {
      OneMore([mem], core.mem, imm.value);
    } else {
      assert MemParts(mem, imm) == [mem] && core.mem + L.ImmEntries(core) == core.mem;
    }
  }

  /** Memtables, level-0 tables and levels divide what the store holds. */
  lemma StoreDivides(core: L.State, mem: seq<Entry>, imm: Option<seq<Entry>>)
    requires L.Inv(core) && Once(core.version) && SortedKeys(mem) && SetOf(mem) == core.mem
    requires imm.Some? <==> core.imm.Some?
    requires imm.Some? ==> SortedKeys(imm.value) && SetOf(imm.value) == core.imm.value
    ensures Divides(StoreParts(mem, imm, core.version), L.Stored(core))
  {
    var v, mems := core.version, core.mem + L.ImmEntries(core);
    MemsDivide(core, mem, imm);
    assert VersionEntries(v) !! mems;
    assert v[0][..|v[0]|] == v[0];
    LevelFacts(v, 0);
    InLayers(v, 0);
    OnceTables(v);
    OnceLevels(v);
    TablesDivide(MemParts(mem, imm), mems, v[0], |v[0]|);
    assert UpperEntries(v, 1) == LevelEntries(v[0]);
    LevelsDivide(MemParts(mem, imm) + TableParts(v[0]), mems, v, |v|);
    assert UpperEntries(v, |v|) == VersionEntries(v);
  }

  lemma UnionOf(all: seq<Entry>, parts: seq<seq<Entry>>)
    requires SortedKeys(all) && Divides(parts, SetOf(all))
    ensures IsUnion(all, parts)
  {
    forall i, j | 0 <= i < |parts| && 0 <= j < |parts[i]| ensures parts[i][j] in all {
      assert parts[i][j] in SetOf(parts[i]);
    }
    forall e | e in all ensures exists i :: 0 <= i < |parts| && e in parts[i] {
      assert e in SetOf(all);
    }
  }

  // ----- DBImpl::NewIterator

  /** The children are over the parts, and have nothing in common. */
  ghost predicate Built(children: seq<IteratorWrapper>, inners: set<object>, parts: seq<seq<Entry>>)
    reads children, inners
  {
    && |children| == |parts| && Distinct(children, inners)
    && forall i {:trigger Child(children[i], parts[i], |parts[i]|)} :: 0 <= i < |children| ==>
         Child(children[i], parts[i], |parts[i]|)
  }

  lemma BuiltMore(
    children: seq<IteratorWrapper>, inners: set<object>, parts: seq<seq<Entry>>, child: IteratorWrapper)
    requires Built(children, inners, parts) && Child(child, child.es, |child.es|)
    requires child !in children && child.Inner() !in inners
    ensures Built(children + [child], inners + {child.Inner()}, parts + [child.es])
  {
    var more, all := children + [child], parts + [child.es];
    forall i | 0 <= i < |more| ensures Child(more[i], all[i], |all[i]|) {
      if i < |children| {
        assert Child(children[i], parts[i], |parts[i]|);
      }
    }
  }

  lemma BuiltParts(children: seq<IteratorWrapper>, inners: set<object>, parts: seq<seq<Entry>>)
    requires Built(children, inners, parts)
    ensures Distinct(children, inners) && forall i :: 0 <= i < |children| ==> children[i].Ok()
    ensures seq(|children|, i requires 0 <= i < |children| => children[i].es) == parts
  {
    forall i | 0 <= i < |children| ensures children[i].Ok() && children[i].es == parts[i] {
      assert Child(children[i], parts[i], |parts[i]|);
    }
  }

  method NewSingle(es: seq<Entry>) returns (child: IteratorWrapper)
    ensures fresh(child) && fresh(child.Inner()) && Child(child, es, |es|)
  {
    var cursor := new SeqCursor(es);
    child := new IteratorWrapper(Single(cursor));
  }

  /** Version::NewConcatenatingIterator. */
  method NewConcatenatingIterator(files: seq<FileMeta>) returns (child: IteratorWrapper)
    requires FilesOk(files) && Disjoint(files)
    ensures fresh(child) && fresh(child.Inner()) && Child(child, Chain(files), |Chain(files)|)
  {
    LevelIndexed(files);
    ChainIsFlat(files);
    var tables := new TwoLevelIterator(Indexing(LargestKeys(files), Blocks(files)));
    child := new IteratorWrapper(Level(tables));
  }

  /** The children over the memtables. */
  method MemIterators(mem: seq<Entry>, imm: Option<seq<Entry>>)
    returns (children: seq<IteratorWrapper>, ghost inners: set<object>)
    ensures fresh(children) && fresh(inners) && Built(children, inners, MemParts(mem, imm))
  {
    children, inners := [], {};
    assert Built(children, inners, []);
    var child := NewSingle(mem);
    BuiltMore(children, inners, [], child);
    children, inners := children + [child], inners + {child.Inner()};
    assert [] + [mem] == [mem];
    if imm.Some? {
      child := NewSingle(imm.value);
      BuiltMore(children, inners, [mem], child);
      children, inners := children + [child], inners + {child.Inner()};
    }
  }

  /** Version::AddIterators at level 0. */
  method TableIterators(
    children0: seq<IteratorWrapper>, ghost inners0: set<object>, ghost parts: seq<seq<Entry>>, files: seq<FileMeta>)
    returns (children: seq<IteratorWrapper>, ghost inners: set<object>)
    requires Built(children0, inners0, parts)
    ensures fresh(set c | c in children && c !in children0) && fresh(inners - inners0)
    ensures Built(children, inners, parts + TableParts(files))
  {
    children, inners := children0, inners0;
    assert parts + [] == parts;
    var i := 0;
    while i < |files|
      invariant 0 <= i <= |files| && Built(children, inners, parts + TableParts(files[..i]))
      invariant fresh(set c | c in children && c !in children0) && fresh(inners - inners0)
    {
      var child := NewSingle(files[i].entries);
      BuiltMore(children, inners, parts + TableParts(files[..i]), child);
      children, inners := children + [child], inners + {child.Inner()};
      assert files[..i + 1][..i] == files[..i];
      assert parts + TableParts(files[..i + 1]) == parts + TableParts(files[..i]) + [files[i].entries];
      i := i + 1;
    }
    assert files[..|files|] == files;
  }

  /** Version::AddIterators at the other levels. */
  method LevelIterators(
    children0: seq<IteratorWrapper>, ghost inners0: set<object>, ghost parts: seq<seq<Entry>>, v: Levels)
    returns (children: seq<IteratorWrapper>, ghost inners: set<object>)
    requires Built(children0, inners0, parts) && VersionOk(v) && 1 <= |v|
    ensures fresh(set c | c in children && c !in children0) && fresh(inners - inners0)
    ensures Built(children, inners, parts + LevelParts(v, |v|))
  {
    children, inners := children0, inners0;
    assert parts + [] == parts;
    var l := 1;
    while l < |v|
      invariant 1 <= l <= |v| && Built(children, inners, parts + LevelParts(v, l))
      invariant fresh(set c | c in children && c !in children0) && fresh(inners - inners0)
    {
      if v[l] != [] {
        LevelFacts(v, l);
        var child := NewConcatenatingIterator(v[l]);
        BuiltMore(children, inners, parts + LevelParts(v, l), child);
        children, inners := children + [child], inners + {child.Inner()};
        assert parts + LevelParts(v, l + 1) == parts + LevelParts(v, l) + [Chain(v[l])];
      } else {
        assert LevelParts(v, l + 1) == LevelParts(v, l);
      }
      l := l + 1;
    }
  }

  /** The iterator stands over all entries of the store, in order. That no entry is stored
      twice holds in every run from an empty store (`Lsm.RunsStoreOnce`), through failures,
      crashes and recoveries too (`StoredOnce.RunsStoreOnce`). */
  method NewIterator(ghost core: L.State, mem: seq<Entry>, imm: Option<seq<Entry>>, version: Levels, sequence: nat)
    returns (it: DBIter)
    requires L.Inv(core) && Once(core.version) && version == core.version && SortedKeys(mem) && SetOf(mem) == core.mem
    requires imm.Some? <==> core.imm.Some?
    requires imm.Some? ==> SortedKeys(imm.value) && SetOf(imm.value) == core.imm.value
    ensures fresh(it) && fresh(it.iter) && fresh(it.iter.children) && fresh(it.iter.inners)
    ensures it.Inv() && !it.valid && it.sequence == sequence
    ensures SortedKeys(it.iter.all) && SetOf(it.iter.all) == L.Stored(core)
  {
    assert L.Stored(core) <= core.history;
    ghost var all := Disks.SortedExists(L.Stored(core));
    StoreDivides(core, mem, imm);
    ghost var parts := StoreParts(mem, imm, version);
    UnionOf(all, parts);
    var children, inners := MemIterators(mem, imm);
    children, inners := TableIterators(children, inners, MemParts(mem, imm), version[0]);
    children, inners := LevelIterators(children, inners, MemParts(mem, imm) + TableParts(version[0]), version);
    BuiltParts(children, inners, parts);
    var merged := new MergingIterator(children, inners, all);
    it := new DBIter(merged, sequence);
  }

  /** The entries the iterator stops at are exactly what reads at its sequence number find
      in the history of all writes: each is the answer for its user key, every user key that
      has an answer is there once, and keys come in order. */
  lemma IteratorShowsReads(core: L.State, all: seq<Entry>, s: nat)
    requires L.Inv(core) && L.Floor(core) <= s && SortedKeys(all) && SetOf(all) == L.Stored(core)
    ensures forall i :: 0 <= i < |all| && LiveAt(all, s, i) ==>
      Visible(core.history, all[i].key.user, s) == Found(all[i].value)
    ensures forall k :: Visible(core.history, k, s).Found? ==>
      exists i :: 0 <= i < |all| && LiveAt(all, s, i) && all[i].key.user == k
    ensures forall i, j :: 0 <= i < j < |all| && LiveAt(all, s, i) && LiveAt(all, s, j) ==>
      all[i].key.user < all[j].key.user
  {
    forall i | 0 <= i < |all| && LiveAt(all, s, i)
      ensures Visible(core.history, all[i].key.user, s) == Found(all[i].value)
    {
      LiveIsVisible(all, s, i);
    }
    forall k | Visible(core.history, k, s).Found?
      ensures exists i :: 0 <= i < |all| && LiveAt(all, s, i) && all[i].key.user == k
    {
      var i := VisibleIsLive(all, s, k);
    }
    forall i, j | 0 <= i < j < |all| && LiveAt(all, s, i) && LiveAt(all, s, j)
      ensures all[i].key.user < all[j].key.user
    {
      LiveKeysIncrease(all, s, i, j);
    }
  }
}
