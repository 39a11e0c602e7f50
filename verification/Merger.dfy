/** MergingIterator (table/merger.cc) is a cursor over the sorted union of its children. */
module Merger {
  import opened Options
  import opened Keys
  import opened Version
  import opened Cursor
  import opened IteratorWrappers

  // ----- positions in the union

  ghost predicate IsUnion(all: seq<Entry>, parts: seq<seq<Entry>>) {
    && SortedKeys(all)
    && (forall i {:trigger Part(all, parts[i])} :: 0 <= i < |parts| ==> Part(all, parts[i]))
    && (forall e :: e in all ==> exists i :: 0 <= i < |parts| && e in parts[i])
    && forall i, j, e {:trigger e in parts[i], e in parts[j]} ::
         0 <= i < j < |parts| && e in parts[i] ==> e !in parts[j]
  }

  ghost predicate Part(all: seq<Entry>, es: seq<Entry>) {
    SortedKeys(all) && SortedKeys(es) && forall j :: 0 <= j < |es| ==> es[j] in all
  }

  /** The first `q` entries of a child are those among the first `p` of the union. */
  ghost predicate Cut(all: seq<Entry>, es: seq<Entry>, p: nat, q: nat) {
    && p <= |all| && q <= |es|
    && (forall j :: 0 <= j < q ==> es[j] in all[..p])
    && forall j :: q <= j < |es| ==> es[j] !in all[..p]
  }

  /** One step before position `q`. */
  function Back(es: seq<Entry>, q: nat): nat {
    if q == 0 then |es| else q - 1
  }

  lemma IndexOrder(all: seq<Entry>, m: nat, n: nat)
    requires SortedKeys(all) && m < |all| && n < |all|
    ensures m < n <==> Less(all[m].key, all[n].key)
    ensures m == n <==> all[m] == all[n]
  {
    if m < n {
      assert Less(all[m].key, all[n].key);
    } else if n < m {
      assert Less(all[n].key, all[m].key);
    }
  }

  /** An entry of the union is among its first `p` exactly when it sorts before all[p]. */
  lemma InFront(all: seq<Entry>, p: nat, e: Entry)
    requires SortedKeys(all) && p < |all| && e in all
    ensures e in all[..p] <==> Less(e.key, all[p].key)
    ensures e.key == all[p].key <==> e == all[p]
  {
    var m :| 0 <= m < |all| && all[m] == e;
    IndexOrder(all, m, p);
    if e in all[..p] {
      var n :| 0 <= n < p && all[..p][n] == e;
      IndexOrder(all, n, p);
    }
    if m < p {
      assert all[..p][m] == e;
    }
  }

  lemma {:induction false} CutAtSeek(all: seq<Entry>, es: seq<Entry>, target: InternalKey)
    requires SortedKeys(all) && SortedKeys(es) && forall j :: 0 <= j < |es| ==> es[j] in all
    ensures Cut(all, es, SeekIndex(all, target), SeekIndex(es, target))
  {
    var p, q := SeekIndex(all, target), SeekIndex(es, target);
    forall j | 0 <= j < |es| ensures es[j] in all[..p] <==> j < q {
      var m :| 0 <= m < |all| && all[m] == es[j];
      if p < |all| {
        InFront(all, p, es[j]);
      }
      if q <= j {
        assert !Less(es[j].key, target) by {
          assert q < j ==> Less(es[q].key, es[j].key);
        }
      }
      if m < p {
        assert all[..p][m] == es[j];
      }
      if es[j] in all[..p] {
        var n :| 0 <= n < p && all[..p][n] == es[j];
      }
    }
  }

  lemma CutUnique(all: seq<Entry>, es: seq<Entry>, p: nat, q: nat, q': nat)
    requires Cut(all, es, p, q) && Cut(all, es, p, q')
    ensures q == q'
  {
    assert q < |es| ==> es[q] !in all[..p];
    assert q' < |es| ==> es[q'] !in all[..p];
  }

  /** Seeking all[p]'s key brings a child to its cut at p. */
  lemma {:induction false} SeekKeyCut(all: seq<Entry>, p: nat)
    requires SortedKeys(all) && p < |all|
    ensures SeekIndex(all, all[p].key) == p
  {
    var q: nat := SeekIndex(all, all[p].key);
    if q < p {
      IndexOrder(all, q, p);
    }
  }

  lemma CutNext(all: seq<Entry>, es: seq<Entry>, p: nat, q: nat)
    requires Cut(all, es, p, q) && p < |all| && SortedKeys(all) && SortedKeys(es)
    requires forall j :: 0 <= j < |es| ==> es[j] in all
    ensures all[p] !in es ==> Cut(all, es, p + 1, q)
    ensures all[p] in es ==> q < |es| && es[q] == all[p] && Cut(all, es, p + 1, q + 1)
  {
    assert all[..p + 1] == all[..p] + [all[p]];
    if all[p] in es {
      var j :| 0 <= j < |es| && es[j] == all[p];
      InFront(all, p, es[j]);
      assert j >= q;
      assert q < j ==> Less(es[q].key, es[j].key);
      InFront(all, p, es[q]);
      forall i | q < i < |es| ensures es[i] !in all[..p + 1] {
        assert Less(es[q].key, es[i].key);
      }
    }
  }

  /** How many entries of a child are among the first `p` of the union. */
  function CutOf(all: seq<Entry>, es: seq<Entry>, p: nat): (q: nat)
    ensures q <= |es|
  {
    if p < |all| then SeekIndex(es, all[p].key) else |es|
  }

  lemma CutOfIs(all: seq<Entry>, es: seq<Entry>, p: nat)
    requires SortedKeys(all) && SortedKeys(es) && p <= |all| && forall j :: 0 <= j < |es| ==> es[j] in all
    ensures Cut(all, es, p, CutOf(all, es, p))
  {
    if p < |all| {
      CutAtSeek(all, es, all[p].key);
      SeekKeyCut(all, p);
    } else {
      assert all[..p] == all;
    }
  }

  lemma CutOfNext(all: seq<Entry>, es: seq<Entry>, p: nat)
    requires Part(all, es) && p < |all|
    ensures CutOf(all, es, p + 1) == if all[p] in es then CutOf(all, es, p) + 1 else CutOf(all, es, p)
    ensures all[p] in es ==> CutOf(all, es, p) < |es| && es[CutOf(all, es, p)] == all[p]
  {
    CutOfIs(all, es, p);
    CutOfIs(all, es, p + 1);
    CutNext(all, es, p, CutOf(all, es, p));
    CutUnique(all, es, p + 1, CutOf(all, es, p + 1), if all[p] in es then CutOf(all, es, p) + 1 else CutOf(all, es, p));
  }

  lemma {:induction false} CutOfSeek(all: seq<Entry>, es: seq<Entry>, target: InternalKey)
    requires Part(all, es)
    ensures SeekIndex(es, target) == CutOf(all, es, SeekIndex(all, target))
  {
    CutAtSeek(all, es, target);
    CutOfIs(all, es, SeekIndex(all, target));
    CutUnique(all, es, SeekIndex(all, target), SeekIndex(es, target), CutOf(all, es, SeekIndex(all, target)));
  }

  /** The first index whose key is after `key`. */
  function PastIndex(es: seq<Entry>, key: InternalKey): nat {
    var q := SeekIndex(es, key);
    if q < |es| && es[q].key == key then q + 1 else q
  }

  /** A child without all[p] has no entry of that key to be skipped. */
  lemma CutOfPast(all: seq<Entry>, es: seq<Entry>, p: nat)
    requires Part(all, es) && p < |all| && all[p] !in es
    ensures PastIndex(es, all[p].key) == CutOf(all, es, p)
  {
    var r := SeekIndex(es, all[p].key);
    if r < |es| {
      assert es[r] in es;
      InFront(all, p, es[r]);
    }
  }

  lemma CutAtStart(all: seq<Entry>, es: seq<Entry>)
    requires Part(all, es)
    ensures CutOf(all, es, 0) == 0
  {
    CutOfIs(all, es, 0);
    CutUnique(all, es, 0, CutOf(all, es, 0), 0);
  }

  // ----- where the children stand

  /** The parts make up the union, and there is a position for each. */
  ghost predicate Cuts(all: seq<Entry>, parts: seq<seq<Entry>>, at: seq<nat>) {
    |at| == |parts| && IsUnion(all, parts)
  }

  /** Child `i` stands at an entry. */
  ghost predicate HasEntry(parts: seq<seq<Entry>>, at: seq<nat>, i: nat)
    requires i < |at| == |parts|
  {
    at[i] < |parts[i]|
  }

  /** A child at `q` stands at its cut at `p`, or one step before it. */
  ghost predicate At(all: seq<Entry>, es: seq<Entry>, q: nat, p: nat, forward: bool) {
    q == if forward then CutOf(all, es, p) else Back(es, CutOf(all, es, p))
  }

  ghost predicate AllAt(all: seq<Entry>, parts: seq<seq<Entry>>, at: seq<nat>, p: nat, forward: bool)
    requires |at| == |parts|
  {
    forall i :: 0 <= i < |at| ==> At(all, parts[i], at[i], p, forward)
  }

  ghost predicate OthersAt(all: seq<Entry>, parts: seq<seq<Entry>>, at: seq<nat>, c: nat, p: nat, forward: bool)
    requires |at| == |parts|
  {
    forall i :: 0 <= i < |at| && i != c ==> At(all, parts[i], at[i], p, forward)
  }

  lemma PartOf(all: seq<Entry>, parts: seq<seq<Entry>>, at: seq<nat>, i: nat)
    requires Cuts(all, parts, at) && i < |at|
    ensures Part(all, parts[i])
  {
  }

  /** Only one child holds a given entry. */
  lemma Alone(all: seq<Entry>, parts: seq<seq<Entry>>, at: seq<nat>, i: nat, j: nat, e: Entry)
    requires Cuts(all, parts, at) && i < |at| && j < |at| && i != j && e in parts[i]
    ensures e !in parts[j]
  {
  }

  lemma HolderOf(all: seq<Entry>, parts: seq<seq<Entry>>, at: seq<nat>, p: nat) returns (i: nat)
    requires Cuts(all, parts, at) && p < |all|
    ensures i < |at| && all[p] in parts[i]
  {
    assert all[p] in all;
    i :| 0 <= i < |parts| && all[p] in parts[i];
  }

  /** Children that do not hold all[p] stand the same around it. */
  lemma OthersBack(all: seq<Entry>, parts: seq<seq<Entry>>, at: seq<nat>, c: nat, p: nat)
    requires Cuts(all, parts, at) && p < |all| && AllAt(all, parts, at, p + 1, false) && c < |at| && all[p] in parts[c]
    ensures OthersAt(all, parts, at, c, p, false)
  {
    forall i | 0 <= i < |at| && i != c ensures At(all, parts[i], at[i], p, false) {
      PartOf(all, parts, at, i);
      Alone(all, parts, at, c, i, all[p]);
      CutOfNext(all, parts[i], p);
      ghost var after: nat := p + 1;
      assert At(all, parts[i], at[i], after, false);
    }
  }

  /** Stepping over all[p] moves the child that holds it. */
  lemma OthersOn(all: seq<Entry>, parts: seq<seq<Entry>>, at: seq<nat>, c: nat, p: nat, i: nat)
    requires Cuts(all, parts, at) && p < |all| && c < |at| && i < |at| && i != c && all[p] in parts[c]
    requires At(all, parts[i], at[i], p, true)
    ensures At(all, parts[i], at[i], p + 1, true)
  {
    PartOf(all, parts, at, i);
    Alone(all, parts, at, c, i, all[p]);
    CutOfNext(all, parts[i], p);
  }

  lemma Stepped(all: seq<Entry>, parts: seq<seq<Entry>>, at: seq<nat>, c: nat, p: nat)
    requires Cuts(all, parts, at) && p < |all| && c < |at| && at[c] < |parts[c]| && parts[c][at[c]] == all[p]
    requires OthersAt(all, parts, at, c, p, true)
    ensures AllAt(all, parts, at[c := at[c] + 1], p + 1, true)
  {
    var at' := at[c := at[c] + 1];
    var after: nat := p + 1;
    PartOf(all, parts, at, c);
    IndexIsCut(all, parts[c], p, at[c]);
    CutOfNext(all, parts[c], p);
    forall i | 0 <= i < |at'| ensures At(all, parts[i], at'[i], after, true) {
      if i != c {
        OthersOn(all, parts, at, c, p, i);
      }
    }
  }

  lemma SteppedBack(all: seq<Entry>, parts: seq<seq<Entry>>, at: seq<nat>, c: nat, p: nat)
    requires Cuts(all, parts, at) && p < |all| && c < |at| && at[c] < |parts[c]| && parts[c][at[c]] == all[p]
    requires OthersAt(all, parts, at, c, p, false)
    ensures AllAt(all, parts, at[c := Back(parts[c], at[c])], p, false)
  {
    PartOf(all, parts, at, c);
    IndexIsCut(all, parts[c], p, at[c]);
  }

  lemma SmallestIs(all: seq<Entry>, parts: seq<seq<Entry>>, at: seq<nat>, c: nat, p: nat)
    requires Cuts(all, parts, at) && p < |all| && AllAt(all, parts, at, p, true) && c < |at| && HasEntry(parts, at, c)
    requires forall i :: 0 <= i < |at| && HasEntry(parts, at, i) ==> AtMost(parts[c][at[c]].key, parts[i][at[i]].key)
    ensures parts[c][at[c]] == all[p]
  {
    var h := HolderOf(all, parts, at, p);
    PartOf(all, parts, at, h);
    CutOfNext(all, parts[h], p);
    assert At(all, parts[h], at[h], p, true) && HasEntry(parts, at, h);
    PartOf(all, parts, at, c);
    assert At(all, parts[c], at[c], p, true);
    CutOfIs(all, parts[c], p);
    InFront(all, p, parts[c][at[c]]);
    SameKey(parts[c][at[c]].key, all[p].key);
  }

  lemma SomeAhead(all: seq<Entry>, parts: seq<seq<Entry>>, at: seq<nat>, p: nat)
    requires Cuts(all, parts, at) && p <= |all| && AllAt(all, parts, at, p, true)
    ensures p == |all| <==> forall i :: 0 <= i < |at| ==> !HasEntry(parts, at, i)
  {
    if p < |all| {
      var h := HolderOf(all, parts, at, p);
      PartOf(all, parts, at, h);
      CutOfNext(all, parts[h], p);
      assert At(all, parts[h], at[h], p, true) && HasEntry(parts, at, h);
    } else {
      forall i | 0 <= i < |at| ensures !HasEntry(parts, at, i) {
        assert At(all, parts[i], at[i], p, true);
      }
    }
  }

  lemma SomeBehind(all: seq<Entry>, parts: seq<seq<Entry>>, at: seq<nat>, p: nat) returns (h: nat)
    requires Cuts(all, parts, at) && 0 < p <= |all| && AllAt(all, parts, at, p, false)
    ensures h < |at| && HasEntry(parts, at, h) && parts[h][at[h]] == all[p - 1]
  {
    h := HolderOf(all, parts, at, p - 1);
    PartOf(all, parts, at, h);
    CutOfNext(all, parts[h], p - 1);
    assert At(all, parts[h], at[h], p, false);
  }

  /** The largest of the keys just behind the position is the previous entry. */
  lemma LargestIs(all: seq<Entry>, parts: seq<seq<Entry>>, at: seq<nat>, c: nat, p: nat)
    requires Cuts(all, parts, at) && 0 < p <= |all| && AllAt(all, parts, at, p, false) && c < |at|
    requires HasEntry(parts, at, c)
    requires AtMost(all[p - 1].key, parts[c][at[c]].key)
    ensures parts[c][at[c]] == all[p - 1]
  {
    PartOf(all, parts, at, c);
    assert At(all, parts[c], at[c], p, false);
    LastBefore(all, parts[c], p, at[c]);
    SameKey(all[p - 1].key, parts[c][at[c]].key);
    InFront(all, p - 1, parts[c][at[c]]);
  }

  lemma Behind(all: seq<Entry>, parts: seq<seq<Entry>>, at: seq<nat>, c: nat, p: nat)
    requires Cuts(all, parts, at) && 0 < p <= |all| && AllAt(all, parts, at, p, false) && c < |at|
    requires HasEntry(parts, at, c)
    requires AtMost(all[p - 1].key, parts[c][at[c]].key)
    ensures parts[c][at[c]] == all[p - 1] && OthersAt(all, parts, at, c, p - 1, false)
  {
    LargestIs(all, parts, at, c, p);
    OthersBack(all, parts, at, c, p - 1);
  }

  lemma NoneBehind(all: seq<Entry>, parts: seq<seq<Entry>>, at: seq<nat>)
    requires Cuts(all, parts, at) && AllAt(all, parts, at, 0, false)
    ensures forall i :: 0 <= i < |at| ==> !HasEntry(parts, at, i)
  {
    forall i | 0 <= i < |at| ensures !HasEntry(parts, at, i) {
      assert At(all, parts[i], at[i], 0, false);
      PartOf(all, parts, at, i);
      CutOfIs(all, parts[i], 0);
    }
  }

  // ----- the iterator

  datatype Direction = Forward | Reverse

  /** The children wrap iterators of their own, the `inners`. */
  ghost predicate Distinct(children: seq<IteratorWrapper>, inners: set<object>) {
    && (forall i :: 0 <= i < |children| ==> children[i].Inner() in inners)
    && forall i, j :: 0 <= i < j < |children| ==>
         children[i] != children[j] && children[i].Inner() != children[j].Inner()
  }

  /** The child is over `es` and stands at `q`. */
  ghost predicate Child(child: IteratorWrapper, es: seq<Entry>, q: nat)
    reads child, child.Inner()
  {
    child.Ok() && child.es == es && child.pos == q
  }

  /** `at` says where each child stands in its part. */
  class MergingIterator {
    const children: seq<IteratorWrapper>
    ghost const inners: set<object>
    ghost const parts: seq<seq<Entry>>
    ghost const all: seq<Entry>
    ghost var at: seq<nat>
    var current: Option<nat>
    var direction: Direction
    ghost var pos: nat

    ghost predicate Linked()
      reads this`at, children, inners
    {
      && this !in inners && |at| == |parts| == |children| && Distinct(children, inners)
      && forall i {:trigger Child(children[i], parts[i], at[i])} :: 0 <= i < |children| ==>
           Child(children[i], parts[i], at[i])
    }

    ghost predicate Shape()
      reads this`at, children, inners
    {
      Linked() && IsUnion(all, parts)
    }

    ghost predicate Inv()
      reads this, children, inners
    {
      && Shape() && pos <= |all|
      && (current.None? <==> pos == |all|)
      && (current.Some? ==>
            && current.value < |at| && HasEntry(parts, at, current.value)
            && parts[current.value][at[current.value]] == all[pos]
            && OthersAt(all, parts, at, current.value, pos, direction == Forward))
    }

    constructor (children: seq<IteratorWrapper>, ghost inners: set<object>, ghost all: seq<Entry>)
      requires Distinct(children, inners) && forall i :: 0 <= i < |children| ==> children[i].Ok()
      requires IsUnion(all, seq(|children|, i requires 0 <= i < |children| => children[i].es))
      ensures Inv() && current.None? && this.children == children && this.inners == inners && this.all == all
    {
      this.children := children;
      this.inners := inners;
      this.parts := seq(|children|, i requires 0 <= i < |children| => children[i].es);
      this.all := all;
      at := [];
      new;
      FindChildren();
      current := None;
      direction := Forward;
      pos := |all|;
    }

    ghost method FindChildren()
      requires this !in inners && |parts| == |children| && Distinct(children, inners)
      requires forall i :: 0 <= i < |children| ==> children[i].Ok() && parts[i] == children[i].es
      modifies this`at
      ensures Linked()
    {
      var found: seq<nat> := [];
      while |found| < |children|
        invariant |found| <= |children| && forall i :: 0 <= i < |found| ==> children[i].pos == found[i]
      {
        found := found + [children[|found|].pos];
      }
      at := found;
    }

    predicate Valid()
      reads this
    {
      current.Some?
    }

    function Key(): (k: InternalKey)
      requires Inv() && Valid()
      reads this, children, inners
      ensures k == all[pos].key
    {
      ChildKey(current.value)
    }

    function Value(): (v: string)
      requires Inv() && Valid()
      reads this, children, inners
      ensures v == all[pos].value
    {
      ChildValue(current.value)
    }

    // ----- the children

    method Face(d: Direction)
      requires Linked()
      modifies this`direction
      ensures Linked() && direction == d
    {
      direction := d;
    }

    predicate ChildValid(i: nat): (valid: bool)
      requires Linked() && i < |children|
      reads this`at, children, inners
      ensures valid <==> HasEntry(parts, at, i)
    {
      assert Child(children[i], parts[i], at[i]);
      children[i].Valid()
    }

    function ChildKey(i: nat): (k: InternalKey)
      requires Linked() && i < |children| && HasEntry(parts, at, i)
      reads this`at, children, inners
      ensures k == parts[i][at[i]].key
    {
      assert Child(children[i], parts[i], at[i]);
      children[i].key
    }

    function ChildValue(i: nat): (v: string)
      requires Linked() && i < |children| && HasEntry(parts, at, i)
      reads this`at, children, inners
      ensures v == parts[i][at[i]].value
    {
      assert Child(children[i], parts[i], at[i]);
      children[i].Value()
    }

    method ChildToFirst(i: nat)
      requires Linked() && i < |children|
      modifies this`at, children, inners
      ensures Linked() && at == old(at)[i := 0]
    {
      assert Child(children[i], parts[i], at[i]);
      children[i].SeekToFirst();
      at := at[i := 0];
      forall j | 0 <= j < |children| && j != i ensures Child(children[j], parts[j], at[j]) {
        assert old(Child(children[j], parts[j], at[j]));
      }
    }

    method ChildToLast(i: nat)
      requires Linked() && i < |children|
      modifies this`at, children, inners
      ensures Linked() && at == old(at)[i := Back(parts[i], |parts[i]|)]
    {
      assert Child(children[i], parts[i], at[i]);
      children[i].SeekToLast();
      at := at[i := Back(parts[i], |parts[i]|)];
      forall j | 0 <= j < |children| && j != i ensures Child(children[j], parts[j], at[j]) {
        assert old(Child(children[j], parts[j], at[j]));
      }
    }

    method SeekChild(i: nat, target: InternalKey)
      requires Linked() && i < |children|
      modifies this`at, children, inners
      ensures Linked() && at == old(at)[i := SeekIndex(parts[i], target)]
    {
      assert Child(children[i], parts[i], at[i]);
      children[i].Seek(target);
      at := at[i := SeekIndex(parts[i], target)];
      forall j | 0 <= j < |children| && j != i ensures Child(children[j], parts[j], at[j]) {
        assert old(Child(children[j], parts[j], at[j]));
      }
    }

    method NextChild(i: nat)
      requires Linked() && i < |children| && HasEntry(parts, at, i)
      modifies this`at, children, inners
      ensures Linked() && at == old(at)[i := old(at[i]) + 1]
    {
      assert Child(children[i], parts[i], at[i]);
      children[i].Next();
      at := at[i := at[i] + 1];
      forall j | 0 <= j < |children| && j != i ensures Child(children[j], parts[j], at[j]) {
        assert old(Child(children[j], parts[j], at[j]));
      }
    }

    method PrevChild(i: nat)
      requires Linked() && i < |children| && HasEntry(parts, at, i)
      modifies this`at, children, inners
      ensures Linked() && at == old(at)[i := Back(parts[i], old(at[i]))]
    {
      assert Child(children[i], parts[i], at[i]);
      children[i].Prev();
      at := at[i := Back(parts[i], at[i])];
      forall j | 0 <= j < |children| && j != i ensures Child(children[j], parts[j], at[j]) {
        assert old(Child(children[j], parts[j], at[j]));
      }
    }

    /** The child whose key is smallest. */
    method FindSmallest()
      requires Linked()
      modifies this`current
      ensures Linked()
      ensures current.None? <==> forall i :: 0 <= i < |at| ==> !HasEntry(parts, at, i)
      ensures current.Some? ==> current.value < |at| && HasEntry(parts, at, current.value)
      ensures current.Some? ==> forall i :: 0 <= i < |at| && HasEntry(parts, at, i) ==>
        AtMost(parts[current.value][at[current.value]].key, parts[i][at[i]].key)
    {
      var smallest: Option<nat> := None;
      var i := 0;
      while i < |children|
        invariant 0 <= i <= |children|
        invariant smallest.None? <==> forall j :: 0 <= j < i ==> !HasEntry(parts, at, j)
        invariant smallest.Some? ==> smallest.value < i && HasEntry(parts, at, smallest.value)
        invariant smallest.Some? ==> forall j :: 0 <= j < i && HasEntry(parts, at, j) ==>
          AtMost(parts[smallest.value][at[smallest.value]].key, parts[j][at[j]].key)
      {
        if ChildValid(i) {
          if smallest.None? || Less(ChildKey(i), ChildKey(smallest.value)) {
            smallest := Some(i);
          }
        }
        i := i + 1;
      }
      current := smallest;
    }

    /** The child whose key is largest. */
    method FindLargest()
      requires Linked()
      modifies this`current
      ensures Linked()
      ensures current.None? <==> forall i :: 0 <= i < |at| ==> !HasEntry(parts, at, i)
      ensures current.Some? ==> current.value < |at| && HasEntry(parts, at, current.value)
      ensures current.Some? ==> forall i :: 0 <= i < |at| && HasEntry(parts, at, i) ==>
        AtMost(parts[i][at[i]].key, parts[current.value][at[current.value]].key)
    {
      var largest: Option<nat> := None;
      var i := |children|;
      while i > 0
        invariant 0 <= i <= |children|
        invariant largest.None? <==> forall j :: i <= j < |children| ==> !HasEntry(parts, at, j)
        invariant largest.Some? ==> i <= largest.value < |children| && HasEntry(parts, at, largest.value)
        invariant largest.Some? ==> forall j :: i <= j < |children| && HasEntry(parts, at, j) ==>
          AtMost(parts[j][at[j]].key, parts[largest.value][at[largest.value]].key)
      {
        i := i - 1;
        if ChildValid(i) {
          if largest.None? || Less(ChildKey(largest.value), ChildKey(i)) {
            largest := Some(i);
          }
        }
      }
      current := largest;
    }

    /** Moving forward, the smallest child holds the next entry of the union. */
    method TakeSmallest(ghost p: nat)
      requires Shape() && p <= |all| && AllAt(all, parts, at, p, true) && direction == Forward
      modifies this`current, this`pos
      ensures Inv() && pos == p
    {
      pos := p;
      FindSmallest();
      SomeAhead(all, parts, at, p);
      if p < |all| {
        SmallestIs(all, parts, at, current.value, p);
      }
    }

    /** Moving backward, the largest child holds the previous entry of the union. */
    method TakeLargest(ghost p: nat)
      requires Shape() && p <= |all| && AllAt(all, parts, at, p, false) && direction == Reverse
      modifies this`current, this`pos
      ensures Inv() && pos == Back(all, p)
    {
      pos := Back(all, p);
      FindLargest();
      if p > 0 {
        ghost var h := SomeBehind(all, parts, at, p);
        Behind(all, parts, at, current.value, p);
      } else {
        NoneBehind(all, parts, at);
      }
    }

    method SeekToFirst()
      requires Shape()
      modifies this, children, inners
      ensures Inv() && pos == 0
    {
      var i := 0;
      while i < |children|
        invariant 0 <= i <= |children| && Shape()
        invariant forall j :: 0 <= j < i ==> At(all, parts[j], at[j], 0, true)
      {
        ChildToFirst(i);
        PartOf(all, parts, at, i);
        CutAtStart(all, parts[i]);
        i := i + 1;
      }
      Face(Forward);
      TakeSmallest(0);
    }

    method SeekToLast()
      requires Shape()
      modifies this, children, inners
      ensures Inv() && pos == Back(all, |all|)
    {
      var i := 0;
      while i < |children|
        invariant 0 <= i <= |children| && Shape()
        invariant forall j :: 0 <= j < i ==> At(all, parts[j], at[j], |all|, false)
      {
        ChildToLast(i);
        i := i + 1;
      }
      Face(Reverse);
      TakeLargest(|all|);
    }

    method Seek(target: InternalKey)
      requires Shape()
      modifies this, children, inners
      ensures Inv() && pos == SeekIndex(all, target)
    {
      ghost var p := SeekIndex(all, target);
      var i := 0;
      while i < |children|
        invariant 0 <= i <= |children| && Shape()
        invariant forall j :: 0 <= j < i ==> At(all, parts[j], at[j], p, true)
      {
        PartOf(all, parts, at, i);
        CutOfSeek(all, parts[i], target);
        SeekChild(i, target);
        i := i + 1;
      }
      Face(Forward);
      TakeSmallest(p);
    }

    /** A child is put behind `key`, past an equal key. */
    method SeekPast(i: nat, key: InternalKey)
      requires Linked() && i < |children|
      modifies this`at, children, inners
      ensures Linked() && at == old(at)[i := PastIndex(parts[i], key)]
    {
      SeekChild(i, key);
      if ChildValid(i) && ChildKey(i) == key {
        NextChild(i);
      }
    }

    /** A child is put before `key`. */
    method SeekBefore(i: nat, key: InternalKey)
      requires Linked() && i < |children|
      modifies this`at, children, inners
      ensures Linked() && at == old(at)[i := Back(parts[i], SeekIndex(parts[i], key))]
    {
      SeekChild(i, key);
      if ChildValid(i) {
        PrevChild(i);
      } else {
        ChildToLast(i);
      }
    }

    /** The other children are put behind the key of child `c`. */
    method TurnForward(c: nat, key: InternalKey)
      requires Shape() && pos < |all| && c < |children| && all[pos] in parts[c] && key == all[pos].key
      modifies this`at, children, inners
      ensures Shape() && at[c] == old(at[c]) && OthersAt(all, parts, at, c, pos, true)
    {
      var i := 0;
      while i < |children|
        invariant 0 <= i <= |children| && Shape() && at[c] == old(at[c])
        invariant forall j :: 0 <= j < i && j != c ==> At(all, parts[j], at[j], pos, true)
      {
        if i != c {
          PartOf(all, parts, at, i);
          Alone(all, parts, at, c, i, all[pos]);
          CutOfPast(all, parts[i], pos);
          SeekPast(i, key);
        }
        i := i + 1;
      }
    }

    /** The other children are put before the key of child `c`. */
    method TurnBack(c: nat, key: InternalKey)
      requires Shape() && pos < |all| && c < |children| && key == all[pos].key
      modifies this`at, children, inners
      ensures Shape() && at[c] == old(at[c]) && OthersAt(all, parts, at, c, pos, false)
    {
      var i := 0;
      while i < |children|
        invariant 0 <= i <= |children| && Shape() && at[c] == old(at[c])
        invariant forall j :: 0 <= j < i && j != c ==> At(all, parts[j], at[j], pos, false)
      {
        if i != c {
          SeekBefore(i, key);
        }
        i := i + 1;
      }
    }

    /** After a change of direction the other children are put behind the current key. */
    method Next()
      requires Inv() && Valid()
      modifies this, children, inners
      ensures Inv() && pos == old(pos) + 1
    {
      var c := current.value;
      assert parts[c][at[c]] in parts[c];
      if direction != Forward {
        TurnForward(c, Key());
        Face(Forward);
      }
      Stepped(all, parts, at, c, pos);
      NextChild(c);
      TakeSmallest(pos + 1);
    }

    /** After a change of direction the other children are put before the current key. */
    method Prev()
      requires Inv() && Valid()
      modifies this, children, inners
      ensures Inv() && pos == Back(all, old(pos))
    {
      var c := current.value;
      if direction != Reverse {
        TurnBack(c, Key());
        Face(Reverse);
      }
      SteppedBack(all, parts, at, c, pos);
      PrevChild(c);
      TakeLargest(pos);
    }
  }

  /** A child's index of all[p] is its cut at p. */
  lemma IndexIsCut(all: seq<Entry>, es: seq<Entry>, p: nat, q: nat)
    requires Part(all, es) && p < |all| && q < |es| && es[q] == all[p]
    ensures q == CutOf(all, es, p)
  {
    CutOfNext(all, es, p);
    IndexOrder(es, q, CutOf(all, es, p));
  }

  lemma SameKey(a: InternalKey, b: InternalKey)
    requires !Less(a, b) && !Less(b, a)
    ensures a == b
  {
    TagInjective(a, b);
  }

  /** The entry just before a child's cut sorts at or before all[p - 1]. */
  lemma LastBefore(all: seq<Entry>, es: seq<Entry>, p: nat, j: nat)
    requires Part(all, es) && 0 < p <= |all| && j < |es| && j == Back(es, CutOf(all, es, p))
    ensures j < CutOf(all, es, p) && AtMost(es[j].key, all[p - 1].key)
  {
    CutOfIs(all, es, p);
    var n :| 0 <= n < p && all[..p][n] == es[j];
    IndexOrder(all, n, p - 1);
  }
}
