/** The memtable's index: a skip list that readers may walk while one writer links a
    node in, one level after another. */
module SkipLists {
  const MAX_HEIGHT: nat := 12

  /** `rank` is the key's place in the comparator's order. */
  class Node<K> {
    const key: K
    ghost const rank: real
    var next: seq<Node?<K>>

    constructor (key: K, height: nat, ghost rank: real)
      ensures this.key == key && this.rank == rank
      ensures |next| == height && forall l :: 0 <= l < height ==> next[l] == null
    {
      this.key := key;
      this.rank := rank;
      next := seq(height, _ => null);
    }
  }

  // ----- the links that a list must have

  /** The first node after `i` that is linked at `level`, or the end. `reach[i]` is how
      many levels node `i` is linked at. */
  function NextAt(reach: seq<nat>, i: nat, level: nat): (j: nat)
    requires i < |reach|
    ensures i < j <= |reach|
    decreases |reach| - i
  {
    if i + 1 == |reach| || reach[i + 1] > level then i + 1 else NextAt(reach, i + 1, level)
  }

  /** The last node before `p` that is linked at `level`. */
  function LastBefore(reach: seq<nat>, p: nat, level: nat): (j: nat)
    requires 0 < p <= |reach|
    ensures j < p
  {
    if p == 1 || reach[p - 1] > level then p - 1 else LastBefore(reach, p - 1, level)
  }

  lemma {:induction false} NextIsFirst(reach: seq<nat>, i: nat, level: nat, k: nat)
    requires i < |reach|
    ensures i < k < NextAt(reach, i, level) ==> reach[k] <= level
    ensures NextAt(reach, i, level) < |reach| ==> reach[NextAt(reach, i, level)] > level
    decreases |reach| - i
  {
    if i + 1 < |reach| && reach[i + 1] <= level {
      NextIsFirst(reach, i + 1, level, k);
    }
  }

  /** `j` is the next node when it is linked and none between is. */
  lemma {:induction false} NextIs(reach: seq<nat>, i: nat, level: nat, j: nat)
    requires i < j <= |reach| && (j < |reach| ==> reach[j] > level)
    requires forall k :: i < k < j ==> reach[k] <= level
    ensures NextAt(reach, i, level) == j
    decreases j - i
  {
    if i + 1 < j {
      NextIs(reach, i + 1, level, j);
    }
  }

  lemma {:induction false} LastIs(reach: seq<nat>, p: nat, level: nat, j: nat)
    requires j < p <= |reach| && reach[j] > level
    requires forall k :: j < k < p ==> reach[k] <= level
    ensures LastBefore(reach, p, level) == j
    decreases p - j
  {
    if j < p - 1 {
      LastIs(reach, p - 1, level, j);
    }
  }

  ghost predicate Sorted<K>(nodes: seq<Node<K>>) {
    && (forall i, j :: 1 <= i < j < |nodes| ==> nodes[i].rank < nodes[j].rank)
    && (forall i, j :: 0 <= i < j < |nodes| ==> nodes[i] != nodes[j])
  }

  ghost predicate ReachOk<K>(reach: seq<nat>, links: seq<seq<Node?<K>>>, maxHeight: nat) {
    && |reach| == |links| && |reach| > 0 && reach[0] == MAX_HEIGHT
    && 1 <= maxHeight <= MAX_HEIGHT
    && (forall i :: 0 <= i < |reach| ==> reach[i] <= |links[i]|)
    && (forall i :: 1 <= i < |reach| ==> 1 <= reach[i] <= maxHeight)
  }

  ghost function NodeAt<K>(nodes: seq<Node<K>>, j: nat): Node?<K> {
    if j < |nodes| then nodes[j] else null
  }

  /** Every link leads to the next node of its level: each level is the sublist of the
      level below that holds the nodes reaching it. */
  ghost predicate LinksOk<K>(nodes: seq<Node<K>>, reach: seq<nat>, links: seq<seq<Node?<K>>>) {
    && |nodes| == |reach| == |links|
    && forall i, l :: 0 <= i < |nodes| && 0 <= l < reach[i] && l < |links[i]| ==>
         links[i][l] == NodeAt(nodes, NextAt(reach, i, l))
  }

  /** The first `n` nodes have the links they must have. */
  ghost predicate LinkedUpTo<K>(nodes: seq<Node<K>>, reach: seq<nat>, links: seq<seq<Node?<K>>>, n: nat) {
    n == 0 || (
      && LinkedUpTo(nodes, reach, links, n - 1)
      && n <= |nodes| == |reach| == |links|
      && NodeLinked(nodes, reach, links[n - 1], n - 1))
  }

  ghost predicate NodeLinked<K>(nodes: seq<Node<K>>, reach: seq<nat>, next: seq<Node?<K>>, i: nat)
    requires i < |reach|
  {
    forall l :: 0 <= l < |next| && l < reach[i] ==> next[l] == NodeAt(nodes, NextAt(reach, i, l))
  }

  lemma {:induction false} LinkedAt<K>(
    nodes: seq<Node<K>>, reach: seq<nat>, links: seq<seq<Node?<K>>>, n: nat, i: nat, l: nat)
    requires LinkedUpTo(nodes, reach, links, n) && i < n
    ensures i < |nodes| == |reach| == |links|
    ensures l < reach[i] && l < |links[i]| ==> links[i][l] == NodeAt(nodes, NextAt(reach, i, l))
  {
    if i < n - 1 {
      LinkedAt(nodes, reach, links, n - 1, i, l);
    }
  }

  lemma {:induction false} AllLinked<K>(nodes: seq<Node<K>>, reach: seq<nat>, links: seq<seq<Node?<K>>>, n: nat)
    requires LinksOk(nodes, reach, links) && n <= |nodes|
    ensures LinkedUpTo(nodes, reach, links, n)
  {
    if n > 0 {
      AllLinked(nodes, reach, links, n - 1);
    }
  }

  ghost predicate ListOk<K>(nodes: seq<Node<K>>, reach: seq<nat>, links: seq<seq<Node?<K>>>, maxHeight: nat) {
    && Increasing(nodes) && ReachOk(reach, links, maxHeight)
    && |nodes| == |reach| && LinkedUpTo(nodes, reach, links, |nodes|)
  }

  /** Keys increase behind the head, and no node occurs twice. */
  ghost predicate Increasing<K>(nodes: seq<Node<K>>) {
    |nodes| <= 1 || (Increasing(nodes[..|nodes| - 1]) && Tops(nodes))
  }

  /** The last node has the largest key. */
  ghost predicate Tops<K>(nodes: seq<Node<K>>)
    requires |nodes| > 0
  {
    forall i :: 0 <= i < |nodes| - 1 ==>
      nodes[i] != nodes[|nodes| - 1] && (i > 0 ==> nodes[i].rank < nodes[|nodes| - 1].rank)
  }

  lemma {:induction false} IncreasingIsSorted<K>(nodes: seq<Node<K>>)
    ensures Increasing(nodes) <==> Sorted(nodes)
  {
    if |nodes| > 1 {
      var front := nodes[..|nodes| - 1];
      IncreasingIsSorted(front);
      if Increasing(nodes) {
        assert Sorted(front);
        forall i, j | 0 <= i < j < |nodes| ensures nodes[i] != nodes[j] && (i > 0 ==> nodes[i].rank < nodes[j].rank) {
          if j < |nodes| - 1 {
            assert nodes[i] == front[i] && nodes[j] == front[j];
          }
        }
      }
      if Sorted(nodes) {
        assert Sorted(front);
      }
    }
  }

  /** Where a key of rank `r` belongs: the nodes before it are the head and the smaller keys. */
  ghost function Position<K>(nodes: seq<Node<K>>, r: real): (p: nat)
    requires |nodes| > 0
    ensures 1 <= p <= |nodes|
  {
    if |nodes| == 1 || nodes[|nodes| - 1].rank < r then |nodes| else Position(nodes[..|nodes| - 1], r)
  }

  lemma {:induction false} PositionSplits<K>(nodes: seq<Node<K>>, r: real)
    requires |nodes| > 0 && Increasing(nodes)
    ensures forall i :: 1 <= i < Position(nodes, r) ==> nodes[i].rank < r
    ensures forall i :: Position(nodes, r) <= i < |nodes| ==> nodes[i].rank >= r
  {
    IncreasingIsSorted(nodes);
    if |nodes| > 1 && nodes[|nodes| - 1].rank >= r {
      var front := nodes[..|nodes| - 1];
      PositionSplits(front, r);
      assert forall i :: 0 <= i < |front| ==> nodes[i] == front[i];
    }
  }

  lemma {:induction false} Absent<K>(nodes: seq<Node<K>>, r: real)
    requires |nodes| > 0 && Increasing(nodes) && forall i :: 1 <= i < |nodes| ==> nodes[i].rank != r
    ensures forall i :: 1 <= i < Position(nodes, r) ==> nodes[i].rank < r
    ensures forall i :: Position(nodes, r) <= i < |nodes| ==> r < nodes[i].rank
  {
    PositionSplits(nodes, r);
  }

  ghost function Keys<K>(nodes: seq<Node<K>>): (r: seq<K>)
    ensures |r| == |nodes| && forall i :: 0 <= i < |nodes| ==> r[i] == nodes[i].key
  {
    seq(|nodes|, i requires 0 <= i < |nodes| => nodes[i].key)
  }

  /** The links really stored in the nodes. */
  ghost predicate Holds<K>(nodes: seq<Node<K>>, links: seq<seq<Node?<K>>>)
    reads nodes
  {
    |links| == |nodes| && forall i :: 0 <= i < |nodes| ==> nodes[i].next == links[i]
  }

  /** One step of a search for the nodes before position `p`. */
  lemma {:induction false} SearchStep<K>(
    nodes: seq<Node<K>>, reach: seq<nat>, links: seq<seq<Node?<K>>>, maxHeight: nat, p: nat, i: nat, level: nat, j: nat)
    requires ListOk(nodes, reach, links, maxHeight) && i < p <= |nodes| && level < reach[i]
    requires j == NextAt(reach, i, level)
    ensures links[i][level] == NodeAt(nodes, j)
    ensures j < |nodes| ==> reach[j] > level
    ensures j >= p ==> LastBefore(reach, p, level) == i && (level == 0 ==> j == p)
  {
    LinkedAt(nodes, reach, links, |nodes|, i, level);
    NextIsFirst(reach, i, level, 0);
    if j >= p {
      forall k | i < k < p ensures reach[k] <= level {
        NextIsFirst(reach, i, level, k);
      }
      LastIs(reach, p, level, i);
    }
  }

  // ----- linking a new node

  lemma {:induction false} BottomBefore(reach: seq<nat>, p: nat)
    requires 0 < p <= |reach| && forall k :: 1 <= k < |reach| ==> reach[k] >= 1
    ensures LastBefore(reach, p, 0) == p - 1
  {
  }

  /** Only the head reaches a level above every node. */
  lemma {:induction false} UnusedLevel(reach: seq<nat>, p: nat, level: nat)
    requires 0 < p <= |reach| && forall k :: 1 <= k < |reach| ==> reach[k] <= level
    ensures LastBefore(reach, p, level) == 0
  {
    if p > 1 {
      UnusedLevel(reach, p - 1, level);
    }
  }

  ghost predicate IsInsert<T>(s: seq<T>, p: nat, x: T, r: seq<T>) {
    && p <= |s| && |r| == |s| + 1 && r[p] == x
    && (forall k :: 0 <= k < p ==> r[k] == s[k])
    && (forall k :: p < k <= |s| ==> r[k] == s[k - 1])
  }

  lemma Inserted<T>(s: seq<T>, p: nat, x: T) returns (r: seq<T>)
    requires p <= |s|
    ensures IsInsert(s, p, x, r)
  {
    r := s[..p] + [x] + s[p..];
  }

  /** Where node `j` is once a node was inserted at `p`. */
  function Shift(j: nat, p: nat): nat {
    if j < p then j else j + 1
  }

  lemma {:induction false} LastBeforeSame(a: seq<nat>, b: seq<nat>, p: nat, level: nat)
    requires 0 < p <= |a| && p <= |b| && forall k :: 0 <= k < p ==> a[k] == b[k]
    ensures LastBefore(a, p, level) == LastBefore(b, p, level)
  {
    if p > 1 {
      LastBeforeSame(a, b, p - 1, level);
    }
  }

  /** Above the bottom level a node linked only there does not show. */
  lemma {:induction false} NextShifted(reach: seq<nat>, p: nat, reach': seq<nat>, i: nat, level: nat)
    requires i < |reach| && 0 < p && level > 0 && IsInsert(reach, p, 1, reach')
    ensures NextAt(reach', Shift(i, p), level) == Shift(NextAt(reach, i, level), p)
  {
    var i', j := Shift(i, p), NextAt(reach, i, level);
    NextIsFirst(reach, i, level, 0);
    forall k | i' < k < Shift(j, p) ensures reach'[k] <= level {
      if k != p {
        NextIsFirst(reach, i, level, if k < p then k else k - 1);
      }
    }
    NextIs(reach', i', level, Shift(j, p));
  }

  /** At the bottom level every node is linked. */
  lemma {:induction false} NextAtBottom(reach: seq<nat>, i: nat)
    requires i < |reach| && forall k :: 1 <= k < |reach| ==> reach[k] >= 1
    ensures NextAt(reach, i, 0) == i + 1
  {
  }

  /** The links once `x` was put behind node `p - 1` at the bottom level. */
  ghost predicate Spliced<K>(links: seq<seq<Node?<K>>>, p: nat, x: Node<K>, links': seq<seq<Node?<K>>>)
    requires 0 < p <= |links|
  {
    && |links'| == |links| + 1
    && |links[p - 1]| > 0 && links'[p - 1] == links[p - 1][0 := x]
    && |links'[p]| > 0 && links'[p][0] == links[p - 1][0]
    && (forall k :: 0 <= k < p - 1 ==> links'[k] == links[k])
    && (forall k :: p < k <= |links| ==> links'[k] == links[k - 1])
  }

  lemma {:induction false} SplicedLink<K>(
    nodes: seq<Node<K>>, reach: seq<nat>, links: seq<seq<Node?<K>>>, maxHeight: nat, p: nat, x: Node<K>,
    nodes': seq<Node<K>>, reach': seq<nat>, links': seq<seq<Node?<K>>>, i: nat, l: nat)
    requires ListOk(nodes, reach, links, maxHeight) && 0 < p <= |nodes| && Spliced(links, p, x, links')
    requires IsInsert(nodes, p, x, nodes') && IsInsert(reach, p, 1, reach')
    requires i <= |nodes| && l < reach'[i] && l < |links'[i]|
    ensures links'[i][l] == NodeAt(nodes', NextAt(reach', i, l))
  {
    var k := if i < p then i else i - 1;
    LinkedAt(nodes, reach, links, |nodes|, k, l);
    if i == p {
      LinkedAt(nodes, reach, links, |nodes|, p - 1, l);
    }
    if l == 0 {
      NextAtBottom(reach', i);
      NextAtBottom(reach, k);
    } else {
      SplicedUpper(reach, links, p, x, reach', links', i, l);
      NextShifted(reach, p, reach', k, l);
    }
  }

  lemma SplicedUpper<K>(
    reach: seq<nat>, links: seq<seq<Node?<K>>>, p: nat, x: Node<K>, reach': seq<nat>, links': seq<seq<Node?<K>>>,
    i: nat, l: nat)
    requires |reach| == |links| && 0 < p <= |reach| && Spliced(links, p, x, links') && IsInsert(reach, p, 1, reach')
    requires i <= |reach| && 0 < l < reach'[i] && l < |links'[i]|
    ensures i != p
    ensures var k := if i < p then i else i - 1;
            l < |links[k]| && l < reach[k] && links'[i][l] == links[k][l]
  {
  }

  /** The first atomic step of an insertion keeps the list well formed. */
  lemma SpliceOk<K>(
    nodes: seq<Node<K>>, reach: seq<nat>, links: seq<seq<Node?<K>>>, maxHeight: nat, p: nat, x: Node<K>,
    nodes': seq<Node<K>>, reach': seq<nat>, links': seq<seq<Node?<K>>>)
    requires ListOk(nodes, reach, links, maxHeight) && 0 < p <= |nodes| && Spliced(links, p, x, links')
    requires x !in nodes && IsInsert(nodes, p, x, nodes') && IsInsert(reach, p, 1, reach')
    requires forall i :: 1 <= i < p ==> nodes[i].rank < x.rank
    requires forall i :: p <= i < |nodes| ==> x.rank < nodes[i].rank
    ensures ListOk(nodes', reach', links', maxHeight)
  {
    IncreasingIsSorted(nodes);
    IncreasingIsSorted(nodes');
    assert ReachOk(reach', links', maxHeight);
    forall i, l | 0 <= i < |nodes'| && 0 <= l < reach'[i] && l < |links'[i]|
      ensures links'[i][l] == NodeAt(nodes', NextAt(reach', i, l))
    {
      SplicedLink(nodes, reach, links, maxHeight, p, x, nodes', reach', links', i, l);
    }
    AllLinked(nodes', reach', links', |nodes'|);
  }

  /** Raising node `x` to one more level changes the next node of its predecessor there
      and of nothing else. */
  lemma NextRaised(reach: seq<nat>, x: nat, level: nat, i: nat, l: nat)
    requires 0 < x < |reach| && reach[x] == level && reach[0] > level
    requires i < |reach| && l < reach[x := level + 1][i]
    ensures NextAt(reach[x := level + 1], i, l)
         == if l == level && i == LastBefore(reach, x, level) then x
            else if l == level && i == x then NextAt(reach, LastBefore(reach, x, level), level)
            else NextAt(reach, i, l)
  {
    var reach' := reach[x := level + 1];
    var j, pi := NextAt(reach, i, l), LastBefore(reach, x, level);
    LastIsLast(reach, x, level);
    NextIsFirst(reach, i, l, 0);
    forall k | i < k < j ensures reach[k] <= l {
      NextIsFirst(reach, i, l, k);
    }
    if l == level && i == pi {
      NextIs(reach', i, l, x);
    } else if l == level && i == x {
      NextIsFirst(reach, pi, level, 0);
      forall k | pi < k < NextAt(reach, pi, level) ensures reach[k] <= level {
        NextIsFirst(reach, pi, level, k);
      }
      NextIs(reach', i, l, NextAt(reach, pi, level));
    } else {
      NextIs(reach', i, l, j);
    }
  }

  lemma {:induction false} LastIsLast(reach: seq<nat>, p: nat, level: nat)
    requires 0 < p <= |reach| && reach[0] > level
    ensures reach[LastBefore(reach, p, level)] > level
    ensures forall k :: LastBefore(reach, p, level) < k < p ==> reach[k] <= level
  {
    if p > 1 && reach[p - 1] <= level {
      LastIsLast(reach, p - 1, level);
    }
  }

  /** Every later atomic step, linking node `x` at one more level, does too. */
  lemma {:induction false} RaiseOk<K>(
    nodes: seq<Node<K>>, reach: seq<nat>, links: seq<seq<Node?<K>>>, maxHeight: nat, x: nat, level: nat,
    links': seq<seq<Node?<K>>>)
    requires ListOk(nodes, reach, links, maxHeight) && 0 < x < |nodes|
    requires reach[x] == level < maxHeight && level < |links[x]|
    requires var pi := LastBefore(reach, x, level);
             && level < |links[pi]|
             && links' == links[x := links[x][level := links[pi][level]]][pi := links[pi][level := nodes[x]]]
    ensures ListOk(nodes, reach[x := level + 1], links', maxHeight)
  {
    var reach' := reach[x := level + 1];
    var pi := LastBefore(reach, x, level);
    LastIsLast(reach, x, level);
    assert ReachOk(reach', links', maxHeight);
    forall i, l | 0 <= i < |nodes| && 0 <= l < reach'[i] && l < |links'[i]|
      ensures links'[i][l] == NodeAt(nodes, NextAt(reach', i, l))
    {
      NextRaised(reach, x, level, i, l);
      LinkedAt(nodes, reach, links, |nodes|, i, l);
      LinkedAt(nodes, reach, links, |nodes|, pi, level);
    }
    AllLinked(nodes, reach', links', |nodes|);
  }

  lemma ContentsInserted<K>(nodes: seq<Node<K>>, p: nat, x: Node<K>, nodes': seq<Node<K>>)
    requires 0 < p && IsInsert(nodes, p, x, nodes')
    ensures IsInsert(Keys(nodes[1..]), p - 1, x.key, Keys(nodes'[1..]))
    ensures forall n :: n in nodes' ==> n in nodes || n == x
  {
    forall n | n in nodes' ensures n in nodes || n == x {
      var i :| 0 <= i < |nodes'| && nodes'[i] == n;
      if i < p {
        assert nodes[i] == n;
      } else if i > p {
        assert nodes[i - 1] == n;
      }
    }
  }

  // ----- the levels

  /** The nodes met when following the links of one level from node `i`. */
  ghost function Walk<K>(nodes: seq<Node<K>>, reach: seq<nat>, i: nat, level: nat): seq<Node<K>>
    requires i < |nodes| == |reach|
    decreases |nodes| - i
  {
    var j := NextAt(reach, i, level);
    if j == |nodes| then [] else [nodes[j]] + Walk(nodes, reach, j, level)
  }

  ghost predicate Sublist<K>(a: seq<Node<K>>, b: seq<Node<K>>)
    decreases |b|
  {
    a == [] || (b != [] && (if a[0] == b[0] then Sublist(a[1..], b[1..]) else Sublist(a, b[1..])))
  }

  lemma HigherIsFurther(reach: seq<nat>, i: nat, level: nat)
    requires i < |reach|
    ensures NextAt(reach, i, level) <= NextAt(reach, i, level + 1)
    ensures NextAt(reach, i, level) < NextAt(reach, i, level + 1) ==>
              NextAt(reach, NextAt(reach, i, level), level + 1) == NextAt(reach, i, level + 1)
    decreases |reach| - i
  {
    if i + 1 < |reach| && reach[i + 1] <= level {
      HigherIsFurther(reach, i + 1, level);
    }
  }

  /** In a well-formed list every level is a sublist of the level below. */
  lemma LevelsNest<K>(nodes: seq<Node<K>>, reach: seq<nat>, i: nat, level: nat)
    requires i < |nodes| == |reach| && Sorted(nodes)
    ensures Sublist(Walk(nodes, reach, i, level + 1), Walk(nodes, reach, i, level))
    decreases |nodes| - i
  {
    HigherIsFurther(reach, i, level);
    var low, high := NextAt(reach, i, level), NextAt(reach, i, level + 1);
    if high < |nodes| {
      LevelsNest(nodes, reach, low, level);
    }
  }

  /** Following the links that are really stored visits exactly that level, with keys
      strictly increasing. */
  lemma {:induction false} LevelIsSorted<K>(
    nodes: seq<Node<K>>, reach: seq<nat>, links: seq<seq<Node?<K>>>, maxHeight: nat, i: nat, level: nat)
    requires ListOk(nodes, reach, links, maxHeight) && i < |nodes| && level < reach[i]
    ensures var walk := Walk(nodes, reach, i, level);
            && level < |links[i]|
            && (if walk == [] then links[i][level] == null else links[i][level] == walk[0])
            && (i > 0 ==> forall k :: 0 <= k < |walk| ==> nodes[i].rank < walk[k].rank)
            && (forall k, m :: 0 <= k < m < |walk| ==> walk[k].rank < walk[m].rank)
    decreases |nodes| - i
  {
    LinkedAt(nodes, reach, links, |nodes|, i, level);
    NextIsFirst(reach, i, level, 0);
    var j := NextAt(reach, i, level);
    if j < |nodes| {
      LevelIsSorted(nodes, reach, links, maxHeight, j, level);
      if i > 0 {
        KeyOrder(nodes, i, j);
      }
    }
  }

  lemma {:induction false} KeyOrder<K>(nodes: seq<Node<K>>, i: nat, j: nat)
    requires Increasing(nodes) && i < j < |nodes|
    ensures nodes[i] != nodes[j] && (i > 0 ==> nodes[i].rank < nodes[j].rank)
  {
    IncreasingIsSorted(nodes);
  }

  lemma {:induction false} HeadOnly<K>(nodes: seq<Node<K>>, i: nat)
    requires Increasing(nodes) && i < |nodes|
    ensures nodes[i] == nodes[0] <==> i == 0
  {
    if i > 0 {
      KeyOrder(nodes, 0, i);
    }
  }

  /** The comparator `before` is a strict weak order: `rank` shows its place for every key. */
  class SkipList<K(!new)> {
    const before: (K, K) -> bool
    ghost const rank: K -> real
    const head: Node<K>
    var maxHeight: nat
    ghost var nodes: seq<Node<K>>
    ghost var reach: seq<nat>
    ghost var links: seq<seq<Node?<K>>>

    ghost predicate Compares() {
      forall a: K, b: K :: before(a, b) <==> rank(a) < rank(b)
    }

    ghost predicate Ranked()
      reads this
    {
      forall i :: 1 <= i < |nodes| ==> nodes[i].rank == rank(nodes[i].key)
    }

    ghost predicate Valid()
      reads this, nodes
    {
      && |nodes| > 0 && nodes[0] == head && Holds(nodes, links) && ListOk(nodes, reach, links, maxHeight)
      && Compares() && Ranked()
    }

    /** The keys in the list, in order. */
    ghost function Contents(): seq<K>
      requires Valid()
      reads this, nodes
    {
      Keys(nodes[1..])
    }

    /** Any key will do for the head. */
    constructor (before: (K, K) -> bool, any: K, ghost rank: K -> real)
      requires forall a: K, b: K :: before(a, b) <==> rank(a) < rank(b)
      ensures Valid() && Contents() == [] && fresh(nodes) && this.before == before && this.rank == rank
    {
      this.before := before;
      this.rank := rank;
      head := new Node(any, MAX_HEIGHT, 0.0);
      maxHeight := 1;
      new;
      nodes := [head];
      reach := [MAX_HEIGHT];
      links := [head.next];
    }

    lemma ContentsSorted()
      requires Valid()
      ensures forall i, j :: 0 <= i < j < |Contents()| ==> rank(Contents()[i]) < rank(Contents()[j])
    {
      forall i, j | 0 <= i < j < |Contents()| ensures rank(Contents()[i]) < rank(Contents()[j]) {
        KeyOrder(nodes, i + 1, j + 1);
        assert Contents()[i] == nodes[i + 1].key && Contents()[j] == nodes[j + 1].key;
      }
    }

    /** The first node not before `key`, and its predecessor at every level in use. */
    method FindGreaterOrEqual(key: K) returns (n: Node?<K>, prev: seq<Node<K>>)
      requires Valid()
      ensures n == NodeAt(nodes, Position(nodes, rank(key)))
      ensures |prev| == MAX_HEIGHT
      ensures forall l :: 0 <= l < maxHeight ==> prev[l] == nodes[LastBefore(reach, Position(nodes, rank(key)), l)]
    {
      var x := head;
      var level := maxHeight - 1;
      prev := seq(MAX_HEIGHT, _ => head);
      ghost var i, p := 0, Position(nodes, rank(key));
      PositionSplits(nodes, rank(key));
      while true
        invariant 0 <= level < maxHeight && 0 <= i < p && x == nodes[i] && reach[i] > level
        invariant |prev| == MAX_HEIGHT
        invariant forall l :: level < l < maxHeight ==> prev[l] == nodes[LastBefore(reach, p, l)]
        decreases level, p - i
      {
        ghost var j := NextAt(reach, i, level);
        SearchStep(nodes, reach, links, maxHeight, p, i, level, j);
        var next := x.next[level];
        if next != null && before(next.key, key) {
          x := next;
          i := j;
        } else {
          prev := prev[level := x];
          if level == 0 {
            return next, prev;
          }
          level := level - 1;
        }
      }
    }

    /** A key that compares equal is in the list. */
    method Contains(key: K) returns (found: bool)
      requires Valid()
      ensures found <==> exists i :: 0 <= i < |Contents()| && rank(Contents()[i]) == rank(key)
    {
      var x, _ := FindGreaterOrEqual(key);
      PositionSplits(nodes, rank(key));
      ghost var p := Position(nodes, rank(key));
      if x != null && !before(x.key, key) && !before(key, x.key) {
        assert Contents()[p - 1] == x.key;
        return true;
      }
      forall i | 0 <= i < |Contents()| ensures rank(Contents()[i]) != rank(key) {
        assert Contents()[i] == nodes[i + 1].key;
        if p < i + 1 {
          KeyOrder(nodes, p, i + 1);
        }
      }
      return false;
    }

    /** The last node before `key`, the head if there is none. */
    method FindLessThan(key: K) returns (x: Node<K>)
      requires Valid()
      ensures x == nodes[Position(nodes, rank(key)) - 1]
    {
      x := head;
      var level := maxHeight - 1;
      ghost var i, p := 0, Position(nodes, rank(key));
      PositionSplits(nodes, rank(key));
      while true
        invariant 0 <= level < maxHeight && 0 <= i < p && x == nodes[i] && reach[i] > level
        decreases level, p - i
      {
        ghost var j := NextAt(reach, i, level);
        SearchStep(nodes, reach, links, maxHeight, p, i, level, j);
        var next := x.next[level];
        if next == null || !before(next.key, key) {
          if level == 0 {
            return;
          }
          level := level - 1;
        } else {
          x := next;
          i := j;
        }
      }
    }

    method FindLast() returns (x: Node<K>)
      requires Valid()
      ensures x == nodes[|nodes| - 1]
    {
      x := head;
      var level := maxHeight - 1;
      ghost var i := 0;
      while true
        invariant 0 <= level < maxHeight && 0 <= i < |nodes| && x == nodes[i] && reach[i] > level
        decreases level, |nodes| - i
      {
        ghost var j := NextAt(reach, i, level);
        SearchStep(nodes, reach, links, maxHeight, |nodes|, i, level, j);
        var next := x.next[level];
        if next == null {
          if level == 0 {
            return;
          }
          level := level - 1;
        } else {
          x := next;
          i := j;
        }
      }
    }

    /** The node is published at the bottom level. */
    method LinkBottom(x: Node<K>, prev: Node<K>, ghost p: nat)
      requires Valid() && x !in nodes && 1 <= |x.next| <= maxHeight && x.rank == rank(x.key)
      requires 0 < p <= |nodes| && prev == nodes[p - 1]
      requires forall i :: 1 <= i < p ==> nodes[i].rank < x.rank
      requires forall i :: p <= i < |nodes| ==> x.rank < nodes[i].rank
      modifies this`nodes, this`reach, this`links, x, prev
      ensures Valid() && IsInsert(old(nodes), p, x, nodes) && IsInsert(old(reach), p, 1, reach)
      ensures |x.next| == old(|x.next|)
    {
      ghost var nodes' := Inserted(nodes, p, x);
      ghost var reach' := Inserted(reach, p, 1);
      ghost var links' := SetBottom(x, prev, nodes, links, p, nodes');
      SpliceOk(nodes, reach, links, maxHeight, p, x, nodes', reach', links');
      nodes := nodes';
      reach := reach';
      links := links';
    }

    /** The two assignments of the linking loop, at the bottom level. */
    static method SetBottom(
      x: Node<K>, prev: Node<K>, ghost ns: seq<Node<K>>, ghost links: seq<seq<Node?<K>>>, ghost p: nat,
      ghost ns': seq<Node<K>>)
      returns (ghost links': seq<seq<Node?<K>>>)
      requires x !in ns && 0 < p <= |ns| && prev == ns[p - 1] && Increasing(ns) && IsInsert(ns, p, x, ns')
      requires Holds(ns, links)
      requires |x.next| > 0 && |prev.next| > 0
      modifies x, prev
      ensures Holds(ns', links') && Spliced(links, p, x, links') && |x.next| == old(|x.next|)
    {
      IncreasingIsSorted(ns);
      x.next := x.next[0 := prev.next[0]];
      prev.next := prev.next[0 := x];
      links' := Inserted(links[p - 1 := links[p - 1][0 := x]], p, x.next);
    }

    /** The node is published at one more level. */
    method LinkLevel(x: Node<K>, level: nat, prev: Node<K>, ghost i: nat)
      requires Valid() && 0 < i < |nodes| && nodes[i] == x && reach[i] == level < |x.next| && level < maxHeight
      requires prev == nodes[LastBefore(reach, i, level)]
      modifies this`reach, this`links, x, prev
      ensures Valid() && reach == old(reach)[i := level + 1]
      ensures |x.next| == old(|x.next|)
    {
      ghost var pi := LastBefore(reach, i, level);
      LastIsLast(reach, i, level);
      IncreasingIsSorted(nodes);
      x.next := x.next[level := prev.next[level]];
      prev.next := prev.next[level := x];
      ghost var links' := links[i := links[i][level := links[pi][level]]][pi := links[pi][level := x]];
      RaiseOk(nodes, reach, links, maxHeight, i, level, links');
      reach := reach[i := level + 1];
      links := links';
    }

    /** The height is random in the engine; any height will do. */
    method Insert(key: K, height: nat)
      requires Valid() && 1 <= height <= MAX_HEIGHT
      requires forall i :: 0 <= i < |Contents()| ==> rank(Contents()[i]) != rank(key)
      modifies this, nodes
      ensures Valid() && forall n :: n in nodes && n !in old(nodes) ==> fresh(n)
      ensures IsInsert(old(Contents()), Position(old(nodes), rank(key)) - 1, key, Contents())
    {
      var n, prev := FindGreaterOrEqual(key);
      ghost var p := Position(nodes, rank(key));
      forall i | 1 <= i < |nodes| ensures nodes[i].rank != rank(key) {
        assert Contents()[i - 1] == nodes[i].key;
      }
      Absent(nodes, rank(key));
      prev := RaiseHeight(height, prev, p);
      var x := new Node(key, height, rank(key));
      Link(x, prev, p);
    }

    /** The linking loop. */
    method Link(x: Node<K>, prev: seq<Node<K>>, ghost p: nat)
      requires Valid() && x !in nodes && 1 <= |x.next| <= maxHeight && x.rank == rank(x.key)
      requires 0 < p <= |nodes| && |prev| == MAX_HEIGHT
      requires forall l :: 0 <= l < |x.next| ==> prev[l] == nodes[LastBefore(reach, p, l)]
      requires forall i :: 1 <= i < p ==> nodes[i].rank < x.rank
      requires forall i :: p <= i < |nodes| ==> x.rank < nodes[i].rank
      modifies this`nodes, this`reach, this`links, x, nodes
      ensures Valid() && IsInsert(old(Contents()), p - 1, x.key, Contents())
      ensures forall n :: n in nodes ==> n in old(nodes) || n == x
    {
      ghost var reach0, nodes0 := reach, nodes;
      BottomBefore(reach, p);
      LinkBottom(x, prev[0], p);
      ghost var linked := nodes;
      LinkUpper(x, prev, p, reach0, |x.next|);
      assert nodes == linked;
      ContentsInserted(nodes0, p, x, linked);
    }

    /** Above the old height the head is the predecessor. */
    method RaiseHeight(height: nat, prev: seq<Node<K>>, ghost p: nat) returns (prev': seq<Node<K>>)
      requires Valid() && height <= MAX_HEIGHT && |prev| == MAX_HEIGHT && 0 < p <= |nodes|
      requires forall l :: 0 <= l < maxHeight ==> prev[l] == nodes[LastBefore(reach, p, l)]
      modifies this`maxHeight
      ensures Valid() && maxHeight >= height && |prev'| == MAX_HEIGHT
      ensures forall l :: 0 <= l < height ==> prev'[l] == nodes[LastBefore(reach, p, l)]
    {
      prev' := prev;
      if height > maxHeight {
        var i := maxHeight;
        while i < height
          invariant maxHeight <= i <= height && |prev'| == MAX_HEIGHT
          invariant forall l :: 0 <= l < i ==> prev'[l] == nodes[LastBefore(reach, p, l)]
        {
          UnusedLevel(reach, p, i);
          prev' := prev'[i := head];
          i := i + 1;
        }
        maxHeight := height;
      }
    }

    /** The rest of the linking loop: every iteration leaves a well-formed list. */
    method LinkUpper(x: Node<K>, prev: seq<Node<K>>, ghost p: nat, ghost before: seq<nat>, height: nat)
      requires Valid() && 0 < p < |nodes| && nodes[p] == x && IsInsert(before, p, 1, reach)
      requires 1 <= height <= maxHeight && height == |x.next| && |prev| == MAX_HEIGHT
      requires forall l :: 0 <= l < height ==> prev[l] == nodes[LastBefore(before, p, l)]
      modifies this`reach, this`links, nodes
      ensures Valid() && |x.next| == height
    {
      var i := 1;
      while i < height
        invariant 1 <= i <= height == |x.next|
        invariant Valid() && IsInsert(before, p, i, reach)
      {
        LastBeforeSame(before, reach, p, i);
        LinkLevel(x, i, prev[i], p);
        i := i + 1;
      }
    }
  }

  /** A reader's position; `pos` counts the keys before it. */
  class Iterator<K(!new)> {
    const list: SkipList<K>
    var node: Node?<K>
    ghost var pos: nat

    /** `node` is the key at `pos`, none past the end. */
    ghost predicate At()
      reads this, list, list.nodes
    {
      list.Valid() && pos <= |list.Contents()| && node == NodeAt(list.nodes, pos + 1)
    }

    constructor (list: SkipList<K>)
      requires list.Valid()
      ensures this.list == list && At() && node == null
    {
      this.list := list;
      node := null;
      pos := |list.Contents()|;
    }

    method Next()
      requires At() && node != null
      modifies this
      ensures At() && pos == old(pos) + 1
    {
      LinkedAt(list.nodes, list.reach, list.links, |list.nodes|, pos + 1, 0);
      NextAtBottom(list.reach, pos + 1);
      node := node.next[0];
      pos := pos + 1;
    }

    /** Before the first key the iterator is not positioned any more. */
    method Prev()
      requires At() && node != null
      modifies this
      ensures At() && pos == if old(pos) == 0 then |list.Contents()| else old(pos) - 1
    {
      PositionIs(list.nodes, pos + 1);
      var before := list.FindLessThan(node.key);
      assert before == list.nodes[pos];
      HeadOnly(list.nodes, pos);
      if before == list.head {
        node, pos := null, |list.Contents()|;
      } else {
        node, pos := before, pos - 1;
      }
    }

    method Seek(target: K)
      requires At()
      modifies this
      ensures At()
      ensures forall i :: 0 <= i < pos ==> list.rank(list.Contents()[i]) < list.rank(target)
      ensures forall i :: pos <= i < |list.Contents()| ==> list.rank(list.Contents()[i]) >= list.rank(target)
    {
      var n, _ := list.FindGreaterOrEqual(target);
      PositionSplits(list.nodes, list.rank(target));
      node := n;
      pos := Position(list.nodes, list.rank(target)) - 1;
    }

    method SeekToFirst()
      requires At()
      modifies this
      ensures At() && pos == 0
    {
      LinkedAt(list.nodes, list.reach, list.links, |list.nodes|, 0, 0);
      NextAtBottom(list.reach, 0);
      node := list.head.next[0];
      pos := 0;
    }

    method SeekToLast()
      requires At()
      modifies this
      ensures At() && pos == if list.Contents() == [] then 0 else |list.Contents()| - 1
    {
      node := list.FindLast();
      if |list.nodes| > 1 {
        KeyOrder(list.nodes, 0, |list.nodes| - 1);
      }
      if node == list.head {
        node := null;
        pos := 0;
      } else {
        pos := |list.Contents()| - 1;
      }
    }
  }

  lemma {:induction false} PositionIs<K>(nodes: seq<Node<K>>, i: nat)
    requires 1 <= i < |nodes| && Increasing(nodes)
    ensures Position(nodes, nodes[i].rank) == i
  {
    var p := Position(nodes, nodes[i].rank);
    PositionSplits(nodes, nodes[i].rank);
    if p < i {
      KeyOrder(nodes, p, i);
    }
  }
}
