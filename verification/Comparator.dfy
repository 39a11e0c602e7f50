/** The order of user keys and of internal keys, and the shortened keys that index
    blocks use in place of full ones. */
module Comparators {
  import opened Coding
  import Keys

  // ----- bytewise order

  /** memcmp order, a proper prefix being smaller. */
  predicate Before(a: Bytes, b: Bytes) {
    b != [] && (a == [] || a[0] < b[0] || (a[0] == b[0] && Before(a[1..], b[1..])))
  }

  lemma {:induction false} Irreflexive(a: Bytes)
    ensures !Before(a, a)
  {
    if a != [] {
      Irreflexive(a[1..]);
    }
  }

  lemma {:induction false} Transitive(a: Bytes, b: Bytes, c: Bytes)
    requires Before(a, b) && Before(b, c)
    ensures Before(a, c)
  {
    if a != [] && a[0] == b[0] == c[0] {
      Transitive(a[1..], b[1..], c[1..]);
    }
  }

  lemma {:induction false} Trichotomy(a: Bytes, b: Bytes)
    ensures Before(a, b) || a == b || Before(b, a)
    ensures !(Before(a, b) && Before(b, a))
  {
    if a != [] && b != [] {
      Trichotomy(a[1..], b[1..]);
      if a[0] == b[0] && a[1..] == b[1..] {
        assert a == [a[0]] + a[1..];
        assert b == [b[0]] + b[1..];
      }
    }
  }

  /** Two keys that first differ at index `n`. */
  lemma {:induction false} FirstDifference(a: Bytes, b: Bytes, n: nat)
    requires n <= |a| && n < |b| && a[..n] == b[..n]
    requires n < |a| ==> a[n] < b[n]
    ensures Before(a, b)
  {
    if n > 0 {
      assert a[0] == a[..n][0] && b[0] == b[..n][0];
      assert a[1..][..n - 1] == a[..n][1..] && b[1..][..n - 1] == b[..n][1..];
      FirstDifference(a[1..], b[1..], n - 1);
    }
  }

  // ----- ranks

  ghost function Smaller(keys: set<Bytes>, k: Bytes): set<Bytes> {
    set x | x in keys && Before(x, k)
  }

  /** The number of smaller keys. */
  ghost function Rank(keys: set<Bytes>, k: Bytes): nat {
    |Smaller(keys, k)|
  }

  lemma SubsetSize<T>(a: set<T>, b: set<T>)
    requires a <= b
    ensures |a| <= |b| && (a != b ==> |a| < |b|)
    decreases a
  {
    if a != {} {
      var x :| x in a;
      SubsetSize(a - {x}, b - {x});
    } else if b != {} {
      var y :| y in b;
      assert b == {y} + (b - {y});
    }
  }

  /** Any finite set of byte strings has integer ranks in the same order, so what holds
      of keys compared as integers holds of keys compared as bytes. */
  lemma {:induction false} RankPreservesOrder(keys: set<Bytes>, a: Bytes, b: Bytes)
    requires a in keys && b in keys
    ensures Before(a, b) <==> Rank(keys, a) < Rank(keys, b)
    ensures a == b <==> Rank(keys, a) == Rank(keys, b)
  {
    Trichotomy(a, b);
    if Before(a, b) {
      RankGrows(keys, a, b);
    } else if Before(b, a) {
      RankGrows(keys, b, a);
    }
  }

  lemma {:induction false} RankGrows(keys: set<Bytes>, a: Bytes, b: Bytes)
    requires a in keys && Before(a, b)
    ensures Rank(keys, a) < Rank(keys, b)
  {
    forall x | x in Smaller(keys, a) ensures x in Smaller(keys, b) {
      Transitive(x, a, b);
    }
    Irreflexive(a);
    assert a in Smaller(keys, b) && a !in Smaller(keys, a);
    SubsetSize(Smaller(keys, a), Smaller(keys, b));
  }

  // ----- shortened user keys

  /** `i` is where the two first differ, and there is a byte between those they have there. */
  ghost predicate GapAt(start: Bytes, limit: Bytes, i: nat) {
    i < |start| && i < |limit| && start[..i] == limit[..i] && start[i] as int + 1 < limit[i] as int
  }

  /** The bytes in front of `i`, and the one at `i` increased. */
  function Raised(key: Bytes, i: nat): Bytes
    requires i < |key| && key[i] < 0xff
  {
    key[..i] + [key[i] as int + 1]
  }

  lemma FirstDiffers(start: Bytes, limit: Bytes, d: nat, i: nat)
    requires d <= |start| && d <= |limit| && start[..d] == limit[..d]
    requires d < |start| && d < |limit| ==> start[d] != limit[d]
    requires d == |start| || d == |limit| || i != d
    ensures !GapAt(start, limit, i)
  {
    if i < d {
      assert start[..d][i] == limit[..d][i];
    } else if d < i <= |start| && i <= |limit| {
      assert start[..i][d] == start[d] && limit[..i][d] == limit[d];
    }
  }

  /** FindShortestSeparator: where there is a byte to spare at the first difference, the shortest
      key that has it there, which lies strictly between; otherwise `start`. */
  method FindShortestSeparator(start: Bytes, limit: Bytes) returns (r: Bytes)
    ensures |r| <= |start|
    ensures r == start || (Before(start, r) && Before(r, limit))
    ensures forall i: nat :: GapAt(start, limit, i) ==> r == Raised(start, i)
    ensures (forall i: nat :: !GapAt(start, limit, i)) ==> r == start
  {
    r := start;
    var minLength := if |start| < |limit| then |start| else |limit|;
    var diffIndex := 0;
    while diffIndex < minLength && start[diffIndex] == limit[diffIndex]
      invariant 0 <= diffIndex <= minLength && start[..diffIndex] == limit[..diffIndex]
    {
      diffIndex := diffIndex + 1;
    }
    forall i: nat | diffIndex == minLength || i != diffIndex ensures !GapAt(start, limit, i) {
      FirstDiffers(start, limit, diffIndex, i);
    }
    if diffIndex < minLength {
      var diffByte := start[diffIndex];
      if diffByte < 0xff && diffByte as int + 1 < limit[diffIndex] as int {
        r := start[..diffIndex] + [diffByte as int + 1];
        assert GapAt(start, limit, diffIndex);
        assert r[..diffIndex] == start[..diffIndex];
        FirstDifference(start, r, diffIndex);
        FirstDifference(r, limit, diffIndex);
      }
    }
  }

  /** `i` is the first byte that can be increased. */
  ghost predicate RaisedAt(key: Bytes, i: nat) {
    i < |key| && key[i] != 0xff && forall j :: 0 <= j < i ==> key[j] == 0xff
  }

  /** FindShortSuccessor: `key`, or something larger that is not longer. */
  method FindShortSuccessor(key: Bytes) returns (r: Bytes)
    ensures |r| <= |key|
    ensures r == key || Before(key, r)
    ensures r == key <==> forall i :: 0 <= i < |key| ==> key[i] == 0xff
    ensures forall i: nat :: RaisedAt(key, i) ==> r == Raised(key, i)
    ensures r == key || exists i: nat :: RaisedAt(key, i)
  {
    var i := 0;
    while i < |key|
      invariant 0 <= i <= |key| && forall k :: 0 <= k < i ==> key[k] == 0xff
    {
      var byte := key[i];
      if byte != 0xff {
        r := key[..i] + [byte as int + 1];
        assert r[..i] == key[..i] && r[i] != key[i];
        assert RaisedAt(key, i);
        FirstDifference(key, r, i);
        return;
      }
      i := i + 1;
    }
    r := key;
  }

  // ----- internal keys

  /** A user key followed by its packed sequence number and type. */
  datatype Internal = Internal(user: Bytes, tag: nat)

  /** kMaxSequenceNumber with kValueTypeForSeek: the first tag of a user key. */
  const SEEK_TAG: nat := 0xff_ffff_ffff_ffff * 256 + 1

  predicate InternalBefore(a: Internal, b: Internal) {
    Before(a.user, b.user) || (a.user == b.user && a.tag > b.tag)
  }

  lemma InternalTransitive(a: Internal, b: Internal, c: Internal)
    requires InternalBefore(a, b) && InternalBefore(b, c)
    ensures InternalBefore(a, c)
  {
    if Before(a.user, b.user) && Before(b.user, c.user) {
      Transitive(a.user, b.user, c.user);
    }
  }

  lemma InternalTrichotomy(a: Internal, b: Internal)
    ensures InternalBefore(a, b) || a == b || InternalBefore(b, a)
    ensures !(InternalBefore(a, b) && InternalBefore(b, a))
  {
    Trichotomy(a.user, b.user);
    Irreflexive(a.user);
  }

  /** The internal key with its user key replaced by the rank among `keys`. */
  ghost function Ranked(keys: set<Bytes>, k: Internal): Keys.InternalKey {
    Keys.InternalKey(Rank(keys, k.user), k.tag / 256, k.tag % 256)
  }

  /** So the engine, which only compares, cannot tell ranked internal keys from real ones. */
  lemma RankedOrder(keys: set<Bytes>, a: Internal, b: Internal)
    requires a.user in keys && b.user in keys
    ensures InternalBefore(a, b) <==> Keys.Less(Ranked(keys, a), Ranked(keys, b))
    ensures Ranked(keys, a) == Ranked(keys, b) ==> a == b
  {
    RankPreservesOrder(keys, a.user, b.user);
    RankPreservesOrder(keys, b.user, a.user);
    Trichotomy(a.user, b.user);
    Irreflexive(a.user);
    assert Keys.Tag(Ranked(keys, a)) == a.tag && Keys.Tag(Ranked(keys, b)) == b.tag;
  }

  /** A place on the real line for every internal key: the bytes of the user key are the
      digits, and the tag, larger first, comes after the last one. */
  ghost function RankFrom(user: Bytes, tag: nat): real {
    if user == [] then TagRank(tag) / 258.0 else (user[0] as real + 1.0 + RankFrom(user[1..], tag)) / 258.0
  }

  ghost function TagRank(tag: nat): real {
    (WORD64 - 1 - tag) as real / WORD64 as real
  }

  ghost function InternalRank(k: Internal): real {
    RankFrom(k.user, k.tag)
  }

  lemma TagRankOrder(a: nat, b: nat)
    requires a < WORD64 && b < WORD64
    ensures 0.0 <= TagRank(a) < 1.0 && (a > b <==> TagRank(a) < TagRank(b))
  {
    if a > b {
      assert (WORD64 - 1 - a) as real < (WORD64 - 1 - b) as real;
    }
    if a < b {
      assert (WORD64 - 1 - a) as real > (WORD64 - 1 - b) as real;
    }
  }

  lemma {:induction false} RankBounds(user: Bytes, tag: nat)
    requires tag < WORD64
    ensures 0.0 <= RankFrom(user, tag) < 1.0
    decreases |user|
  {
    TagRankOrder(tag, tag);
    if user != [] {
      RankBounds(user[1..], tag);
    }
  }

  lemma {:induction false} UserRankOrder(a: Bytes, tagA: nat, b: Bytes, tagB: nat)
    requires tagA < WORD64 && tagB < WORD64 && Before(a, b)
    ensures RankFrom(a, tagA) < RankFrom(b, tagB)
    decreases |a|
  {
    TagRankOrder(tagA, tagB);
    RankBounds(b[1..], tagB);
    if a != [] {
      RankBounds(a[1..], tagA);
      if a[0] == b[0] {
        UserRankOrder(a[1..], tagA, b[1..], tagB);
      }
    }
  }

  lemma {:induction false} SameUserRank(user: Bytes, tagA: nat, tagB: nat)
    requires tagA < WORD64 && tagB < WORD64
    ensures tagA > tagB <==> RankFrom(user, tagA) < RankFrom(user, tagB)
    decreases |user|
  {
    TagRankOrder(tagA, tagB);
    if user != [] {
      SameUserRank(user[1..], tagA, tagB);
    }
  }

  /** The order of internal keys is the order of their ranks. */
  lemma InternalRankOrder(a: Internal, b: Internal)
    requires a.tag < WORD64 && b.tag < WORD64
    ensures InternalBefore(a, b) <==> InternalRank(a) < InternalRank(b)
    ensures InternalRank(a) == InternalRank(b) ==> a == b
  {
    InternalTrichotomy(a, b);
    if a.user == b.user {
      SameUserRank(a.user, a.tag, b.tag);
      SameUserRank(a.user, b.tag, a.tag);
      Irreflexive(a.user);
    } else if Before(a.user, b.user) {
      UserRankOrder(a.user, a.tag, b.user, b.tag);
    } else {
      UserRankOrder(b.user, b.tag, a.user, a.tag);
    }
  }

  /** `r` may stand for `last` in an index: it is `last`, or a shorter user key beyond
      it, with the first tag, so that no key at or before `r` has a later user key. */
  predicate StandsFor(last: Internal, r: Internal) {
    r == last || (|r.user| < |last.user| && Before(last.user, r.user) && r.tag == SEEK_TAG)
  }

  /** The separator of a block's last key and the next block's first key. */
  predicate Separates(last: Internal, r: Internal, first: Internal) {
    StandsFor(last, r) && (r == last || Before(r.user, first.user))
  }

  /** The user key is shortened exactly if there is a byte to spare in front of its last one. */
  method InternalSeparator(start: Internal, limit: Internal) returns (r: Internal)
    ensures Separates(start, r, limit)
    ensures forall i: nat :: GapAt(start.user, limit.user, i) && i + 1 < |start.user| ==>
      r == Internal(Raised(start.user, i), SEEK_TAG)
    ensures (forall i: nat :: GapAt(start.user, limit.user, i) ==> i + 1 >= |start.user|) ==> r == start
  {
    var tmp := FindShortestSeparator(start.user, limit.user);
    Irreflexive(start.user);
    r := start;
    if |tmp| < |start.user| && Before(start.user, tmp) {
      r := Internal(tmp, SEEK_TAG);
    }
  }

  method InternalSuccessor(key: Internal) returns (r: Internal)
    ensures StandsFor(key, r)
    ensures forall i: nat :: RaisedAt(key.user, i) && i + 1 < |key.user| ==>
      r == Internal(Raised(key.user, i), SEEK_TAG)
    ensures (forall i: nat :: RaisedAt(key.user, i) ==> i + 1 >= |key.user|) ==> r == key
  {
    var tmp := FindShortSuccessor(key.user);
    r := key;
    if |tmp| < |key.user| && Before(key.user, tmp) {
      r := Internal(tmp, SEEK_TAG);
    }
  }

  /** A separator is at least the last key and, when the keys are in order, below the
      next one. */
  lemma SeparatorBetween(last: Internal, r: Internal, first: Internal)
    requires InternalBefore(last, first) && Separates(last, r, first)
    ensures r == last || InternalBefore(last, r)
    ensures InternalBefore(r, first)
  {
  }
}
