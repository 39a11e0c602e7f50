/** Internal keys, their order, and what a read at a sequence number sees.

    The engine touches user keys only through a total order, so a user key is
    represented by an integer rank in that order (`Comparators.RankPreservesOrder`
    shows that any finite set of byte strings has such ranks). */
module Keys {
  import Coding

  type UserKey = int
  type Byte = Coding.Byte

  const KIND_DELETION: Byte := 0
  const KIND_VALUE: Byte := 1
  const KIND_FOR_SEEK: Byte := KIND_VALUE
  const MAX_SEQUENCE: nat := 0xff_ffff_ffff_ffff

  datatype InternalKey = InternalKey(user: UserKey, sn: nat, kind: Byte)
  datatype Entry = Entry(key: InternalKey, value: string)
  datatype Answer = Found(value: string) | NotFound | Corrupt

  /** The packed (sequence, kind) trailer; larger means newer. */
  function Tag(k: InternalKey): nat {
    k.sn * 256 + k.kind
  }

  /** Increasing user key, then decreasing trailer. */
  predicate Less(a: InternalKey, b: InternalKey) {
    a.user < b.user || (a.user == b.user && Tag(a) > Tag(b))
  }

  predicate AtMost(a: InternalKey, b: InternalKey) {
    !Less(b, a)
  }

  /** The kind byte is one the engine writes (ParseInternalKey succeeds). */
  predicate Parses(k: InternalKey) {
    k.kind <= KIND_VALUE
  }

  /** The key at which a read of `user` at sequence `s` starts. */
  function SeekKey(user: UserKey, s: nat): InternalKey {
    InternalKey(user, s, KIND_FOR_SEEK)
  }

  lemma TagInjective(a: InternalKey, b: InternalKey)
    requires Tag(a) == Tag(b)
    ensures a.sn == b.sn && a.kind == b.kind
  {
  }

  /** What the newest visible entry means to a reader. */
  function Meaning(e: Entry): Answer {
    if !Parses(e.key) then Corrupt
    else if e.key.kind == KIND_VALUE then Found(e.value) else NotFound
  }

  // ----- sets of entries read at a sequence number

  ghost function SetOf(es: seq<Entry>): set<Entry> {
    set e | e in es
  }

  /** The entry belongs to user key `k` and does not sort before the seek key. */
  predicate Candidate(e: Entry, k: UserKey, s: nat) {
    e.key.user == k && Tag(e.key) <= Tag(SeekKey(k, s))
  }

  lemma CandidateIsOldEnough(e: Entry, k: UserKey, s: nat)
    requires Parses(e.key)
    ensures Candidate(e, k, s) <==> e.key.user == k && e.key.sn <= s
  {
  }

  ghost predicate IsNewest(es: set<Entry>, k: UserKey, s: nat, e: Entry) {
    && e in es && Candidate(e, k, s)
    && forall x :: x in es && Candidate(x, k, s) ==> Tag(x.key) <= Tag(e.key)
  }

  ghost predicate HasCandidate(es: set<Entry>, k: UserKey, s: nat) {
    exists e :: e in es && Candidate(e, k, s)
  }

  /** No two entries share an internal key. */
  ghost predicate KeyUnique(es: set<Entry>) {
    forall a, b :: a in es && b in es && a.key == b.key ==> a == b
  }

  /** Every entry of `es` is newer than every entry of `fs` for the same user key. */
  ghost predicate NewerThan(es: set<Entry>, fs: set<Entry>) {
    forall a, b :: a in es && b in fs && a.key.user == b.key.user ==> Tag(a.key) > Tag(b.key)
  }

  ghost predicate AllParse(es: set<Entry>) {
    forall e :: e in es ==> Parses(e.key)
  }

  lemma NewestExists(es: set<Entry>, k: UserKey, s: nat)
    requires HasCandidate(es, k, s)
    ensures exists e :: IsNewest(es, k, s, e)
    decreases es
  {
    var e :| e in es && Candidate(e, k, s);
    var rest := es - {e};
    if HasCandidate(rest, k, s) {
      NewestExists(rest, k, s);
      var n :| IsNewest(rest, k, s, n);
      if Tag(n.key) <= Tag(e.key) {
        assert IsNewest(es, k, s, e);
      } else {
        assert IsNewest(es, k, s, n);
      }
    } else {
      assert forall x :: x in es ==> x == e || x in rest;
      assert IsNewest(es, k, s, e);
    }
  }

  /** The answer of a read of `k` at sequence `s` over a flat set of entries. */
  ghost function Visible(es: set<Entry>, k: UserKey, s: nat): Answer {
    if HasCandidate(es, k, s) then
      NewestExists(es, k, s);
      var e :| IsNewest(es, k, s, e);
      Meaning(e)
    else NotFound
  }

  lemma VisibleNewest(es: set<Entry>, k: UserKey, s: nat, e: Entry)
    requires KeyUnique(es)
    requires IsNewest(es, k, s, e)
    ensures Visible(es, k, s) == Meaning(e)
  {
    assert HasCandidate(es, k, s);
    NewestExists(es, k, s);
    var n :| IsNewest(es, k, s, n) && Visible(es, k, s) == Meaning(n);
    TagInjective(n.key, e.key);
  }

  /** Dropping entries that are neither the newest nor visible changes nothing. */
  lemma VisibleSubset(big: set<Entry>, small: set<Entry>, k: UserKey, s: nat, e: Entry)
    requires KeyUnique(big) && small <= big
    requires IsNewest(big, k, s, e) && e in small
    ensures Visible(small, k, s) == Visible(big, k, s)
  {
    assert KeyUnique(small);
    assert IsNewest(small, k, s, e);
    VisibleNewest(small, k, s, e);
    VisibleNewest(big, k, s, e);
  }

  /** Reading layers in order, newest layer first: the first layer that has a
      candidate decides. */
  lemma VisibleLayers(top: set<Entry>, below: set<Entry>, k: UserKey, s: nat)
    requires KeyUnique(top + below) && NewerThan(top, below)
    ensures Visible(top + below, k, s)
         == if HasCandidate(top, k, s) then Visible(top, k, s) else Visible(below, k, s)
  {
    var all := top + below;
    if HasCandidate(top, k, s) {
      NewestExists(top, k, s);
      var e :| IsNewest(top, k, s, e);
      assert IsNewest(all, k, s, e);
      VisibleSubset(all, top, k, s, e);
    } else if HasCandidate(below, k, s) {
      NewestExists(below, k, s);
      var e :| IsNewest(below, k, s, e);
      assert IsNewest(all, k, s, e);
      VisibleSubset(all, below, k, s, e);
    } else {
      assert !HasCandidate(all, k, s);
    }
  }

  /** Two reads with the same candidates get the same answer. */
  lemma VisibleSame(es: set<Entry>, s: nat, fs: set<Entry>, s': nat, k: UserKey)
    requires KeyUnique(es) && KeyUnique(fs)
    requires forall x :: x in es && Candidate(x, k, s) ==> x in fs && Candidate(x, k, s')
    requires forall x :: x in fs && Candidate(x, k, s') ==> x in es && Candidate(x, k, s)
    ensures Visible(es, k, s) == Visible(fs, k, s')
  {
    if HasCandidate(es, k, s) {
      NewestExists(es, k, s);
      var e :| IsNewest(es, k, s, e);
      assert IsNewest(fs, k, s', e);
      VisibleNewest(es, k, s, e);
      VisibleNewest(fs, k, s', e);
    }
  }
}
