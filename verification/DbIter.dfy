/** DBIter (db/db_iter.cc): the user-visible view of an internal iterator. */
module DbIter {
  import opened Options
  import opened Keys
  import opened Version
  import opened Cursor
  import opened Merger

  // ----- what a reader at sequence `s` may see

  /** The entry parses and is old enough. */
  predicate VisibleAt(es: seq<Entry>, s: nat, i: nat)
    requires i < |es|
  {
    Parses(es[i].key) && es[i].key.sn <= s
  }

  /** The entry is the newest visible one of its user key, and it is a value. */
  predicate LiveAt(es: seq<Entry>, s: nat, i: nat)
    requires i < |es|
  {
    && VisibleAt(es, s, i) && es[i].key.kind == KIND_VALUE
    && forall j :: 0 <= j < i && VisibleAt(es, s, j) ==> es[j].key.user != es[i].key.user
  }

  /** The first live index at or after `i`, or |es|. */
  function NextLive(es: seq<Entry>, s: nat, i: nat): (r: nat)
    requires i <= |es|
    ensures i <= r <= |es|
    ensures r < |es| ==> LiveAt(es, s, r)
    ensures forall j :: i <= j < r ==> !LiveAt(es, s, j)
    decreases |es| - i
  {
    if i == |es| || LiveAt(es, s, i) then i else NextLive(es, s, i + 1)
  }

  /** The last live index before `i`, or |es|. */
  function PrevLive(es: seq<Entry>, s: nat, i: nat): (r: nat)
    requires i <= |es|
    ensures r < i || r == |es|
    ensures r < |es| ==> LiveAt(es, s, r) && r < i
    ensures forall j :: 0 <= j < i && (r == |es| || r < j) ==> !LiveAt(es, s, j)
  {
    if i == 0 then |es|
    else if LiveAt(es, s, i - 1) then i - 1
    else PrevLive(es, s, i - 1)
  }

  /** Some entry from `from` up to `to` cannot be read. */
  predicate Unreadable(es: seq<Entry>, from: nat, to: nat)
    decreases to
  {
    from < to && ((to <= |es| && !Parses(es[to - 1].key)) || Unreadable(es, from, to - 1))
  }

  lemma {:induction false} UnreadableIff(es: seq<Entry>, from: nat, to: nat)
    requires to <= |es|
    ensures Unreadable(es, from, to) <==> exists j :: from <= j < to && !Parses(es[j].key)
  {
    if from < to {
      UnreadableIff(es, from, to - 1);
    }
  }

  lemma {:induction false} UnreadableSplit(es: seq<Entry>, from: nat, mid: nat, to: nat)
    requires from <= mid <= to <= |es|
    ensures Unreadable(es, from, to) <==> Unreadable(es, from, mid) || Unreadable(es, mid, to)
  {
    if mid < to {
      UnreadableSplit(es, from, mid, to - 1);
    }
  }

  class DBIter {
    const iter: MergingIterator
    const sequence: nat
    var direction: Direction
    var valid: bool
    var savedKey: Option<UserKey>
    var savedValue: string
    var corrupt: bool
    ghost var cur: nat

    /** The internal iterator is none of this one's parts. */
    ghost predicate Steady()
      reads iter, iter.children, iter.inners
    {
      this !in iter.inners && iter.Inv()
    }

    /** `cur` is the live index the iterator stands at. */
    ghost predicate Inv()
      reads this, iter, iter.children, iter.inners
    {
      && Steady()
      && (valid <==> cur < |iter.all|) && cur <= |iter.all|
      && (valid ==> LiveAt(iter.all, sequence, cur))
      && (valid && direction == Forward ==> iter.pos == cur)
      && (valid && direction == Reverse ==> JustBefore(cur) && savedValue == iter.all[cur].value)
    }

    /** Moving backwards: the internal iterator stands before every entry of the
        current user key, and nothing visible lies in between. */
    ghost predicate JustBefore(c: nat)
      reads this, iter
    {
      && c < |iter.all| && savedKey == Some(iter.all[c].key.user)
      && (iter.Valid() ==> iter.pos < c && iter.all[iter.pos].key.user < savedKey.value)
      && forall j :: (iter.Valid() ==> iter.pos < j) && 0 <= j < c ==> !VisibleAt(iter.all, sequence, j)
    }

    constructor (iter: MergingIterator, s: nat)
      requires iter.Inv()
      ensures Inv() && !valid && !corrupt && this.iter == iter && sequence == s
    {
      this.iter := iter;
      sequence := s;
      direction := Forward;
      valid := false;
      savedKey := None;
      savedValue := "";
      corrupt := false;
      cur := |iter.all|;
    }

    function Key(): (k: UserKey)
      requires Inv() && valid
      reads this, iter, iter.children, iter.inners
      ensures k == iter.all[cur].key.user
    {
      if direction == Forward then iter.Key().user else savedKey.value
    }

    function Value(): (v: string)
      requires Inv() && valid
      reads this, iter, iter.children, iter.inners
      ensures v == iter.all[cur].value
    {
      if direction == Forward then iter.Value() else savedValue
    }

    /** ParseInternalKey; an entry that does not parse is remembered and skipped. */
    method ParseKey() returns (ok: bool)
      requires Steady() && iter.Valid()
      modifies this`corrupt
      ensures Steady() && (ok <==> Parses(iter.all[iter.pos].key)) && (corrupt <==> old(corrupt) || !ok)
    {
      ok := Parses(iter.Key());
      if !ok {
        corrupt := true;
      }
    }

    /** The iterator now stands where the internal one does. */
    method Settle()
      requires Steady() && iter.Valid() && direction == Forward && LiveAt(iter.all, sequence, iter.pos)
      modifies this`valid, this`savedKey, this`cur
      ensures Inv() && valid && cur == iter.pos
    {
      valid := true;
      savedKey := None;
      cur := iter.pos;
    }

    /** There is no further entry to stand at. */
    method GiveUp()
      requires Steady()
      modifies this`valid, this`savedKey, this`cur
      ensures Inv() && !valid && cur == |iter.all|
    {
      valid := false;
      savedKey := None;
      cur := |iter.all|;
    }

    /** Scans forward for the first live entry whose user key `skip0` does not hide. */
    method FindNextUserEntry(skip0: Option<UserKey>)
      requires Steady() && iter.Valid() && direction == Forward
      requires SkipCovers(iter.all, sequence, iter.pos, skip0)
      modifies this`valid, this`savedKey, this`corrupt, this`cur, iter, iter.children, iter.inners
      ensures Inv() && old(iter.pos) <= cur
      ensures valid && skip0.Some? ==> iter.all[cur].key.user > skip0.value
      ensures NothingMissed(iter.all, sequence, old(iter.pos), cur, skip0)
      ensures corrupt <==> old(corrupt) || Unreadable(iter.all, old(iter.pos), cur)
    {
      var skip := skip0;
      ghost var start := iter.pos;
      var more := true;
      while more
        invariant Steady() && (more <==> iter.Valid())
        invariant Scanning(iter.all, sequence, start, iter.pos, skip0, skip)
        invariant corrupt <==> old(corrupt) || Unreadable(iter.all, start, iter.pos)
        decreases |iter.all| - iter.pos
      {
        var found;
        found, skip := ReadAhead(start, skip0, skip);
        if found {
          Settle();
          return;
        }
        more := iter.Valid();
      }
      GiveUp();
    }

    /** One turn of the forward scan: an entry to stop at, or one more passed over. */
    method ReadAhead(ghost start: nat, ghost skip0: Option<UserKey>, skip: Option<UserKey>)
      returns (found: bool, next: Option<UserKey>)
      requires Steady() && iter.Valid() && Scanning(iter.all, sequence, start, iter.pos, skip0, skip)
      modifies this`corrupt, iter, iter.children, iter.inners
      ensures Steady()
      ensures found ==>
        && iter.Valid() && iter.pos == old(iter.pos) && corrupt == old(corrupt)
        && LiveAt(iter.all, sequence, iter.pos) && (skip0.Some? ==> iter.all[iter.pos].key.user > skip0.value)
        && Scanning(iter.all, sequence, start, iter.pos, skip0, skip)
      ensures !found ==>
        && iter.pos == old(iter.pos) + 1 && Scanning(iter.all, sequence, start, iter.pos, skip0, next)
        && (corrupt <==> old(corrupt) || !Parses(iter.all[old(iter.pos)].key))
    {
      ScanStep(iter.all, sequence, start, iter.pos, skip0, skip);
      next := skip;
      var key := iter.Key();
      var ok := ParseKey();
      if ok && key.sn <= sequence {
        if key.kind == KIND_DELETION {
          next := Some(key.user);
        } else {
          if skip.Some? && key.user <= skip.value {
            // hidden
          } else {
            return true, next;
          }
        }
      }
      iter.Next();
      found := false;
    }

    /** What was read backward is remembered, up to the internal iterator. */
    ghost predicate Remembered(start: nat, left: nat, valueType: Byte, last: nat)
      reads this, iter
    {
      && Backing(iter.all, sequence, start, left, valueType, last)
      && (valueType != KIND_DELETION ==>
            savedKey == Some(iter.all[last].key.user) && savedValue == iter.all[last].value)
    }

    /** The internal iterator has come to the group before that of a live entry. */
    ghost predicate Passed(valueType: Byte, last: nat)
      reads this, iter
    {
      && valueType != KIND_DELETION && iter.pos < |iter.all| && last < |iter.all| && LiveAt(iter.all, sequence, last)
      && savedKey.Some? && iter.all[iter.pos].key.user < savedKey.value
    }

    /** A visible entry read backward replaces what was remembered. */
    method Remember(key: InternalKey, ghost start: nat, ghost valueType0: Byte, ghost last0: nat)
      returns (valueType: Byte)
      requires Steady() && iter.Valid() && key == iter.Key() && Parses(key) && key.sn <= sequence
      requires Backing(iter.all, sequence, start, iter.pos + 1, valueType0, last0)
      requires valueType0 == KIND_DELETION || key.user == iter.all[last0].key.user
      modifies this`savedKey, this`savedValue
      ensures valueType == key.kind && Remembered(start, iter.pos, valueType, iter.pos)
    {
      BackStep(iter.all, sequence, start, iter.pos, valueType0, last0);
      valueType := key.kind;
      if valueType == KIND_DELETION {
        savedKey := None;
        savedValue := "";
      } else {
        savedKey := Some(key.user);
        savedValue := iter.Value();
      }
    }

    /** One turn of the backward scan: whether it goes on, and with what. */
    method ReadBack(ghost start: nat, valueType0: Byte, ghost last0: nat)
      returns (more: bool, valueType: Byte, ghost last: nat)
      requires Steady() && iter.Valid() && Remembered(start, iter.pos + 1, valueType0, last0)
      modifies this`savedKey, this`savedValue, this`corrupt, iter, iter.children, iter.inners
      ensures Steady() && Remembered(start, Left(), valueType, last)
      ensures more ==> iter.Valid() && Left() < old(Left())
      ensures !more && iter.Valid() ==> Passed(valueType, last)
      ensures !more ==> Left() <= old(Left())
      ensures corrupt <==> old(corrupt) || Unreadable(iter.all, Left(), old(Left()))
    {
      BackStep(iter.all, sequence, start, iter.pos, valueType0, last0);
      var key := iter.Key();
      var ok := ParseKey();
      valueType, last := valueType0, last0;
      if ok && key.sn <= sequence && valueType != KIND_DELETION && key.user < savedKey.value {
        return false, valueType, last;
      }
      if ok && key.sn <= sequence {
        UsersSorted(iter.all, iter.pos, if valueType == KIND_DELETION then iter.pos else last);
        valueType := Remember(key, start, valueType, last);
        last := iter.pos;
      }
      iter.Prev();
      more := iter.Valid();
    }

    /** Reads backward until a whole group of visible entries with a live one is behind. */
    method ScanBack(ghost start: nat) returns (valueType: Byte, ghost last: nat)
      requires Steady() && iter.Valid() && start == iter.pos + 1
      modifies this`savedKey, this`savedValue, this`corrupt, iter, iter.children, iter.inners
      ensures Steady() && Remembered(start, Left(), valueType, last)
      ensures iter.Valid() ==> Passed(valueType, last)
      ensures corrupt <==> old(corrupt) || Unreadable(iter.all, Left(), start)
    {
      last := |iter.all|;
      valueType := KIND_DELETION;
      var more := true;
      while more
        invariant Steady() && (more ==> iter.Valid()) && Remembered(start, Left(), valueType, last)
        invariant !more && iter.Valid() ==> Passed(valueType, last)
        invariant corrupt <==> old(corrupt) || Unreadable(iter.all, Left(), start)
        decreases Left(), more
      {
        ghost var left := Left();
        more, valueType, last := ReadBack(start, valueType, last);
        UnreadableSplit(iter.all, Left(), left, start);
      }
    }

    /** Scans backward, group by group, for the last live entry at or before the
        internal iterator. */
    method FindPrevUserEntry()
      requires Steady() && direction == Reverse
      modifies this`valid, this`savedKey, this`savedValue, this`corrupt, this`cur, this`direction, iter, iter.children,
        iter.inners
      ensures Inv()
      ensures cur == if old(iter.Valid()) then PrevLive(iter.all, sequence, old(iter.pos) + 1) else |iter.all|
      ensures corrupt <==> old(corrupt) || Unreadable(iter.all, Left(), old(Left()))
    {
      ghost var start := if iter.Valid() then iter.pos + 1 else 0;
      ghost var last: nat := |iter.all|;
      var valueType: Byte := KIND_DELETION;
      if iter.Valid() {
        valueType, last := ScanBack(start);
      }
      if valueType == KIND_DELETION {
        valid := false;
        savedKey := None;
        savedValue := "";
        direction := Forward;
        cur := |iter.all|;
        PrevLiveIs(iter.all, sequence, start, 0);
      } else {
        valid := true;
        cur := last;
        PrevLiveIs(iter.all, sequence, start, last + 1);
        assert LiveAt(iter.all, sequence, last);
      }
    }

    /** Onto the first entry that Next looks at; returns the user key to skip past. */
    method TurnForward() returns (skip: Option<UserKey>)
      requires Inv() && valid
      modifies this`direction, iter, iter.children, iter.inners
      ensures Steady() && direction == Forward && iter.Valid() && iter.pos == old(ReadTo()) <= cur < |iter.all|
      ensures skip == Some(iter.all[cur].key.user) && LiveAt(iter.all, sequence, cur)
      ensures forall j :: iter.pos <= j < cur ==> !VisibleAt(iter.all, sequence, j)
    {
      if direction == Reverse {
        direction := Forward;
        if !iter.Valid() {
          iter.SeekToFirst();
        } else {
          iter.Next();
        }
        if !iter.Valid() {
          // The entries of the current key are still ahead.
          assert false;
        }
        skip := savedKey;
      } else {
        skip := Some(iter.Key().user);
      }
    }

    method Next()
      requires Inv() && valid
      modifies this, iter, iter.children, iter.inners
      ensures Inv() && cur == NextLive(iter.all, sequence, old(cur) + 1)
      ensures corrupt <==> old(corrupt) || Unreadable(iter.all, old(ReadTo()), cur)
    {
      ghost var was := cur;
      var skip := TurnForward();
      SkipFromHere(iter.all, sequence, was, iter.pos);
      ghost var from := iter.pos;
      FindNextUserEntry(skip);
      NextFound(iter.all, sequence, was, from, cur);
    }

    /** In front of the entries of the current user key. */
    method TurnBack()
      requires Steady() && iter.Valid()
      modifies this`savedKey, iter, iter.children, iter.inners
      ensures Steady() && Left() == UserIndex(iter.all, iter.all[old(iter.pos)].key.user) <= old(iter.pos)
      ensures forall i :: Left() <= i <= old(iter.pos) ==> iter.all[i].key.user == iter.all[old(iter.pos)].key.user
    {
      ghost var was := iter.pos;
      savedKey := Some(iter.Key().user);
      while true
        invariant Steady() && iter.Valid() && iter.pos <= was && savedKey == Some(iter.all[was].key.user)
        invariant forall i :: iter.pos <= i <= was ==> iter.all[i].key.user == savedKey.value
        decreases iter.pos
      {
        UsersSorted(iter.all, if iter.pos == 0 then 0 else iter.pos - 1, was);
        iter.Prev();
        if !iter.Valid() {
          GroupStart(iter.all, was, 0);
          return;
        }
        if iter.Key().user < savedKey.value {
          GroupStart(iter.all, was, iter.pos + 1);
          return;
        }
      }
    }

    method Prev()
      requires Inv() && valid
      modifies this, iter, iter.children, iter.inners
      ensures Inv() && cur == PrevLive(iter.all, sequence, old(cur))
      ensures corrupt <==> old(corrupt) || Unreadable(iter.all, Left(), old(ReadFrom()))
    {
      ghost var was := cur;
      if direction == Forward {
        TurnBack();
        if !iter.Valid() {
          savedValue := "";
          GiveUp();
          PrevFound(iter.all, sequence, was, 0);
          return;
        }
        direction := Reverse;
      }
      PrevFound(iter.all, sequence, was, Left());
      FindPrevUserEntry();
    }

    /** Scans forward from where the internal iterator was put. */
    method FindFromHere()
      requires Steady() && direction == Forward && SkipCovers(iter.all, sequence, iter.pos, None)
      modifies this`valid, this`savedKey, this`corrupt, this`cur, iter, iter.children, iter.inners
      ensures Inv() && old(iter.pos) <= cur && NothingMissed(iter.all, sequence, old(iter.pos), cur, None)
      ensures corrupt <==> old(corrupt) || Unreadable(iter.all, old(iter.pos), cur)
    {
      if iter.Valid() {
        FindNextUserEntry(None);
      } else {
        valid := false;
        cur := |iter.all|;
      }
    }

    method Seek(target: UserKey)
      requires Steady()
      modifies this, iter, iter.children, iter.inners
      ensures Inv() && cur == NextLive(iter.all, sequence, UserIndex(iter.all, target))
      ensures corrupt <==> old(corrupt) || Unreadable(iter.all, SeekIndex(iter.all, SeekKey(target, sequence)), cur)
    {
      direction := Forward;
      savedValue := "";
      savedKey := None;
      iter.Seek(SeekKey(target, sequence));
      ghost var from := iter.pos;
      SeekStart(iter.all, sequence, target);
      FindFromHere();
      SeekFound(iter.all, sequence, UserIndex(iter.all, target), from, cur);
    }

    method SeekToFirst()
      requires Steady()
      modifies this, iter, iter.children, iter.inners
      ensures Inv() && cur == NextLive(iter.all, sequence, 0)
      ensures corrupt <==> old(corrupt) || Unreadable(iter.all, 0, cur)
    {
      direction := Forward;
      savedValue := "";
      iter.SeekToFirst();
      FindFromHere();
      SeekFound(iter.all, sequence, 0, 0, cur);
    }

    method SeekToLast()
      requires Steady()
      modifies this, iter, iter.children, iter.inners
      ensures Inv() && cur == PrevLive(iter.all, sequence, |iter.all|)
      ensures corrupt <==> old(corrupt) || Unreadable(iter.all, Left(), |iter.all|)
    {
      direction := Reverse;
      savedValue := "";
      iter.SeekToLast();
      FindPrevUserEntry();
    }

    /** Where Next goes on to look. */
    ghost function ReadTo(): nat
      requires Inv() && valid
      reads this, iter, iter.children, iter.inners
    {
      if direction == Forward then cur else Left()
    }

    /** How many entries Prev may go on to look at. */
    ghost function ReadFrom(): nat
      requires Inv() && valid
      reads this, iter, iter.children, iter.inners
    {
      if direction == Forward then UserIndex(iter.all, iter.all[cur].key.user) else Left()
    }

    /** How many entries are still at or before the internal iterator. */
    ghost function Left(): nat
      reads iter
    {
      if iter.Valid() then iter.pos + 1 else 0
    }
  }

  // ----- where the scans start and stop

  /** The first index whose user key is at least `target`. */
  function UserIndex(es: seq<Entry>, target: UserKey): (i: nat)
    ensures i <= |es|
    ensures forall j :: 0 <= j < i ==> es[j].key.user < target
    ensures i < |es| ==> es[i].key.user >= target
  {
    if es == [] || es[0].key.user >= target then 0 else 1 + UserIndex(es[1..], target)
  }

  /** Where the entries of a user key start. */
  lemma {:induction false} GroupStart(es: seq<Entry>, c: nat, p: nat)
    requires SortedKeys(es) && p <= c < |es| && (p > 0 ==> es[p - 1].key.user < es[c].key.user)
    requires forall i :: p <= i <= c ==> es[i].key.user == es[c].key.user
    ensures UserIndex(es, es[c].key.user) == p
  {
    var u := UserIndex(es, es[c].key.user);
    assert es[p].key.user == es[c].key.user;
    forall j | 0 <= j < p ensures es[j].key.user < es[c].key.user {
      UsersSorted(es, j, p - 1);
    }
  }

  lemma {:induction false} NextLiveIs(es: seq<Entry>, s: nat, i: nat, r: nat)
    requires i <= r <= |es| && (r < |es| ==> LiveAt(es, s, r))
    requires forall j :: i <= j < r ==> !LiveAt(es, s, j)
    ensures NextLive(es, s, i) == r
  {
  }

  lemma {:induction false} PrevLiveIs(es: seq<Entry>, s: nat, i: nat, p: nat)
    requires p <= i <= |es| && forall j :: p <= j < i ==> !LiveAt(es, s, j)
    ensures PrevLive(es, s, i) == PrevLive(es, s, p)
  {
  }

  /** Around the live entry `c`: `p` is at or before it with nothing visible in between. */
  lemma SkipFromHere(es: seq<Entry>, s: nat, c: nat, p: nat)
    requires SortedKeys(es) && p <= c < |es| && LiveAt(es, s, c)
    requires forall j :: p <= j < c ==> !VisibleAt(es, s, j)
    ensures SkipCovers(es, s, p, Some(es[c].key.user))
  {
    forall i, j | 0 <= j < p <= i < |es| && VisibleAt(es, s, j) && es[i].key.user == es[j].key.user
      ensures es[i].key.user <= es[c].key.user
    {
      UsersSorted(es, j, c);
    }
    forall i | p <= i < |es| && VisibleAt(es, s, i) ensures es[c].key.user <= es[i].key.user {
      UsersSorted(es, c, if i < c then c else i);
    }
  }

  lemma {:induction false} NextFound(es: seq<Entry>, s: nat, c: nat, from: nat, r: nat)
    requires SortedKeys(es) && from <= c < |es| && LiveAt(es, s, c) && from <= r <= |es|
    requires r < |es| ==> LiveAt(es, s, r) && es[r].key.user > es[c].key.user
    requires NothingMissed(es, s, from, r, Some(es[c].key.user))
    ensures NextLive(es, s, c + 1) == r
  {
    if r <= c {
      UsersSorted(es, r, c);
    }
    forall j | c < j < r ensures !LiveAt(es, s, j) {
      UsersSorted(es, c, j);
    }
    NextLiveIs(es, s, c + 1, r);
  }

  lemma {:induction false} PrevFound(es: seq<Entry>, s: nat, c: nat, p: nat)
    requires p <= c < |es| && LiveAt(es, s, c)
    requires forall i :: p <= i < c ==> es[i].key.user == es[c].key.user || !VisibleAt(es, s, i)
    ensures PrevLive(es, s, c) == PrevLive(es, s, p)
  {
    PrevLiveIs(es, s, c, p);
  }

  /** Entries before the seek position are too new or belong to smaller user keys. */
  lemma {:induction false} SeekStart(es: seq<Entry>, s: nat, target: UserKey)
    requires SortedKeys(es)
    ensures var p := SeekIndex(es, SeekKey(target, s));
      && UserIndex(es, target) <= p && SkipCovers(es, s, p, None)
      && forall i :: UserIndex(es, target) <= i < p ==> !VisibleAt(es, s, i)
  {
    var p := SeekIndex(es, SeekKey(target, s));
    var u := UserIndex(es, target);
    forall i, j | 0 <= j < p <= i < |es| && VisibleAt(es, s, j) ensures es[i].key.user != es[j].key.user {
      UsersSorted(es, p, i);
    }
  }

  lemma {:induction false} SeekFound(es: seq<Entry>, s: nat, u: nat, from: nat, r: nat)
    requires u <= from <= r <= |es| && (r < |es| ==> LiveAt(es, s, r))
    requires forall i :: u <= i < from ==> !VisibleAt(es, s, i)
    requires NothingMissed(es, s, from, r, None)
    ensures NextLive(es, s, u) == r
  {
    NextLiveIs(es, s, u, r);
  }

  // ----- the forward scan

  /** A user key seen before `p` and again from `p` on is hidden by `skip`, and
      nothing visible from `p` on sorts before `skip`. */
  ghost predicate SkipCovers(es: seq<Entry>, s: nat, p: nat, skip: Option<UserKey>)
    requires p <= |es|
  {
    && (forall i, j :: 0 <= j < p <= i < |es| && VisibleAt(es, s, j) && es[i].key.user == es[j].key.user ==>
          skip.Some? && es[i].key.user <= skip.value)
    && (forall i :: p <= i < |es| && VisibleAt(es, s, i) && skip.Some? ==> skip.value <= es[i].key.user)
  }

  /** Every live entry passed over belongs to a user key that `skip` hides. */
  ghost predicate NothingMissed(es: seq<Entry>, s: nat, from: nat, to: nat, skip: Option<UserKey>) {
    forall i :: from <= i < to && i < |es| && LiveAt(es, s, i) ==> skip.Some? && es[i].key.user <= skip.value
  }

  ghost predicate Scanning(es: seq<Entry>, s: nat, start: nat, p: nat, skip0: Option<UserKey>, skip: Option<UserKey>) {
    && start <= p <= |es| && SkipCovers(es, s, p, skip) && NothingMissed(es, s, start, p, skip0)
    && (skip0.Some? ==> skip.Some? && skip0.value <= skip.value)
    && (skip != skip0 ==> forall i :: p <= i < |es| && skip.Some? && es[i].key.user <= skip.value ==> !LiveAt(es, s, i))
  }

  lemma UsersSorted(es: seq<Entry>, i: nat, j: nat)
    requires SortedKeys(es) && i <= j < |es|
    ensures es[i].key.user <= es[j].key.user
  {
    assert i < j ==> Less(es[i].key, es[j].key);
  }

  lemma SkipDeletion(es: seq<Entry>, s: nat, p: nat, skip: Option<UserKey>)
    requires SortedKeys(es) && p < |es| && SkipCovers(es, s, p, skip) && VisibleAt(es, s, p)
    ensures SkipCovers(es, s, p + 1, Some(es[p].key.user))
    ensures forall i :: p < i < |es| && es[i].key.user <= es[p].key.user ==> !LiveAt(es, s, i)
  {
    forall i, j | 0 <= j <= p < i < |es| && VisibleAt(es, s, j) && es[i].key.user == es[j].key.user
      ensures es[i].key.user <= es[p].key.user
    {
      UsersSorted(es, j, p);
      UsersSorted(es, p, i);
    }
    forall i | p < i < |es| ensures es[p].key.user <= es[i].key.user {
      UsersSorted(es, p, i);
    }
  }

  lemma SkipOther(es: seq<Entry>, s: nat, p: nat, skip: Option<UserKey>)
    requires p < |es| && SkipCovers(es, s, p, skip)
    requires VisibleAt(es, s, p) ==> skip.Some? && es[p].key.user <= skip.value
    ensures SkipCovers(es, s, p + 1, skip)
  {
  }

  lemma ScanStep(
    es: seq<Entry>, s: nat, start: nat, p: nat, skip0: Option<UserKey>, skip: Option<UserKey>)
    requires SortedKeys(es) && p < |es| && Scanning(es, s, start, p, skip0, skip)
    ensures !VisibleAt(es, s, p) ==> Scanning(es, s, start, p + 1, skip0, skip)
    ensures VisibleAt(es, s, p) && es[p].key.kind == KIND_DELETION ==>
      Scanning(es, s, start, p + 1, skip0, Some(es[p].key.user))
    ensures VisibleAt(es, s, p) && es[p].key.kind != KIND_DELETION ==>
      if skip.Some? && es[p].key.user <= skip.value then Scanning(es, s, start, p + 1, skip0, skip)
      else LiveAt(es, s, p) && (skip0.Some? ==> es[p].key.user > skip0.value)
  {
    if VisibleAt(es, s, p) && es[p].key.kind == KIND_DELETION {
      SkipDeletion(es, s, p, skip);
    } else if VisibleAt(es, s, p) && !(skip.Some? && es[p].key.user <= skip.value) {
      forall j | 0 <= j < p && VisibleAt(es, s, j) ensures es[j].key.user != es[p].key.user {
      }
    } else {
      SkipOther(es, s, p, skip);
    }
  }

  // ----- the backward scan

  /** Entries at or above index `left` and below `start` have been read; `last` is the
      visible value read last, unless `valueType` says the last visible one was a deletion. */
  ghost predicate Backing(es: seq<Entry>, s: nat, start: nat, left: nat, valueType: Byte, last: nat) {
    && left <= start <= |es|
    && (valueType == KIND_DELETION ==> forall i :: left <= i < start ==> !LiveAt(es, s, i))
    && (valueType != KIND_DELETION ==>
          && left <= last < start && VisibleAt(es, s, last) && es[last].key.kind == KIND_VALUE
          && (forall i :: left <= i < last ==> !VisibleAt(es, s, i))
          && forall i :: last < i < start ==> !LiveAt(es, s, i))
  }

  lemma BackStep(es: seq<Entry>, s: nat, start: nat, p: nat, valueType: Byte, last: nat)
    requires SortedKeys(es) && p < |es| && Backing(es, s, start, p + 1, valueType, last)
    ensures !VisibleAt(es, s, p) ==> Backing(es, s, start, p, valueType, last)
    ensures VisibleAt(es, s, p) && (valueType == KIND_DELETION || es[p].key.user == es[last].key.user) ==>
      Backing(es, s, start, p, es[p].key.kind, p)
    ensures VisibleAt(es, s, p) && valueType != KIND_DELETION && es[p].key.user != es[last].key.user ==>
      es[p].key.user < es[last].key.user && LiveAt(es, s, last)
  {
    if VisibleAt(es, s, p) && valueType != KIND_DELETION {
      UsersSorted(es, p, last);
      if es[p].key.user != es[last].key.user {
        forall j | 0 <= j < last && VisibleAt(es, s, j) ensures es[j].key.user != es[last].key.user {
          if j <= p { UsersSorted(es, j, p); }
        }
      }
    }
  }

  // ----- live entries are exactly what reads find

  lemma EarlierIsNewer(es: seq<Entry>, i: nat, j: nat)
    requires SortedKeys(es) && i < |es| && j < |es| && es[i].key.user == es[j].key.user
    ensures Tag(es[i].key) < Tag(es[j].key) ==> j < i
    ensures j < i ==> Tag(es[i].key) < Tag(es[j].key)
  {
    assert i < j ==> Less(es[i].key, es[j].key);
    assert j < i ==> Less(es[j].key, es[i].key);
  }

  /** A live index holds the answer of a read of its user key. */
  lemma LiveIsVisible(es: seq<Entry>, s: nat, i: nat)
    requires SortedKeys(es) && AllParse(SetOf(es)) && i < |es| && LiveAt(es, s, i)
    ensures Visible(SetOf(es), es[i].key.user, s) == Found(es[i].value)
  {
    var all := SetOf(es);
    var k := es[i].key.user;
    forall x | x in all && Candidate(x, k, s) ensures Tag(x.key) <= Tag(es[i].key) {
      var j :| 0 <= j < |es| && es[j] == x;
      CandidateIsOldEnough(x, k, s);
      EarlierIsNewer(es, i, j);
    }
    SortedUnique(es);
    CandidateIsOldEnough(es[i], k, s);
    VisibleNewest(all, k, s, es[i]);
  }

  lemma SortedUnique(es: seq<Entry>)
    requires SortedKeys(es)
    ensures KeyUnique(SetOf(es))
  {
    forall a, b | a in es && b in es && a != b ensures a.key != b.key {
      var i :| 0 <= i < |es| && es[i] == a;
      var j :| 0 <= j < |es| && es[j] == b;
      if i < j {
        assert Less(es[i].key, es[j].key);
      } else {
        assert Less(es[j].key, es[i].key);
      }
    }
  }

  lemma OlderThanNewest(es: seq<Entry>, k: UserKey, s: nat, i: nat, j: nat)
    requires SortedKeys(es) && j < i < |es| && VisibleAt(es, s, j) && IsNewest(SetOf(es), k, s, es[i])
    ensures es[j].key.user != k
  {
    assert es[j] in SetOf(es);
    CandidateIsOldEnough(es[j], k, s);
    if es[j].key.user == k {
      EarlierIsNewer(es, i, j);
    }
  }

  /** Every user key a read finds has a live index, and only one. */
  lemma VisibleIsLive(es: seq<Entry>, s: nat, k: UserKey) returns (i: nat)
    requires SortedKeys(es) && AllParse(SetOf(es))
    requires Visible(SetOf(es), k, s).Found?
    ensures i < |es| && LiveAt(es, s, i) && es[i].key.user == k
    ensures forall j :: 0 <= j < |es| && LiveAt(es, s, j) && es[j].key.user == k ==> j == i
  {
    var all := SetOf(es);
    NewestExists(all, k, s);
    var n :| IsNewest(all, k, s, n);
    SortedUnique(es);
    VisibleNewest(all, k, s, n);
    i :| 0 <= i < |es| && es[i] == n;
    CandidateIsOldEnough(n, k, s);
    forall j | 0 <= j < i && VisibleAt(es, s, j) ensures es[j].key.user != k {
      OlderThanNewest(es, k, s, i, j);
    }
  }

  /** Live indices come in strictly increasing user-key order. */
  lemma LiveKeysIncrease(es: seq<Entry>, s: nat, i: nat, j: nat)
    requires SortedKeys(es) && i < j < |es| && LiveAt(es, s, i) && LiveAt(es, s, j)
    ensures es[i].key.user < es[j].key.user
  {
    UsersSorted(es, i, j);
  }
}
