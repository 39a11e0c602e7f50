/** Merging the inputs of a compaction: which entries DoCompactionWork drops, and
    why readers at or above the oldest snapshot cannot tell. */
module Compaction {
  import opened Keys
  import opened Version
  import opened Inputs

  // ----- Compaction::IsBaseLevelForKey

  /** No file below the output level covers `user`. */
  predicate BaseLevel(v: Levels, level: nat, user: UserKey) {
    forall l, i :: level + 2 <= l < |v| && 0 <= i < |v[l]| ==> !Contains(v[l][i], user)
  }

  class CompactionCursor {
    const inputVersion: Levels
    const level: nat
    var levelPtrs: seq<nat>

    constructor (v: Levels, level: nat)
      requires VersionOk(v)
      ensures inputVersion == v && this.level == level && forall user :: PtrsBehind(user)
    {
      inputVersion := v;
      this.level := level;
      levelPtrs := seq(NUM_LEVELS, _ => 0);
    }

    /** Every file already passed ends before `user`. */
    ghost predicate PtrsBehind(user: UserKey)
      reads this
    {
      && |levelPtrs| == |inputVersion|
      && (forall l :: 0 <= l < |levelPtrs| ==> levelPtrs[l] <= |inputVersion[l]|)
      && forall l, i :: 0 <= l < |levelPtrs| && 0 <= i < levelPtrs[l] ==> inputVersion[l][i].largest.user < user
    }

    lemma PtrsBehindLater(user: UserKey, later: UserKey)
      requires PtrsBehind(user) && user <= later
      ensures PtrsBehind(later)
    {
    }

    /** The pointers only move forward, so keys must be asked for in order. */
    method IsBaseLevelForKey(user: UserKey) returns (base: bool)
      requires VersionOk(inputVersion) && PtrsBehind(user)
      modifies this`levelPtrs
      ensures PtrsBehind(user)
      ensures base <==> BaseLevel(inputVersion, level, user)
    {
      var lvl := level + 2;
      while lvl < NUM_LEVELS
        invariant level + 2 <= lvl
        invariant PtrsBehind(user)
        invariant forall l :: level + 2 <= l < lvl && l < |inputVersion| ==> NotCovered(inputVersion[l], user)
      {
        var files := inputVersion[lvl];
        while levelPtrs[lvl] < |files|
          invariant PtrsBehind(user)
          decreases |files| - levelPtrs[lvl]
        {
          var f := files[levelPtrs[lvl]];
          if user <= f.largest.user {
            if user >= f.smallest.user {
              assert Contains(files[levelPtrs[lvl]], user);
              return false;
            }
            break;
          }
          levelPtrs := levelPtrs[lvl := levelPtrs[lvl] + 1];
        }
        NotInLevel(inputVersion, lvl, levelPtrs[lvl], user);
        lvl := lvl + 1;
      }
      NoLevelCovers(inputVersion, level, user);
      return true;
    }
  }

  predicate NotCovered(files: seq<FileMeta>, user: UserKey) {
    forall i :: 0 <= i < |files| ==> !Contains(files[i], user)
  }

  lemma NoLevelCovers(v: Levels, level: nat, user: UserKey)
    requires forall l :: level + 2 <= l < |v| ==> NotCovered(v[l], user)
    ensures BaseLevel(v, level, user)
  {
  }

  lemma NotInLevel(v: Levels, l: nat, p: nat, user: UserKey)
    requires VersionOk(v) && 0 < l < |v| && p <= |v[l]|
    requires forall i :: 0 <= i < p ==> v[l][i].largest.user < user
    requires p < |v[l]| ==> user < v[l][p].smallest.user
    ensures NotCovered(v[l], user)
  {
    LevelFacts(v, l);
    forall i | p < i < |v[l]| ensures user < v[l][i].smallest.user {
      SmallestIncreasing(v[l], p, i);
    }
  }

  // ----- the drop rule

  /** Rule (A): a newer entry of the same user key is already old enough for everyone. */
  predicate Hidden(m: seq<Entry>, i: nat, snapshot: nat)
    requires i < |m|
  {
    && i > 0 && Parses(m[i - 1].key)
    && m[i - 1].key.user == m[i].key.user && m[i - 1].key.sn <= snapshot
  }

  /** A tombstone everyone sees, with nothing below the output level to hide. */
  predicate Obsolete(e: Entry, snapshot: nat, v: Levels, level: nat) {
    e.key.kind == KIND_DELETION && e.key.sn <= snapshot && BaseLevel(v, level, e.key.user)
  }

  predicate Dropped(m: seq<Entry>, i: nat, snapshot: nat, v: Levels, level: nat)
    requires i < |m|
  {
    Parses(m[i].key) && (Hidden(m, i, snapshot) || Obsolete(m[i], snapshot, v, level))
  }

  /** The first `n` merged entries without the dropped ones. */
  function Kept(m: seq<Entry>, n: nat, snapshot: nat, v: Levels, level: nat): seq<Entry>
    requires n <= |m|
  {
    if n == 0 then []
    else
      Kept(m, n - 1, snapshot, v, level) + (if Dropped(m, n - 1, snapshot, v, level) then [] else [m[n - 1]])
  }

  // ----- which entries that leaves out

  /** Entry `i` has a newer one of its user key in front of it that readers of the snapshot are
      shown, with nothing unreadable in between. */
  ghost predicate NewerSeen(m: seq<Entry>, i: nat, snapshot: nat)
    requires i < |m|
  {
    exists j :: 0 <= j < i && m[j].key.user == m[i].key.user && m[j].key.sn <= snapshot && ParseFrom(m, j, i)
  }

  ghost predicate ParseFrom(m: seq<Entry>, j: nat, i: nat)
    requires i <= |m|
  {
    forall l :: j <= l < i ==> Parses(m[l].key)
  }

  /** `x` is a deletion that readers of the snapshot see, and no file from `level` + 2 on has
      its user key within its bounds. */
  ghost predicate LastTombstone(x: Entry, snapshot: nat, v: Levels, level: nat) {
    && x.key.kind == KIND_DELETION && x.key.sn <= snapshot
    && forall l, i :: level + 2 <= l < |v| && 0 <= i < |v[l]| ==>
         x.key.user < v[l][i].smallest.user || v[l][i].largest.user < x.key.user
  }

  lemma HiddenIff(m: seq<Entry>, i: nat, snapshot: nat)
    requires SortedKeys(m) && i < |m|
    ensures Hidden(m, i, snapshot) <==> NewerSeen(m, i, snapshot)
  {
    if Hidden(m, i, snapshot) {
      assert ParseFrom(m, i - 1, i);
    }
    if NewerSeen(m, i, snapshot) {
      var j :| 0 <= j < i && m[j].key.user == m[i].key.user && m[j].key.sn <= snapshot && ParseFrom(m, j, i);
      assert Less(m[i - 1].key, m[i].key);
      if j < i - 1 {
        assert Less(m[j].key, m[i - 1].key);
      }
    }
  }

  lemma ObsoleteIff(x: Entry, snapshot: nat, v: Levels, level: nat)
    ensures Obsolete(x, snapshot, v, level) <==> LastTombstone(x, snapshot, v, level)
  {
    assert forall l, i :: level + 2 <= l < |v| && 0 <= i < |v[l]| ==>
      (Contains(v[l][i], x.key.user) <==>
        !(x.key.user < v[l][i].smallest.user || v[l][i].largest.user < x.key.user));
  }

  /** An entry of the merged inputs is left out exactly if it can be read and readers cannot miss
      it: a newer one hides it from all of them, or it deletes what is not there any more. */
  lemma {:induction false} MissingIff(m: seq<Entry>, i: nat, snapshot: nat, v: Levels, level: nat)
    requires SortedKeys(m) && i < |m|
    ensures m[i] !in Kept(m, |m|, snapshot, v, level) <==>
      Parses(m[i].key) && (NewerSeen(m, i, snapshot) || LastTombstone(m[i], snapshot, v, level))
  {
    KeptMembers(m, |m|, snapshot, v, level, m[i]);
    HiddenIff(m, i, snapshot);
    ObsoleteIff(m[i], snapshot, v, level);
    forall k | 0 <= k < |m| && k != i ensures m[k] != m[i] {
      if k < i {
        assert Less(m[k].key, m[i].key);
      } else {
        assert Less(m[i].key, m[k].key);
      }
    }
  }

  /** `kept` has, in order, the entries of `m` that are not left out. */
  ghost predicate KeptExactly(m: seq<Entry>, kept: seq<Entry>, snapshot: nat, v: Levels, level: nat) {
    && SortedKeys(kept) && (forall x :: x in kept ==> x in m)
    && forall i :: 0 <= i < |m| ==>
         (m[i] !in kept <==>
           Parses(m[i].key) && (NewerSeen(m, i, snapshot) || LastTombstone(m[i], snapshot, v, level)))
  }

  lemma {:induction false} KeptIsExact(m: seq<Entry>, snapshot: nat, v: Levels, level: nat)
    requires SortedKeys(m)
    ensures KeptExactly(m, Kept(m, |m|, snapshot, v, level), snapshot, v, level)
  {
    KeptSorted(m, |m|, snapshot, v, level);
    forall i | 0 <= i < |m|
      ensures m[i] !in Kept(m, |m|, snapshot, v, level) <==>
        Parses(m[i].key) && (NewerSeen(m, i, snapshot) || LastTombstone(m[i], snapshot, v, level))
    {
      MissingIff(m, i, snapshot, v, level);
    }
    forall x | x in Kept(m, |m|, snapshot, v, level) ensures x in m {
      KeptMembers(m, |m|, snapshot, v, level, x);
    }
  }

  /** If all of them can be read, wherever the newer entry is. */
  lemma {:induction false} ReadableMissingIff(m: seq<Entry>, x: Entry, snapshot: nat, v: Levels, level: nat)
    requires SortedKeys(m) && AllParse(SetOf(m)) && x in m
    ensures x !in Kept(m, |m|, snapshot, v, level) <==>
      || (exists y :: y in m && y.key.user == x.key.user && Tag(y.key) > Tag(x.key) && y.key.sn <= snapshot)
      || LastTombstone(x, snapshot, v, level)
  {
    ObsoleteIff(x, snapshot, v, level);
    if x !in Kept(m, |m|, snapshot, v, level) {
      DroppedWhy(m, x, snapshot, v, level);
    }
    if y :| y in m && y.key.user == x.key.user && Tag(y.key) > Tag(x.key) && y.key.sn <= snapshot {
      OlderDropped(m, y, x, snapshot, v, level);
    }
    if Obsolete(x, snapshot, v, level) {
      ObsoleteDropped(m, x, snapshot, v, level);
    }
  }

  lemma {:induction false} KeptSorted(m: seq<Entry>, n: nat, snapshot: nat, v: Levels, level: nat)
    requires n <= |m| && SortedKeys(m)
    ensures SortedKeys(Kept(m, n, snapshot, v, level))
  {
    if n > 0 {
      KeptSorted(m, n - 1, snapshot, v, level);
      var k := Kept(m, n - 1, snapshot, v, level);
      forall j | 0 <= j < |k| ensures Less(k[j].key, m[n - 1].key) {
        KeptMembers(m, n - 1, snapshot, v, level, k[j]);
      }
    }
  }

  datatype Output = Output(smallest: InternalKey, largest: InternalKey, entries: seq<Entry>)

  function Flatten(outputs: seq<Output>): seq<Entry> {
    if outputs == [] then []
    else Flatten(outputs[..|outputs| - 1]) + outputs[|outputs| - 1].entries
  }

  ghost predicate OutputOk(o: Output) {
    && o.entries != []
    && o.smallest == o.entries[0].key && o.largest == o.entries[|o.entries| - 1].key
  }

  lemma {:induction false} FlattenAppend(outputs: seq<Output>, o: Output)
    ensures Flatten(outputs + [o]) == Flatten(outputs) + o.entries
  {
    assert (outputs + [o])[..|outputs|] == outputs;
  }

  /** The merge loop. `stopBefore` and `sizeReached` stand for the two reasons to
      close an output file (grandparent overlap, file size); they never touch
      which entries are written. */
  method DoCompactionWork(
    c: CompactionCursor, merged: seq<Entry>, snapshot: nat, stopBefore: nat -> bool, sizeReached: seq<Entry> -> bool)
    returns (outputs: seq<Output>)
    requires VersionOk(c.inputVersion) && (merged != [] ==> c.PtrsBehind(merged[0].key.user))
    requires SortedKeys(merged) && snapshot < MAX_SEQUENCE
    modifies c`levelPtrs
    ensures Flatten(outputs) == Kept(merged, |merged|, snapshot, c.inputVersion, c.level)
    ensures KeptExactly(merged, Flatten(outputs), snapshot, c.inputVersion, c.level)
    ensures forall i :: 0 <= i < |outputs| ==> OutputOk(outputs[i])
  {
    outputs := [];
    var builder: seq<Entry> := [];
    var hasCurrentUserKey := false;
    var currentUserKey := 0;
    var lastSequenceForKey := MAX_SEQUENCE;
    var i := 0;
    while i < |merged|
      invariant 0 <= i <= |merged|
      invariant Flatten(outputs) + builder == Kept(merged, i, snapshot, c.inputVersion, c.level)
      invariant forall j :: 0 <= j < |outputs| ==> OutputOk(outputs[j])
      invariant i < |merged| ==> c.PtrsBehind(merged[i].key.user)
      invariant hasCurrentUserKey <==> i > 0 && Parses(merged[i - 1].key)
      invariant hasCurrentUserKey ==>
        currentUserKey == merged[i - 1].key.user && lastSequenceForKey == merged[i - 1].key.sn
    {
      var e := merged[i];
      ghost var kept := Kept(merged, i, snapshot, c.inputVersion, c.level);
      assert i > 0 ==> Less(merged[i - 1].key, e.key);
      if stopBefore(i) && builder != [] {
        outputs := CloseOutput(outputs, builder);
        builder := [];
      }
      var drop := false;
      if !Parses(e.key) {
        hasCurrentUserKey := false;
        lastSequenceForKey := MAX_SEQUENCE;
      } else {
        if !hasCurrentUserKey || e.key.user != currentUserKey {
          currentUserKey := e.key.user;
          hasCurrentUserKey := true;
          lastSequenceForKey := MAX_SEQUENCE;
        }
        drop := ShouldDrop(c, e, lastSequenceForKey, snapshot);
        lastSequenceForKey := e.key.sn;
      }
      assert drop == Dropped(merged, i, snapshot, c.inputVersion, c.level);
      if !drop {
        builder := builder + [e];
        assert Flatten(outputs) + builder == kept + [e];
        if sizeReached(builder) {
          outputs := CloseOutput(outputs, builder);
          builder := [];
        }
      }
      i := i + 1;
      if i < |merged| {
        c.PtrsBehindLater(e.key.user, merged[i].key.user);
      }
    }
    if builder != [] {
      outputs := CloseOutput(outputs, builder);
    }
    KeptIsExact(merged, snapshot, c.inputVersion, c.level);
  }

  /** Rule (A), else the tombstone rule. */
  method ShouldDrop(c: CompactionCursor, e: Entry, lastSequenceForKey: nat, snapshot: nat) returns (drop: bool)
    requires VersionOk(c.inputVersion) && c.PtrsBehind(e.key.user)
    modifies c`levelPtrs
    ensures c.PtrsBehind(e.key.user)
    ensures drop <==> lastSequenceForKey <= snapshot || Obsolete(e, snapshot, c.inputVersion, c.level)
  {
    if lastSequenceForKey <= snapshot {
      return true;
    } else if e.key.kind == KIND_DELETION && e.key.sn <= snapshot {
      drop := c.IsBaseLevelForKey(e.key.user);
    } else {
      return false;
    }
  }

  /** FinishCompactionOutputFile: the output's bounds are its first and last key. */
  method CloseOutput(outputs: seq<Output>, builder: seq<Entry>) returns (r: seq<Output>)
    requires builder != [] && forall j :: 0 <= j < |outputs| ==> OutputOk(outputs[j])
    ensures Flatten(r) == Flatten(outputs) + builder
    ensures forall j :: 0 <= j < |r| ==> OutputOk(r[j])
  {
    var o := Output(builder[0].key, builder[|builder| - 1].key, builder);
    FlattenAppend(outputs, o);
    r := outputs + [o];
  }

  // ----- what readers see

  lemma {:induction false} KeptMembers(m: seq<Entry>, n: nat, snapshot: nat, v: Levels, level: nat, x: Entry)
    requires n <= |m|
    ensures x in Kept(m, n, snapshot, v, level) <==>
      exists i :: 0 <= i < n && m[i] == x && !Dropped(m, i, snapshot, v, level)
  {
    if n > 0 {
      KeptMembers(m, n - 1, snapshot, v, level, x);
    }
  }

  /** The entries around a compaction of `level` into `level + 1`: `above` is
      everything a lookup reaches first, `side` the files of level + 1 that are
      not inputs, `deeper` everything below. */
  datatype Surroundings = Surroundings(above: set<Entry>, side: set<Entry>, deeper: set<Entry>)

  /** `snapshot` is the oldest one when the compaction started. */
  ghost predicate SurroundingsOk(w: Surroundings, m: seq<Entry>, snapshot: nat, v: Levels, level: nat) {
    && SortedKeys(m)
    && KeyUnique(w.above + SetOf(m) + w.side + w.deeper)
    && AllParse(w.above + SetOf(m) + w.side + w.deeper)
    && Ahead(w.above, SetOf(m), w.above, snapshot)
    && w.side !! SetOf(m)
    && forall e, x :: e in w.deeper && x in SetOf(m) && e.key.user == x.key.user ==> !BaseLevel(v, level, e.key.user)
  }

  ghost function Before(w: Surroundings, m: seq<Entry>): set<Entry> {
    w.above + SetOf(m) + w.side + w.deeper
  }

  ghost function After(w: Surroundings, m: seq<Entry>, snapshot: nat, v: Levels, level: nat): set<Entry> {
    w.above + SetOf(Kept(m, |m|, snapshot, v, level)) + w.side + w.deeper
  }

  /** The newest thing `snapshot` sees for `k` is an input tombstone that the drop
      rule calls obsolete and that nothing above holds a copy of, while a file of
      level + 1 that is not an input still holds an older value. */
  ghost predicate TombstoneLost(w: Surroundings, m: seq<Entry>, snapshot: nat, v: Levels, level: nat, k: UserKey) {
    && (exists e ::
         e in m && e !in w.above && IsNewest(Before(w, m), k, snapshot, e) && Obsolete(e, snapshot, v, level))
    && Visible(w.side, k, snapshot) != NotFound
  }

  /** An entry the rule drops is hidden by a newer input, or is an obsolete tombstone. */
  lemma {:induction false} DroppedWhy(m: seq<Entry>, e: Entry, snapshot: nat, v: Levels, level: nat)
    requires SortedKeys(m) && e in m && e !in Kept(m, |m|, snapshot, v, level)
    ensures Obsolete(e, snapshot, v, level)
      || exists x :: x in m && x.key.user == e.key.user && Tag(x.key) > Tag(e.key) && x.key.sn <= snapshot
  {
    var i :| 0 <= i < |m| && m[i] == e;
    KeptMembers(m, |m|, snapshot, v, level, e);
    if Hidden(m, i, snapshot) {
      assert Less(m[i - 1].key, m[i].key);
      assert m[i - 1] in m;
    }
  }

  lemma Ordered(m: seq<Entry>, i: nat, j: nat)
    requires SortedKeys(m) && i < |m| && j < |m| && Less(m[j].key, m[i].key)
    ensures j < i
  {
  }

  /** Everything behind an entry the snapshot sees is dropped. */
  lemma {:induction false} OlderDropped(m: seq<Entry>, e: Entry, x: Entry, snapshot: nat, v: Levels, level: nat)
    requires SortedKeys(m) && AllParse(SetOf(m)) && e in m && x in m
    requires x.key.user == e.key.user && Tag(x.key) < Tag(e.key) && e.key.sn <= snapshot
    ensures x !in Kept(m, |m|, snapshot, v, level)
  {
    KeptMembers(m, |m|, snapshot, v, level, x);
    var j :| 0 <= j < |m| && m[j] == e;
    forall i | 0 <= i < |m| && m[i] == x ensures Dropped(m, i, snapshot, v, level) {
      Ordered(m, i, j);
      assert Less(m[i - 1].key, m[i].key);
      assert m[i - 1] in SetOf(m) && m[i] in SetOf(m);
      if j < i - 1 {
        assert Less(m[j].key, m[i - 1].key);
      }
    }
  }

  lemma {:induction false} KeptSubset(m: seq<Entry>, snapshot: nat, v: Levels, level: nat)
    ensures SetOf(Kept(m, |m|, snapshot, v, level)) <= SetOf(m)
  {
    forall x | x in Kept(m, |m|, snapshot, v, level) ensures x in m {
      KeptMembers(m, |m|, snapshot, v, level, x);
    }
  }

  lemma {:induction false} ObsoleteDropped(m: seq<Entry>, e: Entry, snapshot: nat, v: Levels, level: nat)
    requires Obsolete(e, snapshot, v, level)
    ensures e !in Kept(m, |m|, snapshot, v, level)
  {
    KeptMembers(m, |m|, snapshot, v, level, e);
  }

  /** An entry above that is older than the newest visible input would have met a copy of it. */
  lemma NothingAbove(
    w: Surroundings, m: seq<Entry>, snapshot: nat, v: Levels, level: nat, k: UserKey, s: nat, e: Entry, x: Entry)
    requires SurroundingsOk(w, m, snapshot, v, level) && snapshot <= s
    requires e in m && e !in w.above && IsNewest(Before(w, m), k, s, e)
    requires x in Before(w, m) && Candidate(x, k, s)
    ensures x !in w.above
  {
    assert e in SetOf(m) && e in Before(w, m);
    if x in w.above {
      var c := CoverIsCandidate(w.above, e, snapshot, k, s);
      assert c in Before(w, m);
      TagInjective(c.key, e.key);
    }
  }

  /** Once an obsolete tombstone was the newest visible entry, only files of
      level + 1 that are not inputs can still show something. */
  lemma OnlySideLeft(
    w: Surroundings, m: seq<Entry>, snapshot: nat, v: Levels, level: nat, k: UserKey, s: nat, e: Entry, x: Entry)
    requires SurroundingsOk(w, m, snapshot, v, level) && snapshot <= s
    requires e in m && e !in w.above && IsNewest(Before(w, m), k, s, e) && Obsolete(e, snapshot, v, level)
    requires x in After(w, m, snapshot, v, level) && Candidate(x, k, s)
    ensures x in w.side && Candidate(x, k, snapshot)
  {
    KeptSubset(m, snapshot, v, level);
    assert e in SetOf(m) && e in Before(w, m) && x in Before(w, m);
    assert Tag(x.key) <= Tag(e.key);
    NothingAbove(w, m, snapshot, v, level, k, s, e, x);
    assert x !in w.deeper;
    if x in SetOf(Kept(m, |m|, snapshot, v, level)) {
      ObsoleteDropped(m, e, snapshot, v, level);
      if Tag(x.key) == Tag(e.key) {
        TagInjective(x.key, e.key);
      } else {
        OlderDropped(m, e, x, snapshot, v, level);
      }
    }
  }

  lemma SideOnly(
    w: Surroundings, m: seq<Entry>, snapshot: nat, v: Levels, level: nat, k: UserKey, s: nat, e: Entry)
    requires SurroundingsOk(w, m, snapshot, v, level) && snapshot <= s
    requires e in m && e !in w.above && IsNewest(Before(w, m), k, s, e) && Obsolete(e, snapshot, v, level)
    ensures Visible(After(w, m, snapshot, v, level), k, s) == Visible(w.side, k, snapshot)
  {
    var new' := After(w, m, snapshot, v, level);
    KeptSubset(m, snapshot, v, level);
    assert new' <= Before(w, m) && w.side <= new';
    forall x | x in new' && Candidate(x, k, s) ensures x in w.side && Candidate(x, k, snapshot) {
      OnlySideLeft(w, m, snapshot, v, level, k, s, e, x);
    }
    VisibleSame(new', s, w.side, snapshot, k);
  }

  /** Readers of `k` at or above the snapshot see the same answer before and after,
      unless an obsolete tombstone uncovers a side value. */
  lemma PreservedAt(
    w: Surroundings, m: seq<Entry>, snapshot: nat, v: Levels, level: nat, k: UserKey, s: nat)
    requires SurroundingsOk(w, m, snapshot, v, level) && snapshot <= s
    requires !TombstoneLost(w, m, snapshot, v, level, k)
    ensures Visible(After(w, m, snapshot, v, level), k, s) == Visible(Before(w, m), k, s)
  {
    var old', new' := Before(w, m), After(w, m, snapshot, v, level);
    KeptSubset(m, snapshot, v, level);
    assert new' <= old';
    if HasCandidate(old', k, s) {
      NewestExists(old', k, s);
      var e :| IsNewest(old', k, s, e);
      if e in new' {
        VisibleSubset(old', new', k, s, e);
      } else {
        assert e in SetOf(m);
        DroppedWhy(m, e, snapshot, v, level);
        if !Obsolete(e, snapshot, v, level) {
          var x :| x in m && x.key.user == e.key.user && Tag(x.key) > Tag(e.key) && x.key.sn <= snapshot;
          assert x in SetOf(m) && Candidate(x, k, s);
          assert false;
        }
        VisibleNewest(old', k, s, e);
        SideOnly(w, m, snapshot, v, level, k, s, e);
        assert IsNewest(old', k, snapshot, e);
      }
    }
  }

  /** Exactly when a compaction preserves the meaning of every read at or above
      the snapshot. */
  lemma MeaningPreservedIff(w: Surroundings, m: seq<Entry>, snapshot: nat, v: Levels, level: nat)
    requires SurroundingsOk(w, m, snapshot, v, level)
    ensures (forall k, s :: snapshot <= s ==>
        Visible(After(w, m, snapshot, v, level), k, s) == Visible(Before(w, m), k, s))
      <==> (forall k :: !TombstoneLost(w, m, snapshot, v, level, k))
  {
    if forall k :: !TombstoneLost(w, m, snapshot, v, level, k) {
      forall k, s | snapshot <= s
        ensures Visible(After(w, m, snapshot, v, level), k, s) == Visible(Before(w, m), k, s)
      {
        PreservedAt(w, m, snapshot, v, level, k, s);
      }
    }
    forall k | TombstoneLost(w, m, snapshot, v, level, k)
      ensures Visible(After(w, m, snapshot, v, level), k, snapshot) != Visible(Before(w, m), k, snapshot)
    {
      var e :| e in m && e !in w.above && IsNewest(Before(w, m), k, snapshot, e) && Obsolete(e, snapshot, v, level);
      SideOnly(w, m, snapshot, v, level, k, snapshot, e);
      VisibleNewest(Before(w, m), k, snapshot, e);
    }
  }
}
