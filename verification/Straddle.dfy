/** A user key that straddles an input and a non-input file of level + 1 can lose
    its tombstone: boundary files are added for `level` only. A run of the engine in
    which a deleted key comes back. */
module Straddle {
  import opened Options
  import opened Keys
  import opened Version
  import opened Inputs
  import opened Selection
  import opened Compaction
  import opened Install

  const NEW_FIVE := Entry(InternalKey(5, 5, KIND_VALUE), "new five")
  const THREE := Entry(InternalKey(3, 2, KIND_VALUE), "three")
  const DEAD_SEVEN := Entry(InternalKey(7, 4, KIND_DELETION), "")
  const OLD_SEVEN := Entry(InternalKey(7, 3, KIND_VALUE), "old seven")

  const UPPER := FileMeta(12, 100, NEW_FIVE.key, NEW_FIVE.key, [NEW_FIVE])
  const LEFT := FileMeta(10, 100, THREE.key, DEAD_SEVEN.key, [THREE, DEAD_SEVEN])
  const RIGHT := FileMeta(11, 100, OLD_SEVEN.key, OLD_SEVEN.key, [OLD_SEVEN])

  /** Level 2 holds key 5; the two versions of key 7 straddle the files of level 3. */
  const BEFORE: Levels := [[], [], [UPPER], [LEFT, RIGHT], [], [], []]
  const PICKED := Inputs2(2, [UPPER], [LEFT])
  const MERGED := [THREE, NEW_FIVE, DEAD_SEVEN]
  const SNAPSHOT: nat := 5

  lemma EntriesByLevel()
    ensures LevelEntries([]) == {}
    ensures LevelEntries([UPPER]) == {NEW_FIVE}
    ensures LevelEntries([LEFT]) == {THREE, DEAD_SEVEN}
    ensures LevelEntries([LEFT, RIGHT]) == {THREE, DEAD_SEVEN, OLD_SEVEN}
  {
    assert [UPPER][0] == UPPER && [LEFT][0] == LEFT;
    assert [LEFT, RIGHT][0] == LEFT && [LEFT, RIGHT][1] == RIGHT;
    assert NEW_FIVE in UPPER.entries && THREE in LEFT.entries && DEAD_SEVEN in LEFT.entries
      && OLD_SEVEN in RIGHT.entries;
    assert NEW_FIVE in LevelEntries([UPPER]);
    assert THREE in LevelEntries([LEFT]) && DEAD_SEVEN in LevelEntries([LEFT]);
    assert THREE in LevelEntries([LEFT, RIGHT]) && DEAD_SEVEN in LevelEntries([LEFT, RIGHT]);
    assert OLD_SEVEN in LevelEntries([LEFT, RIGHT]);
  }

  lemma BeforeOk()
    ensures VersionOk(BEFORE)
  {
    assert FileOk(UPPER) && FileOk(LEFT) && FileOk(RIGHT);
    forall l | 0 <= l < 7 ensures LevelOk(BEFORE, l) {
    }
    AllLevelsOk(BEFORE, 7);
  }

  lemma BeforeLayered()
    ensures Layered(BEFORE, SNAPSHOT)
  {
    EntriesByLevel();
    forall l | 0 <= l < 7 ensures LayerOk(BEFORE, l, SNAPSHOT) {
    }
    AllLayersOk(BEFORE, 7, SNAPSHOT);
  }

  lemma OneFile(f: FileMeta)
    requires FileOk(f) && f.smallest == f.largest
    ensures IsSmallest([f], f.smallest) && IsLargest([f], f.smallest)
    ensures forall k :: IsSmallest([f], k) || IsLargest([f], k) ==> k == f.smallest
  {
    assert [f][0] == f && f in [f];
    forall k | IsSmallest([f], k) || IsLargest([f], k) ensures k == f.smallest {
      if IsLargest([f], k) {
        LargestUnique([f], f.smallest);
      }
    }
  }

  lemma UpperAlone()
    ensures IsSmallest([UPPER], NEW_FIVE.key) && IsLargest([UPPER], NEW_FIVE.key)
    ensures forall k :: IsSmallest([UPPER], k) || IsLargest([UPPER], k) ==> k == NEW_FIVE.key
    ensures Pick(BEFORE[3], Some(5), Some(5)) == [LEFT]
  {
    assert FileOk(UPPER);
    OneFile(UPPER);
    assert BEFORE[3][..1] == [LEFT] && [LEFT][..0] == [];
  }

  /** The two files are a legitimate choice ... */
  lemma PickedSelected()
    ensures Selected(BEFORE, 2, [UPPER], [UPPER], [LEFT])
    ensures Covered(Files([UPPER]) + Files([LEFT]))
  {
    BeforeOk();
    UpperAlone();
    assert BEFORE[2] == [UPPER] && BEFORE[2][0..1] == [UPPER] && IsRun(BEFORE[2], [UPPER]);
    forall k | IsLargest([UPPER], k) ensures NoBoundary(BEFORE[2], k) {
    }
    assert [UPPER][0] in [UPPER];
    assert UPPER in BEFORE[2];
    assert Covered(Files([UPPER]) + Files([LEFT])) by {
      forall k, f, g | f in {UPPER, LEFT} && g in {UPPER, LEFT} && f.smallest.user <= k <= g.largest.user
        ensures CoversKey({UPPER, LEFT}, k)
      {
        assert Contains(LEFT, k) && LEFT in {UPPER, LEFT};
      }
      assert Files([UPPER]) + Files([LEFT]) == {UPPER, LEFT};
    }
  }

  lemma AloneSelected(v: Levels, level: nat, f: FileMeta, in0: seq<FileMeta>, in1: seq<FileMeta>)
    requires 0 < level && level + 1 < |v| && v[level] == [f] && Selected(v, level, [f], in0, in1)
    ensures in0 == [f] && HullPick(v[level + 1], [f], in1)
  {
    var a, b :| 0 <= a < b <= 1 && in0 == v[level][a..b];
    assert in0 == [f];
  }

  lemma {:induction false} HullOnly(files: seq<FileMeta>, f: FileMeta, k: InternalKey, in1: seq<FileMeta>)
    requires HullPick(files, [f], in1) && forall x :: IsSmallest([f], x) || IsLargest([f], x) ==> x == k
    ensures in1 == Pick(files, Some(k.user), Some(k.user))
  {
  }

  /** ... and the only one around UPPER. */
  lemma SelectedOnly(v: Levels, in0: seq<FileMeta>, in1: seq<FileMeta>)
    requires v == BEFORE && Selected(v, 2, [UPPER], in0, in1)
    ensures in0 == [UPPER] && in1 == [LEFT]
  {
    AloneSelected(v, 2, UPPER, in0, in1);
    UpperAlone();
    HullOnly(v[3], UPPER, NEW_FIVE.key, in1);
  }

  /** So this is what PickCompaction returns for level 2. */
  method PicksThese(expandedLimit: nat) returns (c: Inputs2, compactPointer: InternalKey)
    ensures c == PICKED
  {
    BeforeOk();
    c, compactPointer := PickCompaction(BEFORE, 2, 0, expandedLimit);
    SelectedOnly(BEFORE, c.in0, c.in1);
  }

  lemma TombstoneIsNewest()
    ensures IsNewest(VersionEntries(BEFORE), 7, SNAPSHOT, DEAD_SEVEN)
  {
    EntriesByLevel();
    forall e | e in VersionEntries(BEFORE) ensures e in {THREE, DEAD_SEVEN, OLD_SEVEN, NEW_FIVE} {
      var l :| 0 <= l < 7 && e in LevelEntries(BEFORE[l]);
    }
    assert DEAD_SEVEN in LevelEntries(BEFORE[3]);
  }

  lemma SideHoldsOldValue()
    ensures Visible(SurroundingsOf(BEFORE, PICKED).side, 7, SNAPSHOT) == Found("old seven")
  {
    var side := RestEntries(BEFORE[3], [LEFT]);
    assert side == {OLD_SEVEN} by {
      forall x | x in side ensures x == OLD_SEVEN {
        var i :| 0 <= i < 2 && BEFORE[3][i] !in [LEFT] && x in BEFORE[3][i].entries;
      }
      assert BEFORE[3][1] == RIGHT && RIGHT !in [LEFT] && OLD_SEVEN in RIGHT.entries;
    }
    assert IsNewest(side, 7, SNAPSHOT, OLD_SEVEN);
    VisibleNewest(side, 7, SNAPSHOT, OLD_SEVEN);
  }

  lemma MergedInputs()
    ensures SortedKeys(MERGED) && SetOf(MERGED) == InputEntries(PICKED)
  {
    EntriesByLevel();
    assert MERGED[0] == THREE && MERGED[1] == NEW_FIVE && MERGED[2] == DEAD_SEVEN;
  }

  lemma BeforeParses()
    ensures AllParse(VersionEntries(BEFORE)) && KeyUnique(VersionEntries(BEFORE))
  {
    EntriesByLevel();
    forall e | e in VersionEntries(BEFORE) ensures e in {THREE, DEAD_SEVEN, OLD_SEVEN, NEW_FIVE} {
      var l :| 0 <= l < 7 && e in LevelEntries(BEFORE[l]);
    }
  }

  lemma NothingAboveIt()
    ensures DEAD_SEVEN !in SurroundingsOf(BEFORE, PICKED).above
  {
    EntriesByLevel();
    assert BEFORE[2] == [UPPER] && UPPER in [UPPER];
  }

  lemma TombstoneObsolete()
    ensures DEAD_SEVEN in MERGED && Obsolete(DEAD_SEVEN, SNAPSHOT, BEFORE, 2)
  {
    assert MERGED[2] == DEAD_SEVEN;
  }

  /** Before the compaction key 7 is deleted; after it, its old value is back. */
  lemma {:induction false} DeletedKeyComesBack(outputs: seq<Output>, outs: seq<FileMeta>, v': Levels)
    requires Flatten(outputs) == Kept(MERGED, |MERGED|, SNAPSHOT, BEFORE, PICKED.level)
    requires Materialized(outs, outputs) && Installed(BEFORE, PICKED, outs, v')
    ensures VersionOk(v')
    ensures Visible(VersionEntries(BEFORE), 7, SNAPSHOT) == NotFound
    ensures Visible(VersionEntries(v'), 7, SNAPSHOT) == Found("old seven")
  {
    BeforeOk();
    PickedSelected();
    MergedInputs();
    BeforeParses();
    BeforeLayered();
    SelectedReady(BEFORE, SNAPSHOT, [UPPER], PICKED, MERGED);
    NothingAboveIt();
    TombstoneIsNewest();
    TombstoneObsolete();
    TombstoneUncovers(BEFORE, PICKED, MERGED, SNAPSHOT, outputs, outs, v', 7, DEAD_SEVEN);
    SideHoldsOldValue();
  }
}
