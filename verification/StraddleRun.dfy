/** A whole run of the engine, from an empty store, after which a deleted key can be read. */
module StraddleRun {
  import opened Options
  import opened Keys
  import opened Version
  import opened Inputs
  import opened Selection
  import opened Compaction
  import opened Install
  import opened Flush
  import opened Straddle
  import L = Lsm

  // ----- the files

  const FIRST_THREE := Entry(InternalKey(3, 1, KIND_VALUE), "first three")
  const EARLY := FileMeta(8, 100, FIRST_THREE.key, FIRST_THREE.key, [FIRST_THREE])
  const WHOLE := FileMeta(9, 100, THREE.key, OLD_SEVEN.key, [THREE, DEAD_SEVEN, OLD_SEVEN])
  const MIXED := FileMeta(13, 100, THREE.key, NEW_FIVE.key, [THREE, NEW_FIVE])

  const EMPTY: Levels := [[], [], [], [], [], [], []]
  const UPPERMOST: Levels := [[], [], [EARLY], [], [], [], []]
  const MOVED: Levels := [[], [], [], [EARLY], [], [], []]
  const FLUSHED: Levels := [[], [], [WHOLE], [EARLY], [], [], []]
  const SPLIT: Levels := [[], [], [], [LEFT, RIGHT], [], [], []]
  const AFTERWARDS: Levels := [[], [], [], [MIXED, RIGHT], [], [], []]

  // ----- the compactions

  const MOVE := Inputs2(2, [EARLY], [])

  /** A snapshot at 3 keeps both versions of key 7, and the output is cut between them. */
  const FIRST := L.Job(Inputs2(2, [WHOLE], [EARLY]), FLUSHED, [THREE, FIRST_THREE, DEAD_SEVEN, OLD_SEVEN], 3)
  const FIRST_OUT := [Output(THREE.key, DEAD_SEVEN.key, [THREE, DEAD_SEVEN]),
    Output(OLD_SEVEN.key, OLD_SEVEN.key, [OLD_SEVEN])]

  const SECOND := L.Job(PICKED, BEFORE, MERGED, SNAPSHOT)
  const SECOND_OUT := [Output(THREE.key, NEW_FIVE.key, [THREE, NEW_FIVE])]

  // ----- the states

  const ONE := {FIRST_THREE}
  const SEVENS := {FIRST_THREE, THREE, OLD_SEVEN}
  const DELETED := {FIRST_THREE, THREE, OLD_SEVEN, DEAD_SEVEN}
  const ALL := {FIRST_THREE, THREE, OLD_SEVEN, DEAD_SEVEN, NEW_FIVE}
  const IN_WHOLE := {THREE, OLD_SEVEN, DEAD_SEVEN}

  const S0 := L.State({}, {}, None, EMPTY, 0, [], None, 0)
  const S1 := L.State(ONE, ONE, None, EMPTY, 1, [], None, 0)
  const S2 := L.State(ONE, {}, Some(ONE), EMPTY, 1, [], None, 0)
  const S3 := L.State(ONE, {}, None, UPPERMOST, 1, [], None, 9)
  const S4 := L.State(ONE, {}, None, MOVED, 1, [], None, 9)
  const S5 := L.State(SEVENS, {THREE, OLD_SEVEN}, None, MOVED, 3, [], None, 9)
  const S6 := L.State(SEVENS, {THREE, OLD_SEVEN}, None, MOVED, 3, [3], None, 9)
  const S7 := L.State(DELETED, IN_WHOLE, None, MOVED, 4, [3], None, 9)
  const S8 := L.State(DELETED, {}, Some(IN_WHOLE), MOVED, 4, [3], None, 9)
  const S9 := L.State(DELETED, {}, None, FLUSHED, 4, [3], None, 10)
  const S10 := L.State(DELETED, {}, None, FLUSHED, 4, [3], Some(FIRST), 10)
  const S11 := L.State(DELETED, {}, None, SPLIT, 4, [3], None, 12)
  const S12 := L.State(DELETED, {}, None, SPLIT, 4, [], None, 12)
  const S13 := L.State(ALL, {NEW_FIVE}, None, SPLIT, 5, [], None, 12)
  const S14 := L.State(ALL, {}, Some({NEW_FIVE}), SPLIT, 5, [], None, 12)
  const S15 := L.State(ALL, {}, None, BEFORE, 5, [], None, 13)
  const S16 := L.State(ALL, {}, None, BEFORE, 5, [], Some(SECOND), 13)
  const S17 := L.State(ALL, {}, None, AFTERWARDS, 5, [], None, 14)

  const LENGTH: nat := 17

  function StateAt(i: nat): L.State {
    match i
    case 0 => S0
    case 1 => S1
    case 2 => S2
    case 3 => S3
    case 4 => S4
    case 5 => S5
    case 6 => S6
    case 7 => S7
    case 8 => S8
    case 9 => S9
    case 10 => S10
    case 11 => S11
    case 12 => S12
    case 13 => S13
    case 14 => S14
    case 15 => S15
    case 16 => S16
    case _ => S17
  }

  function StepAt(i: nat): L.Step {
    match i
    case 0 => L.WriteStep([L.Put(3, "first three")])
    case 1 => L.SwitchStep
    case 2 => L.FlushedStep(2, EARLY)
    case 3 => L.MoveStep(MOVE, EARLY)
    case 4 => L.WriteStep([L.Put(3, "three"), L.Put(7, "old seven")])
    case 5 => L.SnapshotStep
    case 6 => L.WriteStep([L.Delete(7)])
    case 7 => L.SwitchStep
    case 8 => L.FlushedStep(2, WHOLE)
    case 9 => L.StartStep(WHOLE, FIRST)
    case 10 => L.FinishStep(FIRST_OUT, [LEFT, RIGHT])
    case 11 => L.ReleaseStep(0)
    case 12 => L.WriteStep([L.Put(5, "new five")])
    case 13 => L.SwitchStep
    case 14 => L.FlushedStep(2, UPPER)
    case 15 => L.StartStep(UPPER, SECOND)
    case _ => L.FinishStep(SECOND_OUT, [MIXED])
  }

  const RUN := seq(LENGTH + 1, i requires 0 <= i => StateAt(i))
  const STEPS := seq(LENGTH, i requires 0 <= i => StepAt(i))

  // ----- writes

  lemma OneWritten(op: L.Op, first: nat)
    ensures L.BatchEntries([op], first) == {L.EntryOf(op, first)}
  {
    assert [op][0] == op;
  }

  lemma TwoWritten(a: L.Op, b: L.Op, first: nat)
    ensures L.BatchEntries([a, b], first) == {L.EntryOf(a, first), L.EntryOf(b, first + 1)}
  {
    var batch := [a, b];
    assert batch[0] == a && batch[1] == b;
    assert L.EntryOf(batch[0], first + 0) in L.BatchEntries(batch, first);
    assert L.EntryOf(batch[1], first + 1) in L.BatchEntries(batch, first);
  }

  lemma Writes()
    ensures L.Write(S0, [L.Put(3, "first three")], S1)
    ensures L.Write(S4, [L.Put(3, "three"), L.Put(7, "old seven")], S5)
    ensures L.Write(S6, [L.Delete(7)], S7)
    ensures L.Write(S12, [L.Put(5, "new five")], S13)
  {
    OneWritten(L.Put(3, "first three"), 1);
    TwoWritten(L.Put(3, "three"), L.Put(7, "old seven"), 2);
    OneWritten(L.Delete(7), 4);
    OneWritten(L.Put(5, "new five"), 5);
    assert ONE + {THREE, OLD_SEVEN} == SEVENS && SEVENS + {DEAD_SEVEN} == DELETED && DELETED + {NEW_FIVE} == ALL;
    assert {THREE, OLD_SEVEN} + {DEAD_SEVEN} == IN_WHOLE;
  }

  lemma Housekeeping()
    ensures L.SwitchMemTable(S1, S2) && L.GetSnapshot(S5, S6) && L.SwitchMemTable(S7, S8)
    ensures L.ReleaseSnapshot(S11, 0, S12) && L.SwitchMemTable(S13, S14)
  {
    assert [3][..0] + [3][1..] == [];
  }

  // ----- flushes

  /** A file joins an empty level. */
  lemma AddedAlone(v: Levels, level: nat, f: FileMeta, v': Levels)
    requires level < |v| && |v'| == |v| && v[level] == [] && v'[level] == [f]
    requires forall l :: 0 <= l < |v| && l != level ==> v'[l] == v[l]
    ensures Added(v, level, f, v')
  {
  }

  lemma ClearAbove(v: Levels, level: nat, lo: UserKey, hi: UserKey)
    requires forall l :: 0 <= l <= level && l < |v| ==> v[l] == []
    ensures ClearThrough(v, level, lo, hi)
  {
  }

  lemma FirstFlushes()
    ensures L.FlushStep(S2, 2, EARLY, S3) && L.FlushStep(S8, 2, WHOLE, S9)
  {
    AddedAlone(EMPTY, 2, EARLY, UPPERMOST);
    ClearAbove(EMPTY, 2, 3, 3);
    AddedAlone(MOVED, 2, WHOLE, FLUSHED);
    ClearAbove(MOVED, 2, 3, 7);
    assert Ent(EARLY) == ONE && Ent(WHOLE) == IN_WHOLE;
    assert FileOk(EARLY) && FileOk(WHOLE);
  }

  lemma LastFlush()
    ensures L.FlushStep(S14, 2, UPPER, S15)
  {
    AddedAlone(SPLIT, 2, UPPER, BEFORE);
    ClearAbove(SPLIT, 2, 5, 5);
    assert Ent(UPPER) == {NEW_FIVE};
    assert FileOk(UPPER);
  }

  // ----- the move

  lemma AloneCovered(f: FileMeta)
    ensures Covered({f})
  {
    forall k | f.smallest.user <= k <= f.largest.user ensures CoversKey({f}, k) {
      assert f in {f} && Contains(f, k);
    }
  }

  /** A file alone in its level, with what it meets in the next one. */
  lemma AloneIsSelected(v: Levels, level: nat, f: FileMeta, in1: seq<FileMeta>)
    requires 0 < level && level + 1 < |v| && v[level] == [f] && FileOk(f)
    requires Pick(v[level + 1], Some(f.smallest.user), Some(f.largest.user)) == in1
    requires Covered({f} + Files(in1))
    ensures Selected(v, level, [f], [f], in1)
  {
    FileRange(f, 0);
    assert [f][0] == f && v[level][0..1] == [f] && IsRun(v[level], [f]);
    assert IsSmallest([f], f.smallest) && IsLargest([f], f.largest);
    forall k | IsLargest([f], k) ensures NoBoundary(v[level], k) {
      LargestUnique([f], f.largest);
    }
    assert Files([f]) == {f};
  }

  /** With nothing to merge the file moves. */
  lemma Moves()
    ensures L.TrivialMove(S3, MOVE, EARLY, S4)
  {
    assert FileOk(EARLY);
    AloneCovered(EARLY);
    assert {EARLY} + Files([]) == {EARLY};
    AloneIsSelected(UPPERMOST, 2, EARLY, []);
    MovedAlone(UPPERMOST, 2, EARLY, MOVED);
  }

  lemma MovedAlone(v: Levels, level: nat, f: FileMeta, v': Levels)
    requires level + 1 < |v| == |v'| && v[level] == [f] && v[level + 1] == []
    requires v'[level] == [] && v'[level + 1] == [f]
    requires forall l :: 0 <= l < |v| && l != level && l != level + 1 ==> v'[l] == v[l]
    ensures Installed(v, Inputs2(level, [f], []), [f], v')
  {
  }

  // ----- the first compaction

  lemma FirstSelected()
    ensures Selected(FLUSHED, 2, [WHOLE], [WHOLE], [EARLY]) && Covered(Files([WHOLE]) + Files([EARLY]))
  {
    assert FileOk(WHOLE);
    assert FLUSHED[3][..1] == [EARLY] && [EARLY][..0] == [];
    assert {WHOLE} + Files([EARLY]) == {WHOLE, EARLY} && Files([WHOLE]) == {WHOLE};
    forall k, f, g | f in {WHOLE, EARLY} && g in {WHOLE, EARLY} && f.smallest.user <= k <= g.largest.user
      ensures CoversKey({WHOLE, EARLY}, k)
    {
      assert Contains(WHOLE, k) && WHOLE in {WHOLE, EARLY};
    }
    AloneIsSelected(FLUSHED, 2, WHOLE, [EARLY]);
  }

  lemma FirstMerged()
    ensures SortedKeys(FIRST.merged) && SetOf(FIRST.merged) == InputEntries(FIRST.c)
  {
    L.SingleFile(WHOLE);
    L.SingleFile(EARLY);
    assert Ent(WHOLE) == IN_WHOLE && Ent(EARLY) == ONE;
    var m := FIRST.merged;
    assert m[0] == THREE && m[1] == FIRST_THREE && m[2] == DEAD_SEVEN && m[3] == OLD_SEVEN;
    assert SetOf(m) == IN_WHOLE + ONE;
  }

  lemma FirstStarts()
    ensures L.StartCompaction(S9, WHOLE, FIRST, S10)
  {
    FirstSelected();
    FirstMerged();
    assert WHOLE in FLUSHED[2];
  }

  /** Of four entries only the second is dropped. */
  lemma {:induction false} ThreeOfFourKept(m: seq<Entry>, snapshot: nat, v: Levels, level: nat)
    requires |m| == 4 && Dropped(m, 1, snapshot, v, level)
    requires !Dropped(m, 0, snapshot, v, level) && !Dropped(m, 2, snapshot, v, level)
    requires !Dropped(m, 3, snapshot, v, level)
    ensures Kept(m, 4, snapshot, v, level) == [m[0], m[2], m[3]]
  {
    assert Kept(m, 1, snapshot, v, level) == Kept(m, 0, snapshot, v, level) + [m[0]];
    assert Kept(m, 2, snapshot, v, level) == Kept(m, 1, snapshot, v, level);
    assert Kept(m, 3, snapshot, v, level) == Kept(m, 2, snapshot, v, level) + [m[2]];
  }

  lemma FlattenTwo(a: Output, b: Output)
    ensures Flatten([a, b]) == a.entries + b.entries && Flatten([a]) == a.entries
  {
    assert [a, b][..1] == [a] && [a][..0] == [];
    assert Flatten([a]) == [] + a.entries;
  }

  lemma FirstInstalled(v: Levels, v': Levels)
    requires v == FLUSHED && v' == SPLIT
    ensures Installed(v, FIRST.c, [LEFT, RIGHT], v')
  {
    assert RemainingFiles(v[2], [WHOLE]) == {} && RemainingFiles(v[3], [EARLY]) == {};
    assert v'[3][0] == LEFT && v'[3][1] == RIGHT;
    assert Holds(v'[3], {} + Files([LEFT, RIGHT]));
  }

  lemma FirstFinishes()
    ensures L.FinishCompaction(S10, FIRST_OUT, [LEFT, RIGHT], S11)
  {
    ThreeOfFourKept(FIRST.merged, 3, FLUSHED, 2);
    FlattenTwo(FIRST_OUT[0], FIRST_OUT[1]);
    assert Flatten(FIRST_OUT) == [THREE, DEAD_SEVEN, OLD_SEVEN];
    FirstInstalled(FLUSHED, SPLIT);
  }

  // ----- the second compaction

  lemma SecondStarts()
    ensures L.StartCompaction(S15, UPPER, SECOND, S16)
  {
    PickedSelected();
    MergedInputs();
    assert UPPER in BEFORE[2];
  }

  /** The tombstone is dropped, the two other entries are kept. */
  lemma {:induction false} TwoOfThreeKept(m: seq<Entry>, snapshot: nat, v: Levels, level: nat)
    requires |m| == 3 && !Dropped(m, 0, snapshot, v, level) && !Dropped(m, 1, snapshot, v, level)
    requires Dropped(m, 2, snapshot, v, level)
    ensures Kept(m, 3, snapshot, v, level) == [m[0], m[1]]
  {
    assert Kept(m, 1, snapshot, v, level) == Kept(m, 0, snapshot, v, level) + [m[0]];
    assert Kept(m, 2, snapshot, v, level) == Kept(m, 1, snapshot, v, level) + [m[1]];
  }

  lemma SecondInstalled(v: Levels, c: Inputs2, v': Levels)
    requires v == BEFORE && c == PICKED && v' == AFTERWARDS
    ensures Installed(v, c, [MIXED], v')
  {
    assert RemainingFiles(v[2], c.in0) == {};
    assert RemainingFiles(v[3], c.in1) == {RIGHT};
    assert v'[3][0] == MIXED && v'[3][1] == RIGHT;
    assert Holds(v'[3], {RIGHT} + Files([MIXED]));
  }

  lemma SecondFinishes()
    ensures L.FinishCompaction(S16, SECOND_OUT, [MIXED], S17)
  {
    TombstoneObsolete();
    TwoOfThreeKept(MERGED, SNAPSHOT, BEFORE, 2);
    FlattenTwo(SECOND_OUT[0], SECOND_OUT[0]);
    SecondInstalled(BEFORE, PICKED, AFTERWARDS);
  }

  // ----- the run

  lemma UntilFlushed(i: nat)
    requires i < 9
    ensures L.Next(StateAt(i), StepAt(i), StateAt(i + 1))
  {
    if i in {0, 4, 6} {
      Writes();
    } else if i in {1, 5, 7} {
      Housekeeping();
    } else if i in {2, 8} {
      FirstFlushes();
    } else {
      Moves();
    }
  }

  lemma FromThere(i: nat)
    requires 9 <= i < LENGTH
    ensures L.Next(StateAt(i), StepAt(i), StateAt(i + 1))
  {
    if i in {11, 13} {
      Housekeeping();
    } else if i == 12 {
      Writes();
    } else if i == 9 {
      FirstStarts();
    } else if i == 10 {
      FirstFinishes();
    } else if i == 14 {
      LastFlush();
    } else if i == 15 {
      SecondStarts();
    } else {
      SecondFinishes();
    }
  }

  lemma HistoryDeletes()
    ensures Visible(ALL, 7, SNAPSHOT) == NotFound
  {
    assert IsNewest(ALL, 7, SNAPSHOT, DEAD_SEVEN);
    assert KeyUnique(ALL);
    VisibleNewest(ALL, 7, SNAPSHOT, DEAD_SEVEN);
  }

  lemma AfterwardsReads()
    ensures Visible(L.Stored(S17), 7, SNAPSHOT) == Found("old seven")
  {
    SecondFinishes();
    DeletedKeyComesBack(SECOND_OUT, [MIXED], AFTERWARDS);
    assert L.Stored(S17) == VersionEntries(AFTERWARDS);
  }

  /** From an empty store, by steps of the engine: key 7 was deleted last, and a read of the
      latest state finds its old value. */
  lemma DeletedKeyIsRead()
    ensures |RUN| == |STEPS| + 1 && L.Init(RUN[0])
    ensures forall i :: 0 <= i < |STEPS| ==> L.Next(RUN[i], STEPS[i], RUN[i + 1])
    ensures L.Floor(RUN[17]) <= SNAPSHOT && Visible(RUN[17].history, 7, SNAPSHOT) == NotFound
    ensures Visible(L.Stored(RUN[17]), 7, SNAPSHOT) == Found("old seven")
  {
    forall i | 0 <= i < |STEPS| ensures L.Next(RUN[i], STEPS[i], RUN[i + 1]) {
      if i < 9 {
        UntilFlushed(i);
      } else {
        FromThere(i);
      }
    }
    HistoryDeletes();
    AfterwardsReads();
  }
}
