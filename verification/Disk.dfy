/** What is on disk: table files, write-ahead logs and the manifest, and what replaying
    them gives back. */
module Disks {
  import opened Keys
  import opened Version
  import opened Inputs
  import opened Selection
  import opened Compaction
  import opened Install
  import opened Flush
  import L = Lsm

  // ----- the files of a version, level by level

  datatype Place = Place(level: nat, file: FileMeta)

  ghost function Placed(v: Levels): set<Place> {
    set l, f | 0 <= l < |v| && f in v[l] :: Place(l, f)
  }

  ghost function Tables(v: Levels): set<FileMeta> {
    set l, f | 0 <= l < |v| && f in v[l] :: f
  }

  ghost function FilesOf(ps: set<Place>): set<FileMeta> {
    set p | p in ps :: p.file
  }

  ghost function FilesAt(ps: set<Place>, level: nat): set<FileMeta> {
    set p | p in ps && p.level == level :: p.file
  }

  ghost function PlaceEntries(ps: set<Place>): set<Entry> {
    set p, e | p in ps && e in p.file.entries :: e
  }

  ghost function InputPlaces(c: Inputs2): set<Place> {
    (set f | f in c.in0 :: Place(c.level, f)) + (set f | f in c.in1 :: Place(c.level + 1, f))
  }

  ghost function PlacedAt(level: nat, files: seq<FileMeta>): set<Place> {
    set f | f in files :: Place(level, f)
  }

  lemma PlacedTables(v: Levels)
    ensures FilesOf(Placed(v)) == Tables(v)
  {
    forall f | f in Tables(v) ensures f in FilesOf(Placed(v)) {
      var l :| 0 <= l < |v| && f in v[l];
      assert Place(l, f) in Placed(v);
    }
  }

  lemma PlacedEntries(v: Levels)
    ensures PlaceEntries(Placed(v)) == VersionEntries(v)
  {
    forall e | e in VersionEntries(v) ensures e in PlaceEntries(Placed(v)) {
      var l :| 0 <= l < |v| && e in LevelEntries(v[l]);
      var i :| 0 <= i < |v[l]| && e in v[l][i].entries;
      assert Place(l, v[l][i]) in Placed(v);
    }
    forall e | e in PlaceEntries(Placed(v)) ensures e in VersionEntries(v) {
      var p :| p in Placed(v) && e in p.file.entries;
      var i :| 0 <= i < |v[p.level]| && v[p.level][i] == p.file;
      assert e in LevelEntries(v[p.level]);
    }
  }

  lemma PlacedFiles(level: nat, files: seq<FileMeta>)
    ensures FilesOf(PlacedAt(level, files)) == Files(files)
  {
    forall f | f in files ensures f in FilesOf(PlacedAt(level, files)) {
      assert Place(level, f) in PlacedAt(level, files);
    }
  }

  lemma PlacedLevel(v: Levels, level: nat)
    requires level < |v|
    ensures FilesAt(Placed(v), level) == Files(v[level])
  {
    forall f | f in Files(v[level]) ensures f in FilesAt(Placed(v), level) {
      assert Place(level, f) in Placed(v);
    }
  }

  lemma AddedPlaces(v: Levels, level: nat, f: FileMeta, v': Levels)
    requires Added(v, level, f, v')
    ensures Placed(v') == Placed(v) + {Place(level, f)}
  {
    forall p ensures p in Placed(v') <==> p in Placed(v) + {Place(level, f)} {
      if p.level == level {
        assert p.file in Files(v'[level]) <==> p.file in v'[level];
        assert p.file in Files(v[level]) <==> p.file in v[level];
      } else if p.level < |v| {
        assert v'[p.level] == v[p.level];
      }
    }
  }

  lemma InstalledPlaces(v: Levels, c: Inputs2, outs: seq<FileMeta>, v': Levels)
    requires Installed(v, c, outs, v')
    ensures Placed(v') == Placed(v) - InputPlaces(c) + PlacedAt(c.level + 1, outs)
  {
    forall p ensures p in Placed(v') <==> p in Placed(v) - InputPlaces(c) + PlacedAt(c.level + 1, outs) {
      if p.level == c.level {
        assert p.file in v'[p.level] <==> p.file in Files(v'[p.level]);
      } else if p.level == c.level + 1 {
        assert p.file in v'[p.level] <==> p.file in Files(v'[p.level]);
        assert p.file in Files(outs) <==> p in PlacedAt(c.level + 1, outs);
      } else if p.level < |v| {
        assert v'[p.level] == v[p.level];
      }
    }
  }

  // ----- write-ahead logs

  /** A log record: one batch under its first sequence number, or bytes that replay skips. */
  datatype Record = Record(first: nat, ops: seq<L.Op>) | Unreadable

  type Logs = map<nat, seq<Record>>

  /** Position `index` of log number `log`. */
  datatype Slot = Slot(log: nat, index: nat)

  ghost function Written(r: Record): set<Entry> {
    if r.Record? then L.BatchEntries(r.ops, r.first) else {}
  }

  function Past(r: Record): nat
    requires r.Record?
  {
    r.first + |r.ops|
  }

  /** The readable records of the logs numbered `low` and up. */
  ghost function Slots(logs: Logs, low: nat): set<Slot> {
    set n, i | n in logs && low <= n && 0 <= i < |logs[n]| && logs[n][i].Record? :: Slot(n, i)
  }

  ghost function At(logs: Logs, a: Slot): (r: Record)
    requires a.log in logs && a.index < |logs[a.log]| && logs[a.log][a.index].Record?
    ensures r.Record?
  {
    logs[a.log][a.index]
  }

  predicate Earlier(a: Slot, b: Slot) {
    a.log < b.log || (a.log == b.log && a.index < b.index)
  }

  ghost function Logged(logs: Logs, low: nat): set<Entry> {
    set a, e | a in Slots(logs, low) && e in Written(At(logs, a)) :: e
  }

  ghost function LogEntries(log: seq<Record>): set<Entry> {
    set i, e | 0 <= i < |log| && e in Written(log[i]) :: e
  }

  /** The records that survive a power failure for certain. */
  ghost function SyncedSlots(logs: Logs, synced: map<nat, nat>, low: nat): set<Slot> {
    set a | a in Slots(logs, low) && a.log in synced && a.index < synced[a.log]
  }

  ghost function Synced(logs: Logs, synced: map<nat, nat>, low: nat): set<Entry> {
    set a, e | a in SyncedSlots(logs, synced, low) && e in Written(At(logs, a)) :: e
  }

  /** Records are numbered one after the other, across logs too. */
  ghost predicate Numbered(logs: Logs, low: nat) {
    && (forall a :: a in Slots(logs, low) ==> Past(At(logs, a)) <= MAX_SEQUENCE)
    && forall a, b :: a in Slots(logs, low) && b in Slots(logs, low) && Earlier(a, b) ==>
         Past(At(logs, a)) <= At(logs, b).first
  }

  /** Every record is numbered after `es`. */
  ghost predicate NumberedAfter(logs: Logs, low: nat, es: set<Entry>) {
    forall a, e :: a in Slots(logs, low) && e in es ==> e.key.sn < At(logs, a).first
  }

  ghost predicate NumbersUpTo(logs: Logs, low: nat, last: nat) {
    forall a :: a in Slots(logs, low) ==> Past(At(logs, a)) <= last + 1
  }

  lemma WrittenRange(r: Record, e: Entry)
    requires e in Written(r)
    ensures r.first <= e.key.sn < Past(r) && Parses(e.key)
  {
    var i :| 0 <= i < |r.ops| && e == L.EntryOf(r.ops[i], r.first + i);
  }

  lemma SlotOrder(logs: Logs, low: nat, a: Slot, b: Slot, x: Entry, y: Entry)
    requires Numbered(logs, low) && a in Slots(logs, low) && b in Slots(logs, low) && Earlier(a, b)
    requires x in Written(At(logs, a)) && y in Written(At(logs, b))
    ensures x.key.sn < y.key.sn
  {
    WrittenRange(At(logs, a), x);
    WrittenRange(At(logs, b), y);
  }

  lemma LoggedWell(logs: Logs, low: nat, last: nat)
    requires Numbered(logs, low) && NumbersUpTo(logs, low, last)
    ensures L.WellWritten(Logged(logs, low), last)
  {
    var es := Logged(logs, low);
    forall e | e in es ensures e.key.sn <= last && Parses(e.key) {
      var a :| a in Slots(logs, low) && e in Written(At(logs, a));
      WrittenRange(At(logs, a), e);
    }
    forall x, y | x in es && y in es && x.key == y.key ensures x == y {
      var a :| a in Slots(logs, low) && x in Written(At(logs, a));
      var b :| b in Slots(logs, low) && y in Written(At(logs, b));
      if a == b {
        L.BatchUnique(At(logs, a).ops, At(logs, a).first);
      } else if Earlier(a, b) {
        SlotOrder(logs, low, a, b, x, y);
      } else {
        SlotOrder(logs, low, b, a, y, x);
      }
    }
  }

  lemma LoggedAfter(logs: Logs, low: nat, es: set<Entry>)
    requires NumberedAfter(logs, low, es)
    ensures L.Later(Logged(logs, low), es)
  {
    forall x, e | x in Logged(logs, low) && e in es ensures x.key.sn > e.key.sn {
      var a :| a in Slots(logs, low) && x in Written(At(logs, a));
      WrittenRange(At(logs, a), x);
    }
  }

  /** Fewer logs, shorter ones, or ones with fewer readable records, keep what held of all. */
  ghost predicate Shortened(logs: Logs, low: nat, logs': Logs, low': nat) {
    forall a :: a in Slots(logs', low') ==> a in Slots(logs, low) && At(logs', a) == At(logs, a)
  }

  lemma ShortenedOk(logs: Logs, low: nat, logs': Logs, low': nat, es: set<Entry>, last: nat)
    requires Shortened(logs, low, logs', low') && Numbered(logs, low)
    ensures Numbered(logs', low') && Logged(logs', low') <= Logged(logs, low)
    ensures NumberedAfter(logs, low, es) ==> NumberedAfter(logs', low', es)
    ensures NumbersUpTo(logs, low, last) ==> NumbersUpTo(logs', low', last)
  {
    forall e | e in Logged(logs', low') ensures e in Logged(logs, low) {
      var a :| a in Slots(logs', low') && e in Written(At(logs', a));
      assert a in Slots(logs, low) && At(logs', a) == At(logs, a);
    }
  }

  lemma AppendedSlots(logs: Logs, low: nat, n: nat, r: Record, logs': Logs)
    requires n in logs && low <= n && logs' == logs[n := logs[n] + [r]] && r.Record?
    ensures var top := Slot(n, |logs[n]|);
      top in Slots(logs', low) && At(logs', top) == r && Slots(logs', low) == Slots(logs, low) + {top}
    ensures forall a :: a in Slots(logs, low) ==> At(logs', a) == At(logs, a)
  {
    var top := Slot(n, |logs[n]|);
    forall a ensures a in Slots(logs', low) <==> a in Slots(logs, low) || a == top {
    }
  }

  lemma AppendedEntries(logs: Logs, low: nat, n: nat, r: Record, logs': Logs)
    requires n in logs && low <= n && logs' == logs[n := logs[n] + [r]] && r.Record?
    ensures Logged(logs', low) == Logged(logs, low) + Written(r)
    ensures LogEntries(logs'[n]) == LogEntries(logs[n]) + Written(r)
  {
    AppendedSlots(logs, low, n, r, logs');
    forall e | e in Logged(logs, low) ensures e in Logged(logs', low) {
      var a :| a in Slots(logs, low) && e in Written(At(logs, a));
      assert a in Slots(logs', low);
    }
    assert logs'[n][|logs[n]|] == r;
    forall e | e in LogEntries(logs[n]) ensures e in LogEntries(logs'[n]) {
      var i :| 0 <= i < |logs[n]| && e in Written(logs[n][i]);
      assert logs'[n][i] == logs[n][i];
    }
  }

  /** Appending a record numbered after everything. */
  lemma AppendedOk(logs: Logs, low: nat, n: nat, r: Record, logs': Logs, es: set<Entry>, last: nat)
    requires n in logs && low <= n && logs' == logs[n := logs[n] + [r]] && r.Record? && forall m :: m in logs ==> m <= n
    requires Numbered(logs, low) && NumbersUpTo(logs, low, last) && r.first == last + 1 && Past(r) <= MAX_SEQUENCE
    requires NumberedAfter(logs, low, es) && forall e :: e in es ==> e.key.sn <= last
    ensures Numbered(logs', low) && NumbersUpTo(logs', low, last + |r.ops|) && NumberedAfter(logs', low, es)
  {
    AppendedSlots(logs, low, n, r, logs');
  }

  /** A new log is empty. */
  lemma NewLog(
    logs: Logs, synced: map<nat, nat>, low: nat, n: nat, logs': Logs, synced': map<nat, nat>)
    requires n !in logs && logs' == logs[n := []] && synced' == synced[n := 0]
    ensures Shortened(logs, low, logs', low) && Shortened(logs', low, logs, low)
    ensures Synced(logs', synced', low) == Synced(logs, synced, low)
  {
    forall a ensures a in Slots(logs', low) <==> a in Slots(logs, low) {
    }
    assert SyncedSlots(logs', synced', low) == SyncedSlots(logs, synced, low);
  }

  lemma TopLog(logs: Logs, n: nat)
    requires n in logs && logs[n] == [] && forall m :: m in logs ==> m <= n
    ensures Slots(logs, n) == {} && LogEntries(logs[n]) == {} && Logged(logs, n) == {}
  {
  }

  lemma TopLogged(logs: Logs, n: nat)
    requires n in logs
    ensures LogEntries(logs[n]) <= Logged(logs, n)
  {
    forall e | e in LogEntries(logs[n]) ensures e in Logged(logs, n) {
      var i :| 0 <= i < |logs[n]| && e in Written(logs[n][i]);
      assert Slot(n, i) in Slots(logs, n) && At(logs, Slot(n, i)) == logs[n][i];
    }
  }

  lemma LoggedFromHigher(logs: Logs, low: nat, high: nat)
    requires low <= high
    ensures Shortened(logs, low, logs, high) && Logged(logs, high) <= Logged(logs, low)
  {
    forall a | a in Slots(logs, high) ensures a in Slots(logs, low) {
    }
  }

  /** Records synced stay synced when logs grow, shrink no further or go. */
  lemma SyncedStays(
    logs: Logs, synced: map<nat, nat>, low: nat, logs': Logs, synced': map<nat, nat>, low': nat)
    requires forall a :: a in SyncedSlots(logs, synced, low) ==>
      a in SyncedSlots(logs', synced', low') && At(logs', a) == At(logs, a)
    ensures Synced(logs, synced, low) <= Synced(logs', synced', low')
  {
    forall e | e in Synced(logs, synced, low) ensures e in Synced(logs', synced', low') {
      var a :| a in SyncedSlots(logs, synced, low) && e in Written(At(logs, a));
      assert a in SyncedSlots(logs', synced', low');
    }
  }

  /** What can be read of a log of which `sure` records survive for certain, and in which an
      append failed behind `tear` records: the log may be cut off, and from the tear on any
      record may have become unreadable. */
  ghost predicate Survives(log: seq<Record>, sure: nat, tear: nat, log': seq<Record>) {
    && sure <= |log'| <= |log|
    && forall i :: 0 <= i < |log'| ==> log'[i] == log[i] || (tear <= i && log'[i].Unreadable?)
  }

  /** No record that replay may find hides a newer entry of the tables: something of the same
      user key that is no older is in that record too, or is sure to be found with it. */
  ghost predicate NothingHidden(logs: Logs, synced: map<nat, nat>, low: nat, known: set<Entry>) {
    forall a, x, e :: a in Slots(logs, low) && x in Written(At(logs, a)) && e in known && Hides(x, e) ==>
      Outdone(Written(At(logs, a)) + Synced(logs, synced, low), e)
  }

  /** The older of two entries of a user key. */
  ghost predicate Hides(x: Entry, e: Entry) {
    x.key.user == e.key.user && Tag(x.key) < Tag(e.key)
  }

  ghost predicate Outdone(es: set<Entry>, e: Entry) {
    exists c :: c in es && c.key.user == e.key.user && Tag(c.key) >= Tag(e.key)
  }

  lemma OutdoneMore(es: set<Entry>, e: Entry, es': set<Entry>)
    requires Outdone(es, e) && es <= es'
    ensures Outdone(es', e)
  {
  }

  lemma NothingHiddenStays(
    logs: Logs, synced: map<nat, nat>, low: nat, logs': Logs, synced': map<nat, nat>, low': nat, known: set<Entry>)
    requires NothingHidden(logs, synced, low, known) && Shortened(logs, low, logs', low')
    requires Synced(logs, synced, low) <= Synced(logs', synced', low')
    ensures NothingHidden(logs', synced', low', known)
  {
    forall a, x, e | a in Slots(logs', low') && x in Written(At(logs', a)) && e in known && Hides(x, e)
      ensures Outdone(Written(At(logs', a)) + Synced(logs', synced', low'), e)
    {
      assert a in Slots(logs, low) && At(logs', a) == At(logs, a);
      OutdoneMore(
        Written(At(logs, a)) + Synced(logs, synced, low), e, Written(At(logs', a)) + Synced(logs', synced', low'));
    }
  }

  /** Records numbered after everything hide nothing. */
  lemma LaterHidesNothing(logs: Logs, synced: map<nat, nat>, low: nat, known: set<Entry>)
    requires NumberedAfter(logs, low, known)
    ensures NothingHidden(logs, synced, low, known)
  {
    forall a, x, e | a in Slots(logs, low) && x in Written(At(logs, a)) && e in known ensures !Hides(x, e) {
      WrittenRange(At(logs, a), x);
    }
  }

  lemma AllSynced(logs: Logs, synced: map<nat, nat>, low: nat, n: nat)
    requires n in logs && n in synced && low <= n && |logs[n]| <= synced[n]
    ensures LogEntries(logs[n]) <= Synced(logs, synced, low)
  {
    forall e | e in LogEntries(logs[n]) ensures e in Synced(logs, synced, low) {
      var i :| 0 <= i < |logs[n]| && e in Written(logs[n][i]);
      var a := Slot(n, i);
      assert a in Slots(logs, low) && a in SyncedSlots(logs, synced, low) && At(logs, a) == logs[n][i];
    }
  }

  // ----- the manifest

  /** The sum of the manifest's records. `retired` are the entries that the compactions
      among them left out of their outputs. */
  datatype Manifest = Manifest(files: set<Place>, logNumber: nat, nextFile: nat, lastSequence: nat, retired: set<Entry>)

  /** A version edit, as appended to the manifest file. */
  datatype Edit = Edit(
    deleted: set<Place>, added: set<Place>, logNumber: nat, nextFile: nat, lastSequence: nat, dropped: set<Entry>)

  function Apply(mf: Manifest, e: Edit): Manifest {
    Manifest(mf.files - e.deleted + e.added, e.logNumber, e.nextFile, e.lastSequence, mf.retired + e.dropped)
  }

  /** Every entry that reached the manifest's tables, now or before a compaction. */
  ghost function Known(mf: Manifest): set<Entry> {
    PlaceEntries(mf.files) + mf.retired
  }

  /** The manifest describes the well-formed version `v`, whose layers are in order, and
      reading its files is reading every entry that ever reached them. */
  ghost predicate Describes(mf: Manifest, v: Levels) {
    && VersionOk(v) && Layered(v, mf.lastSequence) && Placed(v) == mf.files && mf.lastSequence < MAX_SEQUENCE
    && L.WellWritten(Known(mf), mf.lastSequence)
    && L.Faithful(VersionEntries(v), Known(mf), mf.lastSequence)
  }

  // ----- replaying the logs

  ghost function Batched(logs: Logs, low: nat, home: map<Slot, nat>, k: nat): set<Entry> {
    set a, e | a in Slots(logs, low) && a in home && home[a] == k && e in Written(At(logs, a)) :: e
  }

  /** RecoverLogFile over all logs in order: the records go into memtables, each of which
      becomes a new table `fresh'[k]` unless it is empty. */
  ghost predicate Replayed(logs: Logs, low: nat, home: map<Slot, nat>, fresh': seq<FileMeta>) {
    && home.Keys == Slots(logs, low)
    && (forall a, b :: a in home && b in home && Earlier(a, b) ==> home[a] <= home[b])
    && (forall a :: a in home ==> home[a] < |fresh'| || Written(At(logs, a)) == {})
    && (forall k :: 0 <= k < |fresh'| ==> FileOk(fresh'[k]) && Ent(fresh'[k]) == Batched(logs, low, home, k))
    && forall j, k :: 0 <= j < k < |fresh'| ==> fresh'[j].number < fresh'[k].number
  }

  lemma ReplayedEntries(logs: Logs, low: nat, home: map<Slot, nat>, fresh': seq<FileMeta>)
    requires Replayed(logs, low, home, fresh')
    ensures LevelEntries(fresh') == Logged(logs, low)
  {
    forall e | e in LevelEntries(fresh') ensures e in Logged(logs, low) {
      var k :| 0 <= k < |fresh'| && e in fresh'[k].entries;
      assert e in Ent(fresh'[k]) && e in Batched(logs, low, home, k);
    }
    forall e | e in Logged(logs, low) ensures e in LevelEntries(fresh') {
      var a :| a in Slots(logs, low) && e in Written(At(logs, a));
      assert a in home;
      assert e in Batched(logs, low, home, home[a]) && e in Ent(fresh'[home[a]]);
    }
  }

  /** Tables written later in the replay hold later entries. */
  lemma ReplayedLater(
    logs: Logs, low: nat, home: map<Slot, nat>, fresh': seq<FileMeta>, j: nat, k: nat)
    requires Numbered(logs, low) && Replayed(logs, low, home, fresh') && j < k < |fresh'|
    ensures L.Later(Ent(fresh'[k]), Ent(fresh'[j]))
  {
    forall x, y | x in Ent(fresh'[k]) && y in Ent(fresh'[j]) ensures x.key.sn > y.key.sn {
      assert x in Batched(logs, low, home, k) && y in Batched(logs, low, home, j);
      var b :| b in Slots(logs, low) && b in home && home[b] == k && x in Written(At(logs, b));
      var a :| a in Slots(logs, low) && a in home && home[a] == j && y in Written(At(logs, a));
      assert !Earlier(b, a);
      SlotOrder(logs, low, a, b, y, x);
    }
  }

  // ----- the version that recovery builds

  /** SaveTo after replay: the manifest's files, with the new tables at level 0. */
  ghost predicate Recovered(mf: Manifest, fresh': seq<FileMeta>, v: Levels) {
    && |v| == NUM_LEVELS
    && Holds(v[0], FilesAt(mf.files, 0) + Files(fresh'))
    && forall l :: 0 < l < NUM_LEVELS ==> Holds(v[l], FilesAt(mf.files, l))
  }

  /** The entries of the new tables from number `k` on. */
  ghost function FreshFrom(fresh': seq<FileMeta>, k: nat): set<Entry> {
    set j, e | k <= j < |fresh'| && e in fresh'[j].entries :: e
  }

  /** The new tables have numbers of their own, in order. */
  ghost predicate OnTop(v: Levels, fresh': seq<FileMeta>) {
    && 0 < |v| && (forall k :: 0 <= k < |fresh'| ==> FileOk(fresh'[k]))
    && (forall j, k :: 0 <= j < k < |fresh'| ==> fresh'[j].number < fresh'[k].number)
    && forall g, k :: g in v[0] && 0 <= k < |fresh'| ==> g.number < fresh'[k].number
  }

  /** The new tables, in order of their numbers, are ever later than each other, and what
      they hide of the version they or later ones outdo. */
  ghost predicate Stacked(v: Levels, fresh': seq<FileMeta>, floor: nat) {
    && OnTop(v, fresh')
    && (forall j, k :: 0 <= j < k < |fresh'| ==> NewerThan(Ent(fresh'[k]), Ent(fresh'[j])))
    && forall k :: 0 <= k < |fresh'| ==> Ahead(Ent(fresh'[k]), VersionEntries(v), FreshFrom(fresh', k), floor)
  }

  lemma InFresh(fresh': seq<FileMeta>, k: nat)
    requires k < |fresh'|
    ensures Ent(fresh'[k]) <= LevelEntries(fresh')
  {
  }

  lemma InVersion(v: Levels, g: FileMeta)
    requires 0 < |v| && g in v[0]
    ensures Ent(g) <= LevelEntries(v[0]) <= VersionEntries(v)
  {
    var i :| 0 <= i < |v[0]| && v[0][i] == g;
    assert forall e :: e in Ent(g) ==> e in v[0][i].entries;
  }

  lemma OnTopNumbers(v: Levels, fresh': seq<FileMeta>, g: FileMeta, h: FileMeta)
    requires OnTop(v, fresh') && DistinctNumbers(v[0]) && g != h
    requires g in Files(v[0]) + Files(fresh') && h in Files(v[0]) + Files(fresh')
    ensures g.number != h.number
  {
    if g in v[0] && h in v[0] {
      var i :| 0 <= i < |v[0]| && v[0][i] == g;
      var j :| 0 <= j < |v[0]| && v[0][j] == h;
    } else if g in v[0] {
      var k :| 0 <= k < |fresh'| && fresh'[k] == h;
    } else {
      var k :| 0 <= k < |fresh'| && fresh'[k] == g;
      if h !in v[0] {
        var j :| 0 <= j < |fresh'| && fresh'[j] == h;
        assert j < k || k < j;
      }
    }
  }

  lemma RecoveredTop(v: Levels, fresh': seq<FileMeta>, files: seq<FileMeta>)
    requires VersionOk(v) && OnTop(v, fresh') && Holds(files, Files(v[0]) + Files(fresh'))
    ensures FilesOk(files) && DistinctNumbers(files)
    ensures LevelEntries(files) == LevelEntries(v[0]) + LevelEntries(fresh')
  {
    LevelFacts(v, 0);
    forall i | 0 <= i < |files| ensures FileOk(files[i]) {
      assert files[i] in Files(files);
    }
    forall i, j | 0 <= i < |files| && 0 <= j < |files| && i != j ensures files[i].number != files[j].number {
      assert files[i] in Files(files) && files[j] in Files(files) && files[i] != files[j];
      OnTopNumbers(v, fresh', files[i], files[j]);
    }
    HoldsEntries(files, Files(v[0]) + Files(fresh'));
    HoldsEntries(v[0], Files(v[0]));
    HoldsEntries(fresh', Files(fresh'));
  }

  lemma RecoveredLower(v: Levels, l: nat, files: seq<FileMeta>)
    requires VersionOk(v) && 0 < l < |v| && Holds(files, Files(v[l]))
    ensures FilesOk(files) && Disjoint(files) && LevelEntries(files) == LevelEntries(v[l])
  {
    LevelFacts(v, l);
    RemainingGood(v[l], []);
    assert RemainingFiles(v[l], []) == Files(v[l]);
    HoldsDisjoint(files, Files(v[l]));
    HoldsEntries(files, Files(v[l]));
    HoldsEntries(v[l], Files(v[l]));
  }

  lemma RecoveredLevels(mf: Manifest, v: Levels, fresh': seq<FileMeta>, v': Levels)
    requires VersionOk(v) && Placed(v) == mf.files && OnTop(v, fresh') && Recovered(mf, fresh', v')
    ensures FilesOk(v'[0]) && DistinctNumbers(v'[0]) && Files(v'[0]) == Files(v[0]) + Files(fresh')
    ensures LevelEntries(v'[0]) == LevelEntries(v[0]) + LevelEntries(fresh')
    ensures forall l :: 0 < l < |v'| ==> FilesOk(v'[l]) && Disjoint(v'[l]) && LevelEntries(v'[l]) == LevelEntries(v[l])
  {
    PlacedLevel(v, 0);
    RecoveredTop(v, fresh', v'[0]);
    forall l | 0 < l < |v'| ensures FilesOk(v'[l]) && Disjoint(v'[l]) && LevelEntries(v'[l]) == LevelEntries(v[l]) {
      PlacedLevel(v, l);
      RecoveredLower(v, l, v'[l]);
    }
  }

  /** The levels of `v'` are those of `v` with the new tables on top. */
  ghost predicate Topped(v: Levels, fresh': seq<FileMeta>, v': Levels) {
    && |v'| == |v| && 0 < |v| && Files(v'[0]) == Files(v[0]) + Files(fresh')
    && LevelEntries(v'[0]) == LevelEntries(v[0]) + LevelEntries(fresh')
    && forall l :: 0 < l < |v'| ==> LevelEntries(v'[l]) == LevelEntries(v[l])
  }

  lemma RecoveredEntries(v: Levels, fresh': seq<FileMeta>, v': Levels)
    requires Topped(v, fresh', v')
    ensures VersionEntries(v') == VersionEntries(v) + LevelEntries(fresh')
  {
    forall e ensures e in VersionEntries(v') <==> e in VersionEntries(v) + LevelEntries(fresh') {
      if e in VersionEntries(v) {
        var l :| 0 <= l < |v| && e in LevelEntries(v[l]);
        assert e in LevelEntries(v'[l]);
      }
      if e in LevelEntries(fresh') {
        assert e in LevelEntries(v'[0]);
      }
    }
  }

  lemma ToppedUpper(v: Levels, fresh': seq<FileMeta>, v': Levels, n: nat)
    requires Topped(v, fresh', v') && 0 < n
    ensures UpperEntries(v, n) <= UpperEntries(v', n) && LevelEntries(fresh') <= UpperEntries(v', n)
  {
    forall e | e in UpperEntries(v, n) ensures e in UpperEntries(v', n) {
      var l :| 0 <= l < n && l < |v| && e in LevelEntries(v[l]);
      assert e in LevelEntries(v'[l]);
    }
    forall e | e in LevelEntries(fresh') ensures e in UpperEntries(v', n) {
      assert e in LevelEntries(v'[0]);
    }
  }

  lemma FreshInAll(fresh': seq<FileMeta>, k: nat)
    ensures FreshFrom(fresh', k) <= LevelEntries(fresh')
  {
  }

  lemma OldOrder(
    v: Levels, fresh': seq<FileMeta>, floor: nat, v': Levels, u: nat, l: nat, x: Entry, e: Entry)
    requires Layered(v, floor) && Topped(v, fresh', v') && u < l < |v'|
    requires x in LevelEntries(v[u]) && e in LevelEntries(v[l]) && x.key.user == e.key.user && Tag(x.key) <= Tag(e.key)
    ensures Covers(UpperEntries(v', u + 1), e, floor)
  {
    ToppedUpper(v, fresh', v', u + 1);
    LevelOrder(v, floor, u, l, x, e);
    CoversMore(UpperEntries(v, u + 1), e, floor, UpperEntries(v', u + 1), floor);
  }

  lemma FreshOrder(
    v: Levels, fresh': seq<FileMeta>, floor: nat, v': Levels, u: nat, k: nat, x: Entry, e: Entry)
    requires Stacked(v, fresh', floor) && Topped(v, fresh', v') && u < |v'|
    requires k < |fresh'| && x in fresh'[k].entries && e in VersionEntries(v) && x.key.user == e.key.user
    requires Tag(x.key) <= Tag(e.key)
    ensures Covers(UpperEntries(v', u + 1), e, floor)
  {
    ToppedUpper(v, fresh', v', u + 1);
    assert Ahead(Ent(fresh'[k]), VersionEntries(v), FreshFrom(fresh', k), floor);
    FreshInAll(fresh', k);
    CoversMore(FreshFrom(fresh', k), e, floor, UpperEntries(v', u + 1), floor);
  }

  lemma RecoveredOrder(
    v: Levels, fresh': seq<FileMeta>, floor: nat, v': Levels, u: nat, l: nat, x: Entry, e: Entry)
    requires Layered(v, floor) && Stacked(v, fresh', floor) && Topped(v, fresh', v') && u < l < |v'|
    requires x in LevelEntries(v'[u]) && e in LevelEntries(v'[l]) && x.key.user == e.key.user
    requires Tag(x.key) <= Tag(e.key)
    ensures Covers(UpperEntries(v', u + 1), e, floor)
  {
    if x in LevelEntries(v[u]) {
      OldOrder(v, fresh', floor, v', u, l, x, e);
    } else {
      var k :| 0 <= k < |fresh'| && x in fresh'[k].entries;
      FreshOrder(v, fresh', floor, v', u, k, x, e);
    }
  }

  lemma FreshNumbered(fresh': seq<FileMeta>, files: seq<FileMeta>, k: nat)
    requires Files(fresh') <= Files(files) && k < |fresh'|
    requires forall j :: k < j < |fresh'| ==> fresh'[k].number < fresh'[j].number
    ensures FreshFrom(fresh', k) <= NumberedFrom(files, fresh'[k].number)
  {
    forall e | e in FreshFrom(fresh', k) ensures e in NumberedFrom(files, fresh'[k].number) {
      var j :| k <= j < |fresh'| && e in fresh'[j].entries;
      InSome(files, fresh'[j], fresh'[k].number, e);
    }
  }

  lemma InSome(files: seq<FileMeta>, g: FileMeta, n: nat, e: Entry)
    requires g in Files(files) && n <= g.number && e in g.entries
    ensures e in NumberedFrom(files, n)
  {
    var i :| 0 <= i < |files| && files[i] == g;
  }

  lemma OldNumbered(v: Levels, fresh': seq<FileMeta>, files: seq<FileMeta>, n: nat)
    requires 0 < |v| && Files(files) == Files(v[0]) + Files(fresh')
    ensures NumberedFrom(v[0], n) <= NumberedFrom(files, n)
  {
    forall e | e in NumberedFrom(v[0], n) ensures e in NumberedFrom(files, n) {
      var j :| 0 <= j < |v[0]| && v[0][j].number >= n && e in v[0][j].entries;
      assert v[0][j] in Files(files);
      var i :| 0 <= i < |files| && files[i] == v[0][j];
    }
  }

  lemma OldPair(
    v: Levels, fresh': seq<FileMeta>, floor: nat, files: seq<FileMeta>, g: FileMeta, h: FileMeta)
    requires 0 < |v| && NewestByNumber(v[0], floor) && Files(files) == Files(v[0]) + Files(fresh')
    requires g in v[0] && h in v[0] && g.number > h.number
    ensures Ahead(Ent(g), Ent(h), NumberedFrom(files, g.number), floor)
  {
    var i :| 0 <= i < |v[0]| && v[0][i] == g;
    var j :| 0 <= j < |v[0]| && v[0][j] == h;
    OldNumbered(v, fresh', files, g.number);
    AheadMore(Ent(g), Ent(h), NumberedFrom(v[0], g.number), floor, NumberedFrom(files, g.number), floor);
  }

  lemma FreshPair(
    v: Levels, fresh': seq<FileMeta>, floor: nat, files: seq<FileMeta>, k: nat, h: FileMeta)
    requires Stacked(v, fresh', floor) && Files(files) == Files(v[0]) + Files(fresh') && k < |fresh'| && h in v[0]
    ensures Ahead(Ent(fresh'[k]), Ent(h), NumberedFrom(files, fresh'[k].number), floor)
  {
    FreshNumbered(fresh', files, k);
    InVersion(v, h);
    AheadMore(
      Ent(fresh'[k]), VersionEntries(v), FreshFrom(fresh', k), floor, NumberedFrom(files, fresh'[k].number), floor);
  }

  lemma FreshLater(v: Levels, fresh': seq<FileMeta>, floor: nat, g: FileMeta, h: FileMeta)
    requires Stacked(v, fresh', floor) && g in fresh' && h in fresh' && g.number > h.number
    ensures NewerThan(Ent(g), Ent(h))
  {
    var k :| 0 <= k < |fresh'| && fresh'[k] == g;
    var j :| 0 <= j < |fresh'| && fresh'[j] == h;
    assert j < k;
  }

  lemma FreshAbove(v: Levels, fresh': seq<FileMeta>, g: FileMeta, h: FileMeta)
    requires OnTop(v, fresh') && g in v[0] && h in fresh'
    ensures g.number < h.number
  {
    var k :| 0 <= k < |fresh'| && fresh'[k] == h;
  }

  lemma WhichPair(v: Levels, fresh': seq<FileMeta>, floor: nat, g: FileMeta, h: FileMeta)
    requires Stacked(v, fresh', floor) && g in Files(v[0]) + Files(fresh') && h in Files(v[0]) + Files(fresh')
    requires g.number > h.number
    ensures (g in v[0] && h in v[0]) || (g in fresh' && h in v[0]) || NewerThan(Ent(g), Ent(h))
  {
    if h !in v[0] {
      if g in fresh' {
        FreshLater(v, fresh', floor, g, h);
      } else {
        FreshAbove(v, fresh', g, h);
      }
    }
  }

  lemma StackedPair(
    v: Levels, fresh': seq<FileMeta>, floor: nat, files: seq<FileMeta>, g: FileMeta, h: FileMeta)
    requires Stacked(v, fresh', floor) && NewestByNumber(v[0], floor) && Files(files) == Files(v[0]) + Files(fresh')
    requires g in Files(files) && h in Files(files) && g.number > h.number
    ensures Ahead(Ent(g), Ent(h), NumberedFrom(files, g.number), floor)
  {
    WhichPair(v, fresh', floor, g, h);
    if g in v[0] && h in v[0] {
      OldPair(v, fresh', floor, files, g, h);
    } else if g in fresh' && h in v[0] {
      var k :| 0 <= k < |fresh'| && fresh'[k] == g;
      FreshPair(v, fresh', floor, files, k, h);
    } else {
      NewerIsAhead(Ent(g), Ent(h), NumberedFrom(files, g.number), floor);
    }
  }

  lemma RecoveredLayered(v: Levels, fresh': seq<FileMeta>, floor: nat, v': Levels)
    requires Layered(v, floor) && Stacked(v, fresh', floor) && Topped(v, fresh', v')
    ensures Layered(v', floor)
  {
    LevelZeroOrder(v, floor);
    forall l | 0 <= l < |v'| ensures LayerOk(v', l, floor) {
      if l == 0 {
        forall i, j | 0 <= i < |v'[0]| && 0 <= j < |v'[0]| && v'[0][i].number > v'[0][j].number
          ensures Ahead(Ent(v'[0][i]), Ent(v'[0][j]), NumberedFrom(v'[0], v'[0][i].number), floor)
        {
          StackedPair(v, fresh', floor, v'[0], v'[0][i], v'[0][j]);
        }
      }
      forall u | 0 <= u < l ensures Ahead(LevelEntries(v'[u]), LevelEntries(v'[l]), UpperEntries(v', u + 1), floor) {
        forall x, e | x in LevelEntries(v'[u]) && e in LevelEntries(v'[l]) && x.key.user == e.key.user
          && Tag(x.key) <= Tag(e.key)
          ensures Covers(UpperEntries(v', u + 1), e, floor)
        {
          RecoveredOrder(v, fresh', floor, v', u, l, x, e);
        }
      }
    }
    AllLayersOk(v', |v'|, floor);
  }

  lemma RecoveredShape(mf: Manifest, v: Levels, fresh': seq<FileMeta>, v': Levels)
    requires VersionOk(v) && Placed(v) == mf.files && OnTop(v, fresh') && Recovered(mf, fresh', v')
    ensures VersionOk(v')
  {
    RecoveredLevels(mf, v, fresh', v');
    forall l | 0 <= l < |v'| ensures LevelOk(v', l) {
    }
    AllLevelsOk(v', |v'|);
  }

  /** Recovery's version is well formed, has its layers in order, and holds the manifest's
      entries and the logs'. */
  lemma RecoveredOk(mf: Manifest, v: Levels, fresh': seq<FileMeta>, floor: nat, v': Levels)
    requires VersionOk(v) && Layered(v, floor) && Placed(v) == mf.files && Stacked(v, fresh', floor)
    requires Recovered(mf, fresh', v')
    ensures VersionOk(v') && Layered(v', floor) && VersionEntries(v') == VersionEntries(v) + LevelEntries(fresh')
  {
    RecoveredShape(mf, v, fresh', v');
    RecoveredLevels(mf, v, fresh', v');
    RecoveredEntries(v, fresh', v');
    RecoveredLayered(v, fresh', floor, v');
  }

  /** No file comes from anywhere else. */
  lemma RecoveredTables(mf: Manifest, fresh': seq<FileMeta>, v: Levels)
    requires Recovered(mf, fresh', v)
    ensures Tables(v) <= FilesOf(mf.files) + Files(fresh')
  {
    forall f | f in Tables(v) ensures f in FilesOf(mf.files) + Files(fresh') {
      var l :| 0 <= l < |v| && f in v[l];
      assert f in Files(v[l]);
    }
  }

  // ----- a table for any set of entries

  lemma SortedExists(es: set<Entry>) returns (s: seq<Entry>)
    requires KeyUnique(es) && AllParse(es)
    ensures SortedKeys(s) && SetOf(s) == es
    decreases es
  {
    if es == {} {
      s := [];
    } else {
      var e := LeastExists(es);
      var t := SortedExists(es - {e});
      s := [e] + t;
      assert SetOf(s) == {e} + SetOf(t);
      forall j | 0 < j < |s| ensures Less(s[0].key, s[j].key) {
        assert s[j] in SetOf(t);
      }
    }
  }

  lemma LeastExists(es: set<Entry>) returns (e: Entry)
    requires KeyUnique(es) && AllParse(es) && es != {}
    ensures e in es && forall x :: x in es && x != e ==> Less(e.key, x.key)
    decreases es
  {
    e :| e in es;
    if es - {e} != {} {
      var n := LeastExists(es - {e});
      TotalOrder(e, n);
      if Less(n.key, e.key) {
        e := n;
      } else {
        forall x | x in es && x != e ensures Less(e.key, x.key) {
          assert x in es - {e};
        }
      }
    }
  }

  lemma TotalOrder(a: Entry, b: Entry)
    requires a.key != b.key && Parses(a.key) && Parses(b.key)
    ensures Less(a.key, b.key) || Less(b.key, a.key)
  {
    if a.key.user == b.key.user && Tag(a.key) == Tag(b.key) {
      TagInjective(a.key, b.key);
    }
  }

  // ----- recovery can always be carried out

  lemma FirstFile(s: set<FileMeta>) returns (f: FileMeta)
    requires s != {}
    ensures f in s && forall g :: g in s ==> AtMost(f.smallest, g.smallest)
    decreases s
  {
    f :| f in s;
    if s - {f} != {} {
      var n := FirstFile(s - {f});
      if Less(n.smallest, f.smallest) {
        f := n;
      } else {
        forall g | g in s ensures AtMost(f.smallest, g.smallest) {
          assert g == f || g in s - {f};
        }
      }
    }
  }

  lemma HoldsExists(s: set<FileMeta>) returns (files: seq<FileMeta>)
    ensures Holds(files, s)
    decreases s
  {
    if s == {} {
      files := [];
    } else {
      var f := FirstFile(s);
      var rest := HoldsExists(s - {f});
      files := [f] + rest;
      forall j | 0 < j < |files| ensures files[0] != files[j] && AtMost(files[0].smallest, files[j].smallest) {
        assert files[j] in Files(rest);
      }
      assert Files(files) == {f} + Files(rest);
    }
  }

  lemma RecoveredExists(mf: Manifest, fresh': seq<FileMeta>, n: nat) returns (v: Levels)
    requires n <= NUM_LEVELS
    ensures |v| == n
    ensures forall l :: 0 <= l < n ==>
      Holds(v[l], if l == 0 then FilesAt(mf.files, 0) + Files(fresh') else FilesAt(mf.files, l))
  {
    if n == 0 {
      v := [];
    } else {
      var upper := RecoveredExists(mf, fresh', n - 1);
      var files := HoldsExists(if n == 1 then FilesAt(mf.files, 0) + Files(fresh') else FilesAt(mf.files, n - 1));
      v := upper + [files];
    }
  }

  lemma RecoveredVersion(mf: Manifest, fresh': seq<FileMeta>) returns (v: Levels)
    ensures Recovered(mf, fresh', v)
  {
    v := RecoveredExists(mf, fresh', NUM_LEVELS);
  }

  lemma LastExists(logs: Logs, low: nat, slots: set<Slot>, start: nat) returns (last: nat)
    requires slots <= Slots(logs, low)
    ensures start <= last && forall a :: a in slots ==> Past(At(logs, a)) <= last + 1
    ensures last == start || exists a :: a in slots && Past(At(logs, a)) == last + 1
    decreases slots
  {
    if slots == {} {
      last := start;
    } else {
      var a :| a in slots;
      last := LastExists(logs, low, slots - {a}, start);
      if Past(At(logs, a)) > last + 1 {
        last := Past(At(logs, a)) - 1;
      }
      forall b | b in slots ensures Past(At(logs, b)) <= last + 1 {
        assert b == a || b in slots - {a};
      }
    }
  }

  lemma UnusedNumber(s: set<nat>, low: nat) returns (n: nat)
    ensures low < n && forall m :: m in s ==> m < n
    decreases s
  {
    if s == {} {
      n := low + 1;
    } else {
      var m :| m in s;
      var k := UnusedNumber(s - {m}, low);
      n := if m < k then k else m + 1;
      forall x | x in s ensures x < n {
        assert x == m || x in s - {m};
      }
    }
  }

  function TableOf(number: nat, es: seq<Entry>): FileMeta
    requires es != []
  {
    FileMeta(number, 0, es[0].key, es[|es| - 1].key, es)
  }

  lemma TagPacks(e: Entry)
    requires Parses(e.key) && e.key.sn <= MAX_SEQUENCE
    ensures Packs(e.key)
  {
  }

  /** All logs may be replayed into one table. */
  lemma ReplayedExists(logs: Logs, low: nat, last: nat, number: nat)
    returns (es: seq<Entry>, home: map<Slot, nat>, fresh': seq<FileMeta>)
    requires Numbered(logs, low) && NumbersUpTo(logs, low, last) && last < MAX_SEQUENCE
    ensures fresh' == if es == [] then [] else [TableOf(number, es)]
    ensures Replayed(logs, low, home, fresh')
  {
    LoggedWell(logs, low, last);
    es := SortedExists(Logged(logs, low));
    home := map a | a in Slots(logs, low) :: 0;
    fresh' := if es == [] then [] else [TableOf(number, es)];
    assert Batched(logs, low, home, 0) == Logged(logs, low);
    forall e | e in es ensures Packs(e.key) {
      assert e in SetOf(es);
      TagPacks(e);
    }
    if es == [] {
      forall a | a in home ensures Written(At(logs, a)) == {} {
        assert Written(At(logs, a)) <= Logged(logs, low) == SetOf(es);
      }
    }
  }

  lemma ReplayChosen(logs: Logs, mf: Manifest, last: nat)
    returns (es: seq<Entry>, home: map<Slot, nat>, fresh': seq<FileMeta>, v: Levels)
    requires Numbered(logs, mf.logNumber) && NumbersUpTo(logs, mf.logNumber, last) && last < MAX_SEQUENCE
    ensures fresh' == if es == [] then [] else [TableOf(mf.nextFile + 1, es)]
    ensures Replayed(logs, mf.logNumber, home, fresh') && Recovered(mf, fresh', v)
  {
    es, home, fresh' := ReplayedExists(logs, mf.logNumber, last, mf.nextFile + 1);
    v := RecoveredVersion(mf, fresh');
  }
}
