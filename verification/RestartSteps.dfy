/** Crashes, interrupted recoveries and recoveries keep the invariant about reads. */
module RestartSteps {
  import opened Keys
  import opened Version
  import opened Disks
  import opened Durability
  import opened ReadInvariants
  import opened WriteSteps
  import opened InstallSteps
  import L = Lsm

  // ----- crashes and interrupted recoveries

  /** Cut off and partly unreadable logs still number their records in order and hold all that
      was synced. */
  lemma CrashLogs(d: Disk, logs: Logs, low: nat)
    requires logs.Keys == d.logs.Keys && LogsOk(d)
    requires forall n :: n in logs ==>
      Survives(d.logs[n], if n in d.synced then d.synced[n] else 0, Tear(d, n), logs[n])
    ensures Shortened(d.logs, low, logs, low) && Synced(d.logs, d.synced, low) <= Synced(logs, d.synced, low)
  {
    forall a | a in Slots(logs, low) ensures a in Slots(d.logs, low) && At(logs, a) == At(d.logs, a) {
      assert a.log in logs && logs[a.log][a.index] == d.logs[a.log][a.index];
    }
    forall a | a in SyncedSlots(d.logs, d.synced, low)
      ensures a in SyncedSlots(logs, d.synced, low) && At(logs, a) == At(d.logs, a)
    {
      assert a.log in logs && a.index < d.synced[a.log] <= Tear(d, a.log);
      assert logs[a.log][a.index] == d.logs[a.log][a.index];
    }
    SyncedStays(d.logs, d.synced, low, logs, d.synced, low);
  }

  lemma ShortenedReads(
    logs: Logs, synced: map<nat, nat>, low: nat, logs': Logs, synced': map<nat, nat>, known: set<Entry>)
    requires LogsRead(logs, synced, low, known) && Shortened(logs, low, logs', low)
    requires Synced(logs, synced, low) <= Synced(logs', synced', low)
    ensures LogsRead(logs', synced', low, known) && Logged(logs', low) <= Logged(logs, low)
  {
    SameLogged(logs, low, logs');
    NothingHiddenStays(logs, synced, low, logs', synced', low, known);
  }

  lemma CrashReads(s: State, logs: Logs, spoils: bool, s': State)
    requires DiskReads(s.disk) && Accounts(s.disk, s.sure, s.written) && s.sure <= s.acked && LogsOk(s.disk)
    requires Crash(s, logs, spoils, s')
    ensures ReadInv(s')
  {
    var d := s.disk;
    CrashLogs(d, logs, d.manifest.logNumber);
    ShortenedReads(d.logs, d.synced, d.manifest.logNumber, logs, d.synced, Known(d.manifest));
  }

  lemma StrayReads(s: State, n: nat, es: seq<Entry>, s': State)
    requires ReadInv(s) && (StrayTable(s, n, es, s') || StrayDescriptor(s, s'))
    ensures ReadInv(s')
  {
  }

  lemma StrayLogReads(s: State, n: nat, s': State)
    requires ReadInv(s) && StrayLog(s, n, s')
    ensures ReadInv(s')
  {
    EmptyLogReads(s.disk, n, s'.disk, s.sure, s.written);
  }

  // ----- recovery

  lemma FreshAhead(d: Disk, v: Levels, r: Fresh, k: nat)
    requires DiskReads(d) && VersionEntries(v) <= Known(d.manifest) && k < |r.fresh'|
    requires Replayed(d.logs, d.manifest.logNumber, r.home, r.fresh')
    requires NumbersUpTo(d.logs, d.manifest.logNumber, r.last)
    ensures Ahead(Ent(r.fresh'[k]), VersionEntries(v), FreshFrom(r.fresh', k), r.last)
  {
    forall x, e | x in Ent(r.fresh'[k]) && e in VersionEntries(v) && x.key.user == e.key.user
      && Tag(x.key) <= Tag(e.key)
      ensures Covers(FreshFrom(r.fresh', k), e, r.last)
    {
      FreshCovers(d.logs, d.synced, d.manifest.logNumber, Known(d.manifest), r, k, x, e);
    }
  }

  /** Where the logs hold what outdoes an entry that a record hides: not before the record. */
  lemma OutdoneWhere(
    logs: Logs, synced: map<nat, nat>, low: nat, known: set<Entry>, a: Slot, x: Entry, e: Entry)
    returns (b: Slot, c: Entry)
    requires Numbered(logs, low) && NothingHidden(logs, synced, low, known)
    requires a in Slots(logs, low) && x in Written(At(logs, a)) && e in known && Hides(x, e)
    ensures b in Slots(logs, low) && c in Written(At(logs, b)) && !Earlier(b, a)
    ensures c.key.user == e.key.user && Tag(c.key) >= Tag(e.key)
  {
    assert Outdone(Written(At(logs, a)) + Synced(logs, synced, low), e);
    c :| c in Written(At(logs, a)) + Synced(logs, synced, low) && c.key.user == e.key.user && Tag(c.key) >= Tag(e.key);
    if c in Written(At(logs, a)) {
      b := a;
    } else {
      b :| b in SyncedSlots(logs, synced, low) && c in Written(At(logs, b));
      if Earlier(b, a) {
        SlotOrder(logs, low, b, a, c, x);
      }
    }
  }

  lemma ReplayedCovers(logs: Logs, low: nat, r: Fresh, b: Slot, k: nat, c: Entry, e: Entry)
    requires Replayed(logs, low, r.home, r.fresh') && NumbersUpTo(logs, low, r.last)
    requires b in Slots(logs, low) && c in Written(At(logs, b)) && k <= r.home[b]
    requires c.key.user == e.key.user && Tag(c.key) >= Tag(e.key)
    ensures Covers(FreshFrom(r.fresh', k), e, r.last)
  {
    WrittenRange(At(logs, b), c);
    assert c in Batched(logs, low, r.home, r.home[b]);
    assert c in Ent(r.fresh'[r.home[b]]);
  }

  /** What a replayed entry hides of the tables is covered by what is replayed with it or after it. */
  lemma FreshCovers(
    logs: Logs, synced: map<nat, nat>, low: nat, known: set<Entry>, r: Fresh, k: nat, x: Entry, e: Entry)
    requires LogsRead(logs, synced, low, known) && Replayed(logs, low, r.home, r.fresh')
    requires NumbersUpTo(logs, low, r.last)
    requires k < |r.fresh'| && x in Ent(r.fresh'[k]) && e in known && x.key.user == e.key.user
    requires Tag(x.key) <= Tag(e.key)
    ensures Covers(FreshFrom(r.fresh', k), e, r.last)
  {
    assert x in Batched(logs, low, r.home, k);
    var a :| a in Slots(logs, low) && a in r.home && r.home[a] == k && x in Written(At(logs, a));
    var b, c := a, x;
    if Tag(x.key) < Tag(e.key) {
      b, c := OutdoneWhere(logs, synced, low, known, a, x, e);
      assert r.home[a] <= r.home[b] by {
        HomeRises(logs, low, r, a, b);
      }
    }
    ReplayedCovers(logs, low, r, b, k, c, e);
  }

  lemma HomeRises(logs: Logs, low: nat, r: Fresh, a: Slot, b: Slot)
    requires Replayed(logs, low, r.home, r.fresh') && a in Slots(logs, low) && b in Slots(logs, low) && !Earlier(b, a)
    ensures r.home[a] <= r.home[b]
  {
  }

  lemma FreshStacked(d: Disk, v: Levels, r: Fresh)
    requires DiskOk(d) && DiskReads(d) && Describes(d.manifest, v) && FreshNumbers(d, r)
    requires Replayed(d.logs, d.manifest.logNumber, r.home, r.fresh')
    requires NumbersUpTo(d.logs, d.manifest.logNumber, r.last)
    ensures Stacked(v, r.fresh', r.last)
  {
    var low := d.manifest.logNumber;
    ReplayedEntries(d.logs, low, r.home, r.fresh');
    LoggedWell(d.logs, low, r.last);
    PlacedEntries(v);
    PlacedTables(v);
    forall k | 0 <= k < |r.fresh'| ensures Ahead(Ent(r.fresh'[k]), VersionEntries(v), FreshFrom(r.fresh', k), r.last) {
      FreshAhead(d, v, r, k);
    }
    forall j, k | 0 <= j < k < |r.fresh'| ensures NewerThan(Ent(r.fresh'[k]), Ent(r.fresh'[j])) {
      ReplayedLater(d.logs, low, r.home, r.fresh', j, k);
      InFresh(r.fresh', j);
      InFresh(r.fresh', k);
      L.LaterNewer(Ent(r.fresh'[k]), Ent(r.fresh'[j]));
    }
    forall g, k | g in v[0] && 0 <= k < |r.fresh'| ensures g.number < r.fresh'[k].number {
      assert g in Tables(v) && r.fresh'[k] in r.fresh';
    }
  }

  lemma JoinedWell(known: set<Entry>, last: nat, es: set<Entry>, last': nat)
    requires L.WellWritten(known, last) && L.WellWritten(es, last') && KeyUnique(known + es) && last <= last'
    ensures L.WellWritten(known + es, last')
  {
  }

  /** Replayed entries join what reads like the tables. */
  lemma JoinedFaithful(
    old': set<Entry>, known: set<Entry>, es: set<Entry>, last: nat, k: UserKey, t: nat)
    requires L.WellWritten(known + es, last) && old' <= known && last <= t
    requires forall x, e :: x in es && e in known && Hides(x, e) ==> Outdone(es, e)
    requires Visible(old', k, t) == Visible(known, k, t)
    ensures Visible(old' + es, k, t) == Visible(known + es, k, t)
  {
    var all := known + es;
    if HasCandidate(all, k, t) {
      NewestExists(all, k, t);
      var n :| IsNewest(all, k, t, n);
      if n in es {
        VisibleSubset(all, old' + es, k, t, n);
      } else {
        NoneReplayed(known, es, last, k, t, n);
        VisibleSame(old' + es, t, old', t, k);
        VisibleSame(all, t, known, t, k);
      }
    } else {
      assert !HasCandidate(old' + es, k, t);
    }
  }

  lemma NoneReplayed(known: set<Entry>, es: set<Entry>, last: nat, k: UserKey, t: nat, n: Entry)
    requires L.WellWritten(known + es, last) && last <= t && IsNewest(known + es, k, t, n) && n !in es
    requires forall x, e :: x in es && e in known && Hides(x, e) ==> Outdone(es, e)
    ensures forall x :: x in es ==> !Candidate(x, k, t)
  {
    forall x | x in es ensures !Candidate(x, k, t) {
      if Candidate(x, k, t) {
        if Tag(x.key) == Tag(n.key) {
          TagInjective(x.key, n.key);
        } else {
          var c :| c in es && c.key.user == n.key.user && Tag(c.key) >= Tag(n.key);
          CandidateIsOldEnough(c, k, t);
          TagInjective(c.key, n.key);
        }
      }
    }
  }

  lemma LoggedHides(logs: Logs, synced: map<nat, nat>, low: nat, known: set<Entry>)
    requires NothingHidden(logs, synced, low, known)
    ensures forall x, e :: x in Logged(logs, low) && e in known && Hides(x, e) ==> Outdone(Logged(logs, low), e)
  {
    forall x, e | x in Logged(logs, low) && e in known && Hides(x, e) ensures Outdone(Logged(logs, low), e) {
      var a :| a in Slots(logs, low) && x in Written(At(logs, a));
      OutdoneMore(Written(At(logs, a)) + Synced(logs, synced, low), e, Logged(logs, low));
    }
  }

  lemma FreshKnown(d: Disk, v: Levels, r: Fresh)
    requires Placed(v) == d.manifest.files
    requires VersionEntries(r.version) == VersionEntries(v) + Logged(d.logs, d.manifest.logNumber)
    ensures Known(FreshManifest(d, r)) == OnDisk(d)
    ensures VersionEntries(v) <= Known(d.manifest) && VersionEntries(r.version) <= Known(FreshManifest(d, r))
  {
    PlacedEntries(v);
    PlacedEntries(r.version);
  }

  lemma LastBound(d: Disk, last: nat)
    requires LastOf(d, last) && Numbered(d.logs, d.manifest.logNumber) && d.manifest.lastSequence < MAX_SEQUENCE
    ensures last < MAX_SEQUENCE
  {
  }

  lemma FreshVersion(d: Disk, v: Levels, r: Fresh)
    requires DiskOk(d) && DiskReads(d) && Describes(d.manifest, v) && FreshNumbers(d, r) && LastOf(d, r.last)
    requires Replayed(d.logs, d.manifest.logNumber, r.home, r.fresh') && Recovered(d.manifest, r.fresh', r.version)
    ensures VersionOk(r.version) && Layered(r.version, r.last)
    ensures VersionEntries(r.version) == VersionEntries(v) + Logged(d.logs, d.manifest.logNumber)
  {
    FreshStacked(d, v, r);
    LayeredLater(v, d.manifest.lastSequence, r.last);
    RecoveredOk(d.manifest, v, r.fresh', r.last, r.version);
    ReplayedEntries(d.logs, d.manifest.logNumber, r.home, r.fresh');
  }

  /** The recovered version is well formed, has its layers in order and reads like all that was
      on disk. */
  lemma FreshDescribes(d: Disk, r: Fresh)
    requires DiskOk(d) && DiskReads(d) && FreshNumbers(d, r) && LastOf(d, r.last)
    requires Replayed(d.logs, d.manifest.logNumber, r.home, r.fresh') && Recovered(d.manifest, r.fresh', r.version)
    ensures Describes(FreshManifest(d, r), r.version)
    ensures Known(FreshManifest(d, r)) == OnDisk(d)
  {
    var v :| Describes(d.manifest, v);
    var low, known := d.manifest.logNumber, Known(d.manifest);
    var es := Logged(d.logs, low);
    FreshVersion(d, v, r);
    FreshKnown(d, v, r);
    LoggedWell(d.logs, low, r.last);
    JoinedWell(known, d.manifest.lastSequence, es, r.last);
    LastBound(d, r.last);
    LoggedHides(d.logs, d.synced, low, known);
    forall k, t | r.last <= t ensures Visible(VersionEntries(r.version), k, t) == Visible(known + es, k, t) {
      JoinedFaithful(VersionEntries(v), known, es, r.last, k, t);
    }
  }

  lemma FreshCore(d: Disk, r: Fresh)
    requires Describes(FreshManifest(d, r), r.version) && AllBacked(FreshDisk(d, r), Tables(r.version), r.nextFile)
    ensures L.Inv(FreshMemory(d, r).core)
  {
    var core := FreshMemory(d, r).core;
    PlacedEntries(r.version);
    assert L.Stored(core) == VersionEntries(r.version);
    forall f | f in core.version[0] ensures f.number < core.nextFileNumber {
      assert f in Tables(r.version);
    }
  }

  lemma FreshLogs(d: Disk, r: Fresh)
    requires DiskOk(d) && FreshNumbers(d, r)
    ensures Slots(FreshDisk(d, r).logs, r.newLog) == {} && Logged(FreshDisk(d, r).logs, r.newLog) == {}
    ensures LogEntries(LogOf(FreshDisk(d, r).logs, r.newLog)) == {}
  {
    TopLog(FreshDisk(d, r).logs, r.newLog);
  }

  lemma SyncedLogged(logs: Logs, synced: map<nat, nat>, low: nat)
    ensures Synced(logs, synced, low) <= Logged(logs, low)
  {
  }

  lemma FreshDurably(d: Disk, r: Fresh, sure: set<Entry>, written: set<Entry>)
    requires DiskOk(d) && Accounts(d, sure, written) && FreshNumbers(d, r)
    requires Describes(FreshManifest(d, r), r.version)
    requires Known(FreshManifest(d, r)) == OnDisk(d)
    ensures DiskReads(FreshDisk(d, r)) && Accounts(FreshDisk(d, r), sure, written)
    ensures Linked(FreshDisk(d, r), FreshMemory(d, r), sure)
    ensures Attached(FreshDisk(d, r), FreshMemory(d, r), sure, written)
  {
    FreshLogs(d, r);
    SyncedLogged(d.logs, d.synced, d.manifest.logNumber);
  }

  lemma RecoverReads(s: State, r: Fresh, s': State)
    requires DiskOk(s.disk) && ReadInv(s) && Recover(s, r, s')
    ensures ReadInv(s')
  {
    var d := s.disk;
    FreshDescribes(d, r);
    FreshFiles(d, r);
    FreshCore(d, r);
    FreshDurably(d, r, s.sure, s.written);
    DeletedDurably(FreshDisk(d, r), r.gone, s.sure, s.written);
    DeletedLinked(FreshDisk(d, r), FreshMemory(d, r), r.gone, s.sure);
    DeletedAttached(FreshDisk(d, r), FreshMemory(d, r), r.gone, s.sure, s.written);
  }
}
