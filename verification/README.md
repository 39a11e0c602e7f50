# Models and proofs of the storage engine and the message codec

The app ships the LevelDB storage engine (`dogFoodTracker/Pods/leveldb-library`) and the
nanopb codec for Protocol Buffers (`dogFoodTracker/Pods/nanopb`). The engine is a tower
of fast structures that must all agree with one simple object: a map from (user key,
sequence number) to a value or a deletion, read at a sequence number. This project
models those structures in Dafny and proves that they do; and it proves that nanopb
decodes what it encoded to the same message.

The files follow the layers.

- **Meaning.** `Keys` has internal keys and the flat reading of a set of entries
  (`Visible`). `Version` is the point lookup, `Inputs` and `Selection` the choice of
  compaction inputs, `Compaction` the merge loop with its drop rule, `Install` what
  installing its outputs does to readers, `Flush` the placement of a flushed memtable, and
  `Lsm` the engine as a step machine over all of them. `Straddle` and `StraddleRun` are a
  run in which a deleted key comes back.
- **Files over time.** `Disk` has tables, logs, the manifest and what replaying them gives
  back. `Durability` is the engine with its files as a step machine: writers, background
  calls, failures, deletions, crashes and recoveries, and the agreement of all files;
  `Collecting` shows that deletion keeps nothing else.
  `ReadInvariant` says how disk and memory account for all that was written, and
  `QuietSteps`, `WriteSteps`, `InstallSteps`, `LandingSteps`, `CopyLandings`,
  `ReturnLandings` and `RestartSteps` show kind by kind that the steps keep it, which
  `DurableReads` joins. `Survival` is what is never lost in whole runs and exactly when,
  `Landings` what depends on the records that reach the manifest after an error, `Retries`
  how these come about, `CheckedRuns` what the missing checks would establish, and
  `StoredOnce` when no entry is stored twice. `Rebuild` shows that the records of a run's
  manifest are ones that recovery rebuilds the levels and the numbers from. `WriteQueue` is the
  queue of writers, and `Writers` that queue on the engine with its files.
- **Cursors.** `Cursor`, `TwoLevel`, `IteratorWrapper`, `Merger`, `DbIter`, and `StoreIter`,
  which stacks them over a whole store.
- **Formats.** `Coding`, `Log`, `LogReplay` (reading what was written, whole or cut short),
  `LogLosses` (reading files of any bytes), `WriteBatch`, `VersionEdit`,
  `VersionBuilder`, `Manifest`, `Comparator`, `Filter`, `Table` and `Block`.
- **Memory.** `SkipList`, `MemTable`, `HandleTable` and `LruCache`.
- **Messages.** `PbWire` (varints, zigzag, tags), `PbMessage` (descriptors, values, and
  what encoding and decoding mean), `PbRoundTrip`, `PbOutcome` and `PbReading` (what decoding
  any bytes comes to, and what is accepted), and the streams that do it in place:
  `PbCommon`, `PbEncode`, `PbRequired` and `PbDecode`.

Objects that the code updates in place are classes (`DBIter`, `MergingIterator`,
`IteratorWrapper`, `TwoLevelIterator`, `Writer`, `Reader`, `WriteBatch`, `SkipList`, `BlockBuilder`,
`BlockIter`, `TableBuilder`, `FilterBlockBuilder`, `Builder`, `LRUCache`, `MemTable`,
`CompactionCursor`, `FieldIter`, `OStream`, `IStream`), their loops are loops, and each
method is proved against a function that the lemmas of its module are about. Where
threads interleave, a step machine has one step for every stretch of code that runs
under the lock.

Twelve facts about the code shape the statements.

- `AddBoundaryInputs` is applied to the input files of a level but not to those of
  the next one (`db/version_set.cc` lines 1407-1432). `StraddleRun.DeletedKeyIsRead` is a
  run in which a deleted key comes back because of it, and `Compaction.MeaningPreservedIff`
  says exactly when a compaction preserves the answer of every read. The theorems over all
  runs, `Lsm.RunsAreFaithful` and `Survival.NoAcknowledgedWriteLost`, have exactly this
  condition on the compactions of the run; `Lsm.ClosedRunsAreClean` shows that the missing
  check would establish it.
- When an append to the log fails, the error is not recorded, and the next writers go on with
  the same log (`db/db_impl.cc` lines 1212-1231), whose writer has moved on as if the bytes
  were there (`db/log_writer.cc` lines 82-108). What is appended and synced behind such a tear
  may not be found again (`WriteBatches.LostBehindTear`), and nothing says so.
- When an append to the manifest fails, a flush from the merge loop appends to the same file
  again (`db/db_impl.cc` lines 909-919). Until as many bytes follow the torn record's header as
  it announces, whatever was appended since is not read; from then on recovery fails, unless
  these bytes pass for that record (`Manifest.TornFailsIff`, `Manifest.TornRead`). It does not
  matter whether the later appends failed. `Retries.SpoilIsPossible` is how this comes about
  without any write, and on such a manifest no process ever runs again
  (`Survival.SpoiltForGood`).
- So `Survival.AckedSurviveIff`: after every crash the database can be opened again with every
  acknowledged write exactly if none was acknowledged behind a failed append to its log, and no
  append to the manifest was tried behind a failed one. `Survival.NoAcknowledgedWriteLost` is
  about every process that does run later, and about all the other writes in every run.
- A manifest record may reach the file although its sync fails, and CompactMemTable does not
  look at the background error when the merge loop calls it. So the same memtable can be
  flushed into the manifest twice (`Retries.RetryIsPossible`), and the compaction's own
  record can take the log number back to a log that was already flushed
  (`Retries.ReturnIsPossible`). Copies of a table at other levels, or at level 0 after the log
  was replayed once more, do no harm, and the theorems cover them. Two things do: two tables
  that overlap at one level below the first, which the code forbids (a build with assertions
  aborts on such a manifest, `db/version_set.cc` lines 722-737), and a replayed record that
  hides what a table holds (`Landings.HiddenIsMisread`). `Landings.ReadsSoundIff` has the
  exact condition for the reads after every crash and recovery, which can be checked before the
  record is written, and `CheckedRuns.CheckedRunsAreClean` shows that two checks of the
  background error and the check of the first point would establish all the hypotheses, and
  that nothing acknowledged could then be lost.
- A file number that is added, deleted and given to another file makes recovery keep both
  files (`VersionBuilders.NumberReused`); `VersionBuilders.OneBuilderIff` says exactly when
  recovery gives the same levels as the sequence of versions did, and
  `Rebuilds.RecoveryRebuilds` that it does in every run.
- `DecodeEntry` adds the two lengths of a block entry in 32 bits, so an entry whose lengths
  overflow is accepted although it reaches beyond the block (`Blocks.OverlongAccepted`,
  `Blocks.InsideIff`). No builder writes one.
- `VersionEdit::Clear` keeps the compaction pointers, so decoding gives an edit back
  exactly when the object had none (`VersionEdits.EditRoundTrip`).
- A nanopb string without a terminator in its room is encoded whole, and the decoder
  refuses it (`PbRoundTrip.StringRoundTripIff`), so a well-formed message has its
  strings terminated.
- nanopb keeps the bit position of a 32-bit varint in eight bits, so enough padding makes it
  wrap (`PbWire.OneBehindPadding`, `PbWire.PositionWraps`). Without padding bits 32 to 34 of a
  64-bit number that passes for a negative one of 32 are lost (`PbReadings.WideVarintIff`).
- The kinds of records that the log reader reports to itself, for the end of the file and for
  damage, are numbers that a record on disk may have too; a sound record of the first of them
  ends the reading (`LogLosses.EndMarkEnds`). No writer writes one, and without one damage stays
  within its block (`LogLosses.DamagedLogKeeps`).
- Of a submessage that comes twice the contents are merged, but the second one must bring its
  required fields itself (`PbOutcomes.SubmessagesMerge`, `PbOutcomes.MergedMustBring`), so a
  message that was split in two can be refused.

Paths in the table are relative to the root of the repository's sources.

## Model

| member | source | states |
|---|---|---|
| Keys.VisibleNewest | dogFoodTracker/Pods/leveldb-library/db/version_set.cc:263-276 | A flat read answers with the meaning of the newest entry of the user key that is not newer than the read: its value, a deletion, or corruption. |
| Keys.VisibleLayers | dogFoodTracker/Pods/leveldb-library/db/db_impl.cc:1113-1131 | Searching newer layers first and stopping at the first layer with a candidate is a flat read of all layers together. |
| Version.FindFile | dogFoodTracker/Pods/leveldb-library/db/version_set.cc:88-106 | The binary search returns the one index that splits the files into those ending before the key and those not ending before it. |
| Version.SomeFileOverlapsRange | dogFoodTracker/Pods/leveldb-library/db/version_set.cc:122-157 | The binary-search branch and the scanning branch both answer whether some file meets the user-key range, with open ends. |
| Version.Get | dogFoodTracker/Pods/leveldb-library/db/version_set.cc:326-421 | On any well-formed version it answers with what the level by level search finds: the newest candidate of the first level-0 file by decreasing number, or of the first deeper level, that has one. Where the levels are in order from the read's number on, also with copies of entries in deeper levels, that equals a flat read of every entry; it may say corrupt only if some entry does not parse. |
| Version.SearchIsRead | dogFoodTracker/Pods/leveldb-library/db/version_set.cc:340-384 | What the search finds where the levels are in order is the newest candidate, and so the meaning of a flat read. |
| Version.LevelZeroPlan | dogFoodTracker/Pods/leveldb-library/db/version_set.cc:348-365 | Searching the level-0 files that may hold the key by decreasing file number meets the newest entry first. |
| Version.SortedLevelPlan | dogFoodTracker/Pods/leveldb-library/db/version_set.cc:366-384 | At a sorted level the one file the binary search finds holds the newest entry of the level for the key, if any does. |
| Version.FirstLevelDecides | dogFoodTracker/Pods/leveldb-library/db/version_set.cc:340-384 | The newest entry of the first level that has a candidate is the newest of all levels. |
| Inputs.GetOverlappingInputs | dogFoodTracker/Pods/leveldb-library/db/version_set.cc:519-559 | The files that meet the range; at level 0 the range grows to the least one that every file it meets lies inside, the restarting loop terminates, and no gap is added. |
| Inputs.GetRange | dogFoodTracker/Pods/leveldb-library/db/version_set.cc:1205-1224 | Smallest and largest internal key of the inputs. |
| Inputs.FindLargestKey | dogFoodTracker/Pods/leveldb-library/db/version_set.cc:1326-1340 | The largest key of the files, or none for no files. |
| Inputs.FindSmallestBoundaryFile | dogFoodTracker/Pods/leveldb-library/db/version_set.cc:1344-1362 | The boundary file with the least smallest key, or none exactly when there is no boundary file. |
| Inputs.AddBoundaryInputs | dogFoodTracker/Pods/leveldb-library/db/version_set.cc:1378-1401 | Files are only added, a run of adjacent files stays a run, nothing changes when no boundary file exists, in the result no file continues the last user key, and every file added continues the last one before it: there are the boundary files and no others. |
| Inputs.ClosureUnique | dogFoodTracker/Pods/leveldb-library/db/version_set.cc:1378-1401 | At a sorted level only one list has that property, so that says which files are added. |
| Selection.SetupOtherInputs | dogFoodTracker/Pods/leveldb-library/db/version_set.cc:1403-1462 | The boundary-closed start with the files it meets at the next level, or, if and only if it meets some, the closed files of its own level that meet the hull of both are more, all together stay below the size limit and widening meets no more files of the next level, these. Either way the inputs keep the shape of a compaction: closed at their level, exactly the meeting files of the next level, and without gaps if the start had none. |
| Selection.PickCompaction | dogFoodTracker/Pods/leveldb-library/db/version_set.cc:1270-1322 | Around any chosen file the picked inputs are those, started from the file or at level 0 from the files it meets; they contain it, leave no user key between their smallest and largest uncovered, and the new compaction pointer is their largest key. |
| Selection.SettledOnce | dogFoodTracker/Pods/leveldb-library/db/version_set.cc:1403-1444 | The version, the start and the size limit leave one choice of inputs at both levels, so the contract of SetupOtherInputs decides what it returns. |
| Selection.PickBySize | dogFoodTracker/Pods/leveldb-library/db/version_set.cc:1276-1300 | In a level that is too large the file chosen is the first one that ends behind the compaction pointer, or the first of all. |
| Selection.TurnsAdvance | dogFoodTracker/Pods/leveldb-library/db/version_set.cc:1284-1295 | So the files of a sorted level take turns: next comes the file right behind the last inputs, or the first again. |
| Selection.ClosedHasNoBoundary | dogFoodTracker/Pods/leveldb-library/db/version_set.cc:1310-1318 | A closed level-0 pick is already boundary-closed. |
| Compaction.CompactionCursor.IsBaseLevelForKey | dogFoodTracker/Pods/leveldb-library/db/version_set.cc:1533-1552 | With keys asked for in order, the pointers that only move forward give the answer of a full scan of the deeper levels. |
| Compaction.DoCompactionWork | dogFoodTracker/Pods/leveldb-library/db/db_impl.cc:921-998 | The outputs of the merge loop, however they are cut into files, hold in order, with the right bounds, exactly the merged entries but those that can be read and are hidden from every reader by a newer one that the oldest snapshot sees, or delete what no deeper level has any more. |
| Compaction.MissingIff | dogFoodTracker/Pods/leveldb-library/db/db_impl.cc:944-976 | Which entries the drop rule leaves out, by their place among the merged ones, with entries that cannot be read among them: these start their user key anew. |
| Compaction.ReadableMissingIff | dogFoodTracker/Pods/leveldb-library/db/db_impl.cc:944-976 | If all can be read, an entry is left out if and only if a newer one of its user key is not newer than the oldest snapshot, or it is a deletion that is not and no file two or more levels down contains its user key. |
| Compaction.OlderDropped | dogFoodTracker/Pods/leveldb-library/db/db_impl.cc:944-976 | Rule (A) reaches every entry behind one that the oldest snapshot already sees. |
| Compaction.MeaningPreservedIff | dogFoodTracker/Pods/leveldb-library/db/db_impl.cc:944-976 | Every read at or above the oldest snapshot is preserved if and only if no droppable input tombstone is the newest visible entry of a key that a non-input file of the next level still holds. |
| Install.RestNewer | dogFoodTracker/Pods/leveldb-library/db/version_set.cc:1378-1401 | Because of the boundary files, entries left behind at the input level are newer than the inputs wherever they share a user key. |
| Install.SelectedReady | dogFoodTracker/Pods/leveldb-library/db/version_set.cc:1403-1462 | What SetupOtherInputs selects may be installed on the same version. |
| Install.ClosedSideNewer | dogFoodTracker/Pods/leveldb-library/db/version_set.cc:1407-1432 | If the inputs of the next level were boundary-closed too, files left behind there would hold only newer entries of shared user keys. |
| Install.OutputsGood | dogFoodTracker/Pods/leveldb-library/db/db_impl.cc:811-858 | Output files are well formed, pairwise disjoint, and hold exactly the kept entries. |
| Install.InstallOk | dogFoodTracker/Pods/leveldb-library/db/db_impl.cc:860-876 | The version after the compaction is well formed, and its entries are the surroundings and the kept entries. |
| Install.InstallLayered | dogFoodTracker/Pods/leveldb-library/db/db_impl.cc:860-876 | Its levels are in order as those before were: what a read meets first is newer than what it meets later, or a copy of it. |
| Install.CompactionPreservesReads | dogFoodTracker/Pods/leveldb-library/db/db_impl.cc:889-998 | No read at or above the oldest snapshot can tell the new version from the old one when files left at the next level hold only newer entries of shared keys. |
| Install.TombstoneUncovers | dogFoodTracker/Pods/leveldb-library/db/db_impl.cc:950-966 | Otherwise, once an obsolete tombstone was the newest entry, readers get whatever the files left at the next level hold for the key. |
| Straddle.PicksThese | dogFoodTracker/Pods/leveldb-library/db/version_set.cc:1270-1462 | In a concrete version PickCompaction returns, for any size limit, inputs that leave the other half of a user key behind at the next level. |
| Straddle.DeletedKeyComesBack | dogFoodTracker/Pods/leveldb-library/db/version_set.cc:1407-1432 | Compacting them makes a deleted key readable again. |
| StraddleRun.DeletedKeyIsRead | dogFoodTracker/Pods/leveldb-library/db/version_set.cc:1407-1432 | A run of the engine from an empty store at sequence number 0, with only compactions that the code picks by itself, ends in a state where a read of the latest sequence number finds a value that was deleted. |
| Flush.PickLevelForMemTableOutput | dogFoodTracker/Pods/leveldb-library/db/version_set.cc:491-516 | Level 0 if a file there meets the range; else as deep as the third level, stopping exactly at the first level whose next one has a file that meets the range or whose next but one has too many bytes that do; so nothing down to the level meets it. |
| Flush.FlushOk | dogFoodTracker/Pods/leveldb-library/db/db_impl.cc:491-533 | Adding the flushed file where it was placed keeps the version well formed and its levels in order, and adds exactly its entries. |
| Flush.FlushAvoidsInputs | dogFoodTracker/Pods/leveldb-library/db/db_impl.cc:906-918 | A memtable flushed during a compaction to its output level or below shares no user key with the inputs. |
| Flush.FlushApart | dogFoodTracker/Pods/leveldb-library/db/db_impl.cc:906-918 | At the output level it lies wholly on one side of the inputs, so it cannot overlap the outputs. |
| Flush.FlushKeepsJob | dogFoodTracker/Pods/leveldb-library/db/db_impl.cc:906-918 | A compaction picked by PickCompaction can still be installed, with the same guarantees, after such a flush. |
| Flush.AddedKeepsJob | dogFoodTracker/Pods/leveldb-library/db/db_impl.cc:906-918 | So it can after any newer file comes in, a copy of one that is there included, as long as that avoids the inputs if it stands below their level. |
| Lsm.WriteKeepsInv | dogFoodTracker/Pods/leveldb-library/db/db_impl.cc:1185-1256 | A batch in the memtable under the next sequence numbers keeps what readers see equal to the history. |
| Lsm.FlushKeepsInv | dogFoodTracker/Pods/leveldb-library/db/db_impl.cc:535-566 | So does turning the immutable memtable into a table, also in the middle of a compaction. |
| Lsm.FinishPreservesIff | dogFoodTracker/Pods/leveldb-library/db/db_impl.cc:860-876 | Installing a compaction, possibly long after it was picked, leaves every read of the version at or above its snapshot as it was if and only if no dropped tombstone uncovers an entry left at the output level. |
| Lsm.FinishKeepsInv | dogFoodTracker/Pods/leveldb-library/db/db_impl.cc:860-876 | If none does, installing a finished compaction keeps what readers see equal to the history. |
| Lsm.MoveKeepsInv | dogFoodTracker/Pods/leveldb-library/db/db_impl.cc:716-726 | So does moving a single file down a level. |
| Lsm.RunsAreFaithful | dogFoodTracker/Pods/leveldb-library/db/db_impl.cc:889-998 | In every state of every run of writes, failed writes, switches, flushes, compactions, moves and snapshots whose compactions meet that condition, a read at or above the oldest snapshot sees exactly the writes made so far. |
| Lsm.ClosedRunsAreClean | dogFoodTracker/Pods/leveldb-library/db/version_set.cc:1407-1432 | If the inputs of the next level were extended like those of the input level, every run would meet the condition. |
| Lsm.RunsStoreOnce | dogFoodTracker/Pods/leveldb-library/db/db_impl.cc:889-998 | In no state of any run is an entry stored twice. |
| Lsm.Get | dogFoodTracker/Pods/leveldb-library/db/db_impl.cc:1100-1145 | Memtable, then immutable memtable, then version: the answer is a flat read of everything ever written. |
| Durability.NextFiles | dogFoodTracker/Pods/leveldb-library/db/db_impl.cc:648-767 | Every step of writers, background calls, failures, deletions, crashes and recovery keeps files, logs, manifest and pending outputs in agreement, in every run; appends may fail half way and leave a log or the manifest torn. |
| Durability.AtMostOneCall | dogFoodTracker/Pods/leveldb-library/db/db_impl.cc:648-686 | Background calls are started by the scheduling flag alone, and yet at most one is active; a compaction is under way exactly while that call is in it. |
| Durability.NoDeletionBeside | dogFoodTracker/Pods/leveldb-library/db/db_impl.cc:535-566 | So no call deletes files while another one builds, merges or logs: none runs between dropping a flush output from the pending outputs and installing its version. |
| Durability.DeletedOk | dogFoodTracker/Pods/leveldb-library/db/db_impl.cc:223-278 | DeleteObsoleteFiles, stopped after any part of its deletions, takes no file that the manifest, a version in use or a running compaction needs, nor the manifest file that CURRENT names. |
| Durability.InstallFiles | dogFoodTracker/Pods/leveldb-library/db/db_impl.cc:535-566 | Installing an edit whose record has landed, with the deletions that follow it under the same lock, keeps the agreement. |
| Durability.RecoverFiles | dogFoodTracker/Pods/leveldb-library/db/db_impl.cc:1474-1508 | So does a recovery with its new manifest, new log and deletions. |
| Durability.NoNeededFileDeleted | dogFoodTracker/Pods/leveldb-library/db/db_impl.cc:223-278 | In every state of every run each table that the manifest, a version in use, or a background call needs is on disk with its entries, and CURRENT names a manifest file that exists. |
| Durability.NoNeededLogDeleted | dogFoodTracker/Pods/leveldb-library/db/db_impl.cc:244-247 | No step deletes a log that recovery would replay. |
| Collecting.PendingIsExact | dogFoodTracker/Pods/leveldb-library/db/db_impl.cc:491-510 | The pending outputs are exactly the numbers of the tables that the active call has written or is writing, also when a flush interrupts a compaction, and after failures. |
| Collecting.KeptIff | dogFoodTracker/Pods/leveldb-library/db/db_impl.cc:223-278 | In every state of every run a table is kept from deletion if and only if a version in use has it or the active call is writing it; with no call active everything else may go. |
| Disks.ReplayedLater | dogFoodTracker/Pods/leveldb-library/db/db_impl.cc:418-453 | Replaying the logs in order, a table written later holds only later entries, wherever the memtables were cut. |
| Disks.RecoveredOk | dogFoodTracker/Pods/leveldb-library/db/db_impl.cc:374-489 | The manifest's version with the replayed tables at level 0 is well formed, has its levels in order, and holds the entries of both. |
| LandingSteps.LandedReads | dogFoodTracker/Pods/leveldb-library/db/version_set.cc:801-884 | Once a record is in the manifest, the version the manifest describes reads like everything that ever reached a table. |
| RestartSteps.FreshDescribes | dogFoodTracker/Pods/leveldb-library/db/db_impl.cc:280-369 | The version that recovery ends with is well formed and reads like the manifest's entries and the logged ones together. |
| DurableReads.NextReads | dogFoodTracker/Pods/leveldb-library/db/db_impl.cc:1185-1256 | Every step keeps what readers see equal to a history that is in the manifest's tables or in the logs that recovery replays; landings of records whose first try failed are included, as long as the record fits the manifest file and the compaction loses nothing. |
| Survival.NoAcknowledgedWriteLost | dogFoodTracker/Pods/leveldb-library/db/db_impl.cc:1185-1256 | In every later process, after any failures, crashes and recoveries, the engine's invariant holds and a read at or above the oldest snapshot sees exactly a history that has every write acknowledged after a sync on a log without a failed append, and nothing that was not written; that is every acknowledged write if none is acknowledged behind a failed append. |
| Survival.LatestAckedRead | dogFoodTracker/Pods/leveldb-library/db/db_impl.cc:1100-1145 | So such a write that nothing newer was written over is what a read of its key finds. |
| Survival.AckedSurviveIff | dogFoodTracker/Pods/leveldb-library/db/db_impl.cc:1212-1231 | In every state of a run, after every crash, the database can be opened again and all that was acknowledged is found, if and only if no write of the run is acknowledged on a log after an append to that log failed, and no append to the manifest is tried, with or without success, after one to it failed. |
| Survival.SurvivesIff | dogFoodTracker/Pods/leveldb-library/db/db_impl.cc:280-369 | Of one state: that holds exactly if all that was acknowledged is in the tables or certain in the logs, and no append to the manifest was tried behind a failed one. |
| Survival.FoundIff | dogFoodTracker/Pods/leveldb-library/db/db_impl.cc:280-369 | After a crash some recovery gets to its end, and every one that does has given writes in its history, exactly if the manifest is not spoilt and these writes are in its tables or in the logs it replays. |
| Survival.SpoiltForGood | dogFoodTracker/Pods/leveldb-library/db/version_set.cc:886-1000 | On a spoilt manifest no process ever runs again. |
| Survival.ProcessCrashKeeps | dogFoodTracker/Pods/leveldb-library/db/db_impl.cc:280-369 | When only the process dies, every recovery that gets to its end keeps every write that was appended before an append to its log failed, synced or not, and all that had reached a table. |
| Survival.SurvivesDeathIff | dogFoodTracker/Pods/leveldb-library/db/db_impl.cc:280-369 | After every such death the database can be opened again with everything the process answered for if and only if that was appended before a failed append or had reached a table, and no append to the manifest was tried behind a failed one. |
| Survival.RecoveryPossible | dogFoodTracker/Pods/leveldb-library/db/db_impl.cc:280-369 | From every state on disk with a manifest that is not spoilt a recovery gets to its end. |
| Survival.SpoiltBehindTear | dogFoodTracker/Pods/leveldb-library/db/version_set.cc:801-884 | As long as no append to the manifest is tried after one to it failed, no crash can leave a manifest that cannot be read through. |
| Landings.FittingIff | dogFoodTracker/Pods/leveldb-library/db/version_set.cc:801-884 | When a record lands, the manifest goes on describing a version that recovery and reads can rely on if and only if the record fits: a flushed table overlaps none that the manifest has at its level below the first, and if the log number goes back, no record that replay may find hides a newer entry of a table. |
| Landings.ReadsSoundIff | dogFoodTracker/Pods/leveldb-library/db/version_set.cc:340-384 | When a record has landed: after every crash and recovery that may follow the version is well formed and no search ends at a replayed entry older than one in the tables, if and only if the record fits. |
| Landings.HiddenIsMisread | dogFoodTracker/Pods/leveldb-library/db/db_impl.cc:374-489 | If replay may find such a record, a crash and a recovery that gets to its end can follow after which the search at the latest number finds only an entry older than one that had reached a table. |
| Retries.RetryIsPossible | dogFoodTracker/Pods/leveldb-library/db/db_impl.cc:909-919 | A flush from the merge loop that failed although its record landed can be flushed again at once; below the first level no well-formed version then has the manifest's tables. |
| Retries.ReturnIsPossible | dogFoodTracker/Pods/leveldb-library/db/db_impl.cc:535-566 | After such a failure the compaction can end with a record that takes the log number back, so that replay may hide a newer entry if a power failure can take it from the old log. |
| Retries.SpoilIsPossible | dogFoodTracker/Pods/leveldb-library/db/db_impl.cc:909-919 | A flush from the merge loop that fails while it is logged is tried again at once: four clean steps after which a crash may leave a manifest that no recovery gets through, and no write was among them. |
| CheckedRuns.CheckedRunsAreClean | dogFoodTracker/Pods/leveldb-library/db/version_set.cc:801-884 | If compactions extended the inputs of the next level, no record were written to the manifest after a background error, and a failed append to a log were recorded as one, every run would meet all hypotheses, and in all its states every acknowledged write would survive every crash. |
| StoredOnce.RunsStoreOnce | dogFoodTracker/Pods/leveldb-library/db/db_impl.cc:280-369 | Through failures, crashes and recoveries no entry is in two tables, or in a table and a log to be replayed, as long as no record is read from the manifest behind one that landed although it was reported to have failed. |
| StoredOnce.CheckedRunsStoreOnce | dogFoodTracker/Pods/leveldb-library/db/db_impl.cc:280-369 | With the missing checks that is so in every run. |
| WriteQueue.BuildBatchGroup | dogFoodTracker/Pods/leveldb-library/db/db_impl.cc:1260-1306 | The group is the longest prefix the rules allow, and the result is the concatenation of its batches. |
| WriteQueue.GroupWeight | dogFoodTracker/Pods/leveldb-library/db/db_impl.cc:1260-1306 | No sync writer joins a leader that does not sync; the batches of a group weigh at most 1 MB together, or 128 KB more than a leader of up to 128 KB, or the leader is alone; and the next writer is a sync one that may not join, or its batch would not fit. |
| WriteQueue.PopGroup | dogFoodTracker/Pods/leveldb-library/db/db_impl.cc:1233-1247 | Exactly the group leaves the queue and is told the status. |
| WriteQueue.InOrderOnce | dogFoodTracker/Pods/leveldb-library/db/db_impl.cc:1185-1256 | In every run writers return in arrival order, each exactly once. |
| WriteQueue.MemtableIsExact | dogFoodTracker/Pods/leveldb-library/db/db_impl.cc:1206-1231 | Between groups, sequence ranges are contiguous in queue order and the memtable holds exactly the operations of the writers told that they succeeded. |
| Writers.HistoryIsTold | dogFoodTracker/Pods/leveldb-library/db/db_impl.cc:1185-1256 | Between groups a process answers for exactly what it found at its start and the operations of the writers it told that they succeeded, under contiguous numbers in arrival order. |
| Writers.ToldIsAcked | dogFoodTracker/Pods/leveldb-library/db/db_impl.cc:1212-1247 | A writer told that it succeeded after asking for a sync, in a group or alone, has its whole batch acknowledged. |
| Writers.ToldSurvives | dogFoodTracker/Pods/leveldb-library/db/db_impl.cc:1185-1256 | In clean runs without acknowledgements behind a failed append every process that runs later has that batch in its history, whatever failed or crashed in between. |
| Writers.ToldIsRead | dogFoodTracker/Pods/leveldb-library/db/db_impl.cc:1100-1145 | A read of a key that nothing newer was written to finds what that writer put, or that it deleted the key. |
| Writers.ToldIsFound | dogFoodTracker/Pods/leveldb-library/db/db_impl.cc:1185-1256 | In such runs, if no append to the manifest is tried behind a failed one either, the database can be opened again after every crash, and that batch is found. |
| DbIter.DBIter.FindNextUserEntry | dogFoodTracker/Pods/leveldb-library/db/db_iter.cc:168-198 | The forward scan ends at the first live entry that the skipped key does not hide, and misses none; corruption is reported exactly if an entry passed over cannot be read. |
| DbIter.DBIter.FindPrevUserEntry | dogFoodTracker/Pods/leveldb-library/db/db_iter.cc:227-267 | The backward scan ends just before the last live entry at or before the position, with its key and value saved; corruption is reported exactly if an entry read on the way cannot be. |
| DbIter.DBIter.Next | dogFoodTracker/Pods/leveldb-library/db/db_iter.cc:141-166 | In either direction, moves to the next live entry; corruption is reported exactly if an entry on the way cannot be read. |
| DbIter.DBIter.Prev | dogFoodTracker/Pods/leveldb-library/db/db_iter.cc:200-225 | In either direction, moves to the previous live entry; when it turns around, the entries of the current user key are not read. |
| DbIter.DBIter.Seek | dogFoodTracker/Pods/leveldb-library/db/db_iter.cc:269-281 | Moves to the first live entry whose user key is at least the target. |
| DbIter.DBIter.SeekToFirst | dogFoodTracker/Pods/leveldb-library/db/db_iter.cc:283-292 | Moves to the first live entry. |
| DbIter.DBIter.SeekToLast | dogFoodTracker/Pods/leveldb-library/db/db_iter.cc:294-299 | Moves to the last live entry. |
| DbIter.LiveIsVisible | dogFoodTracker/Pods/leveldb-library/db/db_iter.cc:168-198 | A live entry is what a read of its user key at the iterator's sequence finds. |
| DbIter.VisibleIsLive | dogFoodTracker/Pods/leveldb-library/db/db_iter.cc:168-198 | Whatever such a read finds is a live entry, and the only one of its user key. |
| DbIter.LiveKeysIncrease | dogFoodTracker/Pods/leveldb-library/db/db_iter.cc:168-198 | Live entries come in strictly increasing user-key order. |
| StoreIterators.StoreDivides | dogFoodTracker/Pods/leveldb-library/db/version_set.cc:230-246 | The memtables, the level-0 tables and the levels one after another are sorted, share no entry, and hold what the store holds, where no entry is stored twice. |
| StoreIterators.NewIterator | dogFoodTracker/Pods/leveldb-library/db/db_impl.cc:1062-1087 | The iterator made of DBIter over MergingIterator over cursors on memtables and level-0 tables and a two-level iterator for each other level stands over all entries of the store in order, where no entry is stored twice. |
| StoreIterators.NewConcatenatingIterator | dogFoodTracker/Pods/leveldb-library/db/version_set.cc:223-228 | The two-level iterator of a sorted level is over its tables one after another: their largest keys are an index of them. |
| StoreIterators.IteratorShowsReads | dogFoodTracker/Pods/leveldb-library/db/db_impl.cc:1147-1157 | The entries it stops at are the answers of reads at its sequence number in the history of all writes: one for each user key that has an answer, in increasing order. |
| Merger.MergingIterator.FindSmallest | dogFoodTracker/Pods/leveldb-library/table/merger.cc:148-161 | The child with the smallest key, none exactly when no child is valid. |
| Merger.MergingIterator.FindLargest | dogFoodTracker/Pods/leveldb-library/table/merger.cc:163-176 | The child with the largest key, none exactly when no child is valid. |
| Merger.MergingIterator.SeekToFirst | dogFoodTracker/Pods/leveldb-library/table/merger.cc:31-37 | Stands at the first entry of the sorted union. |
| Merger.MergingIterator.SeekToLast | dogFoodTracker/Pods/leveldb-library/table/merger.cc:39-45 | Stands at the last entry of the sorted union. |
| Merger.MergingIterator.Seek | dogFoodTracker/Pods/leveldb-library/table/merger.cc:47-53 | Stands at the first entry of the union not before the target. |
| Merger.MergingIterator.Next | dogFoodTracker/Pods/leveldb-library/table/merger.cc:55-79 | One entry on in the union, also right after moving backward. |
| Merger.MergingIterator.Prev | dogFoodTracker/Pods/leveldb-library/table/merger.cc:81-108 | One entry back in the union, also right after moving forward. |
| TwoLevel.SeekFlat | dogFoodTracker/Pods/leveldb-library/table/two_level_iterator.cc:82-87 | Seeking the index and then the block it leads to is seeking the concatenation of all blocks. |
| TwoLevel.TwoLevelIterator.SkipEmptyDataBlocksForward | dogFoodTracker/Pods/leveldb-library/table/two_level_iterator.cc:115-126 | The skip loop ends at the same position of the concatenation, on an entry if there is one. |
| TwoLevel.TwoLevelIterator.SkipEmptyDataBlocksBackward | dogFoodTracker/Pods/leveldb-library/table/two_level_iterator.cc:128-139 | The backward skip loop ends on the entry before the position, if there is one. |
| TwoLevel.TwoLevelIterator.Seek | dogFoodTracker/Pods/leveldb-library/table/two_level_iterator.cc:82-87 | Stands at the first entry of the concatenation not before the target. |
| TwoLevel.TwoLevelIterator.SeekToFirst | dogFoodTracker/Pods/leveldb-library/table/two_level_iterator.cc:89-94 | Stands at the first entry, whatever blocks are empty. |
| TwoLevel.TwoLevelIterator.SeekToLast | dogFoodTracker/Pods/leveldb-library/table/two_level_iterator.cc:96-101 | Stands at the last entry, whatever blocks are empty. |
| TwoLevel.TwoLevelIterator.Next | dogFoodTracker/Pods/leveldb-library/table/two_level_iterator.cc:103-107 | One entry on in the concatenation. |
| TwoLevel.TwoLevelIterator.Prev | dogFoodTracker/Pods/leveldb-library/table/two_level_iterator.cc:109-113 | One entry back in the concatenation, on none before the first. |
| Coding.Fixed32RoundTrip | dogFoodTracker/Pods/leveldb-library/util/coding.cc:9-39 | A 32-bit word decodes to itself. |
| Coding.Fixed64RoundTrip | dogFoodTracker/Pods/leveldb-library/util/coding.cc:20-45 | A 64-bit word decodes to itself. |
| Coding.EncodeVarint64 | dogFoodTracker/Pods/leveldb-library/util/coding.cc:81-96 | The loop writes the varint of the value. |
| Coding.GetVarintPtr | dogFoodTracker/Pods/leveldb-library/util/coding.cc:112-157 | The loop reads at most five or ten bytes, keeps 32 or 64 bits, and succeeds exactly when the varint ends in time. |
| Coding.Varint32RoundTrip | dogFoodTracker/Pods/leveldb-library/util/coding.cc:112-140 | A 32-bit varint in front of anything decodes to its value and leaves the rest. |
| Coding.Varint64RoundTrip | dogFoodTracker/Pods/leveldb-library/util/coding.cc:142-169 | A 64-bit varint in front of anything decodes to its value and leaves the rest. |
| Coding.LargeVarints | dogFoodTracker/Pods/leveldb-library/util/coding.cc:112-169 | Of a number too large for its word the low bits are kept as long as it has no more than five or ten bytes; a longer one is refused. |
| Coding.LengthPrefixedRoundTrip | dogFoodTracker/Pods/leveldb-library/util/coding.cc:98-101 | A length-prefixed slice in front of anything decodes to itself and leaves the rest. |
| Coding.MaskRoundTrip | dogFoodTracker/Pods/leveldb-library/util/crc32c.h:29-38 | Unmask undoes Mask. |
| Log.MaskedIsChecksum | dogFoodTracker/Pods/leveldb-library/util/crc32c.h:29-38 | Whatever the 32-bit checksum function, its masked and stored form accepts what it was computed from. |
| Log.Writer.AddRecord | dogFoodTracker/Pods/leveldb-library/db/log_writer.cc:34-80 | Into a file that takes only so many more bytes go as many bytes of the record's fragments; it succeeds exactly if that is all of them, and only then is the writer where it takes itself to be. |
| Log.Writer.EmitPhysicalRecord | dogFoodTracker/Pods/leveldb-library/db/log_writer.cc:82-108 | Appends one header and its data as far as there is room; the block offset moves on either way. |
| Log.Reader.ReadPhysicalRecord | dogFoodTracker/Pods/leveldb-library/db/log_reader.cc:189-271 | Returns the record at the reader's position, with the same losses reported, and moves past it. |
| Log.Reader.ReadRecord | dogFoodTracker/Pods/leveldb-library/db/log_reader.cc:56-174 | The loop over fragments returns the next logical record or none, with every lost piece reported; `LogLosses` says over all files what that is. |
| LogReplay.AppendsWrite | dogFoodTracker/Pods/leveldb-library/db/log_writer.cc:34-80 | Appending record after record, also by a writer that reopens the file, writes the log of all of them. |
| LogReplay.RoundTrip | dogFoodTracker/Pods/leveldb-library/db/log_reader.cc:56-174 | Reading a log from where it was started, at any block offset, gives the records and reports nothing lost. |
| LogReplay.CrashPrefix | dogFoodTracker/Pods/leveldb-library/db/log_reader.cc:189-271 | Reading any byte prefix gives exactly the records complete in it and reports no corruption. |
| LogReplay.ReadInFrontOfTear | dogFoodTracker/Pods/leveldb-library/db/log_reader.cc:56-174 | Records written whole are read, whatever bytes follow them. |
| LogReplay.LostBehindTear | dogFoodTracker/Pods/leveldb-library/db/log_writer.cc:82-108 | The same writer goes on after an append that failed behind its header: as long as less has been written since than the header announces, reading ends in front of it and reports nothing. |
| LogReplay.FoundBehind | dogFoodTracker/Pods/leveldb-library/db/log_reader.cc:189-271 | Once as much has been written behind that header as it announces, by appends that failed or not, this is read as its record if the checksum holds, and reported lost if not. |
| LogReplay.NothingGotIn | dogFoodTracker/Pods/leveldb-library/db/log_writer.cc:82-108 | If nothing of a failed append got into the file, the next record is read, as long as it fits into the block where the writer takes itself to be. |
| LogLosses.SoundIsRead | dogFoodTracker/Pods/leveldb-library/db/log_reader.cc:189-271 | On a file of any bytes a physical record is read if and only if a header with its length, kind and checksum stands in front of it, all within one block and the file. |
| LogLosses.UnsoundIsPassed | dogFoodTracker/Pods/leveldb-library/db/log_reader.cc:189-271 | Otherwise the rest of the block is passed over; that is reported with its size, unless the file ends in what the header announces or the header announces a zero record without data. |
| LogLosses.ChainIsDelivered | dogFoodTracker/Pods/leveldb-library/db/log_reader.cc:91-154 | A full record, or a first one continued up to its last, is delivered whatever was being collected, which is reported lost if there was anything. |
| LogLosses.OnlyChainsDelivered | dogFoodTracker/Pods/leveldb-library/db/log_reader.cc:91-154 | Reading a whole file of any bytes delivers nothing else: no record is put together from fragments that do not follow each other. |
| LogLosses.LossesAreReported | dogFoodTracker/Pods/leveldb-library/db/log_reader.cc:91-174 | Every byte of data or damage that is passed is delivered or reported lost, but for a record that the end of the file cuts off. |
| LogLosses.DamagedLogKeeps | dogFoodTracker/Pods/leveldb-library/db/log_reader.cc:204-259 | Damage does not reach beyond its block: a record that begins at the start of a block is delivered whatever bytes come before that block, if no sound record of the kind below is among them. |
| LogLosses.EndMarkEnds | dogFoodTracker/Pods/leveldb-library/db/log_reader.cc:144-151 | A sound record whose kind is the number the reader uses for the end of the file ends the reading without a report, whatever comes behind it. |
| WriteBatches.WriteBatch.Add | dogFoodTracker/Pods/leveldb-library/db/write_batch.cc:98-109 | Put and Delete append one operation; the count in the header follows. |
| WriteBatches.WriteBatch.Append | dogFoodTracker/Pods/leveldb-library/db/write_batch.cc:144-148 | The batch becomes the concatenation of both, under its own sequence number. |
| WriteBatches.WriteBatch.SetSequence | dogFoodTracker/Pods/leveldb-library/db/write_batch.cc:94-96 | Patches the sequence number and nothing else. |
| WriteBatches.Iterate | dogFoodTracker/Pods/leveldb-library/db/write_batch.cc:42-80 | The loop hands over the operations in order and says whether the whole batch was sound and counted. |
| WriteBatches.IteratedIs | dogFoodTracker/Pods/leveldb-library/db/write_batch.cc:42-80 | For a batch of any bytes: the handler gets the operations that stand behind the header up to the first place where none does, and the batch is sound if and only if that is its end and its count is theirs. |
| WriteBatches.BatchRoundTrip | dogFoodTracker/Pods/leveldb-library/db/write_batch.cc:42-80 | A batch read back gives its operations, count and sequence number. |
| WriteBatches.RecoverLogFile | dogFoodTracker/Pods/leveldb-library/db/db_impl.cc:395-453 | The recovery loop inserts what its specification says, stops at the first bad record under paranoid checks, and finds the largest sequence number. |
| WriteBatches.RecoveredPrefix | dogFoodTracker/Pods/leveldb-library/db/db_impl.cc:395-453 | After a crash that keeps any prefix of a log, recovery inserts exactly the operations of the complete batches under their original sequence numbers, with or without paranoid checks. |
| WriteBatches.AnyLogRecovered | dogFoodTracker/Pods/leveldb-library/db/db_impl.cc:410-456 | From a log file of any bytes, by default, recovery inserts what the records have that the reader still returns, under their numbers, and the largest number is that of one of them or the one it started with; it does not fail. |
| WriteBatches.ParanoidIff | dogFoodTracker/Pods/leveldb-library/db/db_impl.cc:410-456 | With paranoid checks it succeeds if and only if the reader reports no loss and every record is a sound batch, and then does the same. |
| WriteBatches.RecoveredInFrontOfTear | dogFoodTracker/Pods/leveldb-library/db/db_impl.cc:395-453 | Batches logged before a failed append are recovered, whatever it left and whatever came later. |
| WriteBatches.LostBehindTear | dogFoodTracker/Pods/leveldb-library/db/db_impl.cc:1212-1231 | A batch appended without an error behind a failed append can be gone, and recovery succeeds without a word, with or without paranoid checks. |
| Comparators.RankPreservesOrder | dogFoodTracker/Pods/leveldb-library/util/comparator.cc:25-27 | Any finite set of byte strings has integer ranks in the same order, so what holds of ranked keys holds of byte strings. |
| Comparators.RankedOrder | dogFoodTracker/Pods/leveldb-library/db/dbformat.cc:51-67 | With user keys replaced by these ranks internal keys compare as they did. |
| Comparators.InternalRankOrder | dogFoodTracker/Pods/leveldb-library/db/dbformat.cc:51-67 | Internal keys have places on the real line that are ordered as they are, and differ for different keys. |
| Comparators.FindShortestSeparator | dogFoodTracker/Pods/leveldb-library/util/comparator.cc:29-50 | Exactly the start up to the first byte in which it differs from the limit, that byte raised by one, if this may be done and stays below the limit, and else the start itself; so it is no longer, and not before the start but before the limit. |
| Comparators.FindShortSuccessor | dogFoodTracker/Pods/leveldb-library/util/comparator.cc:52-63 | Exactly the key up to its first byte that is not 0xff, that byte raised by one; the key itself if all are 0xff. |
| Comparators.InternalSeparator | dogFoodTracker/Pods/leveldb-library/db/dbformat.cc:69-86 | The start, or, exactly if that is shorter and larger, the separated user key with the tag that sorts first. |
| Comparators.InternalSuccessor | dogFoodTracker/Pods/leveldb-library/db/dbformat.cc:88-101 | The key, or, exactly if that is shorter and larger, the successor of the user key with the tag that sorts first. |
| Comparators.SeparatorBetween | dogFoodTracker/Pods/leveldb-library/db/dbformat.cc:69-86 | A separator is at least the last key of a block and before the first key of the next. |
| Filters.BloomMatches | dogFoodTracker/Pods/leveldb-library/util/bloom.cc:28-78 | A bloom filter matches every key it was created for, for any hash, number of probes and size. |
| Filters.BloomMatchesIff | dogFoodTracker/Pods/leveldb-library/util/bloom.cc:28-78 | It matches a key if and only if each bit on which a probe of the key falls is one on which a probe of some key of the filter falls. |
| Filters.NoKeysNoMatch | dogFoodTracker/Pods/leveldb-library/util/bloom.cc:28-78 | The filter of no keys matches nothing. |
| Filters.FilterSize | dogFoodTracker/Pods/leveldb-library/util/bloom.cc:28-37 | The bit array is the least number of whole bytes for the bits asked for, but at least 64 bits. |
| Filters.BloomIsPolicy | dogFoodTracker/Pods/leveldb-library/util/bloom.cc:28-78 | So filter creation and matching make a policy without false negatives, as filter blocks and tables ask for. |
| Filters.BloomFilterPolicy.CreateFilter | dogFoodTracker/Pods/leveldb-library/util/bloom.cc:28-54 | Appends the filter of the keys, which matches every one of them. |
| Filters.BloomFilterPolicy.KeyMayMatch | dogFoodTracker/Pods/leveldb-library/util/bloom.cc:56-78 | The probing loop answers whether all probed bits are set, which `BloomMatchesIff` says of every filter that was created; short or unknown filters match. |
| Filters.FilterBlockBuilder.StartBlock | dogFoodTracker/Pods/leveldb-library/table/filter_block.cc:21-27 | Starts a block at its offset, closing as many 2 KB slots as lie before it; keys of earlier blocks stay covered. |
| Filters.FilterBlockBuilder.AddKey | dogFoodTracker/Pods/leveldb-library/table/filter_block.cc:29-33 | Adds the key to the last block. |
| Filters.FilterBlockBuilder.GenerateFilter | dogFoodTracker/Pods/leveldb-library/table/filter_block.cc:51-75 | Closes one slot with the pending keys, or an empty slot. |
| Filters.SlotKeyMatches | dogFoodTracker/Pods/leveldb-library/table/filter_block.cc:90-104 | The reader's index arithmetic finds the filter of the block's slot, so every key of the slot may match. |
| Filters.SlotDecides | dogFoodTracker/Pods/leveldb-library/table/filter_block.cc:90-104 | What a test comes to: the filter of the slot decides, an empty one for a slot without keys, and behind the slots everything may match. |
| Filters.FilterBlockBuilder.Finish | dogFoodTracker/Pods/leveldb-library/table/filter_block.cc:35-49 | In the finished filter each block offset answers for exactly the keys of the blocks that start in its 2 KB slot: as the filter of these keys does, or not at all if there are none; so no key added is missed. |
| Tables.NextBlockBeyond | dogFoodTracker/Pods/leveldb-library/table/table.cc:216-244 | If the one block searched ends before the target, the next block starts with another user key. |
| Tables.InternalGet | dogFoodTracker/Pods/leveldb-library/table/table.cc:216-244 | What is delivered is the first entry of the whole table not before the target, and it is delivered whenever that entry has the target's user key, in spite of shortened index keys and filters. |
| Tables.FirstIsNewest | dogFoodTracker/Pods/leveldb-library/table/table.cc:216-244 | That first entry is the newest one for the user key that is not newer than the target. |
| Tables.TableBuilder.Add | dogFoodTracker/Pods/leveldb-library/table/table_builder.cc:94-123 | The entry is added; the delayed index entry separates the finished block from it, and the block is flushed exactly when it is full. |
| Tables.TableBuilder.Flush | dogFoodTracker/Pods/leveldb-library/table/table_builder.cc:125-139 | The pending entries become a block at the offset of the file, which moves on by the block and its five bytes of trailer, and the index entry is owed; without pending entries nothing happens. |
| Tables.TableBuilder.Finish | dogFoodTracker/Pods/leveldb-library/table/table_builder.cc:198-253 | The file is a table of exactly the added entries, with a complete filter as long as filter offsets fit in 32 bits. |
| Blocks.EntryRoundTrip | dogFoodTracker/Pods/leveldb-library/table/block.cc:54-74 | An entry header, written with three varints, decodes to its lengths by the fast or the slow way. |
| Blocks.InsideIff | dogFoodTracker/Pods/leveldb-library/table/block.cc:54-74 | In a block below 4 GB an entry that the decoder accepts lies inside the block if and only if its two lengths do not overflow 32 bits together. |
| Blocks.OverlongAccepted | dogFoodTracker/Pods/leveldb-library/table/block.cc:69-73 | A concrete entry whose lengths overflow is accepted although it reaches beyond the block. |
| Blocks.BlockBuilder.Add | dogFoodTracker/Pods/leveldb-library/table/block_builder.cc:72-106 | Whatever the restart interval, the entry is appended with the longest prefix it shares with the key before it, with none at a restart point, one of which is recorded after every so many entries; so the block still decodes to all entries. |
| Blocks.NewIterator | dogFoodTracker/Pods/leveldb-library/table/block.cc:24-39 | A finished block opens with its entries and restart points; a block too short for its restart array is an error. |
| Blocks.FinishedIsSound | dogFoodTracker/Pods/leveldb-library/table/block_builder.cc:62-70 | A finished block opens as a sound one with exactly the entries that were added. |
| Blocks.BlockIter.ParseNextKey | dogFoodTracker/Pods/leveldb-library/table/block.cc:224-251 | Rebuilds the next key and value from the key before; on any block it reports corruption exactly if the entry does not decode or shares more than there is, it reads beyond the block exactly when it takes an entry whose lengths overflow, and otherwise it moves forward. |
| Blocks.BlockIter.Next | dogFoodTracker/Pods/leveldb-library/table/block.cc:137-140 | The next entry of a sound block; on any block, what is parsed next. |
| Blocks.BlockIter.Prev | dogFoodTracker/Pods/leveldb-library/table/block.cc:142-161 | The previous entry of a sound block, found by scanning from a restart point; none before the first. |
| Blocks.BlockIter.SeekToFirst | dogFoodTracker/Pods/leveldb-library/table/block.cc:203-206 | The first entry. |
| Blocks.BlockIter.SeekToLast | dogFoodTracker/Pods/leveldb-library/table/block.cc:208-213 | The last entry. |
| Blocks.BlockIter.FindRestart | dogFoodTracker/Pods/leveldb-library/table/block.cc:163-190 | The binary search over restart points never passes the first key not before the target. |
| Blocks.BlockIter.Seek | dogFoodTracker/Pods/leveldb-library/table/block.cc:163-201 | Lands on the first key not before the target, as a linear scan would. |
| VersionEdits.EncodeTo | dogFoodTracker/Pods/leveldb-library/db/version_edit.cc:41-85 | Writes the fields in order. |
| VersionEdits.DecodeFrom | dogFoodTracker/Pods/leveldb-library/db/version_edit.cc:107-205 | The loop reads field after field into the cleared object, and fails on an unknown tag, a malformed field or trailing bytes. |
| VersionEdits.DecodedIs | dogFoodTracker/Pods/leveldb-library/db/version_edit.cc:107-205 | Whatever bytes an edit is decoded from, it gets the fields that stand in them up to the first place where none does, and decoding succeeds if and only if that is the end. |
| VersionEdits.InsertIs | dogFoodTracker/Pods/leveldb-library/db/version_edit.h:74-76 | Deleted files are a set in order of level and number: inserting adds the one element, once. |
| VersionEdits.EditRoundTrip | dogFoodTracker/Pods/leveldb-library/db/version_edit.cc:26-205 | Decoding an encoded edit gives it back if and only if the object held no compaction pointers; otherwise those stay in front. |
| VersionBuilders.SortedIsUnique | dogFoodTracker/Pods/leveldb-library/db/version_set.cc:695-722 | A level sorted by smallest key and number is determined by its files. |
| VersionBuilders.OneBuilderIff | dogFoodTracker/Pods/leveldb-library/db/version_set.cc:650-754 | Applying all edits in one builder saves the same sorted list as building a version per edit if and only if, for every number that is not deleted in the end, since it was last deleted exactly one edit fills each of its slots (number and smallest key), with the very file that filled that slot first of all. |
| VersionBuilders.OneBuilderIsEnough | dogFoodTracker/Pods/leveldb-library/db/version_set.cc:650-754 | In particular when each number is added once. |
| VersionBuilders.NumberReused | dogFoodTracker/Pods/leveldb-library/db/version_set.cc:683-691 | A number that is added, deleted and given to another file makes one builder keep both files. |
| Manifest.Builder.Apply | dogFoodTracker/Pods/leveldb-library/db/version_set.cc:650-692 | The deletions, then the additions, of an edit go to their levels. |
| Manifest.Builder.SaveTo | dogFoodTracker/Pods/leveldb-library/db/version_set.cc:695-739 | The merge of base and added files without the deleted ones, for every level. |
| Manifest.Recover | dogFoodTracker/Pods/leveldb-library/db/version_set.cc:886-1000 | The recovery loop reads the manifest, applies every edit, fails on corruption, a foreign comparator or missing numbers, and goes on with the numbers that were noted. |
| Manifest.RecoveryReplaysPrefix | dogFoodTracker/Pods/leveldb-library/db/version_set.cc:886-1000 | After a crash that keeps any prefix of the manifest file, recovery applies exactly the edits whose records are complete. |
| Manifest.RecoveryRebuildsVersion | dogFoodTracker/Pods/leveldb-library/db/version_set.cc:886-1000 | Every level it saves is what these edits built one version at a time if and only if the edits of the level meet the condition above. |
| Manifest.RecoveredFiles | dogFoodTracker/Pods/leveldb-library/db/version_set.cc:650-739 | Such a level has exactly the files that some edit adds there and no later one removes. |
| Manifest.LastEditDecides | dogFoodTracker/Pods/leveldb-library/db/version_set.cc:949-966 | Log number, previous log number, next file and last sequence are each that of the last edit that has one; none if no edit has one. |
| Manifest.RecoveredNumbers | dogFoodTracker/Pods/leveldb-library/db/version_set.cc:973-1000 | These are the numbers that the recovered version set goes on with, and 0 for a previous log number that no edit has. |
| Manifest.TornUnread | dogFoodTracker/Pods/leveldb-library/db/version_set.cc:886-1000 | As long as less follows the header of a failed append to the manifest than it announces, recovery applies the edits before it and nothing that was appended since. |
| Manifest.TornRead | dogFoodTracker/Pods/leveldb-library/db/version_set.cc:886-1000 | If what follows passes for the record announced, recovery goes on behind it. |
| Manifest.TornFailsIff | dogFoodTracker/Pods/leveldb-library/db/version_set.cc:886-1000 | If it does not, recovery fails exactly once as much as announced has been written there, by appends that failed or not, and until then applies exactly the edits before. |
| Rebuilds.RecordsOnce | dogFoodTracker/Pods/leveldb-library/db/version_set.cc:801-884 | In every state of every run of the engine with its files, the records of the manifest file give no level a file number twice, each table stands at one place, the tables they leave are those the manifest has, and the last numbers they name are its log number, next file and last sequence. |
| Rebuilds.RecoveryRebuilds | dogFoodTracker/Pods/leveldb-library/db/version_set.cc:886-1000 | So the one builder of a recovery gets, level by level, the very list that a version for every record would have given, with the numbers of exactly the tables that the manifest of the run has there, and recovery goes on with the log number, next file and last sequence of that manifest. |
| SkipLists.SkipList.FindGreaterOrEqual | dogFoodTracker/Pods/leveldb-library/db/skiplist.h:260-281 | The first node not before the key, and the last node before it at every level in use. |
| SkipLists.SkipList.FindLessThan | dogFoodTracker/Pods/leveldb-library/db/skiplist.h:283-302 | The last node before the key, the head if there is none. |
| SkipLists.SkipList.FindLast | dogFoodTracker/Pods/leveldb-library/db/skiplist.h:304-322 | The last node, the head of an empty list. |
| SkipLists.SkipList.Contains | dogFoodTracker/Pods/leveldb-library/db/skiplist.h:370-378 | Whether a key that compares equal is in the list. |
| SkipLists.SkipList.LinkBottom | dogFoodTracker/Pods/leveldb-library/db/skiplist.h:359-367 | The first link step of an insertion leaves a well-formed list with the new key. |
| SkipLists.SkipList.LinkLevel | dogFoodTracker/Pods/leveldb-library/db/skiplist.h:359-367 | Every later link step leaves a well-formed list with the same keys. |
| SkipLists.SkipList.Insert | dogFoodTracker/Pods/leveldb-library/db/skiplist.h:336-368 | For any height the keys are the old ones with the new one in its place. |
| SkipLists.LevelsNest | dogFoodTracker/Pods/leveldb-library/db/skiplist.h:336-368 | In a well-formed list each level is a sublist of the level below. |
| SkipLists.LevelIsSorted | dogFoodTracker/Pods/leveldb-library/db/skiplist.h:260-322 | The links really stored at a level visit that level, with strictly increasing keys. |
| SkipLists.Iterator.Prev | dogFoodTracker/Pods/leveldb-library/db/skiplist.h:212-221 | One key back, on none before the first. |
| SkipLists.Iterator.Seek | dogFoodTracker/Pods/leveldb-library/db/skiplist.h:223-226 | Splits the keys into those before the target and those not. |
| HandleTables.Lookup | dogFoodTracker/Pods/leveldb-library/util/cache.cc:74-76 | Finds the entry with the key, or there is none. |
| HandleTables.Insert | dogFoodTracker/Pods/leveldb-library/util/cache.cc:78-92 | Replaces and returns the entry with the key, or adds one; the table keeps exactly the new set of entries while it grows. |
| HandleTables.Remove | dogFoodTracker/Pods/leveldb-library/util/cache.cc:94-102 | Removes and returns the entry with the key. |
| HandleTables.Resize | dogFoodTracker/Pods/leveldb-library/util/cache.cc:122-146 | Doubling and rehashing keeps exactly the same entries, in the least table, of at least four chains, that has a chain for each. |
| LruCaches.RefOk | dogFoodTracker/Pods/leveldb-library/util/cache.cc:217-223 | A reference moves an unused entry to the list in use and keeps every invariant. |
| LruCaches.UnrefOk | dogFoodTracker/Pods/leveldb-library/util/cache.cc:225-237 | Giving one back deletes the entry exactly at the last reference, and keeps every invariant. |
| LruCaches.EraseOk | dogFoodTracker/Pods/leveldb-library/util/cache.cc:307-316 | An entry that leaves the table leaves the cache, its charge is returned, and no client notices. |
| LruCaches.LRUCache.Lookup | dogFoodTracker/Pods/leveldb-library/util/cache.cc:252-259 | Finds the cached entry with the key if there is one, and gives the client a reference. |
| LruCaches.LRUCache.Release | dogFoodTracker/Pods/leveldb-library/util/cache.cc:261-264 | Runs the deleter exactly when the last reference to an uncached entry goes; a cached entry becomes the newest that may be evicted. |
| LruCaches.LRUCache.Insert | dogFoodTracker/Pods/leveldb-library/util/cache.cc:266-303 | The entry replaces the one with its key; unused entries are evicted oldest first, no more than needed, until usage fits or none is left; with capacity zero nothing is cached. |
| LruCaches.LRUCache.EvictOldest | dogFoodTracker/Pods/leveldb-library/util/cache.cc:293-300 | The oldest unused entry leaves table, list and usage, and is deleted once. |
| LruCaches.LRUCache.Erase | dogFoodTracker/Pods/leveldb-library/util/cache.cc:318-321 | Exactly the entry with the key leaves the cache; it is deleted at once if no client uses it. |
| LruCaches.LRUCache.Prune | dogFoodTracker/Pods/leveldb-library/util/cache.cc:323-333 | Exactly the unused entries are deleted, oldest first. |
| MemTables.EntryRoundTrip | dogFoodTracker/Pods/leveldb-library/db/memtable.cc:77-98 | An added entry gives back its internal key and its value. |
| MemTables.FirstIsNewest | dogFoodTracker/Pods/leveldb-library/db/memtable.cc:100-108 | The first entry from the lookup key on is the newest candidate if it has the user key; otherwise there is no candidate. |
| MemTables.KeyRankOrder | dogFoodTracker/Pods/leveldb-library/db/memtable.cc:30-36 | Entries and lookup keys are ordered by the keys in front of them, as a strict weak order. |
| MemTables.MemTable.Add | dogFoodTracker/Pods/leveldb-library/db/memtable.cc:77-98 | The bytes of the entry go into the skip list at their place in the order of the key comparator, for any height, and nothing else changes. |
| MemTables.MemTable.Get | dogFoodTracker/Pods/leveldb-library/db/memtable.cc:100-134 | The newest entry for the user key not newer than the read decides: its value, or a deletion; without one the memtable says nothing. |
| PbWire.ReadVarint32RoundTrip | dogFoodTracker/Pods/nanopb/pb_decode.c:187-247 | A 32-bit varint in front of anything decodes to its value and leaves the rest. |
| PbWire.ZigZagRoundTrip | dogFoodTracker/Pods/nanopb/pb_encode.c:630-639 | Zigzag maps the 64-bit signed numbers one to one onto the 64-bit codes, and decoding undoes it. |
| PbWire.TagRoundTrip | dogFoodTracker/Pods/nanopb/pb_decode.c:298-319 | A tag with its wire type decodes to both. |
| PbWire.StringRoundTrip | dogFoodTracker/Pods/nanopb/pb_encode.c:709-715 | Length-prefixed data in front of anything decodes to itself. |
| PbRoundTrip.SignedRoundTrip | dogFoodTracker/Pods/nanopb/pb_decode.c:1329-1364 | A number of any width, sign-extended to ten bytes if negative, decodes to itself. |
| PbRoundTrip.StringRoundTripIff | dogFoodTracker/Pods/nanopb/pb_encode.c:875-899 | Of a string that fills its room the part before the terminator comes back; without a terminator the decoder refuses what the encoder wrote. |
| PbRoundTrip.PackedRoundTrip | dogFoodTracker/Pods/nanopb/pb_decode.c:424-453 | A packed array decodes to its elements behind those already there, as long as there is room. |
| PbRoundTrip.ElementsRead | dogFoodTracker/Pods/nanopb/pb_decode.c:454-464 | Unpacked elements, one by one behind their tags, are appended in order. |
| PbRoundTrip.SlotRead | dogFoodTracker/Pods/nanopb/pb_decode.c:406-480 | Reading one encoded field of any kind turns the default of that field into its content and leaves the others. |
| PbRoundTrip.Encodable | dogFoodTracker/Pods/nanopb/pb_encode.c:528-550 | A well-formed message can be encoded. |
| PbRoundTrip.RoundTrip | dogFoodTracker/Pods/nanopb/pb_decode.c:925-1073 | Decoding an encoded well-formed message gives the same message: required, optional, repeated, union and nested fields, to any depth. |
| PbRoundTrip.UnknownFieldSkipped | dogFoodTracker/Pods/nanopb/pb_decode.c:954-986 | A field the descriptor does not know is skipped and changes nothing. |
| PbOutcomes.AlwaysFits | dogFoodTracker/Pods/nanopb/pb_decode.c:406-480 | Whatever bytes are decoded, every value of the result is within its room and at most one member of each union is set, in nested messages too. |
| PbOutcomes.LaterMemberWins | dogFoodTracker/Pods/nanopb/pb_decode.c:466-477 | If two members of a union follow each other on the wire, the later one is set and no other. |
| PbOutcomes.RequiredDecide | dogFoodTracker/Pods/nanopb/pb_decode.c:1029-1069 | Once all fields are read, decoding fails if and only if one of the first 64 required fields is not set. |
| PbOutcomes.MergedMustBring | dogFoodTracker/Pods/nanopb/pb_decode.c:1503-1525 | A submessage that is merged into one that was there must bring its required fields itself. |
| PbOutcomes.ReadsOn | dogFoodTracker/Pods/nanopb/pb_decode.c:940-1016 | Decoding two encodings one behind the other is decoding the second into what the first gave. |
| PbOutcomes.SubmessagesMerge | dogFoodTracker/Pods/nanopb/pb_decode.c:1503-1525 | A required or optional submessage that comes twice is the one whose bytes are those of both. |
| PbOutcomes.LastOneCounts | dogFoodTracker/Pods/nanopb/pb_decode.c:406-480 | Of any other field that is not repeated the last occurrence counts; a union member that is a message starts from its defaults again. |
| PbReadings.SignedReadIff | dogFoodTracker/Pods/nanopb/pb_decode.c:1329-1364 | From any bytes a signed integer is read exactly if it is congruent to the varint there, modulo 2^64 for eight bytes and 2^32 for fewer, and fits its width. |
| PbReadings.ZigZagReadIff | dogFoodTracker/Pods/nanopb/pb_decode.c:1390-1412 | A zigzag integer exactly if the varint there is its code and it fits its width. |
| PbReadings.UnsignedReadIff | dogFoodTracker/Pods/nanopb/pb_decode.c:1366-1388 | An unsigned one exactly if it is the varint there and fits its width. |
| PbReadings.BlobReadIff | dogFoodTracker/Pods/nanopb/pb_decode.c:1431-1557 | Bytes are taken if they have room, strings with their terminator, bytes of a fixed length if they have it; nothing at all stands for zeros. |
| PbReadings.ZeroEnds | dogFoodTracker/Pods/nanopb/pb_decode.c:310-314 | A zero in place of a tag ends the message, whatever is behind it. |
| PbReadings.UnknownRead | dogFoodTracker/Pods/nanopb/pb_decode.c:278-334 | A field the descriptor does not know takes a varint of any length, a length and so many bytes, eight bytes or four, by its wire type; otherwise decoding fails. |
| PbReadings.WideVarintIff | dogFoodTracker/Pods/nanopb/pb_decode.c:187-247 | A number of up to 64 bits is read into 32 if and only if it fits, or bits 31 and 63 are set and the groups of seven bits from 35 to 62 are each all zero or all one; bits 32 to 34 may be anything then. |
| PbReadings.NegativeRead | dogFoodTracker/Pods/nanopb/pb_decode.c:213-226 | So a negative 32-bit number written with 64 bits is read as it was. |
| PbReadings.EncodesIff | dogFoodTracker/Pods/nanopb/pb_encode.c:341-550 | A message can be encoded if and only if all its values are within their room, its arrays have no more elements than theirs, and its required fields are set. |
| PbCommon.FieldIter.Next | dogFoodTracker/Pods/nanopb/pb_common.c:20-76 | Steps to the next field or wraps around, and keeps count of the required fields passed. |
| PbCommon.FieldIter.Find | dogFoodTracker/Pods/nanopb/pb_common.c:78-95 | The search all the way around terminates and finds the field with the tag if there is one. |
| PbRequired.Ones | dogFoodTracker/Pods/nanopb/pb_decode.c:1053-1068 | Comparing a word with n ones says that exactly its low n bits are set. |
| PbRequired.MarkSeen | dogFoodTracker/Pods/nanopb/pb_decode.c:1012-1017 | Sets the bit of one required field and no other. |
| PbRequired.AllSeen | dogFoodTracker/Pods/nanopb/pb_decode.c:1051-1069 | Comparing whole words, then the remaining bits, says whether every counted bit is set. |
| PbRequired.MissingByIndex | dogFoodTracker/Pods/nanopb/pb_decode.c:1029-1069 | All counted bits are set if and only if none of the first 64 required fields is missing. |
| PbRequired.CountRequired | dogFoodTracker/Pods/nanopb/pb_decode.c:1029-1046 | Going to the end of the descriptor counts the required fields, up to 64. |
| PbEncoding.OStream.Write | dogFoodTracker/Pods/nanopb/pb_encode.c:103-124 | Succeeds if and only if the bytes fit; then they are appended, or only counted. |
| PbEncoding.OStream.EncodeVarint | dogFoodTracker/Pods/nanopb/pb_encode.c:608-628 | Ten bytes are enough, and what is written is the varint. |
| PbEncoding.OStream.EncodeRepeated | dogFoodTracker/Pods/nanopb/pb_encode.c:147-236 | An array is packed where its type allows; its size, multiplied or counted, is the size of its elements. |
| PbEncoding.OStream.EncodeSubmessage | dogFoodTracker/Pods/nanopb/pb_encode.c:717-765 | The two passes agree on the size, so the message behind it fits exactly. |
| PbEncoding.OStream.EncodeField | dogFoodTracker/Pods/nanopb/pb_encode.c:341-426 | What each kind of field writes; too many elements or bytes are an error. |
| PbEncoding.OStream.Encode | dogFoodTracker/Pods/nanopb/pb_encode.c:528-550 | Succeeds if and only if the message can be encoded and fits, and then has written its encoding. |
| PbEncoding.GetEncodedSize | dogFoodTracker/Pods/nanopb/pb_encode.c:567-576 | Counting gives the number of bytes that encoding writes. |
| PbEncoding.EncodeToBuffer | dogFoodTracker/Pods/nanopb/pb_encode.c:86-124 | Encoding succeeds if and only if that number fits the buffer, and never writes beyond it. |
| PbWire.OneBehindPadding | dogFoodTracker/Pods/nanopb/pb_decode.c:211-243 | Behind padding a one is refused as an overflow if and only if the position, kept in eight bits, is beyond bit 32. |
| PbWire.PositionWraps | dogFoodTracker/Pods/nanopb/pb_decode.c:232-236 | Behind 37 bytes of padding a one is read as bit 3. |
| PbDecoding.IStream.DecodeVarint32 | dogFoodTracker/Pods/nanopb/pb_decode.c:187-247 | Reads what the byte-level decoder reads, with its overflow rules and its bit position of eight bits, and the end of the stream stays put. |
| PbDecoding.IStream.DecodeVarint | dogFoodTracker/Pods/nanopb/pb_decode.c:255-275 | At most ten bytes, 64 bits kept. |
| PbDecoding.IStream.SkipUnknown | dogFoodTracker/Pods/nanopb/pb_decode.c:321-331 | Skips one field of a known wire type, however long, or fails. |
| PbDecoding.IStream.MakeSubstream | dogFoodTracker/Pods/nanopb/pb_decode.c:372-385 | The substream holds exactly the announced bytes, taken off what is left here. |
| PbDecoding.IStream.CloseSubstream | dogFoodTracker/Pods/nanopb/pb_decode.c:387-400 | Whatever the substream left is skipped; position and bytes left add up again. |
| PbDecoding.IStream.DecodeStatic | dogFoodTracker/Pods/nanopb/pb_decode.c:406-480 | Decodes one field of any kind into its slot; position plus bytes left is unchanged at every depth. |
| PbDecoding.IStream.DecodeNoInit | dogFoodTracker/Pods/nanopb/pb_decode.c:925-1073 | The loop terminates as bytes run out, decodes what its specification says, about which `PbOutcomes` and `PbReadings` have lemmas, and fails if a counted required field is missing. |
| PbDecoding.IStream.Decode | dogFoodTracker/Pods/nanopb/pb_decode.c:1075-1087 | Starts from the defaults, then decodes. |

## Left out

- Install.CompactionPreservesReads: has the hypothesis that files left at the next level hold only newer entries of shared user keys, because the code does not establish it; the exact condition is in `Lsm.FinishPreservesIff`, and `StraddleRun.DeletedKeyIsRead` is a run that breaks it.
- Lsm.RunsAreFaithful: takes that exact condition for every compaction that is installed, because the code does not establish it.
- Lsm.Get: reads must be at or above the oldest live snapshot, as those of the engine are.
- Compaction.DoCompactionWork: asks for a smallest snapshot below the largest sequence number, which the engine's counters never reach; with equality the first version of every key would be taken for hidden.
- Compaction.DoCompactionWork: where output files are cut (size, grandparent overlap) is arbitrary, which covers the code's rules.
- Selection.PickCompaction: which level is compacted (size scores in floating point) and whether a seek count chose the file is the caller's choice; `Selection.PickBySize` has the choice by compaction pointer.
- Flush.FlushKeepsJob: is about compactions picked by PickCompaction; a manual CompactRange may leave gaps between its inputs.
- Version.Get: table-cache and file errors, and seek statistics, are not modelled; a file's metadata carries its entries.
- Lsm.Get: the memtables are sorted sequences here; `MemTables` proves their bytes over the skip list.
- Keys.VisibleNewest: user keys are integers here; `Comparators.RankedOrder` carries any finite set of internal keys over.
- Survival.NoAcknowledgedWriteLost: has two hypotheses for the moment a record lands in the manifest, because the code does not establish them: that the compaction loses nothing, exact by `Lsm.FinishPreservesIff`, and that the record fits, exact by `Landings.FittingIff` and `Landings.ReadsSoundIff`. Writes acknowledged behind a failed append are excepted, exactly by `Survival.AckedSurviveIff`.
- Landings.ReadsSoundIff: takes reads of a version with overlapping files at a level below the first for unsound, as a build with assertions aborts on it; what a build without assertions reads from two copies of a table at one such level is not modelled.
- Landings.HiddenIsMisread: the newer entry had reached a table, but no sync had made it certain in its log.
- Durability.NextFiles: the manifest is the sum of its complete records (`Manifest` and `Rebuilds` prove how they are replayed), behind a failed append each record is read or not, as it happens, and a record that was never written is not read (checksums do not collide); tables, the manifest and CURRENT survive a crash once written.
- Durability.AtMostOneCall: shutting down and manual compactions are not modelled; whether a call finds work is left open.
- Survival.RecoveryPossible: says that some recovery succeeds; recovery that stops at a corrupted log or a missing table is left out.
- StoreIterators.NewIterator: the iterators of a memtable and of a table are cursors on their entries, as `MemTables`, `Tables` and `Blocks` prove of them. It asks that no entry is stored twice, as none is in the runs of `Lsm.RunsStoreOnce` and `StoredOnce.RunsStoreOnce`; copies that a record landing behind a doubtful one leaves are not iterated over here.
- StoreIterators.StoreDivides: has the same hypothesis.
- StoredOnce.RunsStoreOnce: leaves out runs in which a record is read that was logged after one that landed although it was reported to have failed, as copies are then there to be found.
- Survival.AckedSurviveIff: whether a manifest with an append behind a failed one can be read is left to the crash; `Manifest.TornFailsIff` says when, by its bytes.
- Manifest.TornFailsIff: is about an append that failed behind its header and within one block; when one fails inside its header, the bytes of the next record complete it, and what that header then announces depends on them.
- Writers.HistoryIsTold: the engine takes the group's numbers in the step that logs it; in the source LastSequence moves when the leader has the lock again. Options are the default ones: paranoid_checks and reuse_logs are off.
- Log.Reader.ReadRecord: reads from the start of the file, as recovery does (initial offset 0), with checksums on.
- Log.MaskedIsChecksum: CRC-32C itself is any 32-bit function.
- Blocks.BlockIter.Seek: on a block that no builder wrote only safety is proved: iteration ends, and positions stay inside until an entry is taken whose lengths overflow.
- Blocks.NewIterator: the restart array is decoded when the iterator is made, not at each use.
- Filters.FilterBlockBuilder.Finish: promises nothing once the filters exceed 4 GB, where the stored 32-bit offsets wrap.
- Filters.BloomFilterPolicy.CreateFilter: the hash is any function; false-positive rates are not a matter of these proofs.
- Tables.TableBuilder.Finish: blocks are sequences of entries at offsets; compression, block trailers, the footer and file errors are left out.
- Tables.InternalGet: block-cache handles are not modelled.
- Manifest.Builder.Apply: the compaction pointers of an edit are not kept, as nothing proved here depends on them.
- VersionBuilders.OneBuilderIff: is for each level by itself, as levels do not meet in the builder.
- LruCaches.LRUCache.Insert: the two circular lists are sequences; the sharded cache over this shard and the destructor are left out.
- HandleTables.Insert: hash chains are sequences.
- SkipLists.SkipList.Insert: the comparator is a strict weak order, given with the rank of every key; the random height is a parameter, and each link is one atomic step, so memory orderings are left out.
- DbIter.DBIter.Next: read sampling and the trimming of saved buffers have no counterpart.
- Merger.MergingIterator.Next: child errors are left out.
- The repair tool, ReuseManifest and log reuse, ApproximateOffsetOf, the snapshot list's links, and the environment.
- The app's Swift code, and the vendored libraries without logic of their own.
- PbRoundTrip.RoundTrip: is for encodings below 4 GB, as the decoder reads lengths into 32 bits.
- PbMessages.DecodeFields: default values are not modelled: a required field beyond the 64th that never came is `Unset` here.
- PbCommon.FieldIter.Find: in a descriptor without fields nothing is found; the source compares tag 0 with its terminator.
- PbEncoding.OStream.Encode: messages hold what a structure can hold (numbers within their width, sizes below 2^64).
- nanopb callbacks, extensions, pointer fields and their release, fields without a has-flag, arrays of fixed count, delimited and null-terminated framing, and byte offsets into structures.
