# TableFS and its LevelDB, modelled in Dafny

TableFS keeps the inodes of a file system in a key-value store; the store is a vendored LevelDB 1.5. This project
models what is hard in the two and proves it: the log-structured merge engine with its background compactions, group
commit and crash recovery; the manifest; the iterator stack; the on-disk formats; the skip list and the block cache;
and TableFS's files, whose bytes live inside the inode until they outgrow it, with its dentry cache.

`dafny verify dfyconfig.toml` checks everything. There are no axioms and no `assume` statements.

## Main results

1. **Every read, in every run.** `LsmReads.EveryRunReadsNewest`: take any interleaving of logged batches, log appends
   and syncs that fail, single memtable insertions, memtable switches, flushes, compactions (picked, taking a file
   number each time an output is opened while other steps happen, logged, installed, or abandoned), trivial moves,
   snapshots taken and released, obsolete logs deleted, and crashes between any two of these, each followed by any
   number of recoveries that crash themselves. A read at the last sequence or at a held snapshot returns the newest
   write at or below it. The specification is one flat list of operations: done, void (the append failed), or in
   limbo (the sync failed, so the record may come back with a recovery, as a whole). Picks must be safe;
   `LsmSplitKeys.ReadsKeptIff` shows that this is exactly what reads need, and `LsmApart.CodeRunReadsNewest` that the
   code's picks are, as long as outputs are not cut inside a user key. `Scanning.ScanState` is the same statement for
   scans in both directions.
   What that list of operations is, is said of the steps alone: `LsmWrites.RunAgrees` (it holds the batches the writers
   handed in, each once and in order, with nothing left out but what failed), `ReadsWhatWasHanded` and
   `ReadsLatestPublished` (so a read finds the last operation on its key among them), and `SnapshotReads` (a snapshot
   answers as the database did when it was taken). `WritePath.WritersAreRead` joins this with the writers' queue:
   reads find exactly what the writers told "fine" have written.
   The imperative code reaches the steps as follows. `Picking.ChoiceIsPicked` and `Snapshots.SmallestSnapshot` give
   the guard of a pick (`MayPick`), `Picking.PickedLevelIsSafe` the place a flush needs, `Compacting.WorkIsStep` the
   `LogCompaction` step from what `Compacting.DoCompactionWork` returns, `Recovering.Recover` the `Crash` step with its
   guard; `Snapshots.SnapshotList.New` and `Delete` change the held numbers as `Take` and `Release` do, and
   `Reading.Get` returns the answer of the theorem.
2. **Nothing is lost in a crash.** `LsmRuns.PublishedStays` (in every run a published write stays, across crashes, failed
   writes and interrupted recoveries) and `LsmRecovery.CrashKeeps`; below them `LsmManifest.ManifestIsDisk` (in every run,
   one Builder over the manifest's records gives the version the crash step starts from),
   `ManifestLog.VersionSet.Reopen` (recovery gives the running version and counters),
   `LogReader.WriteThenReadPrefix` (a log cut anywhere gives exactly the records wholly inside) and
   `ManifestFile.WriteThenRecover` (so does a manifest as bytes, down to the version).
3. **Group commit is linear.** `GroupCommit.RunKeeps`, `AppliedInOrder`, `RangesDisjoint`, for every interleaving of
   writers with failing logs and insertions; and `ToldFineIff`: a writer is told "fine" if and only if all went well.
4. **A skip list read while it is written.** `SkipList.FinishIsRight` and `SeekSeesEarlierInserts`, one load or store
   at a time.
5. **Cursors that turn around.** Merging, two-level, database and block iterators stand where one cursor over one
   sorted list would, after any sequence of moves; `DbIterator.DBIter.Next` says exactly when it does not.
6. **Writers and readers undo each other**: log, blocks, tables with filters and shortened index keys
   (`TableBytes.BuildWriteGet`, over the bytes of index and data blocks, with the real comparator and Bloom policy),
   version edits, write batches, integers. On bytes nobody wrote, readers return only what is there:
   `LogReader.ReadAnyFile`, `Block.Iter.ParseNextKey`, `VersionEdit.DecodeFrom`, `WriteBatch.Iterate`.
7. **The LRU shard does exactly what a cache of its capacity should**, and its books balance, over a hand-written hash
   table in any run of calls (`LruCache.Run`, `FreshHits`); and **a TableFS file is a plain byte sequence** across inline
   and disk form.

## Where the code does less than one would expect

Where a property one would expect is false of the code, the members named give an input that breaks it and the exact
condition, which a caller could check beforehand, under which it holds.

- Levels below 0 are disjoint by internal key only. With a snapshot held, an output file may be closed between two
  versions of a user key, and a later size compaction may move the newer one down alone: `LsmStaleRun.StaleRead` is a
  run from an empty database that ends in a stale read. A merge can also drop a deletion over a version it leaves
  behind: `LsmStaleRun.DroppedDeletion`. `LsmSplitKeys.ReadsKeptIff` is the exact condition, on the levels and the
  inputs before the compaction; the state machine asks it of every pick (`SafePick` in `LsmSteps.CanPick`), and of
  nothing else. Without a snapshot the code meets it by itself (`LsmApart.UnheldOutputsApart`, `ApartIsSafe`).
- `DBIter::Next` after `Prev` skips by the user key it lands on, and stays put if that is another key:
  `DbIterator.StuckExample`, with the exact condition in `DbIterator.DBIter.Next`.
- Builder::Apply revives a deleted file if its number is added again, and drops a file whose smallest key and number
  are there already: `VersionBuilder.NumberReused`, `Revived` and `Refused`, with the exact condition in
  `VersionBuilder.AddIff`. `LsmManifest.RunRecords` with `ManifestLog.NaturalIsDisciplined` shows that the engine's
  own edits never do either.
- VersionEdit::Clear leaves the compaction pointers, so decoding into a used edit keeps them:
  `VersionEdit.DecodeFrom`.
- LogAndApply leaves its record in an open descriptor log when Sync fails after the append. The running version stays
  as it was, and a reopening applies the edit all the same: `ManifestLog.LeftBehindExample`, with the exact condition
  in `ManifestLog.VersionSet.FailThenReopen`. The engine's steps exclude this case (see the hypotheses below).
- WriteBatch::InsertInto stops at the first record it cannot read, with the ones before it already in the memtable,
  and the writers are told that they failed: `GroupCommit.SpillExample`, with the exact condition in
  `GroupCommit.AppliedInOrder`. Batches made by Put, Delete and Append are never like that
  (`WriteBatch.BuiltIsFine`).
- TableFS's Write moves the recorded size for an empty write past the end, which POSIX says does nothing. Up to the
  threshold the file grows by zeros (`InodeFile.EmptyWriteGrows`); past it the disk file is shorter than its inode
  says (`InodeFile.EmptyWriteBreaks`). `InodeFile.DataFile.Write` has the exact condition and
  `InodeFile.EmptyWriteLeaves` tells the two outcomes apart.
- DentryCache::Insert drops a key from its map when an old, stale node of that key reaches the end of the list:
  `DentryCache.StaleNodeExample`. That is only a miss, never a wrong answer; `DentryCache.DentryCache.Insert` says
  exactly which key goes.

## Files

| file | what it holds |
|---|---|
| Entries, Lsm, LsmSteps | entries and lookup, the engine's state and invariants, its steps |
| LsmCompaction, LsmFlush, LsmRecovery, LsmRuns, LsmReads, LsmWrites | what each step keeps, whole runs, reads, and the writes they read |
| LsmSplitKeys, LsmStaleRun, LsmApart | when a compaction keeps reads, the run where it does not, and when the code's picks do |
| Version, Picking, Reading, Compacting, Snapshots, Recovering | the imperative engine code, proved to take those steps |
| VersionBuilder, ManifestLog, ManifestFile, LsmManifest | version edits, the builder, the manifest and its recovery; its bytes; the manifest of a run |
| GroupCommit, WritePath, SkipList | the write queue, and what reads find of its writes; the memtable's list under concurrent reads |
| Coding, Layout, LogFormat, LogReader, WriteBatch, VersionEdit | byte formats |
| Block, BlockBuilder, Separators, Bloom, FilterBlock, TableFile, TableLookup, TableBytes | table files |
| Cursors, Merging, TwoLevel, DbIterator, Scanning | iterators; scans of the whole database |
| HandleTable, LruCache | the block cache |
| DentryCache, InodeFile | TableFS |

Conventions. At the level of the engine user keys are reals, into which every countable total order embeds; the byte
formats work on bytes. Steps taken under the mutex are atomic, everything else is split. A predicate quantified over
the one-value `Lock` of module Entries, or over an enumeration of clauses, is its body: the quantifier keeps the solver
from opening it until a proof names it.

Hypotheses the code does not discharge itself: picks are safe (the first point above); every writer uses writeahead
(only the leader's flag is consulted); sequence numbers stay below 2^56 - 1; blocks, filters and batch counts stay below
2^32; CRC-32C, the Bloom hash and the cache hash are arbitrary functions; loads and stores are sequentially consistent;
completed appends survive a crash, and failed ones leave no bytes in the log; a manifest record whose write failed is
not in the manifest; the batches of the engine's writers come from Put, Delete and Append, so inserting them does not
fail.

## Model

| member | source | states |
|---|---|---|
| Entries.LookupLayered | lib/leveldb/db/db_impl.cc:1093-1103 | Entries that are newer, key by key, than everything below them decide a read: the upper layer answers when it sees the key, and otherwise the lower layer answers alone. |
| Entries.LookupSame | lib/leveldb/db/memtable.cc:108-141 | A read at a sequence depends only on the entries of its user key at or below that sequence. |
| Entries.TagParts | lib/leveldb/db/dbformat.cc:12-16 | The packed tag is the sequence above one byte of type, 1 for a value and 0 for a deletion. |
| LsmRuns.StepKeeps | lib/leveldb/db/db_impl.cc:272-1327 | Every step (log a batch, insert one operation, publish, an append that fails, a sync that fails after the append, switch memtables, take or release a snapshot, log a flush, pick, take a number for an output, abandon, log a compaction or a trivial move, install, drop logs, crash, with any number of recoveries that crash themselves, and recover) keeps the whole invariant: readers now, readers once the logged edit is installed, and recovery after a crash. |
| LsmRuns.RunKeeps | lib/leveldb/db/db_impl.cc:272-1327 | The invariant holds in every state of every run, with memtable switches and flushes between the openings of a running compaction's outputs and a crash between any two steps. |
| LsmRuns.PublishedStays | lib/leveldb/db/db_impl.cc:272-445 | In every run, across any number of crashes, failed writes and interrupted recoveries, a write once published keeps its place and its operation in the history. |
| LsmRuns.ReservedStays | lib/leveldb/db/db_impl.cc:745-768 | A number taken for an output stays the compaction's own until the compaction ends, whatever other steps take numbers in between. |
| LsmReads.SearchIsLookup | lib/leveldb/db/db_impl.cc:1061-1117 | Searching layers and stopping at the first that sees the key is one lookup in their union, at every sequence at or above the floor, although below newer data that hides both an older version may lie above a newer one. |
| LsmReads.ReadIsNewest | lib/leveldb/db/db_impl.cc:1061-1117 | In any state with the invariant, searching memtable, immutable memtable, level-0 files by falling number and then levels 1 to 6 gives what the flat history gives, at the last sequence and at every held snapshot. |
| LsmReads.EveryRunReadsNewest | lib/leveldb/db/db_impl.cc:844-1117 | Main theorem: in every run, whatever its steps, failed writes and crashes, every such read returns exactly the newest write at or below its sequence that the history holds as done. What the history holds is the subject of LsmWrites. |
| LsmWrites.BatchLogged | lib/leveldb/db/db_impl.cc:1165-1183 | Logging a batch adds exactly its operations to the history, in order and as done, and one record with all of them, numbered on from the history, to the current log. |
| LsmWrites.RunAgrees | lib/leveldb/db/db_impl.cc:1148-1195 | In every run, with crashes: the slots of the history that are not void are the operations of all batches the steps handed in, each once and in order; one is in limbo only if its writers were told that Sync failed; and up to the last sequence they are those of the writers that have their answer or whose log was recovered. Said of the steps alone. |
| LsmWrites.LookupIsLatest | lib/leveldb/db/memtable.cc:108-141 | Reading a history at a sequence finds the last operation on the key among those done up to there. |
| LsmWrites.ReadsWhatWasHanded | lib/leveldb/db/db_impl.cc:1061-1195 | In every run a read at the last sequence finds the last operation on its key among the batches handed in and answered, in their order, less some of those told that Sync failed. |
| LsmWrites.ReadsLatestPublished | lib/leveldb/db/db_impl.cc:1061-1195 | If no Sync fails, it finds the last operation on its key in the concatenation of all batches published or recovered so far, nothing left out. |
| LsmWrites.SnapshotReads | lib/leveldb/db/db_impl.cc:1061-1146 | A snapshot stays held until it is released, and until then a read through it answers what a read answered when it was taken, whatever compactions and writes came since. |
| WritePath.TurnRuns | lib/leveldb/db/db_impl.cc:1163-1206 | One turn of the writers' queue, however it ends, is a stretch of a run of the engine that takes the same numbers and leaves the same record. |
| WritePath.WritersAreRead | lib/leveldb/db/db_impl.cc:1061-1214 | The two protocols joined, for every interleaving of writers in which no batch goes in by half: between groups some run of the engine has the very log and numbers of the queue, and a read finds the last operation on its key among the batches of the writers told "fine", in queue order, and nothing of the others. |
| LsmCompaction.DropKeepsReads | lib/leveldb/db/db_impl.cc:896-929 | For every user key and every sequence at or above the smallest snapshot, reading tables after the drops equals reading them before, although files appeared below the target level since the pick. |
| LsmCompaction.NothingOlder | lib/leveldb/db/version_set.cc:1378-1397 | When a pick is safe, whatever an obsolete deletion hides at the newest place is in a file of the inputs, so dropping the deletion uncovers nothing, although files appeared below since the pick. |
| LsmCompaction.NewestDropped | lib/leveldb/db/db_impl.cc:896-929 | If the newest entry a read sees is dropped, it is an obsolete deletion, and everything of its key that the read sees is dropped with it. |
| LsmCompaction.RecencyAfter | lib/leveldb/db/version_set.cc:1246-1311 | After a compaction, older data lies above newer data of the same user key only where something newer still hides both from every read at or above the cutoff. |
| LsmCompaction.LevelsOrderedAfter | lib/leveldb/db/version_set.cc:1246-1311 | Below level 0 the files of a level still follow each other in internal key order, wherever the outputs were cut. |
| LsmCompaction.HeldOnceAfter | lib/leveldb/db/db_impl.cc:886-962 | An entry is still held by one file only. |
| LsmCompaction.CompleteAfter | lib/leveldb/db/db_impl.cc:896-929 | After a compaction the tables and the unflushed history answer every read at or above its cutoff as the whole history does. |
| LsmFlush.FlushRecency | lib/leveldb/db/db_impl.cc:447-493 | A memtable table placed below level 0 puts no older data above newer. |
| LsmFlush.FlushKeepsJob | lib/leveldb/db/version_set.cc:442-466 | A table placed while a compaction runs leaves everything the compaction relies on intact. |
| LsmFlush.MissesHull | lib/leveldb/db/version_set.cc:442-466 | A table that overlaps no input file misses the whole hull of the inputs, because the hull has no gap. |
| LsmRecovery.ReplayIsTail | lib/leveldb/db/db_impl.cc:304-340 | Replaying the logs numbered at or above the manifest's log number gives, in order and with their sequence numbers, every operation done that is in no table yet, and besides those only operations whose sync failed. |
| LsmRecovery.RecoveredSeqIsAll | lib/leveldb/db/db_impl.cc:342-345 | The recovered last sequence covers every operation that was ever in a log; the numbers after it were given to writes whose append failed. |
| LsmRecovery.DropInterrupted | lib/leveldb/db/db_impl.cc:314-340 | The empty logs that recoveries left when they crashed themselves change neither what is replayed nor the largest sequence. |
| LsmRecovery.CrashKeeps | lib/leveldb/db/db_impl.cc:272-445 | A crash in any reachable state, any number of recoveries that crash before their manifest record, and then one that ends, restore the invariant. Every operation done stays done at its place, one in limbo stays so or is done after all, only numbers of writes that never reached a log are forgotten, and the sequence counter is the length of the history. |
| LsmSplitKeys.ReadsKeptIff | lib/leveldb/db/version_set.cc:1192-1311 | Replacing the inputs by their survivors leaves every read at or above the cutoff at the entry it stopped at before if and only if the pick is safe. Safe speaks of the levels and the job alone: no file left at the input level holds an older version of a key that leaves it, and none left at the target level a version an obsolete deletion covers, unless something outside the inputs hides the key. |
| LsmSplitKeys.MoveKeptIff | lib/leveldb/db/version_set.cc:1361-1368 | For a trivial move, which drops nothing, the first half alone is the exact condition. |
| LsmSplitKeys.StopIsNewest | lib/leveldb/db/version_set.cc:306-407 | With that order, the entry at which the level-by-level search stops is the newest of all tables. |
| LsmStaleRun.MergeLeads | lib/leveldb/db/db_impl.cc:954-961 | Concrete: a merge of two files that overlap, under a held snapshot, closes an output between the two versions of one user key; every step of it is a step of the engine. |
| LsmStaleRun.MovePicked | lib/leveldb/db/version_set.cc:1207-1214 | Concrete: what PickCompaction promises then allows the newer file alone to be picked, and that pick is not safe. |
| LsmStaleRun.StaleRead | lib/leveldb/db/version_set.cc:306-407 | Concrete: a run from an empty database reaches that state; the code may pick, move and install; then a read at the last sequence finds the old version although the history has a newer one. |
| LsmStaleRun.DroppedDeletion | lib/leveldb/db/db_impl.cc:916-929 | Concrete: a merge that cuts nothing and leaves older data below newer drops a deletion over a version left behind at its level, and a read goes from not found to that version. |
| LsmApart.OneSurvivorPerKey | lib/leveldb/db/db_impl.cc:896-929 | With no snapshot held when the compaction starts, at most one entry per user key survives. |
| LsmApart.UnheldOutputsApart | lib/leveldb/db/db_impl.cc:886-962 | So its output files share no user key, wherever they were cut. |
| LsmApart.ApartIsSafe | lib/leveldb/db/version_set.cc:1192-1311 | While the files of each level share no user key, every pick that PickCompaction may make is safe. |
| LsmApart.LevelsApartAfter | lib/leveldb/db/version_set.cc:1246-1311 | Replacing the inputs by outputs that share no user key keeps the files of each level below 0 apart. |
| LsmApart.CodeStep | lib/leveldb/db/db_impl.cc:645-1009 | In a state whose levels are apart, every step of the code, with nothing asked of its picks, is a step of the engine, and keeps them apart as long as compactions that started under a snapshot do not cut inside a user key. |
| LsmApart.CodeRunReadsNewest | lib/leveldb/db/db_impl.cc:844-1117 | So every such run of the code is a run of the engine, all its picks are safe, and every read returns the newest logged write: the safety of picks needs no hypothesis there. |
| Version.FindFile | lib/leveldb/db/version_set.cc:105-124 | The binary search returns the first file whose largest key is at or after the key: all before it end earlier, none from it on does. |
| Version.InOrderAscends | lib/leveldb/db/version_set.cc:105-124 | Files that follow each other in internal key order have strictly rising largest keys, which is what the binary search needs, even if two share a user key. |
| Version.SomeFileOverlapsRange | lib/leveldb/db/version_set.cc:140-170 | True if and only if some file meets the range, by scan for overlapping files and by binary search for disjoint ones, with either end open. |
| Version.OutsideShrinks | lib/leveldb/db/version_set.cc:468-507 | Widening the range to a file's end strictly shrinks the number of file ends outside it: the restart loop ends. |
| Version.GetOverlappingInputs | lib/leveldb/db/version_set.cc:468-507 | All files meeting the range; at level 0 the range is the least one, grown only by files met, that no file sticks out of. |
| Picking.TotalFileSize | lib/leveldb/db/version_set.cc:63-69 | The sum of the file sizes. |
| Picking.TotalSizeAdds | lib/leveldb/db/version_set.cc:63-69 | One file counts its size, and sizes add up over concatenation. |
| Picking.GetRange | lib/leveldb/db/version_set.cc:1125-1146 | Smallest and largest internal key of the inputs, each attained. |
| Picking.PickLevelForMemTableOutput | lib/leveldb/db/version_set.cc:442-466 | A level at most 2, above 0 only if no file of it or above overlaps and no level passed has more than 20MB of files over the range two levels down; and it stops early only for an overlap or for such a weight. |
| Picking.PickedLevelIsSafe | lib/leveldb/db/version_set.cc:442-466 | That level is one where the flush step may put the table. |
| Picking.VersionSet.TargetInputs | lib/leveldb/db/version_set.cc:1246-1255 | The next level's files over the range of the inputs; together they leave no gap, and the range returned is theirs. |
| Picking.VersionSet.Expand | lib/leveldb/db/version_set.cc:1259-1287 | The inputs grown are exactly the files over the whole range of the first choice (at level 0 with all they meet); they are again a closed, gapless choice that contains the first one. |
| Picking.VersionSet.SetupOtherInputs | lib/leveldb/db/version_set.cc:1246-1311 | The choice is closed and gapless and contains the files it started from; it grows, to the files over the whole range, exactly when that is more files, few enough bytes, and no more files of the next level; grandparents are the files two levels down over its range; and the compaction pointer moves to its largest key. |
| Picking.VersionSet.SeedFile | lib/leveldb/db/version_set.cc:1206-1218 | The first file past the compaction pointer, or the first file of all when none is past it. |
| Picking.VersionSet.PickCompaction | lib/leveldb/db/version_set.cc:1192-1244 | Nothing, with the pointers left alone, if and only if there is nothing to do. Otherwise it starts from the file asked for, or in a size compaction from the first file past the pointer, at level 0 with all that it meets; and inputs, grandparents and pointer are what SetupOtherInputs makes of that. |
| Picking.ChoiceIsPicked | lib/leveldb/db/version_set.cc:1192-1311 | Every such choice is exactly what the compaction step of the state machine demands. |
| Reading.RunGet | lib/leveldb/db/memtable.cc:108-141 | Seeking a sorted run and testing the user key gives the newest entry at or below the sequence, or says that there is none. |
| Reading.Candidates | lib/leveldb/db/version_set.cc:331-346 | The level-0 files whose range covers the key, newest first. |
| Reading.GetFromZero | lib/leveldb/db/version_set.cc:325-407 | What level 0 gives is the newest such entry of all tables; nothing means level 0 has none. |
| Reading.GetFromDeep | lib/leveldb/db/version_set.cc:347-407 | The one file found by binary search suffices: what it gives is the newest of all tables; nothing means the level has none. |
| Reading.VersionGet | lib/leveldb/db/version_set.cc:306-407 | Level by level: the newest entry of all tables at or below the sequence, or a proof that there is none. |
| Reading.Get | lib/leveldb/db/db_impl.cc:1061-1117 | The imperative read over a captured view of any good state returns the history's answer. |
| Compacting.Compaction.Advance | lib/leveldb/db/version_set.cc:1384-1396 | One level of the advancing pointers: free if and only if no file of the level covers the key. |
| Compacting.Compaction.IsBaseLevelForKey | lib/leveldb/db/version_set.cc:1378-1397 | Asked with rising keys, the ever-advancing pointers answer the plain question: true if and only if no deeper file covers the key. |
| Compacting.Compaction.ShouldStopBefore | lib/leveldb/db/version_set.cc:1399-1419 | Cuts if and only if the grandparents passed since the last cut weigh more than the limit; the running weight is exactly theirs and never stays above it. |
| Compacting.PreviousDecides | lib/leveldb/db/db_impl.cc:902-928 | In the merged order an entry is shadowed by a newer one that every snapshot sees if and only if the entry just before it is of its key and at or below the smallest snapshot: the one remembered sequence is enough. |
| Compacting.ShouldDrop | lib/leveldb/db/db_impl.cc:896-929 | The test with its two rules drops an entry if and only if it is shadowed, or a deletion below the cutoff with nothing of its key deeper. |
| Compacting.DroppedMeans | lib/leveldb/db/db_impl.cc:896-929 | The two rules over the files themselves: a newer version at or below the cutoff in some input file; or a deletion at or below the cutoff whose key lies in the range of no file two levels down or deeper. |
| Compacting.AskStop | lib/leveldb/db/version_set.cc:1399-1419 | Over all entries so far: each passes exactly the grandparents that end before it, and is a stop if and only if those passed since the last stop weigh more than 20MB. |
| Compacting.OpenOutput | lib/leveldb/db/db_impl.cc:745-768 | The output gets the counter as it is when the file is opened, after whatever other threads have taken. |
| Compacting.HandleEntry | lib/leveldb/db/db_impl.cc:886-962 | One turn of the loop keeps: the outputs and the open file are the surviving prefix of the input, and every output so far was closed where it should be. |
| Compacting.DoCompactionWork | lib/leveldb/db/db_impl.cc:844-1009 | The outputs hold exactly the survivors, each file sorted and non-empty, any two consecutive; each has the number taken when it was opened, the numbers rise, and other threads may have taken any in between. Each output records the size of its entries and ends at the first stop, or when it reaches the size limit, or with the input, and at none of these earlier. |
| Compacting.WorkIsStep | lib/leveldb/db/db_impl.cc:822-842 | In any run that takes one number at each opening while the compaction is under way, and any other steps between, such outputs may be installed: it is the LogCompaction step. |
| Compacting.TakenRise | lib/leveldb/db/db_impl.cc:745-768 | The numbers a run takes at its openings rise, as the loop assumes. |
| Snapshots.RingPush | lib/leveldb/db/snapshot.h:41-50 | The four stores of New keep both chains of the ring going round the nodes in order. |
| Snapshots.RingPop | lib/leveldb/db/snapshot.h:52-57 | So do the two stores of Delete, for a node anywhere in the ring. |
| Snapshots.SnapshotList.Empty | lib/leveldb/db/snapshot.h:37 | True if and only if no snapshot is held. |
| Snapshots.SnapshotList.Ends | lib/leveldb/db/snapshot.h:38-39 | The oldest node carries the least number held, the newest the greatest. |
| Snapshots.SnapshotList.New | lib/leveldb/db/snapshot.h:41-50 | The list gains exactly this number at its newest end, under a new node that is the only one added, and every other node keeps its number: the Take step. |
| Snapshots.SnapshotList.Delete | lib/leveldb/db/snapshot.h:52-57 | Exactly this node leaves, from anywhere in the list, and every other keeps its place and number: the Release step. |
| Snapshots.Run | lib/leveldb/db/snapshot.h:32-57 | Any sequence of New and Delete on a new list, released in any order, leaves exactly the numbers taken and not released, oldest first, and the clients' pointers are exactly its nodes. |
| Snapshots.SmallestSnapshot | lib/leveldb/db/db_impl.cc:857-861 | The oldest number, or the last sequence when nothing is held, is the cutoff the compaction step demands. |
| Recovering.Add | lib/leveldb/db/memtable.cc:82-106 | The memtable stays sorted and gains exactly the entry. |
| Recovering.InsertInto | lib/leveldb/db/write_batch.cc:128-134 | The batch's operations enter the memtable numbered consecutively from its sequence. |
| Recovering.WriteLevel0Table | lib/leveldb/db/db_impl.cc:447-493 | The memtable becomes a table, or none when it is empty, though a number is spent either way. |
| Recovering.RecoverBatch | lib/leveldb/db/db_impl.cc:399-433 | With the batch inserted the memtable is written out, as one table with the next number, and a new one started, if and only if it takes more than the buffer size. |
| Recovering.RecoverLogFile | lib/leveldb/db/db_impl.cc:352-445 | Tables written so far hold exactly the log's records, cut by memory use; a log takes a file number if and only if it has records, even if they hold no operation; the largest sequence met is exact. |
| Recovering.LogsToRecover | lib/leveldb/db/db_impl.cc:314-329 | Exactly the logs at or above the log number, and the previous log the manifest names, in order of creation. |
| Recovering.RecoverLogs | lib/leveldb/db/db_impl.cc:331-340 | The tables of all live logs, in order, numbered upwards, and the largest sequence in them; later numbers are past every log. |
| Recovering.MarkFileNumberUsed | lib/leveldb/db/version_set.cc:952-956 | The counter never falls and ends past the number. |
| Recovering.Recover | lib/leveldb/db/db_impl.cc:272-350 | From the files any reachable state leaves, with the empty logs of any number of crashed recoveries, the loops take a crash step of the state machine: its invariant is restored, every operation done is still there, none is made up, the sequence counter is the length of the history, and no table or log takes the number of the new manifest. |
| VersionBuilder.OrderedUnique | lib/leveldb/db/version_set.cc:541-553 | A list ordered by smallest key and number is determined by its files. |
| VersionBuilder.AddIff | lib/leveldb/db/version_set.cc:618-642 | Adding a file does to the builder what it does to a version if and only if the ordered set does not refuse it for another file with its smallest key and number, and its number is not that of another, deleted file, which erasing the number would bring back. |
| VersionBuilder.Revived | lib/leveldb/db/version_set.cc:612-642 | For any two files of one number: deleting the first and adding the second through one builder leaves both, where the edits leave the second. |
| VersionBuilder.NumberReused | lib/leveldb/db/version_set.cc:612-642 | Concrete files for which it does so. |
| VersionBuilder.Refused | lib/leveldb/db/version_set.cc:618-642 | For any two files with the same smallest key and number: adding the second leaves only the first. |
| VersionBuilder.InsertFile | lib/leveldb/db/version_set.cc:541-555 | Insertion into the ordered set keeps its order; it adds exactly the file, and does nothing if a file with its smallest key and number is there. |
| VersionBuilder.Builder.constructor | lib/leveldb/db/version_set.cc:567-576 | A new builder stands for its base version. |
| VersionBuilder.Builder.Apply | lib/leveldb/db/version_set.cc:600-643 | For every edit: the deletions enter the deleted set, then each addition leaves it and is offered to the ordered set, at its level and in order; nothing else changes. |
| VersionBuilder.Builder.AppliedIsAfter | lib/leveldb/db/version_set.cc:600-643 | When the added numbers are new to their level, the builder then stands for the version after the edit. |
| VersionBuilder.Builder.SaveTo | lib/leveldb/db/version_set.cc:646-694 | Every level sorted by smallest key and number, holding exactly what the builder stands for; strictly sorted when no added file has the number of a file of the base. |
| VersionBuilder.MaybeAddFile | lib/leveldb/db/version_set.cc:696-707 | A file is kept unless its number is deleted, and order is kept. |
| VersionBuilder.MergeLevel | lib/leveldb/db/version_set.cc:651-677 | The two-way merge of base and added files, twins included, is sorted and holds exactly the net files. |
| ManifestLog.HeldWasAdded | lib/leveldb/db/version_set.cc:837-950 | Whatever a replayed version holds some edit added at that level. |
| ManifestLog.NaturalIsDisciplined | lib/leveldb/db/version_set.cc:755-835 | A manifest whose edits use fresh numbers or move a file down never adds a (level, number) twice: files only sink. |
| ManifestLog.ReplayRecords | lib/leveldb/db/version_set.cc:871-914 | Every record goes to one builder, up to one that names another comparator; the version saved holds what the builder stands for after all of them, and the counters are the last ones set. |
| ManifestLog.BuiltIsReplayed | lib/leveldb/db/version_set.cc:871-914 | If no (level, number) is added twice, one builder over all edits gives what applying them one at a time gives. |
| ManifestLog.Recover | lib/leveldb/db/version_set.cc:837-950 | For all decoded records: an invalid argument if and only if one names another comparator; otherwise success if and only if the three mandatory counters were seen, and then version and counters are the replayed ones and the new manifest number is the next file number. |
| ManifestLog.HeldUnique | lib/leveldb/db/version_set.cc:600-643 | At one level a number stands for one file. |
| ManifestLog.Snapshot | lib/leveldb/db/version_set.cc:995-1023 | One edit that names the comparator, gives the version when applied to nothing, and sets no counter. |
| ManifestLog.SnapshotIsNatural | lib/leveldb/db/version_set.cc:995-1023 | A manifest may start with it: replaying it alone gives the version. |
| ManifestLog.Prepare | lib/leveldb/db/version_set.cc:770-776 | Builder, Apply and SaveTo on the current version agree with the log extended by the edit. |
| ManifestLog.VersionSet.constructor | lib/leveldb/db/version_set.cc:837-950 | What Recover returned is a version set in step with its manifest. |
| ManifestLog.VersionSet.Descriptor | lib/leveldb/db/version_set.cc:782-793 | Without an open descriptor, a snapshot that replays to the current version under the comparator; with one, none. Either way the installed part of the log replays to the current version. |
| ManifestLog.VersionSet.LogAndApply | lib/leveldb/db/version_set.cc:755-835 | On success the new version is the edit applied to the old, the manifest gains exactly the stamped record, behind a snapshot if it is new, and its counters are the running ones. On failure version and counters stay; a new manifest is removed, but a record whose sync failed stays in an open one. |
| ManifestLog.VersionSet.Reopen | lib/leveldb/db/version_set.cc:837-950 | Under another comparator it fails; otherwise it gives what one builder makes of the manifest. If no record was left behind, that is the very version, with the counters as of the last edit. |
| ManifestLog.VersionSet.LogThenReopen | lib/leveldb/db/version_set.cc:755-950 | A call that succeeds and then a reopening give back the version and every counter. |
| ManifestLog.VersionSet.FailThenReopen | lib/leveldb/db/version_set.cc:795-832 | A failed LogAndApply and then a reopening give the running version if and only if the record did not reach the file, or the descriptor was new, or the edit changes nothing; otherwise they give the version with the edit applied. |
| ManifestLog.LeftIsApplied | lib/leveldb/db/version_set.cc:871-914 | A record left behind is an edit applied, for every edit. |
| ManifestLog.LeftBehindExample | lib/leveldb/db/version_set.cc:800-832 | Concrete: a flush whose sync fails runs on with no file, and has one after reopening. |
| ManifestFile.LoadedStored | lib/leveldb/db/version_edit.h:15-101 | An edit of the builder and its stored form, with keys and names as bytes, are one edit, for every codec that gives back the keys it stored. |
| ManifestFile.WriteThenRecover | lib/leveldb/db/version_set.cc:837-950 | Whole path over bytes: edits encoded field by field, framed as log records, the file cut anywhere, read, decoded and recovered. Recover goes by exactly the edits whose records are wholly inside the cut, and its version is what those give one at a time. |
| LsmManifest.SaysAfter | lib/leveldb/db/version_set.cc:600-643 | An edit that deletes by number and adds exactly some files does to a version what it does to the engine's levels. |
| LsmManifest.RecordKeeps | lib/leveldb/db/db_impl.cc:495-527 | The record that a flush, a compaction, a trivial move or a recovery writes only uses fresh numbers or moves a file one level down, and keeps the manifest in step with the disk. |
| LsmManifest.RunRecords | lib/leveldb/db/db_impl.cc:272-1009 | In every run of the engine the manifest's records are of that kind, they replay to the levels a crash leaves, and no number in them will be given out again. |
| LsmManifest.ManifestIsDisk | lib/leveldb/db/version_set.cc:837-950 | So in every reachable state what one builder makes of the manifest is exactly the version from which the crash step starts. |
| GroupCommit.BuildBatchGroup | lib/leveldb/db/db_impl.cc:1218-1263 | The longest prefix of the queue with no sync write behind a non-sync leader and no batch that takes the group past 1MB, or past 128KB more than a leader of at most 128KB; its operations in queue order, the leader's own batch left untouched. |
| GroupCommit.StepKeeps | lib/leveldb/db/db_impl.cc:1148-1214 | Every step of arriving, grouping, logging, inserting (all or only some of the operations) and finishing, with failures, keeps: queue order, contiguous numbers, what each finished group promised, and an empty temporary batch whenever a group starts. |
| GroupCommit.RunKeeps | lib/leveldb/db/db_impl.cc:1148-1214 | So does every interleaving of writers. |
| GroupCommit.ToldFineIff | lib/leveldb/db/db_impl.cc:1165-1206 | In every run, said of its steps: the writers of a finished group are told "fine" if and only if the record was written, synced where the leader asked for it, and inserted to the end; then log and memtable end with exactly their operations; and no one else is told anything. |
| GroupCommit.PassAnswers | lib/leveldb/db/db_impl.cc:1163-1206 | A writer that brings no batch or finds no room is told just that, and nothing is logged or numbered for it. |
| GroupCommit.AppliedInOrder | lib/leveldb/db/db_impl.cc:1148-1214 | Between groups the memtable holds, turn by turn, the batches of the groups told "fine" and the part of each other that went in before its insertion failed. That is exactly the batches of the writers told "fine", each once, in queue order, if and only if no insertion failed half way. |
| GroupCommit.SpillExample | lib/leveldb/db/db_impl.cc:1186-1195 | Concrete: a run in which a batch of two operations goes in by half, its writer is told of the failure, and the memtable keeps the first. |
| GroupCommit.RangesDisjoint | lib/leveldb/db/db_impl.cc:1165-1195 | Sequence ranges are ascending and disjoint in log and memtable, even across records that failed. |
| GroupCommit.HandOut | lib/leveldb/db/db_impl.cc:1197-1206 | The pop loop serves exactly the group, each writer with the leader's status. |
| GroupCommit.StartGroup | lib/leveldb/db/db_impl.cc:1163-1170 | The leader's section before it drops the mutex is the protocol's Begin step, with the operations of exactly its group. |
| GroupCommit.FinishGroup | lib/leveldb/db/db_impl.cc:1190-1214 | The leader's section after it takes the mutex back is the Finish step. |
| SkipList.BeginKeeps | lib/leveldb/db/skiplist.h:343-360 | Raising the height and allocating the node change no list. |
| SkipList.StoreOwnKeeps | lib/leveldb/db/skiplist.h:361-364 | Storing the node's own next pointer changes no list. |
| SkipList.PublishShape | lib/leveldb/db/skiplist.h:361-366 | At the store that publishes a node on a level, that level gains it in order and each level stays a sorted sublist of the one below. |
| SkipList.StepKeeps | lib/leveldb/db/skiplist.h:258-367 | Every single load and store of the writer and of any number of readers keeps the invariant. |
| SkipList.FinishIsRight | lib/leveldb/db/skiplist.h:258-317 | A walk that ends returns the right answer (first at or after, last before, or last) for the level-0 list as of its last load, wherever the writer is. |
| SkipList.RunGrows | lib/leveldb/db/skiplist.h:334-367 | Along every run keys once in a list stay in it. |
| SkipList.SeekSeesEarlierInserts | lib/leveldb/db/skiplist.h:258-278 | In every interleaving a seek never passes over a key that was in the list when it started. |
| SkipList.List.WalkLevel | lib/leveldb/db/skiplist.h:258-278 | One level of the search stops at the last node before the goal. |
| SkipList.List.Walk | lib/leveldb/db/skiplist.h:258-317 | The three searches as one walk: where it stops on level 0 and the predecessor on every level. |
| SkipList.List.Seek | lib/leveldb/db/skiplist.h:222-225 | The first node at or after the key. |
| SkipList.List.Prev | lib/leveldb/db/skiplist.h:211-219 | The last node before the current one. |
| SkipList.List.FindLast | lib/leveldb/db/skiplist.h:301-317 | The last node, or none. |
| SkipList.List.Contains | lib/leveldb/db/skiplist.h:370-377 | True if and only if the key is in the set. |
| SkipList.List.LinkLevel | lib/leveldb/db/skiplist.h:361-366 | One level of linking: own pointer, then the predecessor's. |
| SkipList.List.Insert | lib/leveldb/db/skiplist.h:334-367 | The key set grows by exactly the key, whatever height was drawn. |
| Coding.FixedRoundTrip | lib/leveldb/util/coding.cc:9-33 | Little-endian integers of any width decode to themselves. |
| Coding.FixedAt | lib/leveldb/util/coding.cc:9-33 | Byte i of a fixed-width integer is the i-th least significant one. |
| Coding.IntegerBytes | lib/leveldb/util/coding.cc:9-100 | Concrete bytes of a fixed-width integer, two varints and a length-prefixed string. |
| Coding.VarintRoundTrip | lib/leveldb/util/coding.cc:81-90 | A varint followed by anything decodes to its value and what follows, within the byte limit. |
| Coding.GetVarintIff | lib/leveldb/util/coding.cc:112-129 | A varint is found if and only if one of the bytes it may take ends it. |
| Coding.Varint32RoundTrip | lib/leveldb/util/coding.cc:112-141 | For every 32-bit value, with the five-byte limit and truncation to a word. |
| Coding.Varint64RoundTrip | lib/leveldb/util/coding.cc:143-170 | For every 64-bit value, with the ten-byte limit. |
| Coding.LengthPrefixedRoundTrip | lib/leveldb/util/coding.cc:98-101 | A length-prefixed slice followed by anything comes back with what follows. |
| Coding.EncodeVarint32 | lib/leveldb/util/coding.cc:47-73 | The five spelled-out cases are the general encoding. |
| Coding.EncodeVarint64 | lib/leveldb/util/coding.cc:81-90 | The shifting loop is the general encoding. |
| Coding.VarintLength | lib/leveldb/util/coding.cc:103-110 | The length of the encoding. |
| Coding.GetVarintPtr | lib/leveldb/util/coding.cc:112-158 | The shift-and-accumulate loop is the general decoding, for any limit and any input. |
| Layout.InsideIsLargest | lib/leveldb/db/log_reader.cc:59-162 | The number of items wholly within n bytes is the largest whose bytes fit in n. |
| LogFormat.UnmaskMask | lib/leveldb/util/crc32c.h:31-40 | Unmasking a masked checksum gives the checksum, for every 32-bit word. |
| LogFormat.MaskedWords | lib/leveldb/util/crc32c.h:24-34 | Concrete masked words. |
| LogFormat.CutFits | lib/leveldb/db/log_writer.cc:37-65 | Each fragment fits its block after padding; an empty one for non-empty data is followed by one that makes progress. |
| LogFormat.SplitJoins | lib/leveldb/db/log_writer.cc:27-73 | A record's fragments join to the record, each fits its block, and their types say where it starts and ends. |
| LogFormat.SplitFills | lib/leveldb/db/log_writer.cc:27-73 | A record is cut only where a block ends. |
| LogFormat.FragmentBytes | lib/leveldb/db/log_writer.cc:75-100 | The bytes of a fragment of each of the four types: checksum over type and data, length, type, data. |
| LogFormat.Writer.FillTrailer | lib/leveldb/db/log_writer.cc:37-47 | A block with no room for a header is zero-filled. |
| LogFormat.Writer.EmitPhysicalRecord | lib/leveldb/db/log_writer.cc:75-100 | One header and payload is appended and the block offset follows. |
| LogFormat.Writer.AddRecord | lib/leveldb/db/log_writer.cc:27-73 | The loop appends exactly the image of the record at its position; an empty record gets one fragment. |
| LogReader.ParseWhole | lib/leveldb/db/log_reader.cc:207-255 | A whole fragment is read back as written. |
| LogReader.ParseBroken | lib/leveldb/db/log_reader.cc:207-218 | A fragment cut short is bad. |
| LogReader.ParseChecks | lib/leveldb/db/log_reader.cc:207-255 | On any bytes: what is not bad has its length and type there and a checksum that matches type and data. |
| LogReader.Reader.Refill | lib/leveldb/db/log_reader.cc:181-205 | A header's worth of bytes: a shorter rest is a trailer to skip or the end of the file. |
| LogReader.Reader.ReadPhysicalRecord | lib/leveldb/db/log_reader.cc:179-256 | A whole fragment comes back as written, with padding skipped; where none is left the result is bad or the end; and on any file what comes back otherwise is in the file, with a checksum that matches. |
| LogReader.HandleFragment | lib/leveldb/db/log_reader.cc:80-158 | What each fragment type does to the record being gathered, and what is reported: bytes cut off, a fragment out of turn, an error in the middle, an unknown type. |
| LogReader.Reader.ReadRecord | lib/leveldb/db/log_reader.cc:59-162 | A record wholly in the file comes back, however it was cut, with nothing reported; one that is cut off does not. On any file: a record that comes back is made of fragments in turn, one behind the other in the file, each with a checksum that matches; and each fragment out of turn, cut-off record and error in the middle is reported with its bytes. |
| LogReader.ReadAll | lib/leveldb/db/log_reader.cc:59-162 | Whatever prefix of a written log the file is, the records returned are exactly those wholly inside it. |
| LogReader.ReadAnyFile | lib/leveldb/db/log_reader.cc:59-256 | Reading any file at all: all records returned are made of such fragments, and no two share a byte. |
| LogReader.WriteThenRead | lib/leveldb/db/log_writer.cc:27-100 | Round trip with the stored, masked checksums, for any checksum function and every list of records of any length, with any run of zero bytes after the file. |
| LogReader.WriteThenReadPrefix | lib/leveldb/db/log_reader.cc:59-256 | Cutting the file anywhere loses exactly the records that reach past the cut. |
| LogReader.WriteThenReadDamaged | lib/leveldb/db/log_reader.cc:59-256 | For a log cut anywhere and followed by any bytes at all, zeros among them: the records inside the cut still come first. |
| WriteBatch.OpRoundTrip | lib/leveldb/db/write_batch.cc:98-109 | One encoded operation followed by anything decodes to itself and what follows. |
| WriteBatch.Iterate | lib/leveldb/db/write_batch.cc:42-80 | On any bytes: the handler is told the operations up to the first bad one, and the result names what is wrong (too short, a bad record, an unknown tag, a wrong count) or is fine. |
| WriteBatch.Refusals | lib/leveldb/db/write_batch.cc:42-80 | A batch is refused when it is shorter than its header, when something after its operations is none, and when they are not as many as it says, each with its own message. |
| WriteBatch.RecordBytes | lib/leveldb/db/write_batch.cc:5-15 | A whole batch byte by byte: sequence, count, a put and a deletion. |
| WriteBatch.BuiltIsFine | lib/leveldb/db/write_batch.cc:82-109 | The bytes of any operations with their count are fine and give exactly those, in order. |
| WriteBatch.Batch.Add | lib/leveldb/db/write_batch.cc:98-109 | Put and Delete: the count is patched in place and one record appended; the batch holds one more operation. |
| WriteBatch.Batch.Append | lib/leveldb/db/write_batch.cc:141-145 | The other batch's operations follow, the counts add up. |
| WriteBatch.Batch.SetSequence | lib/leveldb/db/write_batch.cc:94-96 | Only the sequence changes. |
| WriteBatch.Batch.Contents | lib/leveldb/db/write_batch.cc:42-96 | Round trip: what was built by any Puts, Deletes and Appends reads back with its sequence. |
| WriteBatch.Batch.InsertInto | lib/leveldb/db/write_batch.cc:112-134 | Operation i gets the batch's sequence plus i. |
| VersionEdit.FieldUndoes | lib/leveldb/db/version_edit.cc:88-190 | Each tagged field followed by anything decodes to itself and what follows. |
| VersionEdit.AcceptFields | lib/leveldb/db/version_edit.cc:26-39 | Taking in all fields of an edit gives the edit, after any compaction pointers that clearing left there. |
| VersionEdit.InsertPairIs | lib/leveldb/db/version_edit.h:74-87 | The set of deleted files gains exactly the pair and stays in order. |
| VersionEdit.FieldBytes | lib/leveldb/db/version_edit.cc:14-86 | Every kind of field byte by byte. |
| VersionEdit.FieldOrder | lib/leveldb/db/version_edit.cc:41-86 | The order in which an edit writes its fields. |
| VersionEdit.ParsedBad | lib/leveldb/db/version_edit.cc:109-210 | Any fields followed by bytes that are none: an error. |
| VersionEdit.CutFields | lib/leveldb/db/version_edit.cc:109-210 | The messages for single fields that end after their tag. |
| VersionEdit.CutListFields | lib/leveldb/db/version_edit.cc:109-210 | The messages for list fields that end after their tag, for an unknown tag and for an invalid one. |
| VersionEdit.ParsedSane | lib/leveldb/db/version_edit.cc:98-107 | Whatever bytes decode, decode to levels below seven and deletions in order. |
| VersionEdit.EncodeTo | lib/leveldb/db/version_edit.cc:41-86 | The set fields, then pointers, deletions and additions, appended to the buffer. |
| VersionEdit.DecodeFrom | lib/leveldb/db/version_edit.cc:109-210 | On any bytes: each field in turn goes into the edit, up to one that does not parse, which is the error; what decodes has good levels. Round trip: decoding an encoded edit gives it back; exactly the compaction pointers already there stay in front, so into a fresh edit it is equal. |
| Block.FastIsSlow | lib/leveldb/table/block.cc:52-73 | The one-byte fast path agrees with the three varints. |
| Block.HeadRoundTrip | lib/leveldb/table/block.cc:52-73 | An encoded entry head decodes to its three lengths. |
| Block.Iter.ParseNextKey | lib/leveldb/table/block.cc:225-252 | On any bytes: past the last entry the cursor is invalid; an entry that does not decode or shares more than the last key has makes the block corrupt; any other is read as it stands. On a built block the next entry is read whole and never found corrupt. |
| Block.Iter.TakeEntry | lib/leveldb/table/block.cc:225-252 | On any bytes: corrupt if and only if the head does not decode or shares more than the last key has; otherwise the key is rebuilt from the shared prefix. |
| Block.Iter.Next | lib/leveldb/table/block.cc:138-141 | One entry further. |
| Block.Iter.Prev | lib/leveldb/table/block.cc:143-162 | One entry back, from every entry however it was reached; from the first, to the end. |
| Block.Iter.SeekToFirst | lib/leveldb/table/block.cc:204-207 | On the first entry. |
| Block.Iter.SeekToLast | lib/leveldb/table/block.cc:209-214 | On the last entry. |
| Block.Iter.FindRestart | lib/leveldb/table/block.cc:164-190 | The binary search over restart points ends at one from which walking forward reaches the target. |
| Block.Iter.Seek | lib/leveldb/table/block.cc:164-202 | On the first entry whose key is at or after the target. |
| BlockBuilder.BlockBuilder.SharedPrefix | lib/leveldb/table/block_builder.cc:80-84 | The longest common prefix with the last key. |
| BlockBuilder.BlockBuilder.Add | lib/leveldb/table/block_builder.cc:73-107 | The block gains exactly the bytes of this entry, which leaves out the longest prefix its key shares with the last one, or nothing at a restart point; and a restart point if and only if the interval is up. |
| BlockBuilder.BlockBuilder.Finish | lib/leveldb/table/block_builder.cc:63-71 | The entries, the restart array and its length; every cursor reads them as exactly the entries added, with a restart point at every multiple of the interval. |
| BlockBuilder.CellBytes | lib/leveldb/table/block_builder.cc:86-103 | An entry byte by byte. |
| BlockBuilder.Open | lib/leveldb/table/block.cc:23-37 | Where the restart array starts, or that the contents cannot be a block. |
| BlockBuilder.BuildThenScan | lib/leveldb/table/block_builder.cc:63-107 | Round trip through the real entry decoder: any entries that stay below 2^32 bytes, with any restart interval of at least 1, come back. |
| BlockBuilder.SeekIn | lib/leveldb/table/block.cc:164-204 | In the bytes of any block whose keys ascend, under any transitive order: the first entry not before the target, or none. |
| Cursors.RankSplits | lib/leveldb/table/merger.cc:51-57 | The keys below a cut are exactly a prefix of a sorted list. |
| Cursors.OnePlace | lib/leveldb/table/merger.cc:31-33 | A cut and a direction leave one place to stand, so the contracts below determine every position. |
| Cursors.PlaceIsIndex | lib/leveldb/table/merger.cc:31-57 | Standing on the least key past a cut, or on the greatest before it, is standing at one index of the sorted list, and the other way round: an iterator that keeps its contract is a cursor over one list, so iterators may be stacked. |
| Merging.FindSmallest | lib/leveldb/table/merger.cc:155-168 | The child with the smallest key, the first of equals, or none. |
| Merging.FindLargest | lib/leveldb/table/merger.cc:170-183 | The child with the largest key, the last of equals, or none. |
| Merging.SmallestIsLeast | lib/leveldb/table/merger.cc:155-168 | With all children ahead of a cut, that key is the least of the union past it. |
| Merging.LargestIsGreatest | lib/leveldb/table/merger.cc:170-183 | With all children behind a cut, that key is the greatest of the union before it. |
| Merging.MergingIterator.SeekToFirst | lib/leveldb/table/merger.cc:35-41 | On the least key of the union. |
| Merging.MergingIterator.SeekToLast | lib/leveldb/table/merger.cc:43-49 | On the greatest key of the union. |
| Merging.MergingIterator.Seek | lib/leveldb/table/merger.cc:51-57 | On the least key at or after the target. |
| Merging.MergingIterator.TurnForward | lib/leveldb/table/merger.cc:68-79 | Every other child is put just past the current key. |
| Merging.MergingIterator.TurnBack | lib/leveldb/table/merger.cc:94-107 | Every other child is put just before the current key. |
| Merging.MergingIterator.Next | lib/leveldb/table/merger.cc:59-83 | On the least key of the union after the current one, whichever way it was moving. |
| Merging.MergingIterator.Prev | lib/leveldb/table/merger.cc:85-112 | On the greatest key of the union before the current one, whichever way it was moving. |
| Merging.ListAll | lib/leveldb/table/merger.cc:31-83 | From SeekToFirst to the end, the iterator lists exactly the keys of all children, each once, in order. |
| TwoLevel.TwoLevelIterator.InitDataBlock | lib/leveldb/table/two_level_iterator.cc:156-170 | The block the index stands on is open; an open one is not opened again. |
| TwoLevel.TwoLevelIterator.SkipEmptyDataBlocksForward | lib/leveldb/table/two_level_iterator.cc:125-136 | Ends, on the least key of the table past the cut, however many blocks are empty. |
| TwoLevel.TwoLevelIterator.SkipEmptyDataBlocksBackward | lib/leveldb/table/two_level_iterator.cc:138-149 | Ends, on the greatest key before the cut. |
| TwoLevel.TwoLevelIterator.Seek | lib/leveldb/table/two_level_iterator.cc:91-96 | On the least key of the concatenation at or after the target. |
| TwoLevel.TwoLevelIterator.SeekToFirst | lib/leveldb/table/two_level_iterator.cc:98-103 | On its least key. |
| TwoLevel.TwoLevelIterator.SeekToLast | lib/leveldb/table/two_level_iterator.cc:105-110 | On its greatest key. |
| TwoLevel.TwoLevelIterator.Next | lib/leveldb/table/two_level_iterator.cc:112-116 | On the least key after the current one. |
| TwoLevel.TwoLevelIterator.Prev | lib/leveldb/table/two_level_iterator.cc:118-122 | On the greatest key before the current one. |
| DbIterator.LiveIsFound | lib/leveldb/db/db_iter.cc:155-185 | An entry the iterator calls live is what a read of its key at the sequence finds. |
| DbIterator.FoundIsLive | lib/leveldb/db/db_iter.cc:155-185 | And every value a read finds belongs to a live entry. |
| DbIterator.FindNextUserEntry | lib/leveldb/db/db_iter.cc:155-185 | The next live entry not hidden by the key being skipped, or none. |
| DbIterator.FindPrevUserEntry | lib/leveldb/db/db_iter.cc:214-254 | The last live entry at or before the position, saved, with the cursor left before its key. |
| DbIterator.DBIter.Current | lib/leveldb/db/db_iter.cc:63-70 | Key and value are those of the live entry stood on, in both directions. |
| DbIterator.DBIter.SeekToFirst | lib/leveldb/db/db_iter.cc:270-279 | On the least live key. |
| DbIterator.DBIter.Seek | lib/leveldb/db/db_iter.cc:256-268 | On the least live key at or after the target. |
| DbIterator.DBIter.SeekToLast | lib/leveldb/db/db_iter.cc:281-286 | On the greatest live key. |
| DbIterator.DBIter.Next | lib/leveldb/db/db_iter.cc:129-153 | If the entry it resumes from belongs to the current key, on the least live key after it; if not, it stays where it is. The two cases are exhaustive. |
| DbIterator.DBIter.Prev | lib/leveldb/db/db_iter.cc:187-212 | On the greatest live key before the current one, whichever way it was moving. |
| DbIterator.OnlyHiddenEntriesBlock | lib/leveldb/db/db_iter.cc:129-153 | The second case needs an entry newer than the iterator's sequence, so with every entry visible Next and Prev move as one cursor. |
| DbIterator.StuckExample | lib/leveldb/db/db_iter.cc:129-153 | Concrete: over three entries SeekToLast stands on the last live key, and Next, which should pass the end, stays on it. |
| Scanning.Scan | lib/leveldb/db/db_iter.cc:129-185 | SeekToFirst and Next to the end give exactly the rows of the live entries, by rising key. |
| Scanning.ScanBack | lib/leveldb/db/db_iter.cc:187-254 | SeekToLast and Prev to the front give exactly the same rows, by falling key. |
| Scanning.ScanState | lib/leveldb/db/db_impl.cc:1022-1132 | In every reachable state, a scan in either direction of everything the memtables and tables hold, at the last sequence or at a held snapshot, returns exactly the keys the history holds there, each once, with its newest value. |
| Separators.LexTotal | lib/leveldb/util/comparator.cc:25-27 | The bytewise order is total. |
| Separators.SeparatorBetween | lib/leveldb/util/comparator.cc:29-51 | A separator is the start, or lies after it and before the limit, and is never longer. |
| Separators.SeparatorCuts | lib/leveldb/util/comparator.cc:29-51 | It is the start cut after the first difference and one more there, exactly when that is below the limit's byte; in all other cases it is the start. |
| Separators.FindShortestSeparator | lib/leveldb/util/comparator.cc:29-51 | The loop gives that separator: cut after the first difference and raised there when that stays below the limit. |
| Separators.SuccessorAfter | lib/leveldb/util/comparator.cc:53-65 | A successor is at or after the key and never longer, and is the key if and only if all its bytes are 0xff. |
| Separators.SuccessorCuts | lib/leveldb/util/comparator.cc:53-65 | It is the key cut after its first byte below 0xff and one more there. |
| Separators.FindShortSuccessor | lib/leveldb/util/comparator.cc:53-65 | The loop gives that successor. |
| Separators.LessOrder | lib/leveldb/db/dbformat.cc:50-66 | Internal keys by user key and then falling tag are a strict total order. |
| Separators.SeparatorEnds | lib/leveldb/db/dbformat.cc:68-85 | The internal separator is the start, or is shorter, past all entries of its user key and before the limit's. |
| Separators.ShortenedKeys | lib/leveldb/db/dbformat.cc:66-99 | An internal key is shortened exactly when the user key gets shorter, and then carries the tag that sorts first. |
| Separators.ShortestSeparator | lib/leveldb/db/dbformat.cc:68-85 | The code computes that separator. |
| Separators.SuccessorEnds | lib/leveldb/db/dbformat.cc:87-99 | The internal successor is the key, or is shorter and past all entries of its user key. |
| Separators.ShortSuccessor | lib/leveldb/db/dbformat.cc:87-99 | The code computes that successor. |
| Bloom.SetBitBits | lib/leveldb/util/bloom.cc:50-60 | Setting a bit sets it and no other. |
| Bloom.FilterBits | lib/leveldb/util/bloom.cc:35-61 | In the finished filter the probe bits of every key are set, and no other bit is. |
| Bloom.CreateFilter | lib/leveldb/util/bloom.cc:35-61 | The loop sets, in the documented size, the probe bits of each key in turn and appends the probe count. |
| Bloom.KeyMayMatch | lib/leveldb/util/bloom.cc:63-85 | True if and only if all probe bits are set, or the probe count is a reserved one; false for a filter too short. |
| Bloom.MatchesIff | lib/leveldb/util/bloom.cc:35-85 | A filter lets a key through if and only if each of its probes falls on a probe of some key the filter was made from. |
| Bloom.ProbeIs | lib/leveldb/util/bloom.cc:50-60 | Probe j is the hash plus j times its rotation, in 32 bits. |
| Bloom.DeltaIs | lib/leveldb/util/bloom.cc:53 | The rotation moves the low 17 bits to the top. |
| Bloom.MadeFromMatches | lib/leveldb/util/bloom.cc:35-85 | No false negatives: every key a filter was made from may match it, for any hash. |
| Bloom.CreateThenMatch | lib/leveldb/util/bloom.cc:35-85 | So creating and then asking says yes. |
| FilterBlock.FilterBlockBuilder.GenerateFilter | lib/leveldb/table/filter_block.cc:52-76 | The pending keys, sliced back from the flat buffer, become the next filter. |
| FilterBlock.FilterBlockBuilder.StartBlock | lib/leveldb/table/filter_block.cc:22-28 | One filter per 2KB of file offset so far: the pending keys make the next one, and ranges without a block get empty ones; whatever was covered stays covered. |
| FilterBlock.FilterBlockBuilder.Finish | lib/leveldb/table/filter_block.cc:36-50 | A last filter if and only if keys are pending; then filters, offsets, the start of the offsets and the base, in that order; every covered key is in its filter. |
| FilterBlock.AsksTheFilter | lib/leveldb/table/filter_block.cc:78-109 | Reading the finished bytes asks the policy about exactly the filter of the block's 2KB range, and past the last range denies nothing. |
| FilterBlock.CoveredMayMatch | lib/leveldb/table/filter_block.cc:78-109 | Reading the finished bytes never denies a key its block offset's filter covers. |
| FilterBlock.SizeBound | lib/leveldb/table/filter_block.cc:52-76 | With a bound on a filter's bytes per key, all filters together are bounded by the number of keys. |
| TableFile.IndexFindsIt | lib/leveldb/table/table.cc:216-249 | The index seek finds exactly the block of the newest match, despite shortened separators and blocks that split a user key. |
| TableFile.InternalGet | lib/leveldb/table/table.cc:216-249 | A row of the user key comes back if and only if the table holds one the lookup may see, and then the newest such. Exactly one block is looked at, and only if its filter does not deny the key; what comes back is its first row at or after the key. |
| TableFile.AddShape | lib/leveldb/table/table_builder.cc:92-121 | The index entry written once the next key is known separates the blocks. |
| TableFile.TableBuilder.Add | lib/leveldb/table/table_builder.cc:92-121 | The table gains exactly the row; a pending index entry gets the separator; and the block is closed if and only if its estimate reaches the block size. |
| TableFile.TableBuilder.Flush | lib/leveldb/table/table_builder.cc:123-137 | The open rows become the next block at the current offset, which moves past it and its trailer; no row is lost. |
| TableFile.TableBuilder.Finish | lib/leveldb/table/table_builder.cc:199-254 | A well-formed table of exactly the rows added, with the successor of the last key at the end of the index; with a policy without false negatives its filter denies none of them. |
| TableLookup.InternalKeysSeparate | lib/leveldb/db/dbformat.cc:50-99 | The internal key comparator over bytewise user keys meets all that the table asks of separators and successors. |
| TableLookup.BloomDeniesNone | lib/leveldb/util/bloom.cc:16-86 | The Bloom policy has no false negatives. |
| TableLookup.BuildThenGet | lib/leveldb/table/table.cc:216-249 | With the real comparator and filter, over blocks as lists of rows: whatever rows go in, in key order, however they are cut into blocks, a lookup returns the newest row of its user key it may see, or none exactly when there is none. Filters below 2^32 bytes are asked for, and guaranteed for fewer than 2^32 / (bits per key + 10) rows. |
| TableBytes.KeyRoundTrip | lib/leveldb/db/dbformat.cc:12-21 | A stored internal key is its user key and tag again. |
| TableBytes.HandleRoundTrip | lib/leveldb/table/format.cc:15-31 | A block handle is its offset and size again. |
| TableBytes.KeyBytes | lib/leveldb/db/dbformat.cc:12-21 | A stored key and a handle byte by byte. |
| TableBytes.IndexRises | lib/leveldb/table/table_builder.cc:100-107 | The keys of the index, shortened or not, strictly ascend. |
| TableBytes.WriteImage | lib/leveldb/table/table_builder.cc:94-195 | Every data block of a table, and its index with a restart point at each entry, as bytes that read as exactly its rows and its handles; it fails only for a block of 2^32 bytes or more. |
| TableBytes.FindBlock | lib/leveldb/table/table.cc:220-224 | Seeking in the bytes of the index finds the handle of the first block whose index key is not before the target. |
| TableBytes.SeekBlock | lib/leveldb/table/table.cc:232-238 | Seeking in the bytes of a data block finds its first row not before the target. |
| TableBytes.Get | lib/leveldb/table/table.cc:216-249 | InternalGet on the bytes of a table gives what the table holds: the newest row the lookup may see, whenever there is one, from the one block the index names, and only if its filter does not deny the key. |
| TableBytes.BuildWriteGet | lib/leveldb/table/table.cc:216-249 | Whole path over bytes: rows in key order, built into a table, its blocks written with any restart interval, and a lookup through index, filter and block bytes returns the newest row of its user key it may see, or none exactly when there is none. |
| HandleTable.FindPointer | lib/leveldb/util/cache.cc:98-105 | Where a key is in its chain, or the end. |
| HandleTable.Table.Lookup | lib/leveldb/util/cache.cc:58-60 | What the map holds. |
| HandleTable.Table.Insert | lib/leveldb/util/cache.cc:62-76 | The map with the key updated; the entry it replaces is returned; there are never more entries than buckets. |
| HandleTable.Table.Remove | lib/leveldb/util/cache.cc:78-86 | The map without the key; the entry removed is returned. |
| HandleTable.Table.Resize | lib/leveldb/util/cache.cc:107-132 | The map stays; the number of buckets is a power of two, at least the entries, and less than twice as many or four. |
| HandleTable.Rehash | lib/leveldb/util/cache.cc:112-128 | Every entry moves once to the bucket of its hash. |
| LruCache.UnrefBooks | lib/leveldb/util/cache.cc:189-197 | Dropping a reference keeps the books; the last one frees the entry, its charge and runs its deleter once. |
| LruCache.Shard.Unref | lib/leveldb/util/cache.cc:189-197 | The deleter runs if and only if this was the last reference; every other handle stays good. |
| LruCache.Shard.Lookup | lib/leveldb/util/cache.cc:212-221 | What the table holds, with one more handle on it; its entry moves to the newest end and all others keep their order; a miss changes nothing. |
| LruCache.Shard.Release | lib/leveldb/util/cache.cc:223-226 | One handle fewer on this entry and none on others; its deleter runs if and only if this was the last reference, and every handle still held stays good. |
| LruCache.Shard.Erase | lib/leveldb/util/cache.cc:261-268 | Exactly the entry of this key leaves list and table; every handle clients hold stays good. |
| LruCache.UsageIsWeight | lib/leveldb/util/cache.cc:189-259 | The usage is the sum of the charges of all entries ever made that are cached or held. |
| LruCache.Shard.Shrink | lib/leveldb/util/cache.cc:250-255 | Entries leave oldest first, each only while what is cached or held weighs more than the capacity, and no more than that takes. |
| LruCache.Shard.Insert | lib/leveldb/util/cache.cc:228-259 | The entry takes the place of one with its key, and the caller has the only handle on it; then exactly as many of the oldest leave as Shrink says. Every handle clients hold stays good. Table and list hold the same entries, counts are cache plus handles, each deleter runs at most once. |
| LruCache.Run | lib/leveldb/util/cache.cc:130-268 | Any calls on a new shard by clients that release only handles they have: every call does and answers exactly what a cache by age with that capacity should; each reference count is the handles held plus one if cached, usage is the charge of the entries cached or held, the deleter of each entry inserted has run exactly once if and only if it is neither, and a hit is the value of the latest insertion of its key not erased since. |
| LruCache.FreshHits | lib/leveldb/util/cache.cc:212-259 | After an insertion, as long as every insertion finds room and the key is neither inserted again nor erased, a lookup hits with its value. |
| LruCache.HoldingsSettle | lib/leveldb/util/cache.cc:189-226 | Balanced books and known handles settle every entry so. |
| DentryCache.MapFitsList | fs/dcache.cpp:31-41 | The map never has more keys than the list has nodes, stale ones included. |
| DentryCache.DentryCache.Deref | fs/dcache.cpp:22-27 | A pointer of the map never dangles: it leads to a node of its key with the key's latest value. |
| DentryCache.DentryCache.Find | fs/dcache.cpp:16-29 | A miss, which changes nothing, if and only if the map has no such key; otherwise the value of the latest Insert not followed by an Evict, and its node, and no other, moves to the front. |
| DentryCache.DentryCache.Insert | fs/dcache.cpp:31-41 | The key leads to the new node at the front; past the maximum exactly the oldest node goes, and with it its key, even if that led to a newer node. |
| DentryCache.DentryCache.Evict | fs/dcache.cpp:43-50 | The key is forgotten and its node stays behind. |
| DentryCache.Perform | fs/dcache.cpp:16-50 | What each call does to the nodes by age and to the pointers, and what it answers, exactly. |
| DentryCache.Run | fs/dcache.cpp:16-50 | Any calls on a new cache: every hit is the value of the latest insertion of its key not evicted since. |
| DentryCache.StaleNodeExample | fs/dcache.cpp:31-41 | Concrete: with room for two nodes a key inserted twice is missed after one more insertion, though its newest node is there. |
| InodeFile.OverwriteAt | fs/tablefs.cpp:89-95 | Byte by byte: the buffer where it goes, the old bytes elsewhere, zeros in a hole. |
| InodeFile.WrittenIs | fs/tablefs.cpp:667-728 | The same of a write, which is empty or not. |
| InodeFile.ReadAfterWrite | fs/tablefs.cpp:667-728 | What was written is what is read there, and no other byte changes. |
| InodeFile.HoldsOne | fs/tablefs.cpp:171-186 | An inode value and disk file stand for one name and one content only. |
| InodeFile.WriteHolds | fs/tablefs.cpp:686-721 | After a write the representation holds what a plain byte sequence would if and only if the write was not an empty one past the end. |
| InodeFile.EmptyWriteLeaves | fs/tablefs.cpp:686-721 | What an empty write past the end leaves: a sound file grown by zeros if and only if the offset is within the threshold; a disk file shorter than its inode says, which holds nothing, if and only if it is past it. |
| InodeFile.EmptyWriteGrows | fs/tablefs.cpp:711-719 | Concrete: an empty write at offset 1 of a new file makes it a sound file of one zero byte, where it should stay empty. |
| InodeFile.EmptyWriteBreaks | fs/tablefs.cpp:686-719 | Concrete: an empty write at offset 5000 of a new file leaves an inode that claims 5000 bytes and an empty disk file. |
| InodeFile.DataFile.constructor | fs/tablefs.cpp:171-186 | A new file is empty, inline, under its name. |
| InodeFile.DataFile.MigrateToDiskFile | fs/tablefs.cpp:558-579 | Exactly the contents move to the disk file and nothing stays inline. |
| InodeFile.DataFile.Read | fs/tablefs.cpp:641-665 | Nothing at or past the end; otherwise as many bytes as asked for or as there are, and each of them the one in its place, from either form. |
| InodeFile.DataFile.Write | fs/tablefs.cpp:667-728 | The plain result byte by byte, across migration, with has_blob and a disk file if and only if the size is past the threshold, if and only if the write is not an empty one past the end; that one leaves a file grown by zeros up to the threshold and a broken one past it. |
| InodeFile.DataFile.Truncate | fs/tablefs.cpp:792-849 | Byte by byte cut or grown by zeros, in all four combinations of form before and after; the disk file exists if and only if the size is past the threshold. |
| InodeFile.DataFile.Rename | fs/tablefs.cpp:188-218 | The name changes, to any length, and the contents do not. |
| InodeFile.DataFile.Unlink | fs/tablefs.cpp:902-930 | The disk file is removed if and only if there is one. |
| InodeFile.DataFile.Perform | fs/tablefs.cpp:641-849 | Any run of reads, writes, truncates and renames answers as a plain byte sequence would. |

## Left out

- Manual CompactRange: it cuts its input list by size even at level 0, so its inputs are not closed.
- Compaction scores, seek statistics, approximate sizes and compaction counters: when to compact is a parameter.
- MakeRoomForWrite and CompactMemTable as loops with waits: they appear as the Switch, LogFlush and Install steps.
- DeleteObsoleteFiles for table files and manifests: logs it may delete are the DropLogs step.
- The memtable's arena encoding of entries: its list is proved over abstract keys.
- A previous log number other than zero at recovery: this version of the engine always writes zero, which no log has.
- repair.cc: it puts every table at level 0, where file numbers no longer order recency.
- Compaction pointers inside Builder::Apply and WriteSnapshot: they only steer which file is picked next.
- Compression and block trailers in TableBuilder::WriteBlock, and the footer: the blocks of a table are kept by their
  offsets, not laid into one file.
- LogReader.Reader.ReadPhysicalRecord: does not model its own reports (bad lengths and checksums), which only tell the
  log's owner about bytes that the contract already says are skipped.
- Skipping to an initial offset in the log reader, and the paranoid-checks option.
- Merging.MergingIterator.Next: children that hold one key twice are not modelled, nor by the other moves; the keys
  are internal keys, and no two entries of the engine have the same sequence number.
- The iterator stack as one object: each iterator is proved over the sorted lists its children stand for, which
  `Cursors.PlaceIsIndex` justifies, and DBIter over the sorted entries that `Merging.ListAll` and its like give.
- Some errors of the environment in the engine's runs: a failed log append or sync is a step, a failed compaction is
  the Abandon step, and a recovery that fails is one that crashed. A failed append that leaves part of a record, a
  manifest record left behind and a batch inserted by half are not steps; the last two are treated in ManifestLog and
  GroupCommit.
- Links between cells in the hash table's chains and the cache's LRU list: they are sequences, so what the pointer
  updates of FindPointer, Resize, LRU_Remove and LRU_Append do to the cells is not modelled. The snapshot list is
  linked, and the skip list is modelled store by store.
- env_posix, mmap files, and ordering of unsynced writes across files.
- FUSE glue, path lookup, directories, permissions, inode cache with several handles, rename onto an existing name,
  the other key-value adaptors, benchmarks and monitors.
- Descriptors held open across a Truncate, opening with O_TRUNC, and failing disk operations of TableFS.
- The base-level and file-size limits of MaxBytesForLevel as floating point.
- Block.Iter.TakeEntry: the sum of the two lengths of an entry is not reduced modulo 2^32 as the code's is, which
  differs only on bytes that no builder writes.
