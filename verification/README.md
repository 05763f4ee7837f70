# LevelDB, modelled and proved

The application under `gbc-Project` ships LevelDB, a log-structured key-value store. This project
models the parts of it that decide which value a read returns, and proves them correct: the tree of
memtables and table files, the iterators over it, the bytes of tables, logs and MANIFEST and the
recovery from them, the skip list, the writer queue and the cache.

The specification of a read is the write history: the list of everything ever written, scanned from
the newest entry back. The main results say that the database always answers from it.

* **Reads.** `Runs.RunKeepsInv` keeps one invariant over every run of writes, memtable switches,
  flushes, trivial moves, compactions and snapshots. Under it `DbImpl.DBImpl.Get`, with all its early
  exits, returns the value of the history. `Scans.NewIterator` opens the user's iterator over the live
  merging iterator: moved in any way, forward and backward, its rows are exactly the map the history
  defines.
* **Compaction.** `LsmReads.CompactionPreservesReads` says exactly when dropping shadowed entries and
  deletion markers keeps every read. The code does not always meet the condition: only the first
  input of a compaction is extended to whole user keys, the second (`db/version_set.cc:1410`) is not,
  and `Resurrection.DeletedValueReturns` is a run and a compaction after which a deleted value is
  back: both compactions have two inputs, and the first cuts its output, by size, between a deletion
  and the value it deletes. A check of the chosen second input (`LsmReads.BoundaryClosedIsSafe`) rules
  this out. Which files a compaction takes (`DbImpl.DBImpl.BackgroundCompaction`, `CompactRangeAt`) and
  where its outputs end (`Compaction.DoCompactionWork`) is said exactly; no output overlaps more of the
  grandparents than it may (`DbImpl.OutputsOverlapFew`).
* **Files.** Input selection and the version builder give exactly the file lists of the running
  database, and `Manifests.RecoverManifest` rebuilds them from the bytes of a MANIFEST cut anywhere,
  which begins as `NewDB` wrote it or with the snapshot record of an opening.
* **Crashes.** Any byte prefix of a log reads back as exactly the records that end inside it
  (`LogReader.ReadLog`), and what the reader makes of any other file is said too
  (`LogReader.Reader.ReadRecord`). `Reopening.Reopen` opens a database that crashed at any point of a run, from a
  MANIFEST and logs each cut at any byte: the version is that of a moment of the run, the log number in
  the MANIFEST asks for exactly the logs of what was in no table then, and `Reopening.GetAfterCrash`
  answers every lookup with the last entry for the key among the tables of that version and the whole
  records of those logs. With MANIFEST and logs whole nothing is lost (`Reopening.NothingLost`); with
  only the last log cut, a prefix is left (`Reopening.PrefixIsLeft`). Sequence numbers may have gaps
  afterwards. What is reopened is again a state from which a run may start, so crashes may follow one
  another.
* **Compactions and crashes.** The theorems on crashes are for runs in which no compaction exposes an
  older value when only the files are looked at. A newer write in memory may hide from readers what a
  compaction exposes, until a crash loses that write; `Runs.NextKeepsRecoverable` says that this is
  exactly the condition, and `Runs.ClosedRunIsDurable` that the check of the second input meets it.
* **Tables.** From the bytes a `TableBuilder` writes, with prefix compression, restart points,
  shortened index keys and Bloom filters, a lookup finds exactly what a search of the entries would
  (`Tables.FindInTable`); no filter and no shortened key ever hides an entry.
* **Iterators.** The merging iterator, the two-level iterator and the database iterator each act as
  a cursor on one sorted sequence, for any mixture of seeks and moves in both directions.
* **Checksums.** The word-at-a-time, four-stride CRC computes the bitwise CRC-32C (`Crc32c.Value`).
* **Cache.** Reference counts, the two lists, the hash table and the charge in use stay consistent
  over every operation, nothing a client holds is freed, nothing is freed twice, and an insertion
  evicts the least recently used handles and no more than needed (`LruCaches.LRUCache.Insert`).
* **Concurrency.** The skip list is well formed after every single pointer store, and a search
  running between the stores skips nothing (`SkipLists.SearchSkipsNothing`). The writer queue logs
  every successful batch once, in order (`GroupCommit.LoggedOnceInOrder`).

How the model is built:

* In the tree, user keys are ranks under the user comparator: any total order on a countable set of
  keys embeds in the real line, so a key is the real number it is sent to. In the modules on bytes,
  keys are byte strings; `Comparators.ByteRank` is the rank of a byte string, and `Tables.TableIsRun`
  and `Reopening.LookupIsOps` join the two. `Comparators.InternalContractOf` is for any user comparator.
* In the tree, table files are their metadata and the sorted entries they hold. Snapshots are the
  sequence numbers they stand for.
* Sizes of files, of what is written once entries are added, the moments when memtables are full, the
  heights of skip-list nodes, hash functions and the outcomes of writes are parameters, so the
  theorems hold for all of them. In logs and tables the checksum is any function of the bytes.
* `State.history` and `State.horizon` exist for the specification only. A run (`Runs.Run`) begins with
  an opening: of a new database, or of any state that a crash and a reopening lead to.
* Where the code updates objects, classes with the same fields do, and each method is tied to a step
  of the state machine or to a function of the old state; what the steps keep is proved as lemmas.

One comment in the source is stronger than what the code keeps: `db/db_iter.cc:44-45` says that in
reverse the inner iterator is just before the entries of the current key. Entries newer than the
snapshot may lie in between, because line 234 steps over them; `DbIter.DBIter.Behind` states what
does hold.

Files: `Keys`, `Files`, `VersionBuilder`, `Inputs`, `Compaction` are the parts of a version and of a
compaction; `Lsm`, `LsmCompaction`, `LsmReads`, `Durability`, `Resurrection`, `Runs` the state machine;
`DbImpl` and `Scans` the database object; `Cursors`, `Merger`, `TwoLevel`, `DbIter` the iterators;
`Sequences`, `Bits`, `Coding`, `LogFormat`, `LogWriter`, `LogReader`, `Batches`, `Recovery` the log;
`VersionEdits` and `Manifests` the MANIFEST; `WriteLogs`, `Replaying` and `Reopening` the opening after
a crash; `Comparators`, `BlockFormat`, `Blocks`, `Filters`,
`TableFormat`, `TableBuilders`, `Tables` the table files; `Crc32c` the checksum; `MemTables` and
`SkipLists` the memtable; `GroupCommit` the writer queue; `HandleTables` and `LruCaches` the cache.

## Model

| member | source | states |
|---|---|---|
| `Keys.LessIsOrder` | gbc-Project/Pods/leveldb-library/db/dbformat.cc:51-67 | internal keys, ordered by user key up and then sequence number and kind down, are strictly totally ordered: trichotomy, asymmetry, transitivity |
| `Keys.FindIsNewest` | gbc-Project/Pods/leveldb-library/db/memtable.cc:100-134 | seeking the lookup key and comparing the user key finds the newest entry visible at the snapshot, or shows there is none |
| `Keys.InsertSorted` | gbc-Project/Pods/leveldb-library/db/memtable.cc:97 | inserting an entry keeps the memtable sorted and adds exactly that entry |
| `MemTables.EntryRoundTrip` | gbc-Project/Pods/leveldb-library/db/memtable.cc:77-96 | the bytes of an entry, whatever follows them in the arena, give back its internal key, user key, sequence number, kind and value |
| `MemTables.Get` | gbc-Project/Pods/leveldb-library/db/memtable.cc:107-132 | the entry the seek stopped at is used exactly when it is for the user key asked, and gives its value, or nothing for a deletion marker |
| `Files.FindFile` | gbc-Project/Pods/leveldb-library/db/version_set.cc:88-106 | the binary search returns the number of files whose largest key is below the key |
| `Files.SomeFileOverlapsRange` | gbc-Project/Pods/leveldb-library/db/version_set.cc:122-156 | true exactly when some file meets the range, by scan or by binary search, absent bounds included |
| `Files.GetFromLevel` | gbc-Project/Pods/leveldb-library/db/version_set.cc:371-383 | on a level above 0, one binary search and one table lookup give the newest visible entry of the whole level, or show there is none |
| `VersionBuilder.InsertFileKeepsOrder` | gbc-Project/Pods/leveldb-library/db/version_set.cc:593-605 | an added file takes its place in the (smallest key, number) order |
| `VersionBuilder.Builder.Apply` | gbc-Project/Pods/leveldb-library/db/version_set.cc:658-691 | the builder goes on to track exactly the files live after one more edit |
| `VersionBuilder.Builder.SaveTo` | gbc-Project/Pods/leveldb-library/db/version_set.cc:698-739 | every level of the result is sorted and holds exactly the live files |
| `VersionBuilder.MergeLevel` | gbc-Project/Pods/leveldb-library/db/version_set.cc:704-724 | the merge of base and added files is sorted and holds the files of both that are not deleted |
| `VersionBuilder.ChainIsLive` | gbc-Project/Pods/leveldb-library/db/version_set.cc:801-884 | one builder per edit, or all edits in one: the live files are the same |
| `VersionBuilder.Replay` | gbc-Project/Pods/leveldb-library/db/version_set.cc:924-948 | replaying edits into one builder gives sorted levels that hold exactly the live files |
| `VersionBuilder.Recover` | gbc-Project/Pods/leveldb-library/db/version_set.cc:924-995 | reading back a snapshot record and the edits after it rebuilds exactly the version that was current |
| `VersionBuilder.SnapshotHasAll` | gbc-Project/Pods/leveldb-library/db/version_set.cc:1088-1116 | the snapshot record lists every file of every level, and nothing else |
| `Inputs.GetOverlappingInputs` | gbc-Project/Pods/leveldb-library/db/version_set.cc:519-559 | returns the files meeting the final range; at level 0 that range is closed under overlap and is the smallest such range around the one asked for, so the restarts end at the least closed set |
| `Inputs.Restart` | gbc-Project/Pods/leveldb-library/db/version_set.cc:544-555 | every restart leaves fewer file ends outside the range, hence termination |
| `Inputs.FindLargestKey` | gbc-Project/Pods/leveldb-library/db/version_set.cc:1326-1340 | the largest of the largest keys, or none for no files |
| `Inputs.FindSmallestBoundaryFile` | gbc-Project/Pods/leveldb-library/db/version_set.cc:1344-1362 | the boundary file with the smallest key, or no boundary file exists |
| `Inputs.AddBoundaryInputs` | gbc-Project/Pods/leveldb-library/db/version_set.cc:1378-1401 | terminates; to the inputs it adds one boundary file after the other, each the one with the smallest key for the largest key so far, until none is left; there is no duplicate and no gap |
| `Inputs.SeedIsClosed` | gbc-Project/Pods/leveldb-library/db/version_set.cc:1369-1373 | inputs without a boundary file left contain every older entry of every user key they contain |
| `Inputs.SetupOtherInputs` | gbc-Project/Pods/leveldb-library/db/version_set.cc:1403-1461 | the first input is the seed with its boundary files; it grows to all files in the range of both inputs, with their boundary files, exactly when there is a second input and these are more files, below the size limit, and meet as many next-level files; the second is exactly the next-level files meeting it; the next compaction of the level will start after the largest key of the first input |
| `Inputs.SameSecondInput` | gbc-Project/Pods/leveldb-library/db/version_set.cc:1430-1443 | growing the first input under an equal count of second inputs leaves the same second inputs |
| `Inputs.TotalAppend` | gbc-Project/Pods/leveldb-library/db/version_set.cc:60-66 | the size of files is the sum of their sizes |
| `Inputs.PickCompaction` | gbc-Project/Pods/leveldb-library/db/version_set.cc:1284-1317 | an automatic compaction starts from the first file after the compaction pointer, or the first of all when none is after it: from it alone or, at level 0, from everything that meets the least closed range around it |
| `Inputs.SeedFromFile` | gbc-Project/Pods/leveldb-library/db/version_set.cc:1300-1317 | a compaction of one file, for its size or for seeks, starts from that file alone or, at level 0, from everything that meets the least closed range around it |
| `Inputs.CompactRange` | gbc-Project/Pods/leveldb-library/db/version_set.cc:1464-1492 | a manual compaction starts from a valid seed exactly when some file meets the range; above level 0 its files all meet the range and are the shortest run of them that reaches the size limit, at level 0 they are the whole least overlap-closed set around the range |
| `Inputs.PickLevelForMemTableOutput` | gbc-Project/Pods/leveldb-library/db/version_set.cc:491-516 | the deepest level up to 2 such that no file of it or above meets the range and no level passed has too many bytes in the range two levels below it; level 0 if a file of level 0 meets the range |
| `Compaction.KeptMeaning` | gbc-Project/Pods/leveldb-library/db/db_impl.cc:929-963 | an entry is dropped exactly when a newer entry of its key is visible at the oldest snapshot, or it is a deletion marker visible there with nothing two or more levels down |
| `Compaction.KeptSorted` | gbc-Project/Pods/leveldb-library/db/db_impl.cc:965-999 | what is written out stays sorted |
| `Compaction.BaseLevelCursor.IsBaseLevelForKey` | gbc-Project/Pods/leveldb-library/db/version_set.cc:1533-1552 | for keys asked in nondecreasing order, the cursors give the answer of a full scan of the deeper levels |
| `Compaction.ShouldDrop` | gbc-Project/Pods/leveldb-library/db/db_impl.cc:941-962 | the test on the remembered sequence number and the cursor is the drop rule |
| `Compaction.DoCompactionWork` | gbc-Project/Pods/leveldb-library/db/db_impl.cc:878-1008 | the output files are well formed, disjoint, numbered upwards and hold exactly the kept entries in order; an output ends as soon as it is as big as outputs may be or the grandparent cursor stops before the next entry, and not before |
| `Compaction.GrandparentCursor.ShouldStopBefore` | gbc-Project/Pods/leveldb-library/db/version_set.cc:1554-1576 | for keys asked in order, true exactly when the grandparents that end between the last stop, or the first key, and this key have more bytes than the limit |
| `Compaction.OverlapsFew` | gbc-Project/Pods/leveldb-library/db/version_set.cc:1569-1572 | the grandparents that end between the first and the last entry of an output have no more bytes than the limit |
| `Lsm.WriteBatchKeepsInv` | gbc-Project/Pods/leveldb-library/db/write_batch.cc:121-137 | a batch written at consecutive sequence numbers keeps the database invariant |
| `Lsm.SwitchKeepsInv` | gbc-Project/Pods/leveldb-library/db/db_impl.cc:1345-1366 | making the memtable immutable keeps the database invariant |
| `Lsm.FlushKeepsInv` | gbc-Project/Pods/leveldb-library/db/db_impl.cc:535-566 | writing the immutable memtable to the chosen level, which may skip levels, keeps the database invariant |
| `LsmCompaction.RewriteKeepsShape` | gbc-Project/Pods/leveldb-library/db/db_impl.cc:860-876 | a move or compaction keeps levels sorted and disjoint, and for every user key keeps newer entries above older ones |
| `LsmCompaction.LeftoverAside` | gbc-Project/Pods/leveldb-library/db/version_set.cc:1408-1411 | a next-level file outside the inputs lies entirely before or entirely after them |
| `LsmReads.CompactionPreservesReads` | gbc-Project/Pods/leveldb-library/db/db_impl.cc:929-963 | a compaction keeps every read at or above its oldest snapshot if and only if it does not drop a deletion marker whose key still has an older value in the next level outside the inputs |
| `LsmReads.CompactionKeepsInv` | gbc-Project/Pods/leveldb-library/db/db_impl.cc:878-1036 | the database invariant survives a compaction under exactly that condition |
| `LsmReads.BoundaryClosedIsSafe` | gbc-Project/Pods/leveldb-library/db/version_set.cc:1407-1411 | the condition holds whenever the second input ends between user keys, which the caller can check on the chosen files |
| `LsmReads.MoveKeepsInv` | gbc-Project/Pods/leveldb-library/db/db_impl.cc:713-731 | a trivial move keeps the database invariant |
| `Resurrection.DeletedValueReturns` | gbc-Project/Pods/leveldb-library/db/version_set.cc:1407-1411 | a run of a new database, of writes, flushes and a compaction under a snapshot whose output is cut by size within a user key, reaches a state from which a compaction with inputs the selection accepts leads to another, in which a key read as deleted before reads as its old value after; neither compaction is a trivial move |
| `Runs.RunKeepsInv` | gbc-Project/Pods/leveldb-library/db/db_impl.cc:688-767 | every state of every run of writes, switches, flushes, moves, compactions and snapshots, from a new or a reopened database on, satisfies the database invariant |
| `Durability.CompactionKeepsRecoverable` | gbc-Project/Pods/leveldb-library/db/db_impl.cc:878-1036 | after a compaction the files alone, and the files with the immutable memtable, are still valid databases of what was flushed or frozen, if and only if the compaction exposes no older value when only the files are looked at |
| `Runs.NextKeepsRecoverable` | gbc-Project/Pods/leveldb-library/db/db_impl.cc:688-767 | each step keeps the database one whose memory may be lost without harm, exactly if it is not a compaction that exposes an older value among the files |
| `Runs.RunKeepsRecoverable` | gbc-Project/Pods/leveldb-library/db/db_impl.cc:535-566 | throughout a run of such steps the files alone satisfy the invariant for the flushed part of the write history |
| `Runs.ClosedRunIsDurable` | gbc-Project/Pods/leveldb-library/db/version_set.cc:1407-1411 | checking that the second input of every compaction ends between user keys is enough for that |
| `Runs.ReadsAreHistory` | gbc-Project/Pods/leveldb-library/db/db_impl.cc:1100-1145 | in every run, the newest stored entry at a live snapshot, or at the end, is what a scan of everything ever written gives |
| `Runs.SnapshotIsStable` | gbc-Project/Pods/leveldb-library/db/db_impl.cc:1166-1175 | a held snapshot reads the same before and after any steps in between |
| `Runs.ManifestIsLive` | gbc-Project/Pods/leveldb-library/db/version_set.cc:816-838 | in every run, with a MANIFEST that begins as NewDB wrote it or with the snapshot and the edit of an opening, each logged edit is one the builder accepts, and all of them together give the live files |
| `Runs.RecoverVersion` | gbc-Project/Pods/leveldb-library/db/version_set.cc:924-995 | recovering from the edits logged by the opening and any number of steps of any run rebuilds the file lists of that moment exactly |
| `Manifests.DirectoryExists` | gbc-Project/Pods/leveldb-library/db/version_set.cc:813-821 | in every run a file number stands for one file for ever, so there is a directory of table files that every edit logged and every version refers to |
| `Manifests.NumbersAt` | gbc-Project/Pods/leveldb-library/db/version_set.cc:801-814 | the records of a moment of a run give its last sequence number, the least log number still needed, and a next file number above all its files |
| `Manifests.RecoverManifest` | gbc-Project/Pods/leveldb-library/db/version_set.cc:886-1011 | recovering from the bytes of a MANIFEST cut anywhere succeeds exactly if the three numbers are there, that is if the records it began with are; then it rebuilds the file lists, the log number and the last sequence number of the moment of the last whole record, and from all its bytes those of now; only the files of that version need exist |
| `DbImpl.GetFromLevel0` | gbc-Project/Pods/leveldb-library/db/version_set.cc:348-370 | files that cover the key, newest first, stopping at the first hit, give the newest visible entry of level 0 |
| `DbImpl.VersionGet` | gbc-Project/Pods/leveldb-library/db/version_set.cc:326-421 | stopping at the first level with a hit gives the newest visible entry of all levels |
| `DbImpl.DBImpl.Get` | gbc-Project/Pods/leveldb-library/db/db_impl.cc:1100-1145 | memtable, immutable memtable, then files, with early exits: the value the write history gives at the snapshot |
| `DbImpl.DBImpl.Write` | gbc-Project/Pods/leveldb-library/db/write_batch.cc:116-137 | applies the batch one operation at a time at consecutive sequence numbers: one step of the state machine |
| `DbImpl.DBImpl.CompactMemTable` | gbc-Project/Pods/leveldb-library/db/db_impl.cc:535-566 | flushes to the level picked, as deep as it may go: one step of the state machine |
| `DbImpl.DBImpl.WriteLevel0Table` | gbc-Project/Pods/leveldb-library/db/db_impl.cc:491-533 | a memtable becomes a table at the level picked, or at level 0 when there is no version to pick from: one step of the state machine |
| `DbImpl.DBImpl.IsTrivialMove` | gbc-Project/Pods/leveldb-library/db/version_set.cc:1515-1523 | true exactly for one input file, no second input, and next-but-one-level files that meet it within the size bound |
| `DbImpl.DBImpl.LogAndApply` | gbc-Project/Pods/leveldb-library/db/version_set.cc:816-821 | the new file lists are the old ones with the edit applied |
| `DbImpl.DBImpl.BackgroundCompaction` | gbc-Project/Pods/leveldb-library/db/db_impl.cc:688-767 | starts from the first file after the pointer, as picked, takes the inputs that follow from it, moves the file exactly when that is trivial and otherwise rewrites the inputs; this is a move or compaction step, and the object stays valid when the second input ends between user keys |
| `DbImpl.DBImpl.CompactRangeAt` | gbc-Project/Pods/leveldb-library/db/db_impl.cc:697-705 | exactly when no file meets the range nothing changes; otherwise a manual compaction rewrites the inputs that follow from the files meeting the range: at level 0 all of the least closed set around it, deeper the first of them up to the size limit |
| `DbImpl.OutputsOverlapFew` | gbc-Project/Pods/leveldb-library/db/version_set.cc:1554-1576 | in the range of no output of a compaction do more bytes of the next-but-one level end than a trivial move may meet |
| `DbImpl.DBImpl.InstallCompactionResults` | gbc-Project/Pods/leveldb-library/db/db_impl.cc:860-876 | one edit removes all inputs and adds all outputs |
| `DbImpl.MergeInputs` | gbc-Project/Pods/leveldb-library/db/version_set.cc:1237-1268 | merging one run per level-0 file and one per deeper level yields all input entries, each once, in order |
| `DbImpl.CompactionOutputs` | gbc-Project/Pods/leveldb-library/db/db_impl.cc:878-1026 | merge, drop and cut give files that hold exactly the kept input entries, cut where they should be |
| `DbImpl.ScanIsHistory` | gbc-Project/Pods/leveldb-library/db/db_impl.cc:1147-1157 | a lookup in the merged run of everything stored is a lookup in the write history |
| `Scans.NewInternalIterator` | gbc-Project/Pods/leveldb-library/db/db_impl.cc:1062-1087 | the children (memtables, level-0 tables, one run per deeper level) together hold every stored entry once |
| `Scans.NewIterator` | gbc-Project/Pods/leveldb-library/db/db_impl.cc:1147-1157 | the database iterator, moving over the live merging iterator in any mixture of seeks and directions, shows as its rows exactly the keys the write history gives a value at the snapshot, with those values |
| `Scans.Scan` | gbc-Project/Pods/leveldb-library/db/db_impl.cc:1147-1157 | iterating forward from the first key lists, in increasing key order, exactly the keys the write history gives a value at a live snapshot, with those values |
| `Scans.ReverseScan` | gbc-Project/Pods/leveldb-library/db/db_impl.cc:1147-1157 | iterating backward from the last key lists exactly the same rows |
| `Merger.UnionIs` | gbc-Project/Pods/leveldb-library/table/merger.cc:31-175 | runs with distinct keys have a sorted union that holds exactly their entries |
| `Merger.CountStep` | gbc-Project/Pods/leveldb-library/table/merger.cc:55-79 | one position further in the union, only the run that owned it has moved on |
| `Merger.MergingIterator.FindSmallest` | gbc-Project/Pods/leveldb-library/table/merger.cc:145-158 | shows entry p of the union when every child is at its first entry from p on |
| `Merger.MergingIterator.FindLargest` | gbc-Project/Pods/leveldb-library/table/merger.cc:160-173 | shows entry p - 1 of the union when every child is at its last entry before p |
| `Merger.MergingIterator.Seek` | gbc-Project/Pods/leveldb-library/table/merger.cc:47-53 | lands on the first entry of the union at or after the target |
| `Merger.MergingIterator.Next` | gbc-Project/Pods/leveldb-library/table/merger.cc:55-79 | moves one position forward in the union, also after a move backward |
| `Merger.MergingIterator.Prev` | gbc-Project/Pods/leveldb-library/table/merger.cc:81-110 | moves one position back in the union, also after a move forward |
| `TwoLevel.SeekPlace` | gbc-Project/Pods/leveldb-library/table/two_level_iterator.cc:82-87 | seeking in the block the index gives, then skipping to the next, is seeking in the concatenation |
| `TwoLevel.TwoLevelIterator.Seek` | gbc-Project/Pods/leveldb-library/table/two_level_iterator.cc:82-87 | lands on the first entry of the concatenated blocks at or after the target |
| `TwoLevel.TwoLevelIterator.Next` | gbc-Project/Pods/leveldb-library/table/two_level_iterator.cc:103-107 | moves one position forward in the concatenated blocks, over empty blocks |
| `TwoLevel.TwoLevelIterator.Prev` | gbc-Project/Pods/leveldb-library/table/two_level_iterator.cc:109-113 | moves one position back in the concatenated blocks, over empty blocks |
| `DbIter.ViewIsLookup` | gbc-Project/Pods/leveldb-library/db/db_iter.cc:168-198 | an entry is in the view exactly when a point lookup of its user key at the snapshot finds it as a value |
| `DbIter.ViewIsSorted` | gbc-Project/Pods/leveldb-library/db/db_iter.cc:168-198 | the view has each user key once, in increasing order |
| `DbIter.SkipStep` | gbc-Project/Pods/leveldb-library/db/db_iter.cc:168-195 | one round of the forward loop stops exactly at a wanted visible entry, and otherwise keeps what the skip key says |
| `DbIter.ScanStep` | gbc-Project/Pods/leveldb-library/db/db_iter.cc:232-255 | one round of the backward scan that does not stop keeps what the saved entry says |
| `DbIter.ScanResult` | gbc-Project/Pods/leveldb-library/db/db_iter.cc:227-267 | where the backward scan stops, what it has saved is the preceding visible entry, if any |
| `DbIter.DBIter.Seek` | gbc-Project/Pods/leveldb-library/db/db_iter.cc:269-281 | stands at the first key of the view at or after the target |
| `DbIter.DBIter.Next` | gbc-Project/Pods/leveldb-library/db/db_iter.cc:141-166 | moves one position forward in the view, across a change of direction too |
| `DbIter.DBIter.Prev` | gbc-Project/Pods/leveldb-library/db/db_iter.cc:200-225 | moves one position back in the view, across a change of direction too |
| `DbIter.DBIter.SeekToLast` | gbc-Project/Pods/leveldb-library/db/db_iter.cc:294-299 | stands at the last key of the view |
| `Coding.FixedRoundTrip` | gbc-Project/Pods/leveldb-library/util/coding.cc:9-33 | fixed-width integers decode to what was encoded |
| `Coding.FixedBits` | gbc-Project/Pods/leveldb-library/util/coding.cc:9-33 | byte i of a fixed-width integer has its bits 8i to 8i + 7 |
| `Coding.VarintRoundTrip` | gbc-Project/Pods/leveldb-library/util/coding.cc:112-128 | a varint followed by anything decodes to its value and leaves the rest |
| `Coding.VarintBits` | gbc-Project/Pods/leveldb-library/util/coding.cc:47-73 | byte i of a varint has bits 7i to 7i + 6 of the number, and its top bit says whether more bytes follow |
| `Coding.ParseVarintFails` | gbc-Project/Pods/leveldb-library/util/coding.cc:112-128 | parsing any bytes fails exactly when none of the bytes that may be read is the last of a number |
| `Coding.ParseVarintIs` | gbc-Project/Pods/leveldb-library/util/coding.cc:112-128 | otherwise it ends at the first such byte, and the number has seven bits of each byte read, in order |
| `Coding.EncodeVarint32` | gbc-Project/Pods/leveldb-library/util/coding.cc:47-73 | the five unrolled cases are the seven-bits-a-byte encoding |
| `Coding.GetVarint32` | gbc-Project/Pods/leveldb-library/util/coding.cc:112-140 | reads what the bytes spell, at most five of them, modulo 2^32; on failure consumes nothing |
| `Coding.SliceRoundTrip` | gbc-Project/Pods/leveldb-library/util/coding.cc:171-190 | a length-prefixed string followed by anything is read back and leaves the rest |
| `LogFormat.UnmaskInvertsMask` | gbc-Project/Pods/leveldb-library/util/crc32c.h:19-40 | unmasking a masked checksum gives it back |
| `LogFormat.MaskRotates` | gbc-Project/Pods/leveldb-library/util/crc32c.h:22-32 | masking rotates a checksum right by 15 bits and adds the constant |
| `LogFormat.SplitFills` | gbc-Project/Pods/leveldb-library/db/log_writer.cc:43-78 | a record is cut only where a block ends; its fragments say which is the first and which the last, and together hold the record |
| `LogFormat.SplitIsPlaced` | gbc-Project/Pods/leveldb-library/db/log_writer.cc:43-78 | every fragment fits its block after the padding its place calls for |
| `LogFormat.LogAppend` | gbc-Project/Pods/leveldb-library/db/log_writer.cc:34-80 | the bytes of two sequences of records are those of the first, then those of the second from where the first ended |
| `LogWriter.Writer.AddRecord` | gbc-Project/Pods/leveldb-library/db/log_writer.cc:34-108 | appends exactly the framed bytes of the record, from wherever the file ends |
| `LogWriter.WriteLog` | gbc-Project/Pods/leveldb-library/db/log_writer.cc:23-32 | records written through any number of reopened writers give the bytes of one log |
| `LogReader.NextFrame` | gbc-Project/Pods/leveldb-library/db/log_reader.cc:216-233 | a buffer that starts at a header and ends with its block or the file shows the whole fragment, or the file ends inside it |
| `LogReader.Reader.ReadPhysicalRecord` | gbc-Project/Pods/leveldb-library/db/log_reader.cc:189-259 | of any file, the fragment at the next header: with its checksum right, and the end of the file, a bad length, a header of zeros and a wrong checksum told apart, reported and skipped as they should be; of a log cut anywhere the next fragment if it is whole, else end of file, and no report |
| `LogReader.Reader.ReadRecord` | gbc-Project/Pods/leveldb-library/db/log_reader.cc:63-173 | of any file, the first record that its fragments make: a full one, or a first, middle ones and a last with nothing between them, or none before the end; of a log cut anywhere the next record if it is whole, else none, and no report |
| `LogReader.ReadLog` | gbc-Project/Pods/leveldb-library/db/log_reader.cc:56-174 | reading any byte prefix of a log gives exactly the records that end inside it, in order, with no corruption reported |
| `Batches.OpRoundTrip` | gbc-Project/Pods/leveldb-library/db/write_batch.cc:51-74 | an encoded operation followed by anything is read back and leaves the rest |
| `Batches.WriteBatch.Put` | gbc-Project/Pods/leveldb-library/db/write_batch.cc:98-103 | the batch holds one more operation and the patched count |
| `Batches.WriteBatch.Append` | gbc-Project/Pods/leveldb-library/db/write_batch.cc:144-148 | the batch holds the operations of both, in order |
| `Batches.WriteBatch.Iterate` | gbc-Project/Pods/leveldb-library/db/write_batch.cc:42-80 | the handler gets the operations as far as the bytes can be read; the result is corrupt exactly for a batch that is too short, cannot be read to its end, or has a wrong count |
| `Batches.WriteBatch.Replay` | gbc-Project/Pods/leveldb-library/db/write_batch.cc:42-80 | a batch that holds operations hands over exactly these, in order, and is not corrupt |
| `Batches.ParseOpsIs` | gbc-Project/Pods/leveldb-library/db/write_batch.cc:42-80 | of any bytes, the operations read come one after the other from the front, and what is left is empty or begins with no operation |
| `Recovery.InsertInto` | gbc-Project/Pods/leveldb-library/db/db_impl.cc:424-436 | replaying an encoded batch adds its operations at consecutive numbers |
| `Recovery.RecoverLogFile` | gbc-Project/Pods/leveldb-library/db/db_impl.cc:412-453 | replaying any byte prefix of a write log gives exactly the entries of the batches that end inside it, and the maximum of their last numbers and the starting value; memtables are written out with the batch that makes them full, and only then |
| `Recovery.RecoveredNumbers` | gbc-Project/Pods/leveldb-library/db/db_impl.cc:435-439 | the recovered entries carry consecutive numbers, and the maximum is that of the last one |
| `Recovery.CrashAndRecover` | gbc-Project/Pods/leveldb-library/db/db_impl.cc:412-453 | write batches, cut the log anywhere, recover: each batch is recovered whole or not at all, and those recovered are a prefix |
| `WriteLogs.LogsAreOk` | gbc-Project/Pods/leveldb-library/db/db_impl.cc:1345-1366 | in every run the memtable is what the last log holds and the immutable one what the log before it holds, and the log number in the MANIFEST separates these from obsolete logs |
| `WriteLogs.PendingLogs` | gbc-Project/Pods/leveldb-library/db/db_impl.cc:323-341 | the logs that the MANIFEST of a moment of the run asks for hold exactly what has been written since and was in no table then |
| `WriteLogs.NewDatabaseStarts` | gbc-Project/Pods/leveldb-library/db/db_impl.cc:182-211 | a new database, with either form of its first MANIFEST, is one from which a run may start |
| `WriteLogs.TagIsKind` | gbc-Project/Pods/leveldb-library/db/write_batch.cc:51-74 | the tag of an operation in a batch is the kind in the trailer of its internal key |
| `Replaying.SelectLogs` | gbc-Project/Pods/leveldb-library/db/db_impl.cc:323-350 | the logs replayed are those the MANIFEST asks for, in rising order |
| `Replaying.WithTableKeepsInv` | gbc-Project/Pods/leveldb-library/db/db_impl.cc:438-452 | a memtable filled from a log and written out at level 0 keeps the invariant and adds exactly its entries to the history |
| `Replaying.ReplayLog` | gbc-Project/Pods/leveldb-library/db/db_impl.cc:371-489 | replaying a log cut anywhere adds exactly the entries of its whole records, in tables at level 0 and, if the log goes on being used, a memtable |
| `Replaying.ReplayLogs` | gbc-Project/Pods/leveldb-library/db/db_impl.cc:348-363 | replaying all selected logs adds of each exactly the whole records, and no new file gets the number of a log |
| `Reopening.Reopen` | gbc-Project/Pods/leveldb-library/db/db_impl.cc:280-369 | after a crash at any point of a run, with the MANIFEST and every log cut anywhere or logs missing, the database opens exactly if the MANIFEST has its first records and no table of the version it gives is missing; its history is then what was in tables at a moment of the run and the whole records of the logs needed since; the invariant holds and a new run may start |
| `Reopening.NothingLost` | gbc-Project/Pods/leveldb-library/db/db_impl.cc:348-366 | with the needed logs whole, the reopened history is everything written |
| `Reopening.PrefixIsLeft` | gbc-Project/Pods/leveldb-library/db/db_impl.cc:348-366 | with only the end of the last log lost, the reopened history is a prefix of everything written |
| `Reopening.GetAfterCrash` | gbc-Project/Pods/leveldb-library/db/db_impl.cc:1474-1513 | every lookup in the reopened database answers with the last entry for the key among what survives, and as before the crash when MANIFEST and logs are whole |
| `Reopening.LookupIsOps` | gbc-Project/Pods/leveldb-library/db/dbformat.cc:51-67 | the last entry for the rank of a byte-string key is the last operation on that key |
| `SkipLists.PublishKeeps` | gbc-Project/Pods/leveldb-library/db/skiplist.h:362-367 | the store that links a node into a level keeps every link pointing to the next linked node |
| `SkipLists.WriterStepKeeps` | gbc-Project/Pods/leveldb-library/db/skiplist.h:337-368 | every store of an insertion keeps the list well formed and takes nothing away |
| `SkipLists.WalkIsSorted` | gbc-Project/Pods/leveldb-library/db/skiplist.h:260-281 | following links visits exactly the linked nodes of a level after the starting node, in increasing order |
| `SkipLists.LevelsAreSorted` | gbc-Project/Pods/leveldb-library/db/skiplist.h:337-368 | in every run, between any two stores, each level is sorted, holds exactly the linked nodes, and is a sublist of the level below |
| `SkipLists.SearchSkipsNothing` | gbc-Project/Pods/leveldb-library/db/skiplist.h:260-322 | in every run, a search whose loads interleave with stores finds the neighbours of its target and skips no node present when it began |
| `SkipLists.SkipList.FindGreaterOrEqual` | gbc-Project/Pods/leveldb-library/db/skiplist.h:260-281 | the least key at or after the target, and the last node before it on every level |
| `SkipLists.SkipList.FindLessThan` | gbc-Project/Pods/leveldb-library/db/skiplist.h:283-302 | the greatest key before the target, or the head |
| `SkipLists.SkipList.FindLast` | gbc-Project/Pods/leveldb-library/db/skiplist.h:304-322 | the greatest key, or the head of an empty list |
| `SkipLists.SkipList.Insert` | gbc-Project/Pods/leveldb-library/db/skiplist.h:336-368 | the list holds exactly one more key, in a node on as many levels as asked for |
| `SkipLists.Iterator.Prev` | gbc-Project/Pods/leveldb-library/db/skiplist.h:212-221 | moves to the greatest smaller key |
| `SkipLists.Iterator.Next` | gbc-Project/Pods/leveldb-library/db/skiplist.h:206-210 | moves to the least greater key |
| `GroupCommit.BuildBatchGroup` | gbc-Project/Pods/leveldb-library/db/db_impl.cc:1260-1306 | no sync write joins a leader without sync; batches join a leader of at most 128 KB up to 128 KB more, and a larger one up to 1 MB in all; the first writer left out may not join; the result is the batches in order |
| `GroupCommit.GroupSizeIs` | gbc-Project/Pods/leveldb-library/db/db_impl.cc:1266-1306 | the size of a group is that of the batch it makes, and one more header for each batch taken in |
| `GroupCommit.OpsOfAppend` | gbc-Project/Pods/leveldb-library/db/db_impl.cc:1290-1303 | the operations of a group are those of its batches, in order |
| `GroupCommit.NextKeepsInv` | gbc-Project/Pods/leveldb-library/db/db_impl.cc:1185-1256 | every step of the queue keeps its invariant, never lowers the last sequence number and takes back no acknowledgement |
| `GroupCommit.LoggedOnceInOrder` | gbc-Project/Pods/leveldb-library/db/db_impl.cc:1205-1237 | in every run, every successful write with a batch is logged exactly once, in order of arrival |
| `GroupCommit.RangesAreConsecutive` | gbc-Project/Pods/leveldb-library/db/db_impl.cc:1206-1236 | in every run, attempts take consecutive disjoint sequence ranges, and none follows a failed sync |
| `GroupCommit.AcksAreHonest` | gbc-Project/Pods/leveldb-library/db/db_impl.cc:1239-1248 | in every run, group members get their leader's status, success is told exactly to writes of committed attempts, and a sync write is never led by a non-sync one |
| `GroupCommit.WriteQueue.FinishGroup` | gbc-Project/Pods/leveldb-library/db/db_impl.cc:1239-1253 | pops exactly the group, giving each member the status of the group |
| `Comparators.BytewiseContract` | gbc-Project/Pods/leveldb-library/util/comparator.cc:25-64 | bytewise order with its shortened separators and successors meets the contract of a comparator: a separator lies from the first key up to before the second, a successor not before its key |
| `Comparators.SeparatorShortens` | gbc-Project/Pods/leveldb-library/util/comparator.cc:29-50 | a separator is another string exactly when the first differing byte leaves room for one in between, and then it ends with that byte |
| `Comparators.SeparatorIsShortest` | gbc-Project/Pods/leveldb-library/util/comparator.cc:29-50 | such a separator is the shortest of all strings between the two, and the first of those |
| `Comparators.SuccessorIsShortest` | gbc-Project/Pods/leveldb-library/util/comparator.cc:52-64 | a successor is another string unless all bytes are 255, and then the shortest of all strings after the key, and the first of those |
| `Comparators.InternalCompare` | gbc-Project/Pods/leveldb-library/db/dbformat.cc:51-67 | comparing encoded internal keys is negative, zero or positive as the first comes before, with or after the second |
| `Comparators.InternalSeparatorIsBetween` | gbc-Project/Pods/leveldb-library/db/dbformat.cc:69-86 | the shortened separator of two internal keys lies from the first up to before the second |
| `Comparators.InternalShortens` | gbc-Project/Pods/leveldb-library/db/dbformat.cc:69-101 | an internal key is shortened exactly when its user key gets shorter, and then comes before every entry of the shorter user key |
| `Comparators.InternalContractOf` | gbc-Project/Pods/leveldb-library/db/dbformat.cc:69-101 | internal keys over any user comparator that meets its contract, with their shortened separators and successors, meet the contract of a comparator |
| `Comparators.InternalContract` | gbc-Project/Pods/leveldb-library/db/dbformat.cc:69-101 | so do those over the bytewise comparator |
| `Comparators.SeparatorHidesNothing` | gbc-Project/Pods/leveldb-library/db/dbformat.cc:69-86 | under any user comparator, a lookup key after the last entry of a block and up to its separator has no entry of its user key in later blocks |
| `BlockFormat.BlockBuilder.Add` | gbc-Project/Pods/leveldb-library/table/block_builder.cc:72-106 | the builder holds one more entry, whatever prefix it shares and whether or not a restart begins |
| `BlockFormat.BlockBuilder.Finish` | gbc-Project/Pods/leveldb-library/table/block_builder.cc:62-70 | the block is the entries in the format, with a restart point, where the entry is stored whole, every interval entries; its size is the estimate |
| `Blocks.Open` | gbc-Project/Pods/leveldb-library/table/block.cc:24-39 | a finished block is opened at its restart array, with its number of restart points; any other contents exactly when an array of the length they end with fits into them |
| `Blocks.BlockIter.Seek` | gbc-Project/Pods/leveldb-library/table/block.cc:163-201 | binary search over restart points and a linear scan land on the first entry at or after the target |
| `Blocks.BlockIter.Next` | gbc-Project/Pods/leveldb-library/table/block.cc:137-140 | moves one entry forward, decoding it from the prefix it shares |
| `Blocks.BlockIter.Prev` | gbc-Project/Pods/leveldb-library/table/block.cc:142-161 | going back to a restart point and rescanning moves one entry back |
| `Blocks.BlockIter.SeekToLast` | gbc-Project/Pods/leveldb-library/table/block.cc:208-213 | stands at the last entry |
| `Blocks.BuildAndRead` | gbc-Project/Pods/leveldb-library/table/block_builder.cc:62-106 | entries built into a block, with any restart interval, are read back exactly |
| `TableFormat.HandleRoundTrip` | gbc-Project/Pods/leveldb-library/table/format.cc:15-29 | an encoded block handle followed by anything is read back and leaves the rest |
| `TableFormat.FooterRoundTrip` | gbc-Project/Pods/leveldb-library/table/format.cc:31-62 | a footer has its fixed length and gives back both handles |
| `TableFormat.ReadFooter` | gbc-Project/Pods/leveldb-library/table/format.cc:42-62 | reading the end of any file gives the two handles of its footer, and fails exactly when it does not end in one |
| `TableFormat.ReadBlock` | gbc-Project/Pods/leveldb-library/table/format.cc:64-113 | of any file, gives the bytes a handle points to exactly when they and their trailer are all there, the checksum agrees if asked for, and they are not compressed; so a stored block gives its contents |
| `TableBuilders.TableBuilder.Add` | gbc-Project/Pods/leveldb-library/table/table_builder.cc:94-123 | the builder has one more entry, keeping its invariant on blocks, index and filter keys; the open block is stored exactly when, finished, it would have the size of a block |
| `TableBuilders.TableBuilder.Flush` | gbc-Project/Pods/leveldb-library/table/table_builder.cc:125-139 | the open entries become a stored block, keeping the same invariant |
| `TableBuilders.TableBuilder.Finish` | gbc-Project/Pods/leveldb-library/table/table_builder.cc:198-253 | the file is a table of exactly the entries added: data blocks, filter, metaindex and index that refer to them, footer |
| `Tables.Build` | gbc-Project/Pods/leveldb-library/table/table_builder.cc:94-253 | building any strictly increasing entries, with any block size and restart interval, with or without a filter, gives a table of them |
| `Tables.Table.Open` | gbc-Project/Pods/leveldb-library/table/table.cc:38-134 | opening a table reads its footer, index block and, when the policy is the one it was built with, its filter |
| `Tables.Table.InternalGet` | gbc-Project/Pods/leveldb-library/table/table.cc:216-244 | index search, filter and block search: what is shown, if anything, is the first entry of the whole table at or after the key, and it is shown whenever it is of the user key asked |
| `Tables.OpenAndGet` | gbc-Project/Pods/leveldb-library/table/table.cc:38-244 | from the bytes of a table: the first entry at or after the key if it is of the same user key, and none otherwise |
| `Tables.TableIsRun` | gbc-Project/Pods/leveldb-library/table/table.cc:216-244 | for internal keys, that entry is the newest one visible at the snapshot: a table is the sorted run the tree takes it for |
| `Tables.FindInTable` | gbc-Project/Pods/leveldb-library/table/table.cc:216-244 | with the filter on user keys, looking up a user key at a snapshot in the bytes of a table gives what the search of its run gives |
| `Tables.BuildAndFind` | gbc-Project/Pods/leveldb-library/table/table_builder.cc:94-253 | a table file built from any rising internal keys, below 4 GB, answers every lookup of a user key at a snapshot as the search of the sorted run of its entries does |
| `Filters.BloomBits` | gbc-Project/Pods/leveldb-library/util/bloom.cc:43-53 | the bits set are exactly the probes of the keys |
| `Filters.BloomMatches` | gbc-Project/Pods/leveldb-library/util/bloom.cc:28-80 | a key that was put into a Bloom filter, or has the hash of one that was, always matches it |
| `Filters.BloomAnswers` | gbc-Project/Pods/leveldb-library/util/bloom.cc:28-80 | a Bloom filter matches a key exactly when each of its probes is a probe of one of the keys |
| `Filters.MayMatchIs` | gbc-Project/Pods/leveldb-library/util/bloom.cc:56-80 | any bytes as a filter: no if too short, yes if the number of probes is one the code never writes, and otherwise whether all probes, each one delta further modulo 2^32, find their bits |
| `Filters.DeltaRotates` | gbc-Project/Pods/leveldb-library/util/bloom.cc:46-47 | the delta is the hash rotated right by 17 bits |
| `Filters.BloomSize` | gbc-Project/Pods/leveldb-library/util/bloom.cc:28-43 | a filter has as few bytes as hold the bits per key, at least 8, and then the number of probes |
| `Filters.CreateFilter` | gbc-Project/Pods/leveldb-library/util/bloom.cc:28-54 | appends the Bloom filter of the keys |
| `Filters.FilterBlockBuilder.StartBlock` | gbc-Project/Pods/leveldb-library/table/filter_block.cc:21-27 | waiting keys go into the next filter, further new filters are empty, up to the one the block offset calls for |
| `Filters.FilterBlockReader.KeyMayMatch` | gbc-Project/Pods/leveldb-library/table/filter_block.cc:90-104 | on a finished filter block, the answer is that of the filter for the 2 KB range of the block offset, and yes beyond the last |
| `Filters.BuildAndMatch` | gbc-Project/Pods/leveldb-library/table/filter_block.cc:21-104 | every key added for a block matches at the offset of that block, for any rising block offsets |
| `LruCaches.LRUCache.Lookup` | gbc-Project/Pods/leveldb-library/util/cache.cc:252-259 | returns the handle of the key, if cached: it has exactly one more reference, the client's, and is no longer among the unused ones; nothing else is different |
| `LruCaches.LRUCache.Insert` | gbc-Project/Pods/leveldb-library/util/cache.cc:266-303 | the new handle has its key and charge and is held by its client; what it replaces leaves the cache; then the least recently used handles go, oldest first, no more than needed, until the usage fits or none is left; nothing else is different |
| `LruCaches.LRUCache.Release` | gbc-Project/Pods/leveldb-library/util/cache.cc:261-264 | exactly one reference less; the last release of a cached handle makes it the most recently used, of any other handle deletes it; nothing else is different |
| `LruCaches.LRUCache.Erase` | gbc-Project/Pods/leveldb-library/util/cache.cc:318-321 | the key leaves the cache, and its charge the usage; its handle is deleted now exactly when no client holds it; nothing else is different |
| `LruCaches.LRUCache.Prune` | gbc-Project/Pods/leveldb-library/util/cache.cc:323-333 | deletes exactly the handles no client holds, oldest first |
| `LruCaches.ReleasedKeeps` | gbc-Project/Pods/leveldb-library/util/cache.cc:225-237 | giving a reference back keeps the invariant: counts are those of clients and cache, each cached handle is in the list its count calls for, the usage is the sum of charges, and every handle is alive or was deleted once |
| `LruCaches.RefIs` | gbc-Project/Pods/leveldb-library/util/cache.cc:217-223 | taking a reference adds exactly one, and takes a handle that was unused out of that list, whose order stays |
| `LruCaches.TakenOutKeeps` | gbc-Project/Pods/leveldb-library/util/cache.cc:307-316 | taking a handle out of the cache keeps that invariant, and deletes the handle exactly when no client holds it |
| `LruCaches.EvictOne` | gbc-Project/Pods/leveldb-library/util/cache.cc:293-300 | the handle at the front of the list of unused ones has no client and is in the table under its key |
| `HandleTables.HandleTable.Insert` | gbc-Project/Pods/leveldb-library/util/cache.cc:78-92 | acts on the map of keys to handles, returns what was replaced, and never lets there be more elements than chains |
| `HandleTables.HandleTable.Remove` | gbc-Project/Pods/leveldb-library/util/cache.cc:94-102 | takes the key out of the map and returns its handle |
| `HandleTables.HandleTable.Resize` | gbc-Project/Pods/leveldb-library/util/cache.cc:122-146 | moving every element to its chain in the larger table keeps the map, and makes room for all |
| `Crc32c.Rotate` | gbc-Project/Pods/leveldb-library/util/crc32c.cc:349-358 | one more word in the first of four interleaved partial results, and their rotation, is one more word in the combined result |
| `Crc32c.Words32Laws` | gbc-Project/Pods/leveldb-library/util/crc32c.cc:276-377 | 32-bit words under xor and the bitwise CRC step meet the laws the strided algorithm needs |
| `Crc32c.Extend` | gbc-Project/Pods/leveldb-library/util/crc32c.cc:276-377 | byte steps, word steps and four interleaved strides, from any alignment, compute the byte-by-byte checksum |
| `Crc32c.Value` | gbc-Project/Pods/leveldb-library/util/crc32c.cc:276-377 | the same for CRC-32C itself, with the reflected polynomial 0x82f63b78 |
| `Crc32c.ByteTableIs` | gbc-Project/Pods/leveldb-library/util/crc32c.cc:20-43 | the defining equations give the byte table the entries for single bits that the source lists, which determine the others |
| `Crc32c.ExtendTwice` | gbc-Project/Pods/leveldb-library/util/crc32c.cc:276-377 | extending a checksum by two pieces one after the other is extending it by both |
| `VersionEdits.EditRoundTrip` | gbc-Project/Pods/leveldb-library/db/version_edit.cc:41-205 | an encoded edit decodes to itself, over any compaction pointers already there |
| `VersionEdits.VersionEdit.EncodeTo` | gbc-Project/Pods/leveldb-library/db/version_edit.cc:41-85 | the bytes of the edit, field by field |
| `VersionEdits.VersionEdit.DecodeFrom` | gbc-Project/Pods/leveldb-library/db/version_edit.cc:107-205 | any bytes: the edit they spell, or failure exactly when they spell none |
| `VersionEdits.DecodeIs` | gbc-Project/Pods/leveldb-library/db/version_edit.cc:107-205 | of any bytes, fields are read one after the other from the front, and decoding succeeds, with the edit that has these fields, exactly when they are all there is |
| `VersionEdits.ReadManifest` | gbc-Project/Pods/leveldb-library/db/version_set.cc:926-980 | a MANIFEST cut at any byte gives exactly the edits whose records lie wholly before the cut, the last numbers they carry, and success exactly when the three needed numbers are there |

## Left out

- A flush that runs inside a compaction (`db/db_impl.cc:908-918`): flushes and compactions are separate steps here.
- I/O errors; corrupt tables, data blocks and internal keys, and the statuses they lead to; what recovery makes of a damaged log, although the log reader is for any file.
- The choice of which level to compact (scores and seek counts), of which files are deleted when, and of when to delay a write.
- Weak memory: the loads and stores of the skip list are single sequentially consistent steps.
- `max_height_` is raised in the same step as the new node is allocated; readers may begin at any level, which covers every value they could have read.
- Snappy: table blocks are stored uncompressed.
- The table cache, the block cache between a table and its blocks, and the two-level iterator over the blocks of a table: `Tables` models the lookup path, and the tree takes a table for its sorted run.
- The sharding of the cache by hash, the intrusive list pointers of its handles (the two lists are sequences), and the values it stores.
- The literal entries of the CRC tables, beyond those of `Crc32c.ByteTableIs`: `Crc32c` takes any tables that satisfy their defining equations.
- The number of probes of a Bloom filter, 0.69 times its bits per key, and the hash function are parameters.
- nanopb, the gRPC and Firebase pods and the application's own code.
- Keys.InsertSorted: the memtable is its sorted entries; their bytes are in `MemTables`, the skip list that orders them in `SkipLists`.
- VersionBuilder.Builder.Apply: compaction pointers and `allowed_seeks` are left out, because they only decide when to compact what.
- VersionBuilder.Replay: edits are values and numbers are left out, because `Manifests.RecoverManifest` adds the bytes, the numbers and the comparator check.
- VersionBuilder.Recover: edits are values here too; the bytes are those of `Manifests.RecoverManifest`.
- VersionBuilder.SnapshotHasAll: the comparator name and the compaction pointers of the record are not part of the edit as a value; as bytes they are in `VersionEdits.EditRoundTrip`.
- Runs.ManifestIsLive: edits are values without log numbers; `Manifests.RecoverManifest` states the same from bytes, with the numbers.
- Runs.RecoverVersion: starts from edits as values; `Manifests.RecoverManifest` starts from bytes.
- Inputs.SetupOtherInputs: does not compute the grandparents, because `DbImpl.DBImpl.FindGrandparents` does where they are used.
- Inputs.PickCompaction: the level is given; a compaction for seeks starts from its file by `Inputs.SeedFromFile`.
- Compaction.DoCompactionWork: has no errors and no memtable flush inside its loop.
- DbImpl.DBImpl.Write: applies a batch to the memtable; the writer queue is in `GroupCommit`, the log in `LogWriter`.
- DbImpl.DBImpl.LogAndApply: installs the new version; what is written to the MANIFEST is in `VersionEdits` and `Manifests`.
- DbImpl.DBImpl.BackgroundCompaction: promises a valid object only when the second input ends between user keys, because the code fails otherwise; the level and its compaction pointer are parameters.
- DbImpl.DBImpl.CompactRangeAt: is one round on one level; the loops over rounds and levels (`db/db_impl.cc:568-650`) are left out.
- DbImpl.MergeInputs: a deeper level is one concatenated run, which is what `TwoLevel.TwoLevelIterator` shows over its files.
- LogReader.Reader.ReadPhysicalRecord: reads from the start of the log; an initial offset, and resyncing after it, are left out.
- LogReader.Reader.ReadRecord: as for `LogReader.Reader.ReadPhysicalRecord`; the database always reads from offset 0.
- Scans.NewInternalIterator: a deeper level is one concatenated run, which is what `TwoLevel.TwoLevelIterator` shows over its files.
- TableFormat.ReadBlock: reads uncompressed blocks; Snappy is left out.
- Tables.Table.Open: opens files that are tables; the statuses for short or corrupt ones are left out.
- Tables.TableIsRun: user keys are byte strings in bytewise order here, because the tree has their ranks.
- Reopening.Reopen: a crash is one of a database whose MANIFEST began with this opening; appending to the MANIFEST of an earlier opening (with `reuse_logs`), and the CURRENT file, are left out. If a log with a torn last record goes on being used, what is appended to it cannot be read back as a log, and a second crash is outside the theorem. The check for missing files looks at numbers of files of any kind (`db/db_impl.cc:334-341`); the theorem is for directories in which no log has the number of a table that is gone.
- Replaying.ReplayLog: records shorter than a batch header and batches that do not parse are handled as in `Recovery.RecoverLogFile`; the theorem is for logs that were written and then cut.
- WriteLogs.LogsAreOk: every write of a run is one record; failed log writes are in `GroupCommit`.
- GroupCommit.BuildBatchGroup: the batch is its list of operations; the temporary batch that avoids disturbing the caller's is not distinguished from it.
