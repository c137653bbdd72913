# LSM storage engine: model and proofs

A Dafny model of a leveled LSM key-value engine (memtable, write-ahead log,
manifest, block-based sorted tables with Bloom filters and a block cache,
leveled compaction, range scans), and proofs about it. It has three layers.

1. **The engine as a state machine** (`Machine`, `Invariant`, `Steps`,
   `Refinement`): one action per durable step of a write, a flush, a
   compaction or a crash, interleaved in any order. The main theorem is that
   every run, crashes included, reads like one plain map.
2. **The parts as the code has them**: the memtable, the logs, the cache, the
   filter, the table writer and readers, the heap merge, the scan iterator and
   the version are objects and loops over bytes, each proved against a
   specification function whose own properties are proved.
3. **The engine object over bytes** (`Image`, `DiskImage`, `Engine`, `Opening`): `Get`,
   `Put`, `Delete`, flush, compaction, scan and open work on a log file, a
   manifest file and table files, and are proved to move between states of the
   machine, so the theorems of the first layer hold for the bytes on disk. Each
   call that writes also returns, as ghost values, the bytes on disk after each
   of its durable writes, and every one of them recovers.

Keys are byte strings in slice order. Every layer of the tree (memtable,
table, merge output) is seen as a sorted run of entries, and a tombstone is an
entry. Numbers are unbounded except where the code stores them in fields of
32 or 64 bits: those casts are written out.

## What the theorems rest on

- The options have at least two levels and a positive L0 trigger, and the
  number of levels is the same on every open.
- Keys are not empty. The engine refuses the empty key, and the code uses it
  as the mark of an empty table.
- At most one compaction is under way at a time. Flushes may run between its
  steps.
- Each write to a file succeeds or the process dies; a flush therefore always
  starts without an immutable memtable.
- New records go to a log that ends at a record boundary. A torn tail is
  skipped on open but not cut off; `Wals.AppendAfterTear` and
  `Manifests.AppendAfterTear` say exactly when an append behind leftover bytes
  survives.
- A table fits its file format (`Room`): fewer than 2^32 entries, a file below
  2^64 bytes, a block size up to `MAX_BLOCK_SIZE`, a filter below 2^32 bytes.
- A hash of a key is some pair of 64-bit numbers, and `usize` has 64 bits.

## Where code and documentation differ

The repository's README (lines 129-131) promises that after a crash the engine
reopens in the old or the new state, never in a half-applied one. The removal
records of a compaction are synced one by one, newest input first, and a crash
between two of them can bring an overwritten value back at once
(`Witness.OldValueReturns`) or at the next compaction
(`LaterLoss.HarmlessIsNotLasting`). `Interrupted.InterruptedReads` says what
each key reads as right after such a crash. `Interrupted.RunsInterrupted` gives
the exact condition, key by key, under which reopening restores the invariant
that all later steps rest on together with every read, and
`Interrupted.NewestFirstExactly` the condition for the whole log: no two inputs
differ on a key at stake. A key is at stake when an input of the compaction
holds it, the log does not rebuild it, and no table outside the job hides it
from the upper level of the job. `Removal.OldestFirstIsSafe` shows that the
opposite order is always safe. The machine lets a crash happen everywhere,
between two removals only where that condition holds (`CrashOk`), so the
whole-run theorem covers every crash but the harmful ones.

The same README calls the levels below L0 non-overlapping. A crash right after
the add record of a compaction leaves its output beside its inputs
(`Witness.OverlapRemains`); reads are still right, because the whole-run
theorem rests on a weaker invariant (tables of a level that share a key agree
on it or are hidden, or the log rebuilds the key), and `Shape.CutShape` says
exactly when the level stays disjoint.

## Model

| member | source | states |
|---|---|---|
| Refinement.RunsMatchReference | src/engine.rs:96-443 | in every run of writes, flush steps, compaction steps and crashes from an empty directory, in any interleaving, crashes between two removals that do no lasting harm included, no step fails and every key reads as in the plain map of the acknowledged writes (a write cut by a crash counts exactly when its record survived) |
| Refinement.AnyStep | src/engine.rs:237-443 | each single step succeeds from every state that satisfies the invariant, keeps the invariant, and changes what a reader sees only if it is a write |
| Invariant.WriteStep | src/engine.rs:237-245 | a write changes the value of its own key and of no other, and keeps the log equal to the memtable |
| Invariant.FreezeStep | src/engine.rs:252-268 | moving the memtable aside changes no read |
| Steps.FlushAllocateStep | src/engine.rs:270-275 | taking a table id keeps the invariant: the id is in no level and not in the manifest |
| Steps.FlushWriteStep | src/engine.rs:276-283 | a table file that nothing lists yet changes neither reads nor what recovery would build |
| Steps.FlushLogStep | src/engine.rs:285-289 | the manifest accepts the new table; recovery now reads it beside the log it came from and still gives every key its value |
| Steps.FlushInstallStep | src/engine.rs:291-294 | the flushed table becomes the newest of L0, also while a compaction picked from an older version is under way |
| Invariant.TruncateStep | src/engine.rs:296 | the log may go once the table is in the version: everything in it can be read from the levels |
| Invariant.FinishStep | src/engine.rs:297-298 | dropping the immutable memtable changes no read |
| Steps.CompactBeginStep | src/engine.rs:386-391 | picking a job from a snapshot of the version keeps the invariant |
| Steps.CompactAllocateStep | src/engine.rs:393-397 | the output id is new, also against a flush under way |
| Steps.CompactBuildStep | src/engine.rs:400-420 | the merged output is a proper table and changes nothing before it is logged |
| Steps.CompactLogAddStep | src/engine.rs:426-427 | after the add record, recovery, which sees the output beside its inputs, still gives every key its value |
| Steps.CompactLogRemoveStep | src/engine.rs:428 | each removal record keeps the invariant of the running engine |
| Steps.CompactInstallStep | src/engine.rs:432-435 | installing the output on a version that flushes have extended since the snapshot changes no read |
| Steps.CrashStep | src/engine.rs:103-132 | reopening after a crash at any point, between two removals of a compaction only where they do no lasting harm, succeeds, restores the invariant and gives every key the value it had |
| Steps.RecoveredAnswer | src/engine.rs:103-132 | replaying the log over the tables the manifest lists answers every key as the running engine did: replay over its own flushed table changes nothing |
| Calls.FlushCall | src/engine.rs:247-299 | a whole flush succeeds, and its end state reads like its start state for every key |
| Calls.CompactCall | src/engine.rs:385-443 | a whole compaction succeeds, and its end state reads like its start state for every key |
| Compaction.VisibleKept | src/engine.rs:400-435 | with the output added and the inputs removed from the oldest up to any point, every key has the visible value it had, tombstones dropped or not |
| Compaction.CoherentKept | src/engine.rs:400-435 | at each such point, for each key, two tables of one level that hold it still agree on it or are hidden by a higher level |
| Picker.PickIsPicked | src/engine.rs:450-491 | a picked job has all of L0 (or the first table of a level) as its upper inputs and exactly the overlapping tables of the next level as its lower inputs |
| Picker.PickedCovers | src/engine.rs:378-383 | a table of the output level that shares a key with the upper inputs is among the inputs |
| Picker.DroppedHidesNothing | src/engine.rs:400-412 | when the code decides to drop tombstones, no table below the output level holds any key of the inputs |
| Steps.TombstonesGoExactly | src/engine.rs:400-412 | the run a compaction writes has no tombstone if the output level is the last one or no key range below it meets the key range of an input; otherwise it has every winning tombstone; every other winning entry is always in it |
| Picker.OverlapsExactly | src/engine.rs:378-383 | a table overlaps a key range exactly if it has entries and lies neither wholly before nor wholly after it |
| Picker.TotalSizeSums | src/engine.rs:471 | the size of a level is the sum of the sizes of its tables |
| Picker.PickedFits | src/engine.rs:400-491 | every picked job, with the tombstone decision of the code, meets the conditions under which replacing inputs by output is invisible |
| Picker.SpanCovers | src/engine.rs:493-511 | the span is at or below every smallest key and at or above every largest key |
| Picker.SpanTight | src/engine.rs:493-511 | each end of the span is the smallest or largest key of one of the tables |
| Install.InstalledIsRewritten | src/engine.rs:513-523 | installing leaves in each level exactly the tables that adding the output and removing the input ids leave, and L0 in the same order |
| Install.SortSorts | src/engine.rs:522 | the stable sort orders a level by smallest key |
| Install.SortMembers | src/engine.rs:522 | the stable sort keeps every table, with multiplicity |
| Install.LeftBehindApart | src/engine.rs:450-511 | the hull of the inputs meets no table left behind: such a table lies wholly before or wholly after the span and after or before each input |
| Install.OutputApart | src/engine.rs:450-523 | the output overlaps no table left behind in its level |
| Shape.InstalledShaped | src/engine.rs:513-523 | installing keeps L0 free of empty tables and every deeper level sorted and disjoint, flushes in between included |
| Shape.ReopenedShaped | src/engine.rs:107-126 | reversing L0 and sorting the other levels on open gives the shape back |
| Shape.RunsAreShaped | src/engine.rs:61-63 | in every run without a crash that leaves the output of a compaction listed beside an input it overlaps, L0 is newest first and has no empty table, and each deeper level is sorted by smallest key with its non-empty tables disjoint |
| ManifestOrder.RunsKeepOrder | src/engine.rs:61-63 | in every run of the machine, crashes right behind the add record of a compaction included, the ids of L0 strictly decrease (ids are handed out in flush order, so L0 is newest first) and a flush in flight has a larger id than all of them; each deeper level is sorted by smallest key and lists no table twice; and the manifest, sorted as opening sorts it, lists the tables of each level in the order memory has them |
| ManifestOrder.RunsReopenNewestFirst | src/engine.rs:118-121 | reopening at the end of any run, between two removals of a compaction as well, gives an L0 with strictly decreasing ids |
| ManifestOrder.RunsReopenSame | src/engine.rs:103-132 | a run that ends with no flush or compaction in flight ends in a state that reopening gives back exactly, the order of the tables inside each level included |
| Install.SortRetain | src/engine.rs:122-125 | sorting a level stably by smallest key and removing tables from it by id give the same list in either order |
| Shape.CutShape | src/engine.rs:425-430 | after a crash while a compaction is being logged, at any number of removals, the reopened version has that shape exactly when the output is clear of the inputs from its own level that are still listed |
| Witness.OverlapRemains | src/engine.rs:425-430 | a reachable run after which a crash right behind an add record leaves two overlapping tables in L1 |
| Removal.OldestFirstIsSafe | src/manifest.rs:111-117 | had the inputs been removed oldest first, a crash after any number of removals would reopen with the invariant restored and every key unchanged, so every later step would be safe too |
| Cuts.LastingExactly | src/manifest.rs:111-117 | for any version, job and number of removals, newest input first: a key on which the tables of each level agree, or which a higher level hides, stays so and keeps its value if and only if it is not held by an input, or a table outside the job hides it, or the first upper input left that holds it has the entry of the newest input, or no upper input left holds it and every lower input left that does has that entry |
| Interrupted.CrashExactly | src/manifest.rs:111-117 | in every state that satisfies the invariant, reopening restores the invariant and every read exactly where the machine lets the process die |
| Interrupted.RunsInterrupted | src/manifest.rs:111-117 | every run that ends while a compaction is being logged, at any number of removals, with flushes and writes interleaved: reopening there restores the invariant, on which every later step rests, and every read, if and only if each key that the log does not rebuild meets that condition |
| Interrupted.InterruptedReads | src/engine.rs:425-430 | what each key reads as right after any such crash, harmless or not: a key at stake reads as the first upper input left, else as the first lower input left unless the output sorts before it, else as the merge; every other key reads as before |
| Interrupted.NewestFirstExactly | src/manifest.rs:111-117 | in every run that has built its output, the newest-first removal of the code can be cut after every number of removals with the invariant and every read restored exactly when all inputs that hold a key at stake have the same entry for it |
| Interrupted.LastingThroughout | src/manifest.rs:111-117 | an exposed key of the inputs is safe after every number of removals exactly when all inputs that hold it have the same entry for it |
| Witness.OldValueReturns | src/engine.rs:425-430 | a run that ends between the two removals of a compaction, shows the new value of a key, and reopens with the old one |
| LaterLoss.HarmlessIsNotLasting | src/engine.rs:472-478 | a run that ends between two removals, reopens with every key as it was, and whose next compaction brings an overwritten value back, because it moves the output down and leaves the old input above it |
| Schedule.RestIsNothingToPick | src/engine.rs:450-491 | nothing is picked if and only if L0 is below its trigger and every level from 1 to the last but one is within its growing limit |
| Schedule.LimitClosed | src/engine.rs:468-487 | where the first product fits 64 bits, the limit of a level is memtable size times trigger times the multiplier once per level below the first, or 2^64-1 if that is larger |
| Schedule.PickTakesLowest | src/engine.rs:450-491 | L0 is picked exactly when it has reached its trigger; otherwise the picked level is the lowest one above its limit |
| Schedule.CompactionLowersWeight | src/engine.rs:450-523 | every installed compaction strictly lowers the sum over tables of the number of levels minus the level of the table |
| Schedule.CompactionEnds | src/engine.rs:450-523 | a sequence of compactions without writes has no more rounds than that sum at its start |
| Schedule.SettlesAtRest | src/engine.rs:450-523 | from every version, whatever tables the merges write, compacting as long as a job is picked ends, within that many rounds, in a version at rest: L0 below its trigger and every level but the last within its limit |
| Engines.Engine.Get | src/engine.rs:176-191 | succeeds exactly for keys of 1 to 65536 bytes, an empty key is EmptyKey and a longer one KeyTooLarge; the result is the visible value of the key in the machine state the fields and the bytes on disk stand for, and only the cache changes |
| Engines.GetFromTables | src/engine.rs:313-331 | the first table, newest first, with an entry for the key decides; an error means some block of some table cannot be read; the cache stays faithful to the disk |
| Engines.FirstInLevels | src/engine.rs:73-82 | searching L0 and then each level in order is the layered lookup |
| Engines.Engine.Put | src/engine.rs:166-173 | succeeds exactly for keys of 1 to 65536 bytes and values of at most 67108864, with EmptyKey, KeyTooLarge and ValueTooLarge otherwise, in that order; a refused write changes nothing; otherwise the key reads as the new value, every other key as before, whether or not the write flushes, and the bytes on disk after each durable write of the call already recover to that |
| Engines.Engine.Delete | src/engine.rs:194-197 | succeeds exactly for keys of 1 to 65536 bytes, with EmptyKey and KeyTooLarge otherwise; a refused key changes nothing; otherwise the key reads as absent and every other key as before, and so do the bytes on disk after each durable write of the call |
| Engines.Engine.Write | src/engine.rs:237-245 | exactly the effect of the operation on every read; a flush exactly when the key and value bytes of the new memtable reach its limit (for a first put, when its key and value bytes together do); after the log record and after each step of that flush the bytes on disk recover to the state with the write |
| Engines.Engine.FlushMemtable | src/engine.rs:247-299 | the new state is that of the seven flush steps in a row, the memtable is empty, every key reads as before, and the bytes on disk after the id, after the file, after the record and after the truncation each recover to the same reads |
| Engines.Engine.InstallFlushed | src/engine.rs:285-298 | file, manifest record and log truncation change the disk in that order, with nothing else changed |
| Engines.Engine.Freeze | src/engine.rs:252-268 | a fresh empty memtable, and an immutable copy equal to the old one |
| Engines.CopyOf | src/engine.rs:260-268 | re-inserting the entries of a sorted snapshot one by one gives the snapshot |
| Engines.Engine.CompactOnce | src/engine.rs:385-443 | without a job nothing changes; with one the new state is that of the compaction steps in a row, every key reads as before, and the bytes on disk after the id, after the file, after the add record and after the last removal each recover to the same reads |
| Engines.Engine.WriteJob | src/engine.rs:393-430 | the id is taken in the manifest, the output is written, and the manifest then lists the output and no input; the manifest replays to the state after the id, after the add record and after the last removal at the respective moments |
| Engines.Engine.MergeJob | src/engine.rs:400-420 | the output table is the one written from the merge of the inputs with the tombstone decision of the specification |
| Engines.Engine.LogJob | src/engine.rs:424-430 | one add record, and only then one removal record per input, in input order; the manifest still equals its log |
| Engines.BuildOutput | src/compaction.rs:100-116 | the table is the one `create` writes for the newest entry per key of the inputs |
| Engines.Engine.Scan | src/engine.rs:218-220 | a scan of the engine succeeds and yields, strictly increasing, exactly the live pairs strictly between the bounds and, at a bound, its key exactly if the bound is an included one |
| DiskImages.FlushImages | src/engine.rs:270-298 | a crash after any durable write of a flush leaves bytes that recover to what the engine read before it |
| DiskImages.CompactImages | src/engine.rs:393-430 | a crash after the id, the file, the add record or the last removal of a compaction leaves bytes that recover to what the engine read before it |
| DiskImages.RemovalImage | src/engine.rs:425-430 | the bytes after the add record and any number of removals are those of the machine between these removals, and recover to what the engine read before the compaction where they do no lasting harm |
| Opening.Open | src/engine.rs:103-158 | opening succeeds if and only if log, manifest and every listed table can be read; when the bytes are those of a state the process died in, at any moment, the engine is the recovery of that state; outside harmful cuts between two removals it is also valid and reads as that state did; with both logs ending at a record boundary it is then ready for writes |
| Opening.LoadTables | src/engine.rs:107-117 | fails exactly when a listed file is missing or does not open; otherwise each level holds its listed tables in manifest order, deeper ones folded into the last |
| Recovery.OnLevelMembers | src/engine.rs:108-117 | a level gets exactly the tables listed for it, and the last one also those listed for levels beyond it |
| Opening.OrderLevels | src/engine.rs:118-125 | L0 reversed and every other level sorted |
| Opening.LevelsRecovered | src/engine.rs:107-126 | the opened tables show exactly the levels the machine recovers |
| Opening.ReplayInto | src/engine.rs:128-132 | the memtable is the one the log rebuilds, with an exact size estimate |
| Opening.FreshDirectory | src/engine.rs:103-158 | no bytes at all show the new engine every run starts from |
| Opening.CrashBetweenCalls | src/engine.rs:103-158 | the bytes of an engine between two calls show exactly its state |
| Opening.CrashDuringWrite | src/wal.rs:70-80 | cut the record of a write at any byte, whatever else is in flight: the bytes show the state after the write if its last byte is there, and the state before it otherwise |
| Opening.CrashDuringRecord | src/manifest.rs:138-151 | cut a manifest record at any byte, between calls or in the middle of a flush or compaction: the bytes show the state before it |
| MergeLoop.MergeTables | src/compaction.rs:118-195 | for any number of input streams the merge fails if and only if some input cannot be read, and otherwise is the newest-first merge of the inputs, tombstones dropped or kept |
| MergeLoop.Round | src/compaction.rs:153-189 | one round takes out the least head, from the lowest index that has it, advances every input on that key, and keeps exactly one heap item per live head |
| MergeLoop.Advance | src/compaction.rs:176-188 | every input on the key moves on by one entry, no other moves, and the heap again has one item per live head |
| MergeLoop.PopSame | src/compaction.rs:157-166 | all items on the key leave the heap and no other does |
| Merging.MergeStep | src/compaction.rs:153-192 | a merge starts with the least head, taken from the lowest index, and goes on with every such head removed |
| Merging.MergeRunsLookup | src/compaction.rs:118-195 | a merge of sorted runs is strictly sorted and answers every key as the lowest-index run holding it |
| Merging.MergedAnswers | src/compaction.rs:118-195 | the run a compaction writes is strictly sorted and holds, for each key of the inputs and for no other, the entry of the lowest-index input, minus winning tombstones when they are dropped |
| Scans.NextInRange | src/engine.rs:619-634 | returns the first entry in range of a sorted stream and leaves the rest; stopping past the end bound loses nothing |
| Scans.PastEndExactly | src/engine.rs:650-656 | a key is past the end exactly when it is above the end key, or equal to an excluded one; no start bound brings it into range, and every later key is past the end too |
| Scans.InRangeExactly | src/engine.rs:638-648 | a bound lets in the keys strictly on its side, and its own key exactly if it is an included one |
| Scans.Best | src/engine.rs:663-676 | the least head of the sources, and of equal heads the newest |
| Scans.AdvanceSources | src/engine.rs:684-692 | every source on the key moves past it and no other moves |
| Scans.EngineIterator.Next | src/engine.rs:661-700 | yields the next live pair of the merged layers, passing over tombstones, and nothing only when none is left |
| Scans.Open | src/engine.rs:543-564 | the sources hold exactly the entries in range of each layer, newest first |
| Scans.Scan | src/engine.rs:543-700 | draining the iterator gives the live pairs of the merged layers in range; an error comes from a table that cannot be read |
| Scans.ScanIsVisible | src/engine.rs:543-700 | those pairs are strictly increasing and are exactly the pairs that a layered read of each key returns, strictly between the bounds or at an included bound |
| Scans.ScanSplits | src/engine.rs:543-700 | scanning up to a key, excluded, and then from it on, included, yields the same pairs in the same order as scanning through |
| Versions.PickCompaction | src/engine.rs:450-491 | picks a job exactly when the specification does, with the same inputs in the same order and the same output level |
| Versions.FileSizes | src/engine.rs:471 | the size that decides is the sum of the lengths of the table files of a level |
| Versions.ComputeSpan | src/engine.rs:493-511 | one pass gives the hull of the key ranges |
| Versions.PushOverlapping | src/engine.rs:456-462 | exactly the overlapping tables are appended, in order |
| Versions.FindLowerOverlap | src/engine.rs:400-411 | true exactly when some table below the output level overlaps some input |
| Versions.Version.ApplyCompaction | src/engine.rs:513-523 | the levels show the installed version of the specification, and no table appears that was not there or is not the output |
| Versions.Version.InsertNewest | src/engine.rs:291-294 | the table is first in L0 and nothing else moves |
| Versions.Version.TablesNewestFirst | src/engine.rs:73-82 | L0 first, then each deeper level |
| SsTables.Create | src/sstable.rs:66-189 | sorts the entries, writes the file of the block cutting, index, filter and footer, and keeps in memory what the file holds; sorted entries are written as they are |
| SsTables.SortEntriesSorts | src/sstable.rs:83 | the sort orders the entries by key, in slice order (`Bytes.LtFirstDifference`), and keeps, for every key, its entries in the order they came |
| Bytes.LtFirstDifference | src/sstable.rs:83 | keys are ordered as byte slices: a proper prefix comes first, otherwise the smaller byte at the first difference decides |
| SsTables.WriteBlocks | src/sstable.rs:95-136 | one pass over the entries writes the data area and the index of the cut blocks, with the offset after them |
| SsTables.FlushDataBlock | src/sstable.rs:445-453 | what is appended decodes to the buffered entries, over exactly the recorded length, whenever the block fits its 32-bit fields |
| TableFiles.BlocksFlatten | src/sstable.rs:102-136 | cutting into blocks loses no entry, adds none, keeps the order, and leaves no empty block but that of an empty table |
| TableFiles.CutFills | src/sstable.rs:102-121 | every block but the last holds at least `block_size` bytes of entries, and no block did before its last entry |
| TableFiles.BlocksFit | src/sstable.rs:95-136 | within the key and value limits and up to the largest safe block size, no block length or count wraps in 32 bits |
| TableFiles.RowsTile | src/sstable.rs:102-138 | the recorded regions tile the data area: the first starts at zero, each starts where the one before ends, and the last ends where the index begins |
| TableFiles.RegionHolds | src/sstable.rs:111-138 | the region recorded for a block holds the bytes of that block |
| TableFiles.OpenedFile | src/sstable.rs:192-265 | opening what was written gives back the same index and filter |
| TableFiles.OpenTable | src/sstable.rs:192-265 | opening what was written gives back the rows and the filter it was written from; a file changed inside four consecutive bytes of its index, filter or footer is refused |
| SsTables.Open | src/sstable.rs:192-265 | a file written within the limits opens to the table its writer kept, under the given id; one damaged behind its data does not open |
| TableFiles.ChangedFileRejected | src/sstable.rs:203-254 | a change inside four consecutive bytes of index, filter and footer, across their borders included, makes opening fail |
| TableLookup.ChangedFileDetected | src/sstable.rs:203-467 | a table file changed inside four consecutive bytes, anywhere, does not open or has a block that is not read |
| SsTables.CreatedServes | src/sstable.rs:66-265 | a table written within the limits reopens to what its writer kept, and its blocks, index, key range and filter serve exactly its entries |
| SsTables.FilterHolds | src/sstable.rs:83-86 | the filter of a table reports every key of it |
| SsTables.FilterBits | src/sstable.rs:84-87 | the filter of a table has exactly the bits that the probes of its keys set |
| SsTables.Get | src/sstable.rs:269-281 | range check, filter, index search, cached or uncached block load and in-block search together return the entry of the key or none, as a search of the whole run does; an error means a block cannot be read, never a wrong answer |
| SsTables.BlockForKey | src/sstable.rs:330-342 | the binary search returns a row whose range holds the key, and none only if no row does |
| SsTables.SearchBlock | src/sstable.rs:563-568 | the binary search in a sorted block finds what a linear search finds |
| SsTables.LoadBlock | src/sstable.rs:344-363 | the block on disk, from the cache or the file, and the cache stays faithful to the disk |
| TableLookup.CoveringBlockAnswers | src/sstable.rs:330-364 | the one block whose range holds the key answers for the table, and no block does if no range holds it |
| TableLookup.RuledOut | src/sstable.rs:270-290 | a key the range or the filter rules out is not in the table |
| TableLookup.WrittenServes | src/sstable.rs:66-265 | blocks, rows and filter written for a run serve that run |
| TableLookup.IntactStream | src/sstable.rs:401-418 | reading an intact table front to back yields exactly its entries |
| TableLookup.BrokenStream | src/sstable.rs:388-418 | a table with an unreadable block yields the entries of the blocks before it and then the error of that block |
| TableIterators.SsTableIterator.Start | src/sstable.rs:376-386 | a new iterator has the whole table before it, or fails as its first block does |
| TableIterators.SsTableIterator.LoadNextBlock | src/sstable.rs:388-398 | loading the next block changes nothing of what is still to come; a block that cannot be read is reported and stays next |
| TableIterators.SsTableIterator.Next | src/sstable.rs:404-418 | yields item by item what the table holds up to the first block that cannot be read, then that error |
| Blocks.ReadDataBlock | src/sstable.rs:455-502 | decodes a block or gives the error of its first defect |
| Blocks.DecodeBlockEncoded | src/sstable.rs:427-502 | a block decodes to the entries it was built from |
| Blocks.ChangedBlockRejected | src/sstable.rs:455-467 | a block changed inside four consecutive bytes, of its body, its checksum or across both, is not read |
| Indexes.EncodeIndex | src/sstable.rs:504-518 | the loop writes the checksummed rows |
| Indexes.DecodeIndex | src/sstable.rs:520-561 | decodes the rows or gives the error of the first defect |
| Indexes.IndexOfEncoded | src/sstable.rs:504-561 | an index decodes to the rows it was built from |
| Blooms.BloomFilter.Insert | src/bloom.rs:44-51 | the bits become the old bits with the probes of the key set |
| Blooms.ProbedSets | src/bloom.rs:44-51 | after an insertion a bit is set exactly if it was set or is one of the probes |
| Blooms.ProbeWalks | src/bloom.rs:44-51 | probe i is the first hash plus i times the second, modulo 2^64 and then the bit count, although the code wraps after each operation |
| Blooms.BitOrder | src/bloom.rs:49 | bits are counted from the least significant one of the first byte |
| Blooms.MightContain | src/bloom.rs:55-68 | true exactly if the filter has bits and every probe of the key is set |
| Blooms.NoFalseNegatives | src/bloom.rs:44-104 | after any history of insertions and trips through the file, every inserted key is reported |
| Blooms.DecodeEncoded | src/bloom.rs:71-104 | decoding an encoded filter gives it back exactly when its length fits 32 bits, and reports corruption otherwise |
| Blooms.EncodeDecoded | src/bloom.rs:71-104 | bytes that decode are the encoding of what they decode to |
| Caches.BlockCache.constructor | src/cache.rs:35-44 | empty, with a limit of at least one byte |
| Caches.BlockCache.Get | src/cache.rs:47-56 | a hit returns the held block and makes it the most recent; a miss changes nothing; the invariant (queue is the keys by recency without repeats, bytes are the exact sum, within the limit) is kept |
| Caches.BlockCache.Insert | src/cache.rs:59-69 | the new block is the most recent; the fewest least recently used blocks leave so that the rest fits; every held block is unchanged |
| Caches.BlockCache.Touch | src/cache.rs:81-86 | the key moves to the back of the queue and nothing else changes |
| Caches.BlockCache.EvictToFit | src/cache.rs:88-97 | the least number of front keys leaves that makes the rest fit, and the byte count stays exact, so no subtraction saturates |
| Caches.QueueInserted | src/cache.rs:59-69 | replacing or adding a block moves its key to the back and trades its size in the total |
| Caches.PayloadCounts | src/cache.rs:99-112 | a block weighs the bytes of its keys and values, or one byte if it has none |
| Caches.LeastMeans | src/cache.rs:88-97 | nothing is evicted if everything fits, what is left fits, and with the last evicted block it would not |
| Wals.Wal.Append | src/wal.rs:70-80 | a record with a key of at most 65536 and a value of at most 67108864 bytes goes to the end of the file; a larger one is refused with KeyTooLarge or ValueTooLarge and leaves the file as it was |
| Wals.Wal.Truncate | src/wal.rs:109-114 | the log is empty |
| Wals.Wal.ReplayAll | src/wal.rs:96-98 | every committed operation in order, or the first error |
| Wals.WalIterator.Next | src/wal.rs:146-175 | the next whole record decoded, nothing at the end or at a torn tail, an error on an oversized header |
| Wals.PrefixReplay | src/wal.rs:146-175 | for every list of operations and every byte cut of its log, replay succeeds and returns exactly the operations whose records end at or before the cut |
| Wals.CompleteIsLongest | src/wal.rs:146-175 | those records are the longest prefix of the log that fits in the cut |
| Wals.AppendAfterTear | src/wal.rs:70-80 | an append behind any leftover bytes is replayed after the old operations exactly when those bytes and the record begin with the record itself and the remainder replays to nothing; without leftover bytes always |
| Wals.AppendAfterTornTail | src/wal.rs:70-80 | when up to four bytes of the last record are missing and the next record does not supply them, replay of the grown log fails |
| Records.DecodeEncoded | src/record.rs:51-128 | decoding an encoded operation gives it back |
| Records.EncodeDecoded | src/record.rs:51-128 | whatever decodes is exactly the encoding of its result |
| Records.ChangedRecordRejected | src/record.rs:81-109 | a record of any length changed in its checksum, or in any four consecutive bytes of its body (so in any single byte), does not decode |
| Manifests.Manifest.AddTable | src/manifest.rs:101-108 | refused exactly when the id is listed, and then nothing changes; otherwise the table is last in the list and in the log |
| Manifests.Manifest.RemoveTables | src/manifest.rs:111-117 | one removal record per id in order, and the list without them; the file still replays to the fields |
| Manifests.Manifest.NextTableId | src/manifest.rs:120-127 | hands out the id and persists its successor |
| Manifests.Manifest.Recover | src/manifest.rs:65-98 | succeeds exactly if the whole records of the file are valid and add no id twice, and then the fields are what they build |
| Manifests.ManifestPrefixReplay | src/manifest.rs:65-98 | any byte cut of a log the manifest wrote itself replays, to the state after its complete records |
| Manifests.IdsNeverRepeat | src/manifest.rs:120-127 | of two ids handed out, in one session or across restarts, the later is larger |
| Manifests.RecordRoundTrip | src/manifest.rs:154-182 | a record is 17 bytes and decodes to itself |
| Manifests.AppendAfterTear | src/manifest.rs:138-151 | a record appended behind a torn one is read as the 17 bytes that begin with the torn part: replay follows what they decode to, or fails if they do not decode; without a tear they decode to the record |
| Manifests.AppendAfterTornRecord | src/manifest.rs:138-151 | when up to four bytes of the torn record are missing, the appended record never takes effect: the torn record takes effect in its place if the appended one begins with the missing bytes, and otherwise the manifest is refused on the next open |
| MemTables.MemTable.Insert | src/memtable.rs:114-126 | binds the key, keeps the order, and keeps the size estimate equal to the bytes held, without going below zero; a first entry sets it to the key and value bytes of that entry |
| MemTables.MemTable.Put | src/memtable.rs:54-56 | the key is bound to the value |
| MemTables.MemTable.Delete | src/memtable.rs:62-64 | the key is bound to a tombstone |
| MemTables.MemTable.Clear | src/memtable.rs:100-103 | no entries and no bytes |
| MemTables.UpsertedLookup | src/memtable.rs:114-126 | binding a key changes the answer for that key alone |
| MemTables.UpsertedWeight | src/memtable.rs:114-126 | overwriting trades value bytes; a new key adds its own bytes too |
| MemTables.WeightCounts | src/memtable.rs:31-36 | the size of a memtable is the number of its key and value bytes, a tombstone counting its key only, and is additive over entries |
| Crc.ComputeCrc32 | src/crc.rs:8-19 | the nested loop computes the register function of the message |
| Crc.ComputeByte | src/crc.rs:11-17 | one byte into the register, by eight shifts |
| Crc.RegisterInjective | src/crc.rs:8-19 | different registers stay different over any further bytes |
| Crc.BurstChangesCrc | src/crc.rs:8-19 | any change confined to four consecutive bytes changes the checksum, in messages of any length |
| Crc.SealedRegister | src/crc.rs:8-26 | running the register over any message and its stored checksum ends in one and the same state |
| Crc.CheckValue | src/crc.rs:40-42 | the published check value of the standard, for the nine digits |
| Bytes.U32RoundTrip | src/crc.rs:22-26 | reading what was written in four bytes gives the number back |
| Bytes.U64RoundTrip | src/crc.rs:29-33 | reading what was written in eight bytes gives the number back |
| Runs.EndsAreHeld | src/sstable.rs:240-246 | the smallest and largest key of a run are keys it holds, and no key of it lies outside them |
| Bytes.LittleEndianDigit | src/crc.rs:22-33 | byte i of a stored number is its digit of weight 256^i |
| Layouts.NumberLayout | src/crc.rs:22-26 | a 32-bit number is its four base-256 digits, least significant first |
| Layouts.RecordLayout | src/record.rs:51-78 | checksum, 1 for a put or 2 for a delete, key length, value length, key, value |
| Layouts.EntryInBlock | src/sstable.rs:427-443 | 1 for a value or 2 for a tombstone, key length, value length, key, value |
| Layouts.BlockLayout | src/sstable.rs:445-453 | number of entries, entries, checksum of both |
| Layouts.RowLayout | src/sstable.rs:504-518 | first key and last key behind their lengths, offset and length of the block |
| Layouts.FilterLayout | src/bloom.rs:71-80 | hash count, byte count, bytes, checksum |
| Layouts.ManifestLayout | src/manifest.rs:154-182 | checksum, 1, 2 or 3 for the kind, id, level, in 17 bytes |
| Layouts.FooterBytes | src/sstable.rs:140-156 | offset and length of index and filter, format version 1, checksum, magic number 0x4C534D31 |
| Layouts.RecordErrors | src/record.rs:81-128 | a record is refused for its checksum exactly if it is framed right and the checksum is wrong, and as corrupted in every other case |
| Layouts.BlockErrors | src/sstable.rs:455-502 | a block is refused for its checksum exactly if it is long enough and the checksum is wrong, and as corrupted in every other case |
| Layouts.NotATable | src/sstable.rs:203-215 | a file shorter than a footer or without the magic number at its end is refused as corrupted |
| Layouts.FooterErrors | src/sstable.rs:216-219 | a footer with a wrong checksum is reported as such |
| Wals.OversizedIsCorrupt | src/wal.rs:146-175 | a header with a key length above 65536 or a value length above 67108864 is corruption, whether or not the record is all there |

## Left out

- File system calls (fsync, rename, directory sync, temporary names, paths) are steps that happen or do not; files are byte sequences.
- The worker thread, its channel and the locks: only the order of steps they allow is kept, and a compaction request after a flush is left to the run.
- Behaviour of a process that goes on after a failed write or sync.
- Two compactions at the same time, which the code does not exclude.
- Deletion of old table files: the code deletes an input only when no one else refers to it (src/engine.rs:437-441), but the snapshot of the version taken at src/engine.rs:387 is still alive there and refers to every input, so files accumulate in the code as they do here.
- Hit, miss and skip counters, failpoints, `len`, `is_empty` and other plain getters, error message text.
- The floating-point sizing of Bloom filters and their false-positive rate; the byte count and hash count of a filter are given.
- FNV and splitmix: the pair of hashes of a key is a given function.
- Engines.Engine.Scan: reads each table as the stream of its entries instead of through an iterator object per table; `SsTableIterator.Next` is proved to yield that stream.
- MergeLoop.MergeTables: takes entry streams with a possible read error instead of iterator objects; the heap is a multiset from which a least item is taken.
- SsTables.BlockForKey: the library's binary search is written as a textbook loop; only its result is promised.
- Opening.Open: the check that a file name does not end in `.tmp` is left out, and so is creating the directory.
- Manifests.Manifest.NextTableId: the id counter is required to stay below 2^64.
- Versions.SumSizes: level sizes are added without 64-bit wrap-around; the first limit wraps and the later ones saturate as in the code.
- Changes to more than four bytes, and changed length fields inside a log, where the checksum gives no guarantee.
- The benchmark and workload programs.
