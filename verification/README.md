# yuntun: the catalog, the chunk store and the protocols between them

yuntun is a data lake in which a row goes from a write-ahead log to a chunk in memory, from there to an object file
that a catalog commits, and later, through compaction, to a merged file. This project models the logic that makes this
safe, as Dafny code, and proves what it keeps.

The catalog (`CatalogModel`, `CatalogOps`) is a deterministic state machine over files, deletion vectors, leases,
client keys, purges and in-flight batches; every operation takes a snapshot number and visibility is an inequality
over snapshots. Each operation is a function on states; the class `CatalogState` (module `CatalogClass`) performs it
in place, task directory included, and every method is proved equal to that function, so that the theorems about runs
of operations hold of the object. They are: isolation of snapshots (`Isolation`), the effect on the present
(`CurrentView`), incremental synchronisation (`Sync`), leases and fencing (`Leases`), replay (`Replay`), at-most-once
commits (`AtMostOnce`), the derived task directory (`TaskDirectory`, `TaskFidelity`) and the exported snapshot
(`SnapshotMsg`). `Evolution` says how one step moves the data and that the invariant holds in every reachable state.

The chunk store (`ChunkModel`, `ChunkOps`) is treated the same way: `ChunkStore` (module `ChunkStoreClass`) performs
in place what the functions of `ChunkOps` specify. The registry and the memory ledger (`ChunkRegistry`), whole runs
(`ChunkRuns`), relief under memory pressure (`ChunkRelief`), timing (`ChunkTiming`) and the round of the accumulator
(`TickExecution`) are theorems about these functions. `Handoff` joins both halves: a reader that combines the files of
a snapshot with the local chunks; `TwoStepReads` lets anything happen within a read, and `RefusedFlush` follows two
flushes that declare the same client key. `WalLog` and `FlushKeys` model the log, `WalRecovery` any number of crashes
and restarts, `Restart` the start of a server on the catalog itself, `DmlReplay` the statements applied again
afterwards, and `RecoveryRuns` runs from an empty log in which recovery goes wrong.

Compaction is `Deletion` (applying vectors to a stream of batches), `Merging` (reading the inputs), `Compaction` (what
a reader sees before, during and after) and `CompactionRuns` (with other operations in between). `OrphanGc`
interleaves writers, compactors and collectors, `GcRaces` says exactly when a visible file loses its object,
`ObjectPaths` models the naming of objects and the collection round, `LeaseSets` any number of statements that take
sets of leases, and `LeaseSetClass` the call itself. `Calendar`, `TimeWindow` and `SpillHeader` are the civil calendar
(month lengths of section 5.7 and leap years of Appendix C of RFC 3339), the names of minute windows with their
parser, and the binary header of spill files with its parser. `Common`, `Strings` and `Sums` are shared notions.

Where the code does not do what one would expect of it, an equivalence states the exact condition, and a concrete run
from the beginning, where one is named, shows that the condition fails in practice:

- A flush does not look at the answer of the catalog (`crates/ingest/src/flush.rs:275`), and the keys it declares are
  not filtered by group. If a row with a client key lies in the intervals of two chunks, the second file is refused,
  its chunk is marked all the same, and its rows are in neither source: `Handoff.HandoffExactlyOnce` and
  `RefusedFlush.TwoFlushesIff` are the equivalences, `RefusedFlush.RowLost` is a run.
- The same happens when batches are committed again after a restart; besides, a batch that was pending is written
  again with the rows of its table in its interval, whatever their shard, window and chunk. `WalRecovery.EveryRestart`
  has the equivalences for every restart of every run, row by row (`WalRecovery.ExactlyOnceIff`) and in terms of the
  log and the recorded intervals (`WalRecovery.OnceIffClean`, `WalRecovery.OnceIffKeysDisjoint`);
  `RecoveryRuns.SharedKeyLoses`, `RecoveryRuns.SecondRestartDoubles` and `RecoveryRuns.CausesCancel` are runs for the
  first cause, the second, and both making up for each other.
- A purge that is replayed after a restart on an empty catalog takes every recovered file of its table, those written
  after it included (`DmlReplay.GoneIff`, `DmlReplay.OnlyPurgedRowsGoneIff`; run `RecoveryRuns.LaterRowsGone`), and a
  DELETE behind it then stops the start (`DmlReplay.DeleteStopsIff`).
- An UPDATE uploads its new rows without registering the batch in flight (`crates/sql/src/dml.rs:638-745`), and an
  entry in flight can expire. `GcRaces.LostIff` is the equivalence for every visible file; `GcRaces.UpdateLosesObject`
  and `GcRaces.ExpiryLosesObject` are runs.
- Reading a whole table takes the watermark before the rows (`crates/chunk/src/store.rs:1114-1126`), unlike reading a
  shard (`TwoStepReads.WatermarkThenRowsIff`).
- A batch that is compacted away before the store learned of its commit is read twice (`Handoff.ReadOnceIff`).
- An append that is refused after some batches leaves bytes in the chunk that the ledger never counts
  (`ChunkRegistry.AppendBalancedIff`) and that are given back all the same, so that it can fall below zero
  (`ChunkRuns.LedgerBelowZeroIff`; run `ChunkRuns.FallsBelowZero`), or an empty chunk that later blocks all spilling
  (`ChunkRelief.EnforceRelieves`; run `ChunkRelief.BlockedForGood`).
- A compaction reads the snapshot before it takes the lease: a deletion that slips in is undone
  (`CompactionRuns.MergeRightIff`).
- A replayed DELETE answers with an error once an anchor is gone (`Replay.DeleteReplayAnswers`). A commit without
  files leaves no trace of its batch, so it is accepted again when replayed (`AtMostOnce.ReplayAcceptedIff`).
- A lease can have two holders at one instant if a clock goes back (`Leases.TenuresOrderedIff`; run
  `Leases.ClockGoingBackOverlaps`).
- Dropping a table leaves its tasks behind (`TaskFidelity.DropTableFaithfulIff`).
- In a schema or a table named `dv` data files are not recognised by their own batch (`ObjectPaths.DataFileKeyIff`).
- A failed request for several leases also returns a lease its holder had before
  (`LeaseSetClass.OwnLeaseSurvivesIff`).
- A window before the year 0 has a name that cannot be read back (`TimeWindow.WindowRoundTripIff`); a schema of 2^32
  bytes or more breaks the spill header (`SpillHeader.RoundTripIff`).

Premises that callers have to meet are explicit in the contracts: products of a compaction have fresh batch
identifiers and one shard, revocations are not dated in the future, a chunk has one batch that is not known to have
failed, and batch identifiers are not reused.

## Model

| member | source | states |
|---|---|---|
| CatalogClass.CatalogState.constructor | crates/catalog/src/state.rs:131-137 | a new catalog is at snapshot 1, has the default schema and nothing else |
| CatalogClass.CatalogState.AcquireLease | crates/catalog/src/state.rs:185-238 | grants, extends or refuses in place exactly as the operation whose epochs and tenures are proved safe |
| CatalogClass.CatalogState.RenewLease | crates/catalog/src/state.rs:244-262 | extends only for the holder, its epoch, and before expiry; otherwise no lease changes |
| CatalogClass.CatalogState.ReleaseLease | crates/catalog/src/state.rs:270-281 | frees the lease for the holder and its epoch, keeping the epoch; otherwise nothing changes |
| CatalogClass.CatalogState.RefreshTask | crates/catalog/src/state.rs:304-378 | rederives the task of one shard from files and active vectors, keeps the age of a task that stays, and touches no other shard |
| CatalogClass.CatalogState.DeriveTask | crates/catalog/src/state.rs:304-378 | the loops over files and vectors compute the reason, the file count and the deleted rows of a shard |
| CatalogClass.CatalogState.ShardsOfPaths | crates/catalog/src/state.rs:381-390 | the shards refreshed for a set of paths are those of the first file, in key order, at each path |
| CatalogClass.CatalogState.CommitFiles | crates/catalog/src/state.rs:561-663 | refuses several files, recognises a known batch, drops the in-flight entry, checks the keys, and commits file, claims, versions and task together |
| CatalogClass.CatalogState.PurgeTable | crates/catalog/src/state.rs:735-817 | removes all live files and vectors of a table at one snapshot, once per identifier, and answers a repetition with the recorded snapshot |
| CatalogClass.CatalogState.ApplyDeletions | crates/catalog/src/state.rs:838-903 | the first bad entry in request order refuses everything; otherwise the unknown entries enter at one snapshot and their shards are refreshed |
| CatalogClass.CatalogState.ApplyUpdate | crates/catalog/src/state.rs:924-1049 | files and vectors that are not known yet enter at one snapshot, the identifier is claimed, and every refusal leaves the whole state as it was |
| CatalogClass.CatalogState.RevokeDeletionsForFile | crates/catalog/src/state.rs:1068-1082 | the unrevoked vectors of a path end at the given snapshot and its shard is refreshed; without any, nothing changes |
| CatalogClass.CatalogState.DropShard | crates/catalog/src/state.rs:1090-1105 | the live files of one shard end at a new snapshot, and their number is returned |
| CatalogClass.CatalogState.DropTable | crates/catalog/src/state.rs:1111-1129 | the table, its schemas, files and vectors are gone for good, and the task directory is not touched |
| CatalogClass.CatalogState.CommitCompaction | crates/catalog/src/state.rs:1199-1280 | the fence is checked first, then the inputs; an accepted commit swaps inputs for products at one snapshot and gives every touched table its own version |
| CatalogClass.CatalogState.SweepExpiredInFlight | crates/catalog/src/state.rs:1336-1341 | removes exactly the entries that are old enough and returns their number |
| CatalogClass.CatalogState.SweepExpiredIdempotency | crates/catalog/src/state.rs:1156-1161 | removes exactly the keys that are old enough and returns their number |
| CatalogClass.CatalogState.ListKnownBatchIds | crates/catalog/src/state.rs:1296-1305 | the batches a reader of the current snapshot may need and those in flight, in ascending order |
| Evolution.StepAdvances | crates/catalog/src/state.rs:561-1280 | every operation but dropping a table only adds files at the next snapshot, ends live ones there, adds vectors, and ends unrevoked ones |
| Evolution.RunValid | crates/catalog/src/state.rs:46-137 | in every reachable state keys match their records, no number lies beyond the current snapshot, and no table version beyond the manifest version |
| Isolation.FilesIsolated | crates/catalog/src/state.rs:676-690 | over any run without dropped tables and overwritten files, what is visible at a snapshot already reached never changes |
| Isolation.ListedChangesOnlyByRevoke | crates/catalog/src/state.rs:1055-1062 | the active vectors at a snapshot already reached change in a step if and only if it is a revocation dated at or before that snapshot that ends one of them |
| Isolation.EffectiveIsolated | crates/catalog/src/state.rs:1068-1082 | if revocations only concern paths whose files are already gone at the snapshots they touch, the vectors that matter to a reader never change |
| CurrentView.CommitShows | crates/catalog/src/state.rs:561-663 | after an accepted commit a reader of the newest snapshot sees what it saw before and the new file, and the same vectors |
| CurrentView.PurgeEmpties | crates/catalog/src/state.rs:735-817 | after a new purge the newest snapshot of the table shows no file and every other table shows what it showed |
| CurrentView.PurgeEmptiesVectors | crates/catalog/src/state.rs:735-817 | its vectors are gone too, except that a purge that found no live file leaves them |
| CurrentView.DropShardRemoves | crates/catalog/src/state.rs:1090-1105 | the newest snapshot loses exactly the files of the dropped shard and no vector |
| CurrentView.DeletionsShow | crates/catalog/src/state.rs:838-903 | an accepted deletion makes exactly the entries not known before active, changes no visible file, and knows all its entries afterwards |
| Sync.IncrementalEqualsFull | crates/catalog/src/state.rs:703-712 | overwriting an old copy of the manifest with the files changed since its snapshot gives the new manifest, for every run without dropped tables |
| Sync.DeltaComplete | crates/catalog/src/state.rs:1180-1193 | every table whose files differ between two states of a run is named by the delta, dropped tables included |
| Leases.EpochGrowsWithHolder | crates/catalog/src/state.rs:185-238 | over any run the epoch of a lease never decreases and strictly grows with every new holder |
| Leases.StaleEpochIsPowerless | crates/catalog/src/state.rs:244-281 | once a larger epoch is recorded, after any run, no renewal, release or compaction commit with a smaller one succeeds |
| Leases.TenuresDisjoint | crates/catalog/src/state.rs:185-281 | while clocks do not go back, no instant belongs to the recorded tenures of two epochs |
| Leases.TenuresOrderedIff | crates/catalog/src/state.rs:185-281 | over any run, whatever the clocks say, every recorded tenure ends before each later one begins if and only if no new epoch is granted with a clock reading before the recorded end of an earlier one |
| Leases.ClockGoingBackOverlaps | crates/catalog/src/state.rs:185-281 | a run with a clock that goes back after which one instant belongs to the recorded tenures of two holders |
| Replay.ReplayIsNoOp | crates/ingest/src/dml.rs:53-199 | applying an accepted commit, UPDATE, PURGE or DELETE again after any further operations leaves the whole state equal |
| Replay.LogReplayIsNoOp | crates/ingest/src/dml.rs:53-199 | so does replaying any part of a log of such operations, in any order and any number of times |
| Replay.PurgeReplayAnswers | crates/catalog/src/state.rs:744-773 | a replayed purge removes nothing committed since and answers with the snapshot of the first one |
| Replay.DeleteReplayAnswers | crates/catalog/src/state.rs:843-903 | a replayed DELETE succeeds if and only if all its anchors are alive, because the anchor check comes before the duplicate check |
| Replay.UpdateIsAtomic | crates/catalog/src/state.rs:952-1023 | after a successful UPDATE all files and vectors are there, the new ones start at one common snapshot, and the old ones are as they were |
| AtMostOnce.AcceptedOnce | crates/catalog/src/state.rs:561-663 | after an accepted commit, with or without a file, no run without expiry, dropped tables or UPDATE identifiers among its keys leads to the acceptance of another batch with one of its keys, nor, if it had a file, of its own batch |
| AtMostOnce.ReplayAcceptedIff | crates/catalog/src/state.rs:561-663 | sent again after any such run, the same commit is accepted again if and only if its batch is no file by then, which never happens to a commit with a file |
| AtMostOnce.RefusedIff | crates/catalog/src/state.rs:561-663 | in every run from the empty catalog, a commit of an unknown batch is refused if and only if an earlier accepted commit or record of another batch bound one of its keys and neither an expiry nor an UPDATE identifier unbound it since |
| TaskDirectory.FaithfulIsRebuilt | crates/catalog/src/state.rs:1590-1652 | the directory matches the derivation for every shard exactly if it equals, up to ages, the one a restore rebuilds |
| TaskFidelity.RunFaithful | crates/catalog/src/state.rs:304-390 | although each operation refreshes only the shards it touched, the directory matches the full derivation after any disciplined run |
| TaskFidelity.DirectoryIsRebuilt | crates/catalog/src/state.rs:1590-1652 | from the empty catalog, the directory kept up to date is the one rebuilt from scratch, up to ages |
| TaskFidelity.DropTableFaithfulIff | crates/catalog/src/state.rs:1111-1129 | the directory stays right after dropping a table if and only if the table had no task |
| TaskFidelity.AgeIsKeptThroughout | crates/catalog/src/state.rs:350-378 | over any run during which a shard never leaves the directory its task keeps its known age |
| SnapshotMsg.ReadList | crates/catalog/src/state.rs:1446-1671 | the loop that fills a map refuses a missing value and a repeated key |
| SnapshotMsg.CollectIff | crates/catalog/src/state.rs:1446-1671 | a list is accepted exactly if every value is present and no key repeats, and then the map holds its entries and no others |
| SnapshotMsg.AcceptedIff | crates/catalog/src/state.rs:1446-1671 | a message is restored exactly if version, revision, default schema, completeness and uniqueness all hold |
| SnapshotMsg.RoundTrip | crates/catalog/src/state.rs:1353-1429 | the export of a valid state passes every check and restores the same state with the directory rebuilt |
| SnapshotMsg.ReachableRoundTrip | crates/catalog/src/state.rs:1353-1429 | so does the export of every reachable state |
| SnapshotMsg.RestoredRunsAlike | crates/catalog/src/state.rs:1446-1671 | any later operations give equal states on the original and the restored catalog, and the same tasks up to ages |
| LeaseSets.GrantedIffIdle | crates/catalog/src/lease.rs:70-75 | while nothing expires, a statement is granted its next key exactly if nobody has it |
| LeaseSets.NotAllFail | crates/catalog/src/lease.rs:52-95 | among any number of statements taking keys in ascending order, under every interleaving of their steps, not all fail |
| LeaseSets.FailedHoldsNothing | crates/catalog/src/lease.rs:76-88 | a statement that failed holds none of its keys |
| LeaseSets.HoldersExclude | crates/catalog/src/lease.rs:52-95 | two statements that hold all their keys at the same time share no key |
| LeaseSets.OppositeOrdersAllFail | crates/catalog/src/lease.rs:66-68 | without the common order two statements can both fail |
| LeaseSetClass.Acquire | crates/catalog/src/lease.rs:52-95 | the call sorts, takes and rolls back in place exactly as the protocol run by one statement alone, and returns the keys and epochs it holds |
| LeaseSetClass.RollBack | crates/catalog/src/lease.rs:76-88 | the reverse loop gives back every lease taken so far |
| LeaseSetClass.LeaseSet.Release | crates/catalog/src/lease.rs:107-117 | gives back every lease still held under its recorded epoch, and no lease that was taken over or never listed |
| LeaseSetClass.SettleIsProtocol | crates/catalog/src/lease.rs:52-95 | the outcome of the call is that of a run of the interleaved protocol in which nobody else acts |
| LeaseSetClass.AllOrNothing | crates/catalog/src/lease.rs:52-95 | all leases are granted exactly if all are free; otherwise those before the first that is not free are back without a holder and every other is as it was |
| LeaseSetClass.OwnLeaseSurvivesIff | crates/catalog/src/lease.rs:76-88 | after a failed call a lease its holder had before is still its own if and only if its key comes after the refused one; otherwise it was handed back |
| Deletion.Mask | crates/compaction/src/lib.rs:456-485 | the loop over one batch keeps the rows whose position, offset included, is not deleted |
| Deletion.ApplyToBatches | crates/compaction/src/lib.rs:456-485 | filtering batch by batch with a running offset equals filtering the concatenation; batches left without rows are dropped; a position beyond the file is refused |
| Deletion.KeepRanges | crates/model/src/dv.rs:148-171 | the ranges are ascending, disjoint and exactly the positions that are not deleted; a position beyond the rows is refused |
| Deletion.SlicesKeep | crates/model/src/dv.rs:148-171 | reading the ranges gives the same rows as dropping the deleted positions |
| Merging.DeletionBitmaps | crates/compaction/src/lib.rs:427-449 | one union of active vectors for each file that has any; an unreadable bitmap refuses the merge |
| Merging.MergeInputs | crates/compaction/src/lib.rs:255-300 | the merged rows are, as a multiset, what a reader at the snapshot sees of the inputs, and anything unreadable refuses the merge |
| Merging.NoWorkMissed | crates/compaction/src/lib.rs:416-421 | every shard that a policy no laxer than the thresholds of the directory would merge is in the directory |
| Compaction.CompactionKeepsMeaning | crates/compaction/src/lib.rs:214-404 | after the swap and any number of the revocations that follow, every table shows at every earlier snapshot what it showed and from the new one on what it showed just before |
| Compaction.CompactionRunKeepsMeaning | crates/catalog/src/state.rs:1199-1280 | the same for the catalog operations: an accepted commit, then the revocations one file at a time |
| CompactionRuns.ViewIsolated | crates/catalog/src/state.rs:1055-1082 | the rows of a table at a snapshot already reached stay the same over any run whose revocations are tidy |
| CompactionRuns.CompactionAmongOthers | crates/compaction/src/lib.rs:340-404 | whatever operations come between the commit of a merge and its revocations, every snapshot up to the new one shows what it should |
| CompactionRuns.InputsStayGone | crates/compaction/src/lib.rs:380-404 | the revocations of a merge are tidy whenever they come |
| CompactionRuns.MergeRightIff | crates/compaction/src/lib.rs:844-861 | a merge whose inputs were read before the lease was taken keeps the meaning if and only if no vector that took effect in between deletes a row of an input |
| OrphanGc.VisibleFilesHaveObjects | crates/compaction/src/lib.rs:650-717 | however writers that announce, upload and commit interleave with collectors that list, ask and delete, a visible file has its object if its batch was announced and never forgotten by the catalog |
| OrphanGc.ForgetsIff | crates/catalog/src/state.rs:1296-1341 | a batch in flight is forgotten by expiry, by being cleared and by a refused or empty commit of its own, and by nothing else |
| GcRaces.LostIff | crates/compaction/src/lib.rs:650-717 | in any run a visible file has lost its object if and only if a collector listed it, asked while the batch was neither in flight nor in a file, and then deleted it |
| GcRaces.UpdateLosesObject | crates/sql/src/dml.rs:638-745 | a run in which a collector deletes the object of an UPDATE between its upload and its application |
| GcRaces.ExpiryLosesObject | crates/catalog/src/state.rs:1336-1341 | a run in which an entry in flight expires between the upload and the commit, and the object is lost |
| ObjectPaths.DataFileKeyIff | crates/format/src/lib.rs:68-111 | a data file is recognised by its own batch if and only if neither its schema nor its table is called `dv` |
| ObjectPaths.CompanionKeys | crates/compaction/src/lib.rs:587-592 | vectors and indexes are recognised by the batch of their data file |
| ObjectPaths.OrphanCleaner.Round | crates/compaction/src/lib.rs:650-717 | deletes only unprotected objects first seen as orphans long enough ago, all of them if no two share a key, and remembers observation times of objects that still exist only |
| ChunkModel.AppendAllIff | crates/chunk/src/chunk.rs:264-300 | appending succeeds exactly if the chunk is open and every batch has its schema, and keeps the exact interval of log positions |
| ChunkModel.AppendAllContent | crates/chunk/src/chunk.rs:264-300 | the chunk gains exactly the batches before the first refused one, and their bytes |
| ChunkRegistry.AppendBalancedIff | crates/chunk/src/store.rs:353-445 | an append keeps the registry, and keeps the ledger equal to the resident bytes if and only if it is rejected for memory, or all batches have the schema of the chunk, or no bytes come before the first that has not |
| ChunkRuns.LedgerIsShortBySlips | crates/chunk/src/budget.rs:140-168 | after any operations from the empty store the ledger is short of the resident bytes by exactly the bytes that refused appends left behind |
| ChunkRuns.LedgerBelowZeroIff | crates/chunk/src/budget.rs:140-168 | after any operations from the empty store the ledger would be below zero if and only if refused appends left behind more bytes than are resident |
| ChunkRuns.FallsBelowZero | crates/chunk/src/budget.rs:162-168 | a run from the empty store, one refused append and its chunk moved to disk, that releases five bytes more than were reserved |
| ChunkRuns.RegistryHolds | crates/chunk/src/store.rs:353-525 | after any operations a chunk is open exactly if its key names it, no key has two, every batch of a chunk has the schema of the chunk, and every chunk has the exact interval of its log positions |
| ChunkRuns.AppendGoesToVersion | crates/chunk/src/store.rs:353-445 | a successful append goes to a chunk of its key and schema version, which keeps both over any later operations |
| ChunkRuns.StagesOnlyRise | crates/chunk/src/chunk.rs:112-124 | over any run no chunk goes back to an earlier state or changes key, schema or schema version, and none comes back once given up |
| ChunkRegistry.SealValid | crates/chunk/src/store.rs:505-525 | sealing keeps registry and ledger |
| ChunkRegistry.SpillValid | crates/chunk/src/store.rs:528-564 | spilling releases exactly the bytes of the chunk and keeps the registry |
| ChunkRegistry.EnforceValid | crates/chunk/src/store.rs:596-644 | relief under pressure keeps registry and ledger |
| ChunkRegistry.DiscardValid | crates/chunk/src/store.rs:815-842 | discarding releases exactly the bytes that were in memory and keeps the registry |
| ChunkRegistry.MarkCommittedValid | crates/chunk/src/store.rs:794-804 | marking keeps registry and ledger |
| ChunkRegistry.ReclaimSpec | crates/chunk/src/store.rs:847-892 | exactly the chunks of dropped eras and the committed ones the readers caught up with go, and the watermark covers every commit among the latter |
| ChunkRelief.EnforceRelieves | crates/chunk/src/store.rs:596-644 | the oldest closed chunks go to disk unchanged, at most 64, fewer only if the pressure is gone, none is left, or an empty one is in the way |
| ChunkRelief.EnforceCloses | crates/chunk/src/store.rs:602-622 | open chunks are closed exactly from the second step of the ladder on, with the pressure recorded as the reason |
| ChunkRelief.BlockedForGood | crates/chunk/src/store.rs:625-639 | a run from the empty store after which relief moves nothing however often it is tried, because an empty chunk is the oldest |
| ChunkStoreClass.ChunkStore.Append | crates/chunk/src/store.rs:353-445 | performs in place the append whose registry, ledger and timing theorems are proved: schema change, opening, filling, sealing, reserving, in this order |
| ChunkStoreClass.ChunkStore.SealById | crates/chunk/src/store.rs:505-525 | seals once, with the reason noted by the plan or by hand, and clears the key |
| ChunkStoreClass.ChunkStore.SpillById | crates/chunk/src/store.rs:528-564 | moves a closed chunk to disk and releases its bytes, or leaves everything |
| ChunkStoreClass.ChunkStore.EnforcePressure | crates/chunk/src/store.rs:596-644 | sealing the open chunks one by one and spilling in a loop comes to the relief specified at once |
| ChunkStoreClass.ChunkStore.PlanFlush | crates/chunk/src/store.rs:669-734 | lists, oldest first, exactly the chunks due to be sealed and flushed, notes the reasons, and counts the flushes that pressure brought forward |
| ChunkStoreClass.ChunkStore.NoteBatchId | crates/chunk/src/store.rs:786-791 | records the batch on the chunk and changes nothing else |
| ChunkStoreClass.ChunkStore.MarkCommitted | crates/chunk/src/store.rs:794-804 | records the commit snapshot on a closed chunk; an open one is refused |
| ChunkStoreClass.ChunkStore.Discard | crates/chunk/src/store.rs:815-842 | removes the chunk with its open entry and its bytes |
| ChunkStoreClass.ChunkStore.Reclaim | crates/chunk/src/store.rs:847-892 | the loop gives up chunk after chunk, and the bytes returned are the difference of the resident bytes |
| ChunkStoreClass.ChunkStore.ObserveDdl | crates/chunk/src/store.rs:466-480 | a creation starts a new epoch, a drop ends the present one |
| ChunkStoreClass.ChunkStore.VisibleChunksExcluding | crates/chunk/src/store.rs:901-928 | lists exactly the chunks of the current era that are not committed by the reader's snapshot and whose batch is not excluded |
| ChunkStoreClass.ChunkStore.ReadShardExcluding | crates/chunk/src/store.rs:1069-1091 | rows of one shard first, then the watermark and the flag |
| ChunkStoreClass.ChunkStore.ReadTableExcluding | crates/chunk/src/store.rs:1114-1126 | the watermark first, then the rows of the table |
| ChunkTiming.TickBoundsAge | crates/chunk/src/store.rs:669-734 | after an executed plan every chunk that is neither flushed nor discarded is in backoff or younger than the cap |
| ChunkTiming.RetryWithinBounds | crates/chunk/src/chunk.rs:409-413 | a chunk whose flush failed in a round is due again at the earliest after 0.4 seconds and at the latest after 30 |
| ChunkTiming.FullerFlushesMore | crates/chunk/src/store.rs:669-734 | of two rounds on stores that differ only in the memory used, the one with more flushes all that the other flushes, closes and discards the same, and what it flushes besides are chunks that wait only for their phase |
| TickExecution.Round | crates/ingest/src/pipeline.rs:555-578 | planning, sealing what the plan names, and flushing what it names - which discards a chunk whose era ended - on the store itself comes to the tick of the bounds |
| TickExecution.RoundIsTick | crates/chunk/src/store.rs:669-734 | the same for the functions, for any plan that lists what is due |
| ChunkTiming.OneChunkPerMinute | crates/chunk/src/store.rs:447-463 | without size, schema, pressure and manual seals, successive chunks of one key are created in strictly increasing minutes |
| Handoff.SourcesDeliver | crates/ingest/src/flush.rs:256-300 | either source delivers exactly the rows of the chunk, and no other chunk shares the file |
| Handoff.ReadOnceIff | crates/chunk/src/store.rs:901-928 | a read that is not flagged finds each live chunk in exactly one source if and only if its file was not replaced before the store learned of the commit and it was not marked after its file was refused |
| Handoff.HandoffExactlyOnce | crates/chunk/src/store.rs:847-928 | the same for every snapshot after every interleaving of appends, seals, spills, naming, accepted and refused commits, marks, discards, reclaims, definitions and other catalog operations |
| RefusedFlush.TwoFlushesIff | crates/ingest/src/pipeline.rs:719-737 | of two flushes in a row the second chunk is marked without a file exactly if a row with a client key lies in both intervals |
| RefusedFlush.RowLost | crates/ingest/src/flush.rs:256-300 | a run from the empty store and catalog after which the one row of the second shard is neither shown locally nor in a file, and the read is not flagged |
| TwoStepReads.RowsThenWatermark | crates/chunk/src/store.rs:1069-1091 | rows first and watermark afterwards: whatever happens in between, an answer that is not flagged is right exactly but for the two failures of one instant |
| TwoStepReads.WatermarkThenRowsLoses | crates/chunk/src/store.rs:1114-1126 | watermark first: a chunk committed later and given up in between is in neither source and the earlier watermark does not tell |
| TwoStepReads.WatermarkThenRowsIff | crates/chunk/src/store.rs:1114-1126 | with the watermark first there is exactly one more failure: copies were given up in between, for readers that had reached a commit the reader has not |
| WalLog.LivenessAt | crates/ingest/src/pipeline.rs:975-993 | the loop over the definitions computes the life of the table at a log position |
| WalLog.EraGateIff | crates/ingest/src/pipeline.rs:975-993 | alive at both points in equal epochs holds exactly if the table was alive and no definition of it lies between |
| WalLog.GatherPartitions | crates/ingest/src/pipeline.rs:649-689 | every row of a live table that no batch claims is in exactly one chunk of its group, whatever the points at which chunks are closed |
| WalLog.ChunkFillsHull | crates/chunk/src/store.rs:378-431 | the interval of a chunk holds no unclaimed row of its group that is not in the chunk |
| WalLog.HullsInOrder | crates/chunk/src/store.rs:378-431 | the intervals of two chunks of one group are disjoint and ordered |
| FlushKeys.CollectKeys | crates/ingest/src/flush.rs:460-477 | the loop collects the client keys of all rows in the interval, of every group |
| FlushKeys.SecondFlushAcceptedIff | crates/catalog/src/state.rs:561-663 | after one flush was accepted, another is accepted exactly if no client key is in both intervals |
| WalRecovery.HistoryGood | crates/ingest/src/pipeline.rs:757-943 | after any number of crashes and restarts, interrupted ones included, the chunks of the batches are disjoint, intervals of one group nest, and every claimed row is in the chunk of a batch |
| WalRecovery.EveryRestart | crates/ingest/src/pipeline.rs:757-943 | after each of any number of crashes and restarts: exactly once under the row-by-row condition, and, unless both causes of error are present, if and only if no client key is shared and the intervals are clean |
| WalRecovery.ExactlyOnceIff | crates/ingest/src/pipeline.rs:757-943 | after a restart every row of the present era is in exactly one catalog file or new chunk if and only if each row of a refused batch is brought along by exactly one other batch and no other row is |
| WalRecovery.OnceIffClean | crates/ingest/src/pipeline.rs:863-880 | without shared client keys that is so if and only if the interval of every rewritten batch holds no row of another key and no start of another batch of its key |
| WalRecovery.OnceIffKeysDisjoint | crates/ingest/src/flush.rs:321-377 | with clean intervals that is so if and only if no client key lies in the intervals of two recovered batches |
| Restart.Resume | crates/ingest/src/pipeline.rs:757-943 | on the catalog itself: keys are indexed, batches announced and committed again in order, whatever the answers, and exactly the recovered ones are claimed |
| Restart.StartedIff | crates/ingest/src/flush.rs:321-377 | starting from an empty catalog the file of a batch gets in exactly if the batch is recovered and shares no client key with one accepted before it |
| RecoveryRuns.SharedKeyLoses | crates/ingest/src/flush.rs:356-376 | one crash, no pending batch: the row of the refused batch is lost |
| RecoveryRuns.SecondRestartDoubles | crates/ingest/src/pipeline.rs:863-880 | two crashes, one key, no client keys: the first restart is right and the second doubles a row |
| RecoveryRuns.CausesCancel | crates/ingest/src/pipeline.rs:757-943 | one crash: both causes are there and every row is still there once |
| DmlReplay.ReplayDml | crates/ingest/src/dml.rs:53-199 | on the catalog itself: every statement whose table is alive at its position in its epoch is applied in order, and the first error ends the replay |
| DmlReplay.SurvivesIff | crates/catalog/src/state.rs:735-817 | a live file is still live after the replay if and only if no replayed purge of its table came under a new identifier |
| DmlReplay.GoneIff | crates/ingest/src/dml.rs:182-197 | after a start from an empty catalog a recovered file is gone if and only if a replayed purge takes its table, wherever the purge stands in the log |
| DmlReplay.OnlyPurgedRowsGoneIff | crates/ingest/src/dml.rs:53-199 | a start takes away only rows that a purge follows if and only if a purge follows every row of every accepted batch of a table that a purge takes |
| DmlReplay.GoneAtIff | crates/ingest/src/dml.rs:53-199 | a file known at a point of the replay is gone there if and only if it was gone at the start or a purge of its table was applied after the file became known |
| DmlReplay.DeleteStopsIff | crates/ingest/src/dml.rs:104-131 | a replayed DELETE, whatever its entries, stops the start if and only if one of them is incomplete or is anchored at a file, recovered or added by a replayed UPDATE, that a purge took after the file was known |
| RecoveryRuns.LaterRowsGone | crates/ingest/src/dml.rs:182-197 | one crash: the file written after the purge is gone after the restart |
| Calendar.CivilIsValid | crates/ingest/src/timeutil.rs:23-44 | for every day number the date is valid and counting back gives the day number |
| Calendar.DaysOfCivil | crates/ingest/src/timeutil.rs:23-44 | for every valid date, converting to a day number and back gives the date |
| Calendar.FollowsCalendar | crates/ingest/src/timeutil.rs:23-44 | day 0 is 1 January 1970 and each next day number is the next date of the calendar |
| Calendar.EarlierDayEarlierDate | crates/ingest/src/timeutil.rs:23-44 | dates are ordered as their day numbers |
| TimeWindow.MomentIsRight | crates/ingest/src/timeutil.rs:12-44 | for every integer the moment is valid, stands for the aligned window, and the window contains the instant |
| TimeWindow.WindowRoundTripIff | crates/chaos/examples/bench_baseline.rs:126-144 | a 64-bit window start is read back from its name if and only if its year is not negative |
| TimeWindow.NamesInOrder | crates/ingest/src/timeutil.rs:17-20 | from year 0 to 9999 later windows have later names in string order |
| SpillHeader.WriteSpill | crates/chunk/src/spill.rs:53-103 | the buffer grown field by field is the layout, with the length of the schema cut to 32 bits |
| SpillHeader.RoundTripIff | crates/chunk/src/spill.rs:156-211 | parsing what was written returns fields, schema and payload, whatever follows, if and only if the length of the schema fits 32 bits |
| SpillHeader.PrefixesRejected | crates/chunk/src/spill.rs:156-211 | every strict prefix of a written file is refused |

## Left out

- Isolation.EffectiveIsolated: needs the premise on revocations, because the operation itself accepts any path and date; `Isolation.ListedChangesOnlyByRevoke` gives the exact condition without it.
- Handoff.HandoffExactlyOnce: speaks of a chunk's rows through its file until a later operation replaces or hides that file; what then happens to the rows is the subject of `Compaction`.
- Compaction.CompactionKeepsMeaning: compares rows as multisets, since merged batches are reordered by their number of fields.
- ObjectPaths.OrphanCleaner.Round: promises completeness only if no two objects share a key; a data file and its companions share one observation time, so with a grace period only safety is claimed.
- OrphanGc.VisibleFilesHaveObjects: covers data files; the objects of deletion vectors are uploaded without being announced and are not modelled. `GcRaces.LostIff` covers the data files it excludes.
- TickExecution.Round: the failures of a round are noted at the time of the plan, and the flushes succeed or fail as a parameter says.
- DmlReplay.DeleteStopsIff: bitmaps that cannot be decoded are not modelled.
- ChunkRuns.LedgerBelowZeroIff: the ledger is an integer here; an unsigned machine word wraps below zero, and the runs after that are not modelled.
- ChunkRuns.AppendGoesToVersion: a batch does not carry a schema version of its own; it has that of its append.
- ChunkTiming.OneChunkPerMinute: excludes the seals that do not wait for the window to close.
- TimeWindow.NamesInOrder: ends at year 9999, where names get longer and lose their order.
- WalRecovery.ExactlyOnceIff: takes one batch per chunk that was not aborted; a retry under a new name while the failed batch is still pending is excluded.
- Counters are unbounded naturals; the saturating additions of leases and clocks and the 32-bit cut in the spill header are explicit, the overflow of the sum of lengths in the header is not modelled.
- Ratios (memory pressure, share of deleted rows) are integer comparisons instead of floating point.
- Table names are canonical, so normalising them is the identity, and a shard key is a pair instead of a joined string.
- The number of rows that a purge affected, the statistics of columns, and the file fields that only inform (sizes, times, index paths, seal reasons) are not part of the state.
- The registry of tables and schemas is modelled by its effects on the catalog state; applying a schema change, its lattice and the retry loop are not part of this model.
- A chunk is a value in the map of the store: the aliasing of a chunk being spilled outside the lock, and locks and atomics in general, are not captured. Each method is one step; the interleavings modelled are those between methods.
- The fixed phase that spreads flushes over the instances is a parameter; its hash is not modelled.
- The reserve loop of the ledger with compare-and-swap is one step (`ChunkOps.Reserve`).
- Spilling fails only for an empty chunk; other I/O errors of the local disk are not modelled.
- Encoding of rows (Arrow, Parquet, Vortex), compression, checksums, the log's frames, the network, replication and the command line are not part of this model; a file is a sequence of rows and an upload is one step.
- Log records of the old format without a table name are not modelled.
- An object path is a list of segments, and the exported snapshot is a message of lists, in any order, and not bytes.
- `peak` in `crates/chaos/examples/bench_baseline.rs` and the other measurements are left out, as they would only add easy members.
- The background loops (timers, tick counts, lease renewal during a round) are left out; what they call is modelled.
