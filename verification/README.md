# miniGU storage engine and factorized evaluation: a verified model

miniGU is a graph database. This project models, in Dafny, the parts of it that keep a fast, mutable
representation of something simple, and proves that the representation means the simple thing in every run:

- **The transactional multi-version store** (`Mvcc*.dfy`, `MemoryGraph.dfy`). Version chains with weakly linked
  undo entries are shown to simulate a snapshot-isolation machine that keeps one list of committed versions per
  key. Reads, conflict checks, the watermark and garbage collection, which also removes edges, follow from the
  simulation. `MemoryGraph` is
  the store as a class whose methods hold the source's loops.
- **The single-file database** (`Bytes`, `DbHeader`, `WalFile`, `CrashSafety`, `DbFile`, `FileRuns`,
  `Persistence`, `Providers`, `LsnOrder`). The file is its bytes. The payload codecs and the checksum are parameters with
  decode-after-encode as identity.
- **The analytical edge store** (`Olap*.dfy`, `Compression.dfy`). Blocks of slots, version lists that travel with
  their slot, the edge-id index, undo logs, the read path, in-place shifting arrays, and compaction. The repository
  has no reader of the compact form, so decoding is defined here.
- **Factorized evaluation** (`Factorized*.dfy`, `ResultSets.dfy`, `DataChunks.dfy`). Column results against the
  tuples they stand for. Array kernels are element functions that may fail; all results hold for any kernels.
- **Dense pieces**: the timestamp generators under all interleavings (`Timestamps.dfy`), the string unescaper
  against the lexer's body language (`Unescape.dfy`; character string literals of section 21.2 of
  ISO/IEC 39075:2024), and adjacency lists under collection and checkpoint restore (`Adjacency.dfy`).

`dafny verify dfyconfig.toml` checks everything.

## Where the code differs from what it promises

The model keeps the code as it is. Each item names the concrete run that shows it and the exact condition under
which the promise holds.

- A transactional abort is to roll back all changes (`minigu/transaction/src/transaction.rs:69`). The loop takes
  undo entries oldest first and acts only on heads that still carry the transaction's id, so of several entries
  for one record usually only the oldest counts (`AbortKeepsSecondWrite`, `AbortedEdgeAppears`; `AbortExact`).
- Snapshot reads are repeatable except that a commit timestamp is drawn before the commit lock is taken: a reader
  that begins in between sees the commit appear later (`LateCommitIsNotRepeatable`; `StepAndReads`).
- Collection removes an edge whose deletion it collects as soon as the head is a tombstone, whoever made it one.
  The id is free from then on (`IdIsFreeAgain`), and stamps forgotten with the edge no longer keep an overlapping
  writer out (`ForgottenCommitOverlaps`; `CreateFreshIff`).
- A reader can lose an edge it sees to such a removal: after an unclean abort (`RemovalIsSeen`), and even with clean
  aborts when an image left over from before the id was created again is collected (`LeftoverImageIsSeen`;
  `CollectSeenIff`, `CollectInvisible`).
- A transaction that holds the tombstone when the edge is removed panics at commit, or, when the id has been created
  again, stamps another transaction's edge (`RemovalIsSeen`, `CommitStampsAnother`; `CommitLosesIff`,
  `CreateRefinesIff`).
- The watermark is computed and stored in two steps and can move back, harmlessly (`WatermarkMovesBack`;
  `RacingSafe`).
- Begin draws the id, the start and registers in three steps. A registration that comes late leaves its reader
  below the watermark, and collection changes what it reads (`LateRegistrationChangesRead`; `RegisterSafeIff`).
- An analytical transaction that deletes an edge twice and aborts loses the edge's label and destination
  (`DoubleDeleteLosesIdentity`; `AbortExactIff`).
- Reading an analytical edge inserts visible values at their column numbers and panics when a column without one
  comes first (`GapPanics`; `AssembleIff`, `PruneExact`).
- An analytical edge has one stamp: while a transaction writes it, and after the commit for everyone who started
  before, it cannot be read at all (`WriteVisibility`, `DeleteVisibility`).
- The block-level stamp bound can hide a transaction's own uncommitted edge (`OwnEdgeHidden`; `PruneExact`).
- Destination id 1 doubles as the mark of an empty slot, so compaction can lose destinations
  (`InnerOneLosesDestinations`; `LosslessIff`).
- A new edge keeps the version lists of its slot's previous occupant (`NewEdgeInherits`); its readers never notice
  (`CommitVisibility`).
- An edge id can be used again while a deletion image of its former edge waits for collection; collecting that
  image then breaks the next checkpoint (`ReusedIdBreaksRestore`; `CreateSafeIff`).
- Filtering a sliced list column shifts its rows (`SlicedColumnLosesRow`; `RowsKeptIff`).
- Removing one chunk position twice can remove another chunk (`RepeatRemovesAnother`; `RemovesExactlyIff`).
- A block emptied by the non-transactional delete stays flagged, and edges created in it are unreadable
  (`EmptiedBlockHides`; `NewEdgeReadableIff`).
- The file header remembers the LSN appended last, not the greatest, so a reopened provider can draw one again
  (`OutOfOrderReissues`; `ReopenSafeIff`). Recovery of a graph repairs it (`RecoverySafe`).
- Transaction ids are checked against their domain only on a raise, so a generator started below the domain
  issues commit stamps (`StartDecidesDomain`, which has such a run in its proof).

## Model

| member | source | states |
|---|---|---|
| `MvccTheorems.StepRefines` | minigu/storage/src/tp/memory_graph.rs:999-1335 | Every step of the version-chain store (begin, create, set, delete, draw a commit timestamp, publish, abort before or after the draw, collect with removal of edges) simulates the step of an abstract snapshot-isolation machine of committed logs and pending values: its stamps always, its values when the step is not an unclean abort; a creation must take an id no active undo buffer names |
| `MvccRelation.CreateRefinesIff` | minigu/storage/src/tp/memory_graph.rs:1082-1129 | That condition is exact: an accepted creation is a step of the abstract machine if and only if no active transaction's undo buffer names the id |
| `MvccTheorems.RunRefines` | minigu/storage/src/tp/memory_graph.rs:999-1335 | The same over every run whose creations meet that condition: stamps whatever the aborts, values when aborts are clean; an edge id collected and created again starts a new log |
| `MvccTheorems.ReadsAgree` | minigu/storage/src/tp/memory_graph.rs:131-181 | In related states a chain walk returns the reader's own pending value, else the newest version committed at or before its start, else nothing |
| `MvccTheorems.SnapshotReads` | minigu/storage/src/tp/transaction.rs:342-364 | Snapshot reads are exact in every state reached from the empty store by such runs with clean aborts, edges removed and created again included |
| `MvccTheorems.LookupIsNewest` | minigu/storage/src/tp/memory_graph.rs:131-181 | The abstract lookup is the newest version at or before the start timestamp, and nothing when all are later |
| `MvccAllRuns.FirstCommitterWins` | minigu/storage/src/tp/memory_graph.rs:2051-2070 | Whatever the aborts and removals: of two commits that stamped one record, the later writer started after the earlier one had committed, when every creation of the record started after the commits of its id so far, those collection has forgotten included |
| `MvccAllRuns.CreateFreshIff` | minigu/storage/src/tp/memory_graph.rs:1088-1113 | The condition on a creation is exact: the creator started after every earlier commit of the id if and only if no way the run can go on makes two commits of it overlap |
| `MvccRemovalWitnesses.ForgottenCommitOverlaps` | minigu/storage/src/tp/txn_manager.rs:276-307 | Concrete run: a second deletion commits at 7, collection of the first removes the edge, a transaction begun at 6 creates the id again and commits at 8; [5, 7] and [6, 8] overlap |
| `MvccRemovalWitnesses.IdIsFreeAgain` | minigu/storage/src/tp/memory_graph.rs:1088-1113 | Concrete run: create, commit, delete, commit, collect; the id may be created again |
| `MvccAllRuns.PublishStamps` | minigu/storage/src/tp/transaction.rs:530-575 | Publishing puts the commit stamp on exactly the heads named in the undo buffer; these are the commits the run-level results speak of |
| `MvccAllRuns.CommitLosesIff` | minigu/storage/src/tp/transaction.rs:540-575 | A step takes from a running transaction a record its commit will look up, and so makes the commit panic, exactly when it is a collection that removes an edge the transaction holds |
| `MvccRemovalWitnesses.CommitStampsAnother` | minigu/storage/src/tp/transaction.rs:540-575 | Concrete run: an edge is removed under a transaction that holds its tombstone, another creates the id again; the first one's commit publishes the other's uncommitted edge |
| `MvccAllRuns.HeadIsLastCommit` | minigu/storage/src/tp/transaction.rs:530-575 | Whatever the aborts, removals included: a stored committed head carries the last stamp put on the record, except a vertex whose creation was aborted |
| `MvccTheorems.StepAndReads` | minigu/storage/src/tp/transaction.rs:371-400 | Exactly what one step does to another transaction's read: nothing, unless it publishes a commit whose timestamp was drawn before the reader began, in which case the reader switches to that value, or collects and removes the record, in which case the reader finds nothing |
| `MvccRemoval.RepeatableReads` | minigu/storage/src/tp/transaction.rs:342-364 | If no commit timestamp drawn before the reader began is still unpublished, no run of others changes what it reads, collections with removals included, when aborts are clean and no id is created again while a deletion image of it is uncollected |
| `MvccWitnesses.LateCommitIsNotRepeatable` | minigu/storage/src/tp/transaction.rs:371-390 | Concrete run: a commit timestamp drawn before the commit lock is taken lets a reader see two values of one property |
| `MvccAllRuns.CollectSeenIff` | minigu/storage/src/tp/txn_manager.rs:102-136 | Whatever the aborts: collection changes what an active transaction reads of a record if and only if the record is an edge with a tombstone for head, marked by a collected deletion image not cancelled later, and the reader's walk still ends at a live record |
| `MvccRemoval.CollectInvisible` | minigu/storage/src/tp/txn_manager.rs:246-307 | Over runs with clean aborts in which no id is created again while a deletion image of it is uncollected, collection with its removals changes no active transaction's read |
| `MvccRemoval.RemovedDead` | minigu/storage/src/tp/txn_manager.rs:276-307 | In such runs an edge about to be removed has been dead for every active reader since the deletion whose image is collected |
| `MvccRemoval.CollectExact` | minigu/storage/src/tp/txn_manager.rs:102-136 | Collection keeps every record except edges with a tombstone for head whose deletion is the last thing the commits up to the watermark, in commit and then buffer order, say about them; those commits are dropped |
| `MvccRemovalWitnesses.RemovalIsSeen` | minigu/storage/src/tp/txn_manager.rs:276-307 | Concrete run: an aborted deletion of a tombstone brings the edge back, a reader reads it, another deletes it; collecting the first image removes the edge under both, and the deleter's commit panics |
| `MvccRemovalWitnesses.LeftoverImageIsSeen` | minigu/storage/src/tp/txn_manager.rs:246-307 | Concrete run, all aborts clean: the image of a second deletion is left over when the id is created again; collecting it removes the new edge under a reader |
| `MvccAllRuns.WatermarkInvariant` | minigu/storage/src/tp/txn_manager.rs:235-243 | Over every run, with the update taken as one step, the watermark never moves back and never passes an active start |
| `MvccWatermark.RacingSafe` | minigu/storage/src/tp/txn_manager.rs:235-243 | With the new value computed in one step and stored in a later one, callers interleaving freely, the watermark still never passes an active start |
| `MvccWatermark.WatermarkMovesBack` | minigu/storage/src/tp/txn_manager.rs:235-243 | Concrete run: two callers store out of order and the watermark moves back |
| `MvccLifecycle.WatermarkSafe` | minigu/storage/src/tp/txn_manager.rs:235-243 | The recomputed watermark, taken from the least transaction id, is at or below every active start, because ids and starts are issued in the same order |
| `MvccLifecycle.WatermarkExact` | minigu/storage/src/tp/txn_manager.rs:235-243 | It is the least start of an active transaction, or, with none active, the latest commit unless that is below the old value |
| `MvccSplitBegin.SplitBeginSafe` | minigu/storage/src/tp/txn_manager.rs:155-204 | With begin as three steps interleaved with anything: over every run whose registrations come in time the watermark stays at or below every active start, and collection changes a read exactly when it removes an edge the reader still sees |
| `MvccSplitBegin.SplitBeginUnseen` | minigu/storage/src/tp/txn_manager.rs:155-204 | The same runs with clean aborts and no id created again under an uncollected image: collection with its removals changes no active read |
| `MvccSplitBegin.RegisterSafeIff` | minigu/storage/src/tp/txn_manager.rs:155-204 | A registration keeps the watermark safe over every later run of the registered transactions if and only if the watermark has not passed its start and starts still follow ids |
| `MvccSplitBegin.BeginIsThreeSteps` | minigu/storage/src/tp/txn_manager.rs:155-204 | The atomic begin is the three steps with nothing in between |
| `MvccWitnesses.LateRegistrationChangesRead` | minigu/storage/src/tp/txn_manager.rs:155-204 | Concrete run: a reader registers after a commit moved the watermark past its start; collection then changes what it reads |
| `MvccTheorems.AbortExact` | minigu/storage/src/tp/transaction.rs:409-527 | A transaction begun right after an abort reads every record as last committed if and only if the abort was clean, a condition on the undo entries and heads before the abort |
| `MvccAbort.AbortExactAt` | minigu/storage/src/tp/transaction.rs:409-527 | Per record: the oldest-first abort loop leaves the record as unwinding it newest-first would, if and only if the oldest entry alone undoes everything |
| `MvccWitnesses.AbortKeepsSecondWrite` | minigu/storage/src/tp/transaction.rs:409-527 | Concrete run: set two properties, abort; the second keeps its aborted value |
| `MvccWitnesses.AbortedEdgeAppears` | minigu/storage/src/tp/transaction.rs:409-527 | Concrete run: create an edge, delete it, abort; every later transaction sees the edge |
| `MvccRelation.WritableAgrees` | minigu/storage/src/tp/memory_graph.rs:2051-2070 | The head-stamp conflict check passes exactly when no other transaction holds the key and nothing newer than the start was committed |
| `MvccRelation.CreateAgrees` | minigu/storage/src/tp/memory_graph.rs:1082-1113 | Creation is allowed exactly when the abstract machine knows no log of the id: never used, or an edge collected and forgotten since |
| `MvccChains.WalkExact` | minigu/storage/src/tp/transaction.rs:342-364 | Walking a well-formed undo list from a later version rebuilds the newest committed version older than the start, even after older entries were collected |
| `MvccChains.SetBackInverts` | minigu/storage/src/tp/memory_graph.rs:31-69 | Putting saved values back, newest entry first, inverts a property write with repeated indices too |
| `MvccChains.SetPropsStores` | minigu/storage/src/tp/memory_graph.rs:31-69 | A property write stores the last value given for each index in range and leaves every other property alone |
| `MemoryGraph.CheckWriteConflict` | minigu/storage/src/tp/memory_graph.rs:2051-2070 | No error exactly when the head is the transaction's own or committed not after its start |
| `MemoryGraph.FrontKey` | minigu/storage/src/tp/txn_manager.rs:235-243 | The first key of the ordered map of transactions is its least |
| `MemoryGraph.MemoryGraph.Get` | minigu/storage/src/tp/memory_graph.rs:131-181 | The read with its undo-walk loop computes the specified read |
| `MemoryGraph.MemoryGraph.SetProperty` | minigu/storage/src/tp/memory_graph.rs:31-69 | The pessimistic property write yields the specified state and succeeds exactly when key, guard and indices allow |
| `MemoryGraph.MemoryGraph.Remove` | minigu/storage/src/tp/memory_graph.rs:1307-1340 | The pessimistic delete of one record yields the specified state and succeeds exactly when the guard allows; no cascade |
| `MemoryGraph.MemoryGraph.Insert` | minigu/storage/src/tp/memory_graph.rs:1082-1141 | The pessimistic create of one record, end points unchecked, yields the specified state and succeeds exactly when specified |
| `MemoryGraph.MemoryGraph.BeginTransaction` | minigu/storage/src/tp/txn_manager.rs:155-204 | Begin as one step: id, start, registration, watermark |
| `MemoryGraph.MemoryGraph.DrawCommitTs` | minigu/storage/src/tp/transaction.rs:371-386 | First half of commit: the timestamp is drawn before the lock |
| `MemoryGraph.MemoryGraph.FinishCommit` | minigu/storage/src/tp/transaction.rs:540-575 | The stamping loop and the bookkeeping, without readers in between, yield the specified published state when every record is still stored |
| `MemoryGraph.MemoryGraph.AbortTransaction` | minigu/storage/src/tp/transaction.rs:409-527 | The oldest-first abort loop yields the specified state |
| `MemoryGraph.CollectExpired` | minigu/storage/src/tp/txn_manager.rs:107-121 | The loop over the ordered commit map gathers the undo entries of the transactions at or below the watermark, in commit order |
| `MemoryGraph.MemoryGraph.MarkEdges` | minigu/storage/src/tp/txn_manager.rs:251-264 | The loop over the entries marks the edges deleted and not created again later |
| `MemoryGraph.MemoryGraph.CleanupEdges` | minigu/storage/src/tp/txn_manager.rs:266-307 | The loop removes exactly the marked edges whose heads are tombstones, in any order |
| `MemoryGraph.MemoryGraph.GarbageCollect` | minigu/storage/src/tp/txn_manager.rs:102-136 | Gathering, edge removal and dropping the collected transactions yield the specified state |
| `Bytes.LeRoundTrip` | minigu/storage/src/db_file/header.rs:187-271 | Little-endian words read back as written |
| `DbHeader.HeaderRoundTrip` | minigu/storage/src/db_file/header.rs:154-271 | A header reads back as written exactly when its magic, version and checksum are valid; otherwise the first of these that is wrong is reported |
| `DbHeader.ShortFile` | minigu/storage/src/db_file/header.rs:215-271 | A file shorter than the fields is a short read |
| `DbHeader.FieldPlaces` | minigu/storage/src/db_file/header.rs:187-213 | Each of the eleven fields stands at its byte offset, little-endian, and the rest of the 256 bytes is zero |
| `DbHeader.FlagBits` | minigu/storage/src/db_file/header.rs:29-33 | The checkpoint flag is worth 1 and the log flag 2 |
| `WalFile.HoldsReads` | minigu/storage/src/db_file/core.rs:141-381 | A file holding a checkpoint and entries opens, returns the checkpoint, and returns the entries sorted by LSN |
| `WalFile.SortSorts` | minigu/storage/src/db_file/core.rs:299-381 | The sort by LSN is sorted and a permutation |
| `WalFile.SortStable` | minigu/storage/src/db_file/core.rs:299-381 | The sort is stable: entries with one LSN keep their order |
| `WalFile.StoredReads` | minigu/storage/src/db_file/core.rs:299-381 | A record is accepted exactly when the stored checksum is that of its payload |
| `WalFile.CorruptReported` | minigu/storage/src/db_file/core.rs:299-381 | A record with another checksum is reported with its offset, whatever good records precede it |
| `WalFile.CutReported` | minigu/storage/src/db_file/core.rs:299-381 | A record cut short is an error unless not even its length is there |
| `WalFile.UndecodableReported` | minigu/storage/src/db_file/core.rs:299-381 | An intact record that cannot be decoded is reported as such |
| `WalFile.CheckpointErrors` | minigu/storage/src/db_file/core.rs:141-184 | A checkpoint that is cut short, changed or undecodable is reported as exactly that, and otherwise returned |
| `WalFile.AppendRegions` | minigu/storage/src/db_file/core.rs:240-280 | Append keeps the regions disjoint and adjacent and adds exactly the entry |
| `WalFile.CheckpointHolds` | minigu/storage/src/db_file/core.rs:186-229 | Writing a checkpoint replaces checkpoint and log, whatever was stored |
| `WalFile.TruncateHolds` | minigu/storage/src/db_file/core.rs:415-450 | Truncation rewrites the WAL region with exactly the retained entries |
| `WalFile.RetainedExact` | minigu/storage/src/db_file/core.rs:420-424 | The retained entries are those at or above the bound, each as often as before |
| `WalFile.RetainedInOrder` | minigu/storage/src/db_file/core.rs:420-424 | They stay in order: what is retained of two parts is retained of the whole, one after the other |
| `WalFile.TruncateHeader` | minigu/storage/src/db_file/core.rs:415-450 | A truncation that rewrites the log leaves the greatest retained LSN in the header, any other leaves the header's LSN alone |
| `FileRuns.FileRefines` | minigu/storage/src/db_file/core.rs:68-450 | Over any run of append, checkpoint, truncate and reopen no operation fails, the last checkpoint reads back, the entries are an LSN-sorted permutation of those appended since and at or above every later bound, and the header holds the LSN and commit timestamp the run determines |
| `CrashSafety.AppendCrashSafe` | minigu/storage/src/db_file/core.rs:240-280 | Wherever a crash falls in the two-sync append and whichever unsynced bytes survive, reopening finds the old entries or the old and the new one; always the old before the header write, always both after the last sync |
| `DbFile.DbFile.AppendWal` | minigu/storage/src/db_file/core.rs:240-280 | The seek, write, sync and header steps produce the specified file |
| `DbFile.DbFile.ScanRegion` | minigu/storage/src/db_file/core.rs:299-381 | The record loop returns the specified scan, errors included |
| `DbFile.DbFile.ReadWalEntries` | minigu/storage/src/db_file/core.rs:299-381 | The method returns the specified sorted entries or error |
| `DbFile.DbFile.ReadCheckpointData` | minigu/storage/src/db_file/core.rs:141-184 | The method returns the specified checkpoint or error |
| `DbFile.DbFile.WriteCheckpoint` | minigu/storage/src/db_file/core.rs:186-229 | The method produces the specified file |
| `DbFile.DbFile.TruncateWalUntil` | minigu/storage/src/db_file/core.rs:415-450 | The method produces the specified file and the number of removed entries; a file whose entries cannot be read is left alone and the error returned |
| `Persistence.ProvidersAgree` | minigu/storage/src/tp/db_file_persistence.rs:27-120 | Over every run of logging, checkpointing as the graph does it, and reopening, the file provider returns what the in-memory provider returns (LSNs equal too until a reopen) |
| `Persistence.RunKeeps` | minigu/storage/src/tp/in_memory_persistence.rs:47-110 | Over every run the provider holds the timestamp and graph of the last snapshot and the entries logged since, in order |
| `Persistence.LoadFilters` | minigu/storage/src/db_file/single_file_manager.rs:178-195 | Loading returns the checkpoint and, of the stored entries, exactly those at or above its LSN |
| `Persistence.ReopenCounter` | minigu/storage/src/tp/db_file_persistence.rs:27-34 | Reopening right after an append goes on with the next LSN, right after a snapshot it skips the snapshot's |
| `Persistence.RecoveryLosesNothing` | minigu/storage/src/db_file/single_file_manager.rs:178-195 | With each number drawn and appended in one step: stored LSNs are distinct across reopens and below the next one, and the recovery filter drops none of the entries logged since the checkpoint |
| `LsnOrder.ReopenSafeIff` | minigu/storage/src/tp/db_file_persistence.rs:27-34 | With draws and appends interleaved: after a reopening stored LSNs stay distinct however the run goes on if and only if no stored LSN is above the one appended last |
| `LsnOrder.RecoverySafe` | minigu/storage/src/tp/memory_graph.rs:666-669 | Graph recovery sets the counter past the greatest stored LSN, so after it they stay distinct whatever the order of appends was |
| `LsnOrder.Seeded` | minigu/storage/src/tp/memory_graph.rs:666-669 | Reopening seeds the counter from the LSN appended last, recovery from the greatest stored |
| `LsnOrder.OutOfOrderReissues` | minigu/storage/src/db_file/core.rs:240-280 | Concrete run: 5 and 6 are appended as 6, 5; the reopened provider draws 6 again |
| `Providers.InMemoryPersistence.TruncateWalUntil` | minigu/storage/src/tp/in_memory_persistence.rs:74-79 | The retain loop keeps exactly the entries at or above the LSN |
| `Providers.InMemoryPersistence.Snapshot` | minigu/storage/src/tp/memory_graph.rs:741-771 | The checkpoint procedure over the in-memory provider takes the specified step |
| `Providers.DbFilePersistence.Log` | minigu/storage/src/tp/db_file_persistence.rs:63-78 | Allocating an LSN and appending takes the specified step |
| `Providers.DbFilePersistence.Snapshot` | minigu/storage/src/tp/memory_graph.rs:741-771 | The checkpoint procedure over the file provider takes the specified step |
| `OlapIndex.IndexIsScan` | minigu/storage/src/ap/olap_graph.rs:259-294 | Under the invariant the index has an entry exactly where a scan would find the edge, so the fallback scan is never needed |
| `OlapIndex.EventKeeps` | minigu/storage/src/ap/olap_graph.rs:520-549 | Every operation keeps the invariant: create, set and delete in and out of transactions, each commit and each abort step |
| `OlapIndex.IndexOverRuns` | minigu/storage/src/ap/olap_graph.rs:259-294 | In every state reached from an empty store, edge e is indexed at (b, o) if and only if live slot o of block b holds e |
| `OlapAbort.UndoInverts` | minigu/storage/src/ap/transaction.rs:194-300 | Undoing one operation leads back to the state before it, slot by slot, up to the version lists of the aborting transaction |
| `OlapAbortTheorem.AbortRestores` | minigu/storage/src/ap/transaction.rs:178-311 | After any sequence of creates, sets and deletes by one transaction, abort restores every edge at its place with its commit stamp and exact version lists, removes its own edges, and restores the index |
| `OlapAbortTheorem.AbortIdentity` | minigu/storage/src/ap/transaction.rs:242-262 | An edge comes back with its own label and destination, or with the tombstone's if it was deleted more than once |
| `OlapAbortTheorem.AbortExactIff` | minigu/storage/src/ap/transaction.rs:178-311 | Abort is an exact inverse if and only if no edge that is not tombstone-shaped was deleted twice |
| `OlapAbortTheorem.DoubleDeleteLosesIdentity` | minigu/storage/src/ap/transaction.rs:178-311 | Concrete run: delete an edge twice, abort; its label and destination are lost |
| `OlapReads.CommitVisibility` | minigu/storage/src/ap/transaction.rs:49-176 | Over every interleaving of edges with one number of properties, in which nothing panics: an edge created by T is invisible to all others until T commits, then found exactly by readers starting at or after the commit stamp, who see its created values when those present come first and otherwise panic |
| `OlapWrites.SetStores` | minigu/storage/src/ap/olap_graph.rs:614-731 | A successful property write stamps the edge and leaves each column it names with the old versions below and the last value given on top, the others as they were |
| `OlapWrites.WriteVisibility` | minigu/storage/src/ap/transaction.rs:49-176 | Over every interleaving that does not name the edge: the writer reads its new values at once, every other reader loses the edge until the commit, and from then on exactly the readers that started at or after the commit stamp read it, with the new values in the columns named and the values they had in the others |
| `OlapWrites.DeleteVisibility` | minigu/storage/src/ap/olap_graph.rs:733-830 | From a successful transactional delete on nobody reads the edge, not even readers that started before its commit |
| `OlapWrites.AcceptedIff` | minigu/storage/src/ap/olap_graph.rs:640-690 | A write is accepted exactly when a live slot of a block not flagged as emptied holds the edge and the columns exist; a creation exactly when the vertex exists and the position lies within the block used |
| `OlapWrites.Promoted` | minigu/storage/src/ap/transaction.rs:109-142 | Commit restamps the newest version of each list if the writer wrote it and changes nothing else |
| `OlapWrites.RemoveExact` | minigu/storage/src/ap/olap_graph.rs:1262-1340 | The non-transactional delete takes the edge out, keeps every other edge's record and versions, and flags the block it empties |
| `OlapVisibility.VisibleIsNewest` | minigu/storage/src/ap/olap_graph.rs:115-132 | A reader's value is that of the newest version that is its own or committed at or before its start |
| `OlapReads.GapPanics` | minigu/storage/src/ap/olap_graph.rs:943-965 | Concrete run: an edge created with its first property absent and its second present panics on every read |
| `OlapVisibility.AssembleIff` | minigu/storage/src/ap/olap_graph.rs:97-103 | Inserting the visible values at their column numbers succeeds if and only if the columns with a visible value come first; the list then holds those and reads as absent beyond them |
| `OlapVisibility.AssembleProps` | minigu/storage/src/ap/olap_graph.rs:943-965 | The reader's loop over the columns succeeds exactly then and builds that list |
| `OlapColumns.UniformNeverPanics` | minigu/storage/src/ap/olap_graph.rs:551-590 | When all edges have one number of properties, no act of any interleaving panics on a property column, and every column has every block |
| `OlapColumns.NewColumnNeedsFirstBlock` | minigu/storage/src/ap/olap_graph.rs:551-590 | An edge with more properties than there are columns can be created without a panic only in block 0 |
| `OlapColumns.SetColumns` | minigu/storage/src/ap/olap_graph.rs:704-731 | A property write panics exactly when a column it names lacks a block before the edge's; otherwise those columns have the block afterwards and no other changes |
| `OlapColumns.CreateColumns` | minigu/storage/src/ap/olap_graph.rs:540-600 | A creation panics exactly when a column, new ones included, lacks a block before the edge's; otherwise every property has a column and all have the block |
| `OlapReads.NewEdgeInherits` | minigu/storage/src/ap/olap_graph.rs:576-590 | Concrete run: a new edge's list starts with the versions of the edge whose place it took |
| `OlapWrites.InheritsExact` | minigu/storage/src/ap/olap_graph.rs:576-590 | In general: below a new edge's versions stand those of the edge whose place it takes, or those an emptied block was left with |
| `OlapVisibility.PruneExact` | minigu/storage/src/ap/olap_graph.rs:899-965 | The outcome of every read, a panic included; the block's lower stamp bound changes it only for the reader's own uncommitted edge, exactly when the bound is a commit stamp above the start |
| `OlapReads.PruningIsSound` | minigu/storage/src/ap/olap_graph.rs:899-965 | In every state reached by transactions over edges with one number of properties, nothing panicked, the bound changes no read of a committed edge, and a read panics exactly when a column without a visible value precedes one with |
| `OlapReads.OwnEdgeHidden` | minigu/storage/src/ap/olap_graph.rs:920-922 | Concrete run: a transaction does not see the edge it created |
| `OlapReads.NewEdgeReadableIff` | minigu/storage/src/ap/olap_graph.rs:435-500 | A creator reads its new edge, with the values it gave, if and only if the block the edge goes into is a new one, or neither flagged as emptied nor bound past the start |
| `OlapReads.EmptiedBlockHides` | minigu/storage/src/ap/olap_graph.rs:1262-1290 | Concrete run: a block emptied by the non-transactional delete keeps its flag, and an edge created there and committed is read by nobody |
| `OlapBlock.EdgeBlock.Search` | minigu/storage/src/ap/olap_graph.rs:520-524 | Ends in bounds always, and splits the block around the key when the block is sorted |
| `OlapBlock.EdgeBlock.Insert` | minigu/storage/src/ap/olap_graph.rs:520-600 | The in-place shifts of records and version lists, and the index loop, produce the specified block and index; unused slots stay default |
| `OlapBlock.EdgeBlock.Remove` | minigu/storage/src/ap/olap_graph.rs:1262-1325 | The in-place delete produces the specified block and index; the last edge leaves the block tombstoned with its first slot not cleared |
| `OlapBlock.EdgeBlock.CloseGap` | minigu/storage/src/ap/transaction.rs:194-241 | Closing the gap, for deletes and for undoing a creation, produces the specified block and index |
| `OlapDiscipline.InsertSorted` | minigu/storage/src/ap/olap_graph.rs:1146-1176 | An insertion at the searched position keeps the slots sorted and adds one element to the bag |
| `OlapDiscipline.ChainMeets` | minigu/storage/src/ap/olap_graph.rs:455-507 | Walking back from a vertex's newest block meets exactly that vertex's blocks, strictly descending |
| `OlapDiscipline.BlockDiscipline` | minigu/storage/src/ap/olap_graph.rs:1061-1325 | Over every run without transactional deletes, blocks stay sorted and each vertex's chain is exactly its blocks |
| `Compression.LosslessIff` | minigu/storage/src/ap/olap_graph.rs:306-352 | A packed block gives back its destinations if and only if no destination after the first is 1 or neighbours differ by at most 1 |
| `Compression.FieldsExact` | minigu/storage/src/ap/olap_graph.rs:325-341 | Packed fields do not overlap: they read back as the differences exactly when each fits the width |
| `Compression.WidthFits` | minigu/storage/src/ap/olap_graph.rs:306-322 | The early stop of the scan at a destination 1 is harmless exactly when all differences are 0 or 1 |
| `Compression.InnerOneLosesDestinations` | minigu/storage/src/ap/olap_graph.rs:306-341 | Concrete block: destinations 0, 1, 5 come back as 0, 1, 1 |
| `Compression.BitOfField` | minigu/storage/src/ap/olap_graph.rs:336-340 | Shift-and-mask bit j is bit j of the field |
| `Compression.BitIs` | minigu/storage/src/ap/olap_graph.rs:336-340 | Shift and mask give the binary digit of weight 2 to the j |
| `Compression.PackedAt` | minigu/storage/src/ap/olap_graph.rs:325-341 | Bit j of difference i stands at bit i times the width plus j of the packed words |
| `Compression.SortedAscends` | minigu/storage/src/ap/olap_graph.rs:296-306 | A block in the order insertion keeps has ascending destinations, which packing requires |
| `Compression.ScanWidth` | minigu/storage/src/ap/olap_graph.rs:306-322 | The scan loop finds the least width covering the differences before its stop, at most 64 |
| `Compression.PackSlots` | minigu/storage/src/ap/olap_graph.rs:325-341 | The nested loops write exactly the packed fields and copy the labels |
| `Compression.CompressEdges` | minigu/storage/src/ap/olap_graph.rs:296-369 | The whole compaction of a non-empty sorted block, with the exact recovery condition |
| `Compression.RankIsOnes` | minigu/storage/src/ap/olap_graph.rs:401-413 | Counts of the groups before plus the bits before in the group are the number of set bits before the slot |
| `Compression.CompressColumn` | minigu/storage/src/ap/olap_graph.rs:386-432 | Looking any slot up by rank gives the value of the newest committed version, or nothing when none is committed; the bitmap, the dense values and the group counts are each what the format says, and counts fit a byte |
| `Factorized.EvaluationMeans` | minigu/gql/execution/src/evaluator/factorized_evaluator.rs:151-263 | Whenever evaluation succeeds, an unflat result has as many rows as there are tuples and holds each tuple's value at its row-major position; a flat result holds the one value at its current row |
| `Factorized.EveryRowIsATuple` | minigu/gql/execution/src/evaluator/factorized_evaluator.rs:202-263 | When no chunk is used by two leaves, every row of the result is some tuple's value |
| `Factorized.ApplyCartesianProduct` | minigu/gql/execution/src/evaluator/factorized_evaluator.rs:295-318 | The loop over left rows and the concatenation compute the product, and fail on an empty left column |
| `Factorized.ProductAt` | minigu/gql/execution/src/evaluator/factorized_evaluator.rs:295-318 | Row i, column j of the product is at i times the right length plus j |
| `FactorizedErrors.FailsIff` | minigu/gql/execution/src/evaluator/factorized_evaluator.rs:151-318 | For arithmetic and comparison over non-empty chunks, evaluation fails if and only if some tuple fails, or unary operators on a column of a flat chunk fail on a row other than the current one |
| `FactorizedErrors.LogicSucceedsIff` | minigu/gql/execution/src/evaluator/factorized_evaluator.rs:202-318 | A logical node succeeds exactly when its columns, a flat operand as one value, pair up row by row; over two unflat chunks the right column must have one row |
| `ResultSets.NumTuplesWithoutFactor` | minigu/common/src/result_set.rs:106-128 | The product of filtered cardinalities over a hash set of chunks is the tuple count in every order, cut to 64 bits |
| `ResultSets.EachMultiplies` | minigu/common/src/result_set.rs:112-124 | A flat chunk does not change the count, an unflat one multiplies it by the rows its filter keeps |
| `ResultSets.ResultSize` | minigu/common/src/result_set.rs:106-128 | Over non-empty chunks an unflat result has that many rows if and only if no chunk of the expression filters anything out; evaluation does not look at filters |
| `ResultSets.RemoveMultiple` | minigu/common/src/result_set.rs:152-174 | The sort and the loop of swap-removals, for any positions |
| `ResultSets.RemovesExactlyIff` | minigu/common/src/result_set.rs:152-174 | Exactly the chunks at the given positions go if and only if no repeated position lies below a chunk that is to stay; otherwise more go |
| `ResultSets.RepeatRemovesAnother` | minigu/common/src/result_set.rs:152-174 | Concrete list: position 0 given twice removes two of three chunks |
| `DataChunks.CompactKeepsRows` | minigu/common/src/data_chunk/mod.rs:168-180 | Compacting keeps the cardinality and gives the rows the filtered iteration visits, in order, in every column; a chunk without a filter is left alone |
| `DataChunks.FactorizedCompact` | minigu/common/src/data_chunk/mod.rs:103-161 | The flat filter and the loop rebuilding offsets, for sliced columns too, produce the specified column |
| `DataChunks.RowsKeptIff` | minigu/common/src/data_chunk/mod.rs:103-161 | Every row of every flat array is filtered as a row if and only if the filter keeps nothing before its first row or nothing in its rows; so always when offsets start at 0 |
| `DataChunks.RowsAreFiltered` | minigu/common/src/data_chunk/mod.rs:103-161 | In that case, for columns with the filter's offsets, each row of the result is the row filtered |
| `DataChunks.SlicedColumnLosesRow` | minigu/common/src/data_chunk/mod.rs:103-161 | Concrete slice: the second of two rows comes out as the first |
| `Timestamps.IssuedOnceInOrder` | minigu/transaction/src/timestamp.rs:73-90 | Under every interleaving and spurious failure no value is issued twice, values strictly increase, each is in its domain, and the counter never wraps |
| `Timestamps.FromTheFirst` | minigu/transaction/src/timestamp.rs:51-90 | Without raises a new generator issues its domain's first value and its successors, none skipped |
| `Timestamps.ReportsIssued` | minigu/transaction/src/timestamp.rs:73-90 | A call reports a value exactly when it issues that value |
| `Timestamps.ReturnsIdle` | minigu/transaction/src/timestamp.rs:73-90 | A call that reports a value or an overflow has returned |
| `Timestamps.DomainsDisjoint` | minigu/transaction/src/timestamp.rs:73-152 | No commit timestamp is ever a transaction id |
| `Timestamps.RaisedBeyond` | minigu/transaction/src/timestamp.rs:97-106 | Nothing issued after a successful raise to t is at most t |
| `Timestamps.RaiseEffectIff` | minigu/transaction/src/timestamp.rs:97-164 | After a raise to t nothing issued in any run is at most t, if and only if the raise is accepted, was not needed, or the domain is exhausted |
| `Timestamps.OverflowIsFinal` | minigu/transaction/src/timestamp.rs:73-90 | next fails only when the domain is exhausted, and then nothing is issued any more |
| `Timestamps.LostRace` | minigu/transaction/src/timestamp.rs:79-88 | Lock-freedom: when a thread's exchange fails, not spuriously, another thread issued a value or raised the counter since that thread looked |
| `Timestamps.StartDecidesDomain` | minigu/transaction/src/timestamp.rs:66-152 | A generator started at a given value stays in its domain in every run if and only if it issues commit stamps or starts at a transaction id |
| `Unescape.UnescapeBody` | minigu/gql/parser/src/unescape.rs:4-58 | On every body the lexer accepts, for each quote and mode, the loop ends, reaches none of the cases taken for impossible, and equals a unit-by-unit decoder |
| `Unescape.UnescapeOne` | minigu/gql/parser/src/unescape.rs:10-52 | One turn of the loop decodes the escape or doubled quote in front |
| `Unescape.DecodeFails` | minigu/gql/parser/src/unescape.rs:25-45 | Decoding fails exactly when a hexadecimal escape names no Unicode scalar; otherwise there is one character per unit |
| `Unescape.EscapeDecodes` | minigu/gql/parser/src/unescape.rs:25-45 | The escape u with four digits or U with six, in either case of letters, stands for the character with that number, and fails when there is none |
| `Unescape.SimpleDecodes` | minigu/gql/parser/src/unescape.rs:17-24 | The nine one-letter escapes stand for the characters of the table, and no other letter but u and U may follow a backslash |
| `Unescape.QuoteDecodes` | minigu/gql/parser/src/lexer.rs:807-820 | Doubling the quote and, in escape mode, the backslash gives a body that decodes to the string |
| `Unescape.LiteralRoundTrip` | minigu/gql/parser/src/lexer.rs:807-845 | The same through the whole literal and the stripping of its delimiters, for all six kinds |
| `Unescape.QuoteInsideIsDoubled` | minigu/gql/parser/src/lexer.rs:807-820 | A body cannot end early: a quote inside it after a complete body is always doubled |
| `Adjacency.RunSymmetric` | minigu/storage/src/tp/txn_manager.rs:246-361 | Over every run of creations, updates and collections of whatever images, an edge is in its source's outgoing list exactly when it is in its destination's incoming list |
| `Adjacency.RunFaithful` | minigu/storage/src/tp/txn_manager.rs:246-361 | Over every run whose creations find no uncollected deletion image of their id with other ends, adjacency names only stored edges with their ends and label |
| `Adjacency.CreateSafeIff` | minigu/storage/src/tp/memory_graph.rs:1082-1141 | Creating an edge keeps every later checkpoint restorable if and only if no uncollected deletion image names its id with other ends |
| `Adjacency.ReusedIdBreaksRestore` | minigu/storage/src/tp/memory_graph.rs:1307-1340 | Concrete run: delete an edge twice, collect the first deletion, create the id again with other ends, delete it, collect the second deletion; the checkpoint then cannot be restored |
| `Adjacency.VertexSymmetric` | minigu/storage/src/tp/txn_manager.rs:310-346 | Removing a vertex keeps symmetry and leaves no entry that mentions it |
| `Adjacency.CollectExact` | minigu/storage/src/tp/txn_manager.rs:246-307 | Collection removes exactly the tombstoned ends of the expired edges with their containers and every entry that mentions them, the tombstoned edges among these, and the entries their images name; everything else stays, in whatever order the edges come |
| `Adjacency.ExpiredIff` | minigu/storage/src/tp/txn_manager.rs:251-264 | An edge expires exactly when its deletion image is the last thing the collected entries say about it |
| `Adjacency.CreateExact` | minigu/storage/src/tp/memory_graph.rs:1131-1141 | A creation adds the edge as given and its two entries, nothing else |
| `Adjacency.UpdateExact` | minigu/storage/src/tp/memory_graph.rs:1559-1640 | An update changes the one head it names; an edge keeps its ends and label |
| `Adjacency.CreateSymmetric` | minigu/storage/src/tp/memory_graph.rs:1131-1141 | Edge creation keeps adjacency symmetric |
| `Adjacency.EntriesSymmetric` | minigu/storage/src/tp/txn_manager.rs:349-361 | Removing an image's entries from both lists keeps adjacency symmetric, whatever the image says |
| `Adjacency.RestoreExact` | minigu/storage/src/tp/checkpoint.rs:108-262 | Restoring a checkpoint gives back vertices, edges, stamps and adjacency if and only if every adjacency entry names a stored edge with that label |
| `Adjacency.CheckpointRoundTrip` | minigu/storage/src/tp/checkpoint.rs:108-262 | A checkpoint restores to the state it was taken in, over every run whose creations find no uncollected deletion image of their id with other ends |
| `Adjacency.AdjacencyStore.CreateEdge` | minigu/storage/src/tp/memory_graph.rs:1131-1141 | The method takes the specified step |
| `Adjacency.AdjacencyStore.RemoveVertexAndAdjacencies` | minigu/storage/src/tp/txn_manager.rs:310-346 | The loops over neighbours remove exactly the mirrored entries |
| `Adjacency.AdjacencyStore.CleanupExpiredEdge` | minigu/storage/src/tp/txn_manager.rs:276-307 | The method takes the specified step: tombstone tests first, then removals |
| `Adjacency.AdjacencyStore.CleanupGraphData` | minigu/storage/src/tp/txn_manager.rs:246-273 | The two loops find the expired edges and clean each once, in any order |

## Left out

- MvccTheorems.RunRefines: values are related only over runs whose aborts are clean; after one that is not, the
  committed values themselves have changed, which AbortExact states both ways. Stamps need no such condition. A
  creation that takes an id an active undo buffer still names is outside, exactly (CreateRefinesIff).
- MvccTheorems.SnapshotReads: needs the same two conditions for the same reasons.
- MvccRemoval.RepeatableReads: excludes readers begun between another transaction's timestamp draw and its
  publication, unclean aborts, and ids created again under an uncollected image; StepAndReads says what such readers
  see instead.
- MvccRemoval.CollectInvisible: needs clean aborts and no id created again under an uncollected image; CollectSeenIff
  is exact without them.
- MvccWatermark.RacingSafe: begin is one step there; MvccSplitBegin splits it.
- MvccSplitBegin.SplitBeginSafe: the steps of begin that fail for want of stamps leave a drawn id behind, as in the
  code; write-ahead logging of begin is not part of it.
- MemoryGraph.MemoryGraph.FinishCommit: the stamping of a transaction's records counts as one step, so readers
  interleaved inside that loop are not modelled. Where the code panics because a record is gone the model's commit
  changes nothing; the records stamped before the panic and the poisoned commit lock are not modelled.
- MemoryGraph.MemoryGraph.GarbageCollect: collection is one step, edges only; the removal of tombstoned vertices and
  the adjacency entries it cleans up are in `Adjacency.dfy`, without a claim about readers of a removed vertex.
- MemoryGraph.MemoryGraph.BeginTransaction: begin is one step here; MvccSplitBegin has the three.
- MemoryGraph.MemoryGraph.Insert: does not check that an edge's end points are visible.
- MemoryGraph.MemoryGraph.Remove: deleting a vertex does not cascade to its edges; the cascade is a deletion of each.
- Adjacency.CreateSafeIff: heads are changed freely by updates, a vertex's tombstone included; the versions behind
  them are the business of the chain model.
- Adjacency.RestoreExact: adjacency is restored into an empty graph, as recovery does, and its lists are sets.
- CrashSafety.AppendCrashSafe: the 256-byte header is written whole or not at all.
- OlapBlock.EdgeBlock.Insert: one block is a class with arrays; the store of all blocks, the index and the vertex
  table are values (`OlapStore.dfy`), so aliasing between blocks is not modelled. The header's label and destination
  bounds, which no reader here uses, are not kept.
- OlapReads.CommitVisibility: transactional writes only, and nothing else names the edge; the store has no
  write-conflict check, so what happens when two transactions write one edge is not claimed.
- OlapAbortTheorem.AbortRestores: no interleaved writer and one number of properties for all edges; otherwise
  creation can panic before there is anything to abort (`NewColumnNeedsFirstBlock`).
- Compression.CompressEdges: the block is non-empty and sorted; on an empty block the code underflows.
- FactorizedErrors.FailsIff: `And` and `Or` are excluded because their kernels do not spread scalars; EvaluationMeans
  still covers them when they succeed, and LogicSucceedsIff says when a logical node does.
- ResultSets.NumTuplesWithoutFactor: an overflowing product wraps as in a release build; a checked build panics.
- `is_compact` (`minigu/common/src/data_chunk/mod.rs:84`), which is true when a filter is still present.
- Optimistic mode, serializable read-set validation, write-intent recording and redo flushing: a second write path
  beside the one modelled.
- The vertex and edge reads that also return a guard timestamp: they serve the optimistic path.
- Replay of logged transactions on recovery, and setting the last commit timestamp in the header.
- Analytical vertex deletion, which shifts the dense vertex array without remapping ids.
- Crash claims for checkpoint writing and truncation, which rewrite regions in place and promise nothing.
- Vector index, value casts, Arrow, serialization and checksum internals, planner, sessions, catalog, CLI and CSV.
- I/O, clocks and threads: bytes, stamps and interleavings are parameters or steps.
