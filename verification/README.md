# NeuG transactions: a verified model

NeuG runs graph transactions in service mode on top of a timestamp manager made of atomic
counters and a ring bitmap.  This project models that manager as a step relation over all
interleavings, the four kinds of transactions that use it, their redo and undo logging, the
replay of the log when a database is opened, and three self-contained pieces beside it: type
printing, the byte encoder, and the bracket matcher of the lint script.  Every statement is
a theorem of the model.

`dafny verify dfyconfig.toml` checks the whole project.

## How the model is laid out

* **Timestamp manager.** `VersionManager` has one step per atomic operation and the program
  counter of every session in the state.  `Exclusion`, `Frontier` and `Compaction` prove what
  every run keeps.  `RingManager` is the class with the source's fields; its methods are tied
  to the lock sections of the step relation.
* **Transactions over the protocol.** `Records` is what transactions log and what the records
  of an update do to lists addressed by offsets and lids.  `Commits` lets insert transactions
  build, append and ingest their logs next to each other, or give up half-way, while an update
  transaction changes the graph record by record alone.  `Agreement` and `Snapshots` prove
  exactly when the graph and the log stay together over a run and what readers then see;
  `ListOrder` is about lists filled in timestamp order; `Clashes` builds three runs in which graph
  and log part.  `InsertTxn` and `Ingest` are the insert transaction object and the ingestion of
  its log into lid-addressed storage.  `Lifecycle` is the release of timestamps by transaction
  objects, the query driver and the session pool.
* **Undo.** `Adjacency` is one edge table with raw slots, tombstones and the search that pairs
  the two sides of an edge; `Rebuild` is the rebuild of its lists.  `Undo` holds the data
  operations with their undo records, `Renames` and `Columns` those on the columns of one type,
  `Capture` the loops that collect and remove the edges at a vertex.  `Database` joins data,
  columns of vertex and edge types, and types in one state with one stack of undo records;
  `Throwing` is about additions that throw and leave their record, `Restoring`, `Abort` and
  `Consistency` about taking back one operation, whole transactions, and keeping the state sound;
  `Unabortable` holds the transactions an abort does not take back.
* **Deferred deletion.** `Deferral` and `DeferralExact` are the columns of one vertex type, deleted
  at commit or at once.  `EdgeColumns` is the same for an edge type, whose schema throws.
  `EdgeRecords` is what records of edges do to what is seen of two lists, `Rows` numbers the rows
  of values that slots carry, and `EdgeDeferral` joins columns, rebuilds and the records between
  them; `EdgeOffsets` says when offsets survive, `StaleOffsets` holds transactions in which they do
  not.  `TypeDeferral` is types, vertex columns and edge types together.
* **Recovery.** `Recovery` is the log parser and the replay loop.
* **What each operation does.** The theorems above compare two sides that share their operations:
  a change and its undo, a transaction and its recovery, a live graph and a replayed log.  The
  modules ending in `Effects` therefore say what every operation does by itself, field by field,
  slot by slot and cell by cell, and when it is refused, without the functions that carry it out:
  `RecordEffects` and `StepEffects` for the records and steps of `Records` and `Commits`,
  `DataEffects`, `ColumnEffects` and `DatabaseEffects` for the operations of `Undo`, `Columns` and
  `Database`, `DeferralEffects`, `EdgeEffects` and `TypeEffects` for the transaction, the recovery
  and the commit of the deferred deletion.
* **Side cores.** `TypePrinting`, `Encoding`, `Brackets`, `Matching`, `Angles`.

## Results that differ from what one would expect

Where a property is false of the code, the code is modelled as it is, the condition under
which the property holds is proved both ways, and a lemma exhibits the failure.

* Exclusion holds exactly up to `thread_num + 1` sessions (`ExclusionExact`).
* The ring is exact as long as the clocks are at most `ring + 2` apart (`WindowExact`).
* A compaction's `clear()` is sound exactly when the counter is zero and nobody holds a
  timestamp (`ResetExact`, over runs `CompactionExact`); a read in the gap leads to a run in
  which an updater passes its drain next to a granted read (`GapBreaksExclusion`).  From the
  counter at -1 somebody is granted again exactly if at least two sessions take steps
  (`ShortExact`).
* The live graph is the replayed log in every state of a run exactly if no ingestion meets a
  vertex another transaction made, every change of an update addresses the same items in the
  lists as they are and in the lists in log order, and every abort brings back what was there
  (`RunExact`).  An abort that finishes but loses an edge leaves the graph behind the log
  (`LossyAbortRun`).  Two inserts that fill a list out
  of timestamp order make a later removal by offset hit another edge in recovery
  (`OutOfOrderRun`); two inserts of the same new oid leave half a transaction in the graph and a
  log that cannot be replayed (`SameOidRun`).
* An exception from an undo record keeps the update timestamp for good: this happens exactly if
  a write whose undo throws is made before anything gave the timestamp back and no later commit
  reaches the log (`UpdateStrandedExact`, `ThrowingUndoStrands`, `QueryStrandedExact`).
* The log parser sizes its table of inserts by insert timestamps only, so an unlogged
  timestamp past the table in front of a later update is read out of bounds
  (`TableCoversExact`); after a compaction timestamps restart while the old log stays, so
  inserts overwrite each other (`NothingLostExact`, `RestartLosesInsert`).
* `PropertyGraph::DeleteVertex` passes the wrong side for triplets between two labels.
  Undoing a vertex removal therefore works exactly when, for such triplets, the visible edges
  that leave the lid and those that enter it coincide, and no two recorded edges look the same;
  undoing an added vertex takes edges of the vertex with the same lid in the other label
  (`Undo.UndoExact`, `EdgeToOtherLabelBlocksAbort`, `EdgeFromOwnLabelIsLost`,
  `ParallelEdgesBlockAbort`, `NewVertexUndoTakesEdges`).
* `DeleteVertex` also takes the edges of edge types dropped earlier in the transaction, which are
  not recorded: aborting brings the type back without them (`DroppedEdgeTypeLosesEdges`).
* Giving an edge type its first columns rebuilds its lists, at the operation and again at its
  undo; recorded offsets survive that exactly if no slot was deleted and the incoming lists were
  in the order of the export (`RebuiltTwiceExact`, `RebuildBlocksAbort`).
* Adding properties to an edge type throws at a name that the schema still has, even of a column
  deleted in the same transaction, and the undo record stays: it restores exactly if only the new
  names were repeated (`ThrownExact`); deleting an edge column and adding it again makes the abort
  lose it (`ReaddedEdgeColumnIsLost`).
* A tolerated rename of an unknown column renames nothing, but its record stays and is undone: the
  abort throws, or renames a column that has the new name (`ToleratedUndoExact`,
  `ToleratedRenameBlocksAbort`, `ToleratedRenameMovesColumn`).
* A vertex type created again after it was dropped can neither be aborted nor recovered
  (`RecreatedTypeBlocksAbort`, `RecreatedLabel`).
* Undoing a new edge hits the wrong incoming slot exactly when a visible slot looks the same
  (`PutCapExact`, `PutEdgeMisses`).
* Rename undo swaps pairs in place: it restores exactly unchained renames
  (`RenameUndoExact`); a tolerated conflict when adding a column makes the abort delete the
  column that was there (`AddUndoExact`, `ConflictMisses`).
* Deletion deferred to commit is immediate deletion, wherever the transaction stops, exactly if no
  operation reuses what is to be removed: a name in a rename or an addition, a column id behind a
  deleted column, a label, or an edge type whose creation is refused but logged
  (`DeferralExact.DeferredExact`, `TypeDeferral.DeferredExact`, `RenameIntoDeletedName`,
  `SetBehindDeletedColumn`, `RecreatedEdgeType`).
* For edge types more is needed, because deleting columns rebuilds the lists, at commit here and at
  the record in recovery: every removal and property change in between must find in recovery's
  lists what it finds here, and the values of a new edge must fit the columns that are left
  (`EdgeDeferral.DeferredExact`).  Such a rebuild keeps the places exactly if no slot is deleted and
  the lists are in order (`AlignedExact`); with no offset used after one that does not, commit and
  recovery agree (`OffsetsHold`).  Otherwise recovery can throw (`StaleOffset`, `AddAfterDelete`),
  and even where the same edges are seen the lists end in another order (`OtherOrder`).
* Dropping a vertex type while columns of an edge type from it to itself are to be removed makes
  the commit throw after the log was written (`LoopStuck`).
* `GetVertexId` inverts `GetVertexIndex` exactly while no other visible vertex shows up at or
  past the base (`RoundTripExact`).

## Model

| member | source | states |
|---|---|---|
| `VersionManager.CountedStep` | src/transaction/version_manager.cc:53-150 | every atomic step keeps: the counter is granted plus transient requests minus thread_num while an updater is in; at most one updater; nobody granted beside a drained one |
| `VersionManager.ClaimStep` | src/transaction/version_manager.cc:110-140 | the claim flag is set exactly while one session is an updater |
| `VersionManager.ExclusiveStep` | src/transaction/version_manager.cc:53-93 | no step grants a read or insert while an updater is past its drain |
| `Exclusion.RunCounted` | src/transaction/version_manager.cc:53-150 | the counting invariant holds at the end of every run with at most thread_num + 1 sessions |
| `Exclusion.ExclusionExact` | src/transaction/version_manager.cc:53-150 | all reachable states are exclusive if and only if there are at most thread_num + 1 sessions |
| `Exclusion.CrowdBreaksExclusion` | src/transaction/version_manager.cc:110-125 | with thread_num + 2 sessions a reachable state has an updater drained next to a granted request |
| `Exclusion.PoolIsExclusive` | src/server/neug_db_service.cc:38-40 | a pool of thread_num sessions meets the bound |
| `Frontier.AdvanceReaches` | src/transaction/version_manager.cc:95-108 | the loop over ring bits reaches the end of the run of finished timestamps and leaves bits for exactly the ones beyond |
| `Frontier.RunFrontier` | src/transaction/version_manager.cc:53-150 | after every run within the window read_ts is the largest fully finished prefix and the bits stand for exactly the timestamps finished ahead of it |
| `Frontier.WindowExact` | src/transaction/version_manager.cc:28-29 | that meaning holds in all runs with clocks at most w apart if and only if w is at most ring + 2 |
| `Frontier.OverrunLosesTimestamp` | src/transaction/version_manager.cc:95-108 | a run with clocks ring + 3 apart in which two timestamps share a bit and a finished one stays unpublished |
| `Frontier.UpdaterIsNext` | src/transaction/version_manager.cc:127-140 | an updater's timestamp is read_ts + 1, so the error branch of the release is dead, and its revert succeeds |
| `Frontier.RevertUndoesAcquire` | src/transaction/version_manager.cc:142-150 | whatever others do meanwhile, revert leaves write_ts, read_ts and the ring as before the acquire |
| `Frontier.QuiescentManager` | src/transaction/version_manager.cc:53-150 | with every session idle the counters are 0, the clocks adjacent and the ring empty |
| `Compaction.ResetExact` | src/transaction/compact_transaction.cc:45-68 | clear() re-establishes every manager invariant if and only if the counter is 0 and no session holds a timestamp |
| `Compaction.QuietGapIsSound` | src/transaction/compact_transaction.cc:63-64 | if nobody is inside between release and clear, the reset is sound |
| `Compaction.CompactionExact` | src/transaction/compact_transaction.cc:45-68 | over every run: the manager's invariants hold in all states if and only if every clear() met an empty gap |
| `Compaction.GapLosesOne` | src/transaction/compact_transaction.cc:63-64 | a read spanning the gap ends with the counter at -1 and nobody in |
| `Compaction.ShortExact` | src/transaction/version_manager.cc:53-71 | with the counter at -1 and everybody idle, the sessions of a set can reach a grant if and only if the set has at least two |
| `Compaction.GapBreaksExclusion` | src/transaction/compact_transaction.cc:63-64 | a run through the gap after which an updater is drained next to a granted read |
| `RingManager.TPVersionManager.constructor` | src/transaction/version_manager.cc:33-36 | the initial clocks, counters and empty ring |
| `RingManager.TPVersionManager.InitTs` | src/transaction/version_manager.cc:40-44 | on a fresh manager, an initial state of the protocol just past ts |
| `RingManager.TPVersionManager.Clear` | src/transaction/version_manager.cc:46-51 | clocks back to 1 and 0, counter 0, ring empty, claim flag untouched |
| `RingManager.TPVersionManager.ReleaseReadTimestamp` | src/transaction/version_manager.cc:73 | one unit back and nothing else |
| `RingManager.TPVersionManager.ReleaseInsertTimestamp` | src/transaction/version_manager.cc:95-108 | the in-place loop equals the lock section of the protocol, then one unit back |
| `RingManager.TPVersionManager.ReleaseUpdateTimestamp` | src/transaction/version_manager.cc:127-140 | the lock section, thread_num back, claim dropped |
| `RingManager.TPVersionManager.RevertUpdateTimestamp` | src/transaction/version_manager.cc:142-150 | succeeds exactly if write_ts is ts + 1, and otherwise changes nothing |
| `Records.EffectExact` | src/transaction/update_transaction.cc:1060-1108 | a record of an update transaction does the same with two layouts of the lists if and only if it addresses the same items in both |
| `RecordEffects.EffectDoes` | src/transaction/update_transaction.cc:1050-1108 | a record fails exactly where an end, a row, a slot or a column is missing; otherwise an insert adds the item with the ends, label and values it names, a set changes one cell of one vertex, a removal takes what is at the offsets or at the lid, and every other item stays |
| `RecordEffects.RemoveVertexDoes` | src/storages/graph/property_graph.cc:709-729 | a removal takes the vertex and exactly the visible edges whose one end has its label and whose other end has its lid |
| `RecordEffects.SetEdgeDoes` | src/transaction/update_transaction.cc:1085-1093 | a property change reaches the r-th visible slot of either list, and there the one cell |
| `RecordEffects.PlaceDoes` | src/storages/graph/property_graph.cc:1104-1130 | a new vertex takes the next row of its label unless its oid has one, a new edge the next slot of the two lists of its ends; other lists stay |
| `Records.RemoveEdgeExact` | src/transaction/update_transaction.cc:1094-1108 | a removal by offsets does the same if and only if both slots show the same |
| `Records.SetEdgeExact` | src/transaction/update_transaction.cc:1085-1093 | a payload set by ranks does the same if and only if it hits the same slots, or changes neither |
| `Records.RemoveVertexExact` | src/storages/graph/property_graph.cc:709-729 | a vertex removal does the same if and only if the same edges are hit by the lid |
| `Commits.CoreStep` | src/transaction/insert_transaction.cc:141-174 | whatever clashes and whatever an abort leaves, every step keeps sessions, log and clocks in step, and every logged edge grounded |
| `StepEffects.AppendDoes` | src/transaction/insert_transaction.cc:141-159 | the log gets exactly the records the transaction wrote, under its timestamp |
| `StepEffects.IngestDoes` | src/transaction/insert_transaction.cc:160-173 | one step of ingestion makes the next record of the log an item born at the timestamp and leaves every other item |
| `StepEffects.AlterDoes` | src/transaction/update_transaction.cc:668-1030 | one change of an update does what its record says to what the timestamp sees; kept items keep their births, new ones are born at the timestamp |
| `StepEffects.CommitDoes` | src/transaction/update_transaction.cc:158-186 | the log gets exactly the changes that were made, in order, and the graph stays |
| `Commits.PrefixOfLog` | src/main/neug_db.cc:244-268 | where graph and log are together, the visible graph up to any published timestamp is the log replayed in timestamp order |
| `Agreement.OverwriteBreaks` | src/storages/graph/vertex_table.cc:266-280 | ingesting an oid that a later insert already made takes it from that insert |
| `Agreement.WholePublish` | src/transaction/insert_transaction.cc:160-173 | releasing an insert timestamp leaves no partial commit if and only if no record is left |
| `Agreement.NoGivingUp` | src/transaction/insert_transaction.cc:178-209 | ingestion of a grounded log throws only at a vertex that is already there |
| `Agreement.AlterExact` | src/transaction/update_transaction.cc:668-1030 | a change keeps the graph what recovery would make of log and records if and only if it addresses the same items in live lists and log order |
| `Agreement.RollBackExact` | src/transaction/update_transaction.cc:188-199 | an abort keeps the graph what the log says if and only if what it leaves shows what was there |
| `Agreement.StepExact` | src/transaction/update_transaction.cc:158-199 | a step of any session keeps graph and log together if and only if it meets no vertex already there, addresses what log order says, and an abort brings back what was there |
| `Snapshots.RunCore` | src/transaction/insert_transaction.cc:141-174 | in every run sessions, log and clocks are in step |
| `Snapshots.RunExact` | src/main/neug_db.cc:244-268 | graph and log are together in every state of a run if and only if every step is fine |
| `Snapshots.RunKeepsInv` | src/transaction/update_transaction.cc:158-199 | in fine runs the whole invariant holds in every state |
| `Snapshots.SnapshotIsLogPrefix` | src/transaction/version_manager.cc:53-73 | in fine runs a reader at r sees exactly the log replayed up to r, and the replay does not fail |
| `Snapshots.SnapshotIsStable` | src/transaction/version_manager.cc:95-140 | in fine runs, while a reader holds r, no step of anyone changes what is visible at r |
| `Snapshots.WholeOrNothing` | src/transaction/insert_transaction.cc:141-174 | in fine runs all records of an insert at or below a held snapshot are visible, and nothing else was born at its timestamp |
| `Snapshots.LiveEqualsReplay` | src/main/neug_db.cc:244-268 | in fine runs, once all sessions are idle, the live graph is the replay of the log in timestamp order |
| `ListOrder.LayOrdered` | src/main/neug_db.cc:244-268 | replay fills every list in the order of timestamps and records |
| `ListOrder.InLogOrderExact` | src/transaction/update_transaction.cc:1085-1108 | a live list is the replayed one if and only if it was filled in that order and holds just the logged slots |
| `ListOrder.FilledInOrderIsFine` | src/transaction/update_transaction.cc:1085-1108 | a change whose lists were filled in timestamp order is replayed as it was made |
| `Clashes.OutOfOrderRun` | src/transaction/update_transaction.cc:804-815 | a run: insert 2 is ingested before insert 1, an update removes the edge of 1 by offset, replay takes the slot of 2 |
| `Clashes.LossyAbortRun` | src/transaction/update_transaction.cc:121-122 | a run: an update removes a vertex and aborts, an edge it did not record is gone, and the log still shows it |
| `Clashes.SameOidRun` | src/transaction/insert_transaction.cc:160-173 | a run: two inserts log one oid, the second throws half-way; half its log stays and the log cannot be replayed |
| `Recovery.LocalWalParser.Open` | src/transaction/wal/local_wal_parser.cc:34-95 | the table holds the last insert of each timestamp, the updates are a sorted permutation, and last_ts is the timestamp of some unit such that none is later, or 0 without units |
| `Recovery.LocalWalParser.Take` | src/transaction/wal/local_wal_parser.cc:63-85 | one unit extends the tables for the units read so far |
| `Recovery.LastTsIs` | src/transaction/wal/local_wal_parser.cc:63-85 | last_ts is reached by some unit and passed by none, and is 0 for an empty log |
| `Recovery.LastInsertExact` | src/transaction/wal/local_wal_parser.cc:77-83 | the table holds at a timestamp the body of the last insert unit with it, and nothing exactly if there is none |
| `Recovery.ReadableIs` | src/transaction/wal/local_wal_parser.cc:63-76 | of a file exactly the units in front of the first one with timestamp 0 are read |
| `Recovery.UpdatesCount` | src/transaction/wal/local_wal_parser.cc:67-76 | the list of updates has each update unit as often as the files |
| `Recovery.LatestCompactionIs` | src/main/neug_db.cc:253-261 | the compaction timestamp is that of the last update unit without a body |
| `Recovery.NeugDB.IngestWalRange` | src/main/neug_db.cc:50-64 | the inserts of a range in order; fails exactly if the range leaves the table |
| `Recovery.NeugDB.IngestUpdateWal` | src/main/neug_db.cc:253-261 | an update record reaches the graph as it is, an empty one as a compaction that is remembered |
| `Recovery.NeugDB.IngestWals` | src/main/neug_db.cc:244-268 | succeeds exactly if every gap is covered; then timestamps 1..last_ts each once, in order, each with its own event |
| `Recovery.TableCoversExact` | src/transaction/wal/local_wal_parser.cc:78-82 | replay stays in the table if and only if every timestamp from the end of the table on was logged |
| `Recovery.InsertSurvives` | src/transaction/wal/local_wal_parser.cc:77-83 | a logged insert is replayed if and only if no update has its timestamp and its slot kept its body |
| `Recovery.NothingLostExact` | src/transaction/wal/local_wal_parser.cc:77-83 | recovery loses no insert if and only if inserts share timestamps with no update and no different insert |
| `Recovery.RestartLosesInsert` | src/transaction/compact_transaction.cc:63-64 | after a compaction restarted the clock, an insert at timestamp 1 replaces the earlier one |
| `Recovery.NewTimestampsAreFresh` | src/transaction/version_manager.cc:40-44 | in every run after init_ts, held timestamps are larger than every replayed one |
| `Recovery.Recover` | src/main/neug_db.cc:244-268 | parsing and replaying a log directory: when it succeeds, in which order, and that the clock it leaves is the timestamp of some unit and none is later |
| `InsertTxn.RoundTripExact` | src/transaction/insert_transaction.cc:52-77 | GetVertexId undoes GetVertexIndex for all oids if and only if no foreign visible vertex is at or past the base |
| `InsertTxn.DistinctIds` | src/transaction/insert_transaction.cc:52-77 | while the table is not extended, two oids never share an id |
| `InsertTxn.ForeignVertexTakesName` | src/transaction/insert_transaction.cc:65-77 | next to a foreign vertex the id of that vertex names the transaction's own |
| `InsertTxn.InsertTransaction.CreateIdIndexer` | src/transaction/insert_transaction.cc:241-269 | the base is fixed once, at the table size |
| `InsertTxn.InsertTransaction.AddVertex` | src/transaction/insert_transaction.cc:79-110 | a known oid keeps its id without a second record; a new one gets the next dense id and one record; the log stays well-formed |
| `InsertTxn.InsertTransaction.AddEdge` | src/transaction/insert_transaction.cc:112-139 | logs the named endpoints or nothing; both are visible or inserted earlier in the log |
| `InsertTxn.InsertTransaction.NamedIsKnown` | src/transaction/insert_transaction.cc:65-77 | whatever an id names is visible or logged |
| `Ingest.IngestWal` | src/transaction/insert_transaction.cc:178-209 | succeeds exactly on well-formed logs, for any lids; at every snapshot before the timestamp the vertices and edges are the old ones, at every later one they are joined by exactly the vertices and, in order, the edges the log names; every row and edge it makes is born at the timestamp |
| `Ingest.SnapshotsAfter` | src/transaction/insert_transaction.cc:178-209 | what a reader of any snapshot sees before and after a whole ingestion |
| `Ingest.CommitSucceedsExact` | src/transaction/insert_transaction.cc:141-174 | a log built earlier ingests later if and only if nobody made one of its new vertices visible |
| `Lifecycle.Transaction.Abort` | src/transaction/update_transaction.cc:188-199 | runs the undo records first; gives a held timestamp back once unless one throws, a compaction by reverting it and the others by their release |
| `Lifecycle.Transaction.Commit` | src/transaction/insert_transaction.cc:141-167 | gives the timestamp back unless the log threw; refused records abort; a compaction the log took is released and then clears the manager, one it refused is reverted |
| `Lifecycle.Transaction.Live` | src/transaction/compact_transaction.cc:41-76 | after any uses and destruction nothing is held any more exactly if the uses return the timestamp |
| `Lifecycle.UseTransaction` | src/transaction/read_transaction.cc:30-48 | after any writes, commits, aborts and destruction the timestamp was given back exactly once, unless an undo threw; a compaction makes exactly the calls release and clear if the log took it before anything else settled it, and otherwise exactly a revert |
| `Lifecycle.UpdateStrandedExact` | src/transaction/update_transaction.cc:188-199 | an update transaction keeps its timestamp for good if and only if it makes a write whose undo throws before anything gave the timestamp back, and no later commit reaches the log |
| `Lifecycle.ThrowingUndoStrands` | src/transaction/update_transaction.cc:154 | the destructor's abort throws again and gives nothing back |
| `Lifecycle.ValidateFlags` | src/server/neug_db_session.cc:84-123 | a read query is accepted exactly if no flag but read is set, an insert query exactly if only insert is and the database can be written, any other exactly if the database can be written and nothing is a batch or a temporary table |
| `Lifecycle.Eval` | src/server/neug_db_session.cc:125-151 | a read or insert query makes exactly the one release of its kind, an update or schema query too, or none exactly if an undo throws and its records did not reach the log; other modes make no call |
| `Lifecycle.QueryStrandedExact` | src/server/neug_db_session.cc:125-151 | a query leaves its timestamp behind if and only if it updates, a write's undo throws, and its records do not reach the log |
| `Lifecycle.NextIsProtocol` | src/transaction/version_manager.cc:73-150 | the release calls are the protocol's own steps |
| `Lifecycle.OneCallReturnsToIdle` | src/transaction/version_manager.cc:73-150 | one fitting call takes the session to idle, a second would be out of turn |
| `Lifecycle.SessionPool.Acquire` | src/server/session_pool.cc:19-34 | first in first out, and never a session that is lent |
| `Lifecycle.SessionPool.Release` | src/server/session_pool.cc:49-57 | the session is available again, once |
| `Adjacency.SearchFinds` | src/storages/csr/generic_view_utils.cc:46-93 | a slot without a visible double is the one the search returns |
| `Adjacency.SearchExact` | src/storages/csr/generic_view_utils.cc:46-93 | the search returns a slot that looks like the one sought |
| `Adjacency.SearchIs` | src/storages/csr/generic_view_utils.cc:46-93 | on any list the search finds exactly the single visible slot to the neighbour, whatever it carries, or of several the first that carries the same |
| `Adjacency.DropOutWithout` | src/storages/graph/edge_table.cc:651-689 | the removal loop takes away exactly the edges from the vertex, on both sides |
| `Adjacency.DropBothWithout` | src/storages/graph/edge_table.cc:651-689 | both loops on one table take away exactly the edges at the vertex |
| `Adjacency.RestoreOutExact` | src/transaction/undo_log.cc:50-61 | replaying the captured outgoing edges restores a table if and only if exactly those were removed and no two look the same |
| `Adjacency.RestoreInExact` | src/transaction/undo_log.cc:50-61 | the same for captured incoming edges |
| `Adjacency.PutCapExact` | src/storages/csr/generic_view_utils.cc:171-187 | the search after an insertion finds the new incoming slot if and only if no visible slot looks the same |
| `Adjacency.PutEdgeMisses` | src/transaction/undo_log.cc:33-37 | with a visible double, undoing the insertion deletes the wrong incoming slot |
| `Adjacency.SetEdgeUndone` | src/transaction/undo_log.cc:44-48 | undoing a payload change restores if and only if both sides carried the same payload |
| `Rebuild.RebuildShows` | src/storages/graph/edge_table.cc:1064-1150 | a rebuilt table shows every vertex the same edges |
| `Rebuild.RebuildOk` | src/storages/graph/edge_table.cc:1064-1150 | the rebuilt lists agree on both sides |
| `Rebuild.RebuildKeepsExact` | include/neug/storages/csr/mutable_csr.h:148-180 | a rebuild leaves every slot in place if and only if none was deleted and the incoming lists are in export order |
| `Rebuild.RebuiltOnceExact` | src/storages/graph/edge_table.cc:818-846 | rebuilt only when columns go, every slot is where it was if and only if the same holds |
| `Rebuild.RebuiltTwiceExact` | src/storages/graph/edge_table.cc:793-846 | rebuilt when columns come and again when they go, every slot is where it was if and only if the same holds |
| `Capture.FetchFromView` | src/transaction/update_transaction.cc:48-86 | the loop over one view collects its visible slots with the other side's offset |
| `Capture.FetchEdges` | src/transaction/update_transaction.cc:88-138 | the loops over labels collect outgoing edges of all triplets from the label and incoming ones from other labels |
| `Capture.CaptureComplete` | src/transaction/update_transaction.cc:48-138 | all visible outgoing edges, and incoming ones from other labels, each once under its own triplet with a slot on the other side that looks like it; none of a triplet with a tombstone |
| `Capture.OwnSlotsExact` | src/transaction/update_transaction.cc:48-86 | every recorded edge has a slot of its own on the other side if and only if no two of them look the same |
| `Capture.DropVertex` | src/storages/graph/property_graph.cc:709-729 | the loops over labels remove the vertex from each table on the side the code passes |
| `Undo.ReviveTablesExact` | src/transaction/undo_log.cc:50-61 | the edge part of undoing a removal restores all tables if and only if it recorded exactly what it took |
| `Undo.UndoneFromAnywhere` | src/transaction/undo_log.cc:28-67 | under an operation's condition its undo restores from any graph that shows what the operation left |
| `Undo.UndoExact` | src/transaction/undo_log.cc:28-67 | each data operation's undo restores the visible graph if and only if its condition holds |
| `DataEffects.DataDoes` | src/transaction/update_transaction.cc:668-1030 | a data operation is refused exactly where a label, row, cell, slot or rank is missing; otherwise a new vertex has its row with its values, a set changes one cell, a removal hides the row and its edges, a new edge is the last slot on both sides, a removed one loses its stamps, a changed one its value, and everything else stays |
| `DataEffects.DeleteVertexDoes` | src/storages/graph/property_graph.cc:709-729 | a removal hides the row and, on both sides of every table, exactly the edges that leave the lid where the label is the destination and those that enter it where it is the source; every other slot stays |
| `DataEffects.SetVertexDoes` | src/transaction/update_transaction.cc:885-919 | exactly the one cell of the one row changes |
| `DataEffects.AddEdgeDoes` | src/transaction/update_transaction.cc:736-777 | one more slot at the end of either list, with the same payload and the timestamp |
| `Renames.Moved` | src/utils/property/table.cc:159-170 | renames that run into no taken name move each id to the target of its name |
| `Renames.ThereAndBackExact` | src/transaction/undo_log.cc:100-116 | swapping the pairs in place gives the name map back if and only if no new name is in use or given twice |
| `Columns.RenameColsAre` | src/storages/graph/schema.cc:96-112 | the nested rename loops of the schema rename every column to its target |
| `Columns.RenameUndoExact` | src/transaction/undo_log.cc:100-116 | undoing a rename that was carried out restores schema and table if and only if the renames are unchained |
| `Columns.ToleratedUndoExact` | src/storages/graph/property_graph.cc:434-464 | the record of a tolerated rename restores if and only if renaming back finds every new name and moves nothing |
| `Columns.PrimaryKeyRename` | src/storages/graph/property_graph.cc:434-464 | renaming the primary key changes nothing and makes the undo throw |
| `Columns.DropAllKeeps` | src/utils/property/table.cc:172-193 | removing columns keeps the others in order with their ids |
| `Columns.AddUndoExact` | src/transaction/undo_log.cc:69-80 | undoing added columns restores if and only if the names were new, once each |
| `Columns.ConflictMisses` | src/storages/graph/property_graph.cc:350-362 | a tolerated conflict adds nothing, but its undo removes the column that was there |
| `Columns.DeleteUndone` | src/transaction/undo_log.cc:140-147 | soft deletion is undone exactly |
| `Columns.UndoExact` | src/transaction/undo_log.cc:69-147 | each column operation's undo restores schema and table if and only if its condition holds |
| `ColumnEffects.ColumnsDo` | src/transaction/update_transaction.cc:284-566 | a column operation is refused exactly where a name is known, unknown or the primary key; otherwise new columns stand behind the old ones with their names, kinds and defaults, deleted ones are marked, renamed ones are renamed one after the other, and ids follow |
| `ColumnEffects.DropDoes` | src/utils/property/table.cc:172-193 | removing columns for good: exactly the named ones go, the others keep their order and get their places as ids |
| `Throwing.ThrownExact` | src/storages/graph/schema.cc:259-279 | the record of an addition that threw restores the columns if and only if no name but the new ones was known |
| `Throwing.WipesExact` | src/storages/graph/edge_table.cc:818-846 | undoing it rebuilds the lists from a table that was never filled if and only if the type has one column that the slots hold |
| `Restoring.CutBack` | src/storages/graph/vertex_table.cc:231-251 | removing added columns leaves every row the cells it had |
| `Restoring.UndoneFromAnywhere` | src/transaction/undo_log.cc:20-190 | data, columns and types: under its condition an operation is taken back from any state that shows what it left |
| `Restoring.UndoExact` | src/transaction/undo_log.cc:20-190 | data, columns of vertex and edge types, and types: an operation's record takes it back if and only if its condition holds |
| `DatabaseEffects.DatabaseDoes` | src/transaction/update_transaction.cc:201-1030 | an operation on the whole database is refused exactly where it must be, and otherwise changes the one type it names: data, columns together with the cells of every row, which get the defaults, edge columns with what their lists show, or the types; everything else stays |
| `Abort.AbortRestores` | src/transaction/update_transaction.cc:188-199 | popping the one undo stack after any sequence of operations of all kinds shows the database the transaction began on |
| `Abort.SameShows` | src/transaction/update_transaction.cc:193-199 | that means: the same types and columns, the same vertices with the same properties and the same edges everywhere |
| `Abort.UpdateTransaction.Run` | src/transaction/update_transaction.cc:201-1030 | an operation is refused exactly where DatabaseEffects says, and then changes nothing and pushes nothing; otherwise it does what DatabaseEffects says and pushes its record; one that throws half-way keeps what it did and its record |
| `Abort.UpdateTransaction.RevertChanges` | src/transaction/update_transaction.cc:193-199 | the loop pops the whole stack, last in first out |
| `Abort.RunAndAbort` | src/transaction/update_transaction.cc:188-199 | a transaction object that runs and aborts leaves what every reader saw |
| `Consistency.CarefulKeepsSound` | src/storages/graph/edge_table.cc:645-719 | careful operations keep the database sound and are restorable |
| `Consistency.CarefulAbortRestores` | src/transaction/update_transaction.cc:188-199 | on a sound database any sequence of careful operations of all kinds can be aborted |
| `Unabortable.EdgeToOtherLabelBlocksAbort` | src/storages/graph/property_graph.cc:709-729 | removing a vertex with a visible edge to another label and lid cannot be undone |
| `Unabortable.EdgeFromOwnLabelIsLost` | src/transaction/update_transaction.cc:121-122 | incoming edges from the vertex's own label are removed but not recorded |
| `Unabortable.NewVertexUndoTakesEdges` | src/storages/graph/property_graph.cc:709-729 | undoing a new vertex removes edges of another label's vertex with the same lid |
| `Unabortable.RemovalCannotBeAborted` | src/storages/graph/property_graph.cc:709-729 | a concrete graph on which that happens |
| `Unabortable.ParallelEdgesBlockAbort` | src/transaction/update_transaction.cc:48-86 | a concrete graph with two edges that look the same, on which the undo throws |
| `Unabortable.RecreatedTypeBlocksAbort` | src/transaction/undo_log.cc:162-174 | a vertex type dropped and created again: the undo of the drop throws |
| `Unabortable.DroppedEdgeTypeLosesEdges` | src/storages/graph/property_graph.cc:709-729 | an edge type dropped, then a vertex with such edges: abort brings the type back without them |
| `Unabortable.RebuildBlocksAbort` | src/storages/graph/edge_table.cc:786-846 | an edge deleted, then a property added to its type: the lists are rebuilt and the abort throws |
| `Unabortable.ToleratedRenameBlocksAbort` | src/transaction/update_transaction.cc:387-423 | a tolerated rename of an unknown column to an unknown name: the abort throws |
| `Unabortable.ToleratedRenameMovesColumn` | src/transaction/update_transaction.cc:387-423 | a tolerated rename of an unknown column to the name of another: the abort renames that one |
| `Unabortable.ReaddedEdgeColumnIsLost` | src/transaction/update_transaction.cc:331-385 | an edge column deleted and added again: the addition throws, its record stays, and the abort loses the column |
| `Deferral.CommitIs` | src/transaction/update_transaction.cc:1207-1221 | where recovery follows the transaction, removing the collected columns in any order gives what recovery has |
| `DeferralExact.StepExact` | src/transaction/update_transaction.cc:284-513 | one column operation: commit would give what recovery gives if and only if it does not reuse what is to be removed |
| `DeferralExact.DeferredExact` | src/transaction/update_transaction.cc:1207-1221 | wherever the transaction stops commit gives what recovery gives, if and only if no operation reuses what is to be removed |
| `DeferralEffects.LiveStepDoes` | src/transaction/update_transaction.cc:284-513 | in the transaction a column change does what it says to the columns, and a name is to be removed exactly if it was deleted and not added since |
| `DeferralEffects.ReplayStepDoes` | src/transaction/update_transaction.cc:1109-1135 | in recovery additions and renames do the same, a deletion removes exactly the named columns at once, and a refusal changes nothing |
| `DeferralEffects.CommitDoes` | src/transaction/update_transaction.cc:1207-1221 | commit removes exactly the collected columns, or none if one of them is gone or the primary key |
| `DeferralExact.RenameIntoDeletedName` | src/transaction/update_transaction.cc:387-423 | a rename into a deleted name: commit and recovery differ |
| `DeferralExact.SetBehindDeletedColumn` | src/transaction/update_transaction.cc:1078-1084 | a content set by column id behind a deleted column: commit and recovery differ |
| `EdgeRecords.EditShows` | src/storages/graph/edge_table.cc:645-719 | the same two lists edited in two tables that show the same edges: they still do if and only if both edits replace the same by the same |
| `EdgeRecords.RevaluePaired` | src/storages/graph/edge_table.cc:1000-1062 | changing the values of all edges leaves every edge seen as often from its source as from its target |
| `Rows.RowCode` | src/storages/graph/edge_table.cc:866-873 | the number a slot carries gives back the row of values |
| `EdgeColumns.ColumnsKept` | src/storages/graph/schema.cc:259-322 | an edge-column change that throws nowhere and reuses nothing keeps recovery behind the transaction |
| `EdgeColumns.ColumnsBroken` | src/storages/graph/schema.cc:259-322 | after any other, recovery fails or commit gives other columns |
| `DeferralEffects.EdgeAdditionThrows` | src/storages/graph/schema.cc:259-279 | adding a known name throws and leaves exactly the names in front of it, in the schema only |
| `DeferralEffects.EdgeRenameHalts` | src/storages/graph/schema.cc:281-300 | renaming a column that is gone throws and leaves exactly the renames in front of it, in the schema only |
| `DeferralEffects.EdgeReplayDoes` | src/storages/graph/schema.cc:259-322 | recovery fails exactly there, or where the lists cannot be exported, and otherwise does the same to the columns |
| `EdgeDeferral.AddExact` | src/storages/graph/edge_table.cc:850-877 | adding an edge is repeated if and only if its values fit the columns now and the same values fit those that are left |
| `EdgeDeferral.RemoveShows` | src/storages/graph/edge_table.cc:645-649 | removing by the same offsets in two tables shows the same if and only if both slots showed the same |
| `EdgeDeferral.SetExact` | src/storages/graph/edge_table.cc:698-719 | a property change by ranks is repeated if and only if the ranks name slots that change in the same way |
| `EdgeDeferral.StepExact` | src/transaction/update_transaction.cc:331-1030 | one change of an edge type: commit would show what recovery shows if and only if it reuses nothing, fits, and addresses the same; what each change does to the rows is stated by EdgeEffects |
| `EdgeEffects.AddShowsHere` | src/storages/graph/edge_table.cc:786-807 | after an addition of columns that comes through, every visible edge has its old cells and behind them the default of each new column, in place or after the rebuild of the lists; otherwise no list changes |
| `EdgeEffects.AddShowsThere` | src/transaction/update_transaction.cc:1113-1117 | the same of the record in recovery |
| `EdgeEffects.AddThenCommit` | src/transaction/update_transaction.cc:1223-1248 | the same of the edges after commit, in whatever order the deleted columns go |
| `EdgeEffects.CommitShowsRows` | src/transaction/update_transaction.cc:1223-1248 | commit leaves every visible edge its other end and its row; it packs the lists, incoming ones sorted by the other end, if columns go and what is left fits into the slots, and otherwise leaves every slot |
| `EdgeEffects.DeleteShowsHere` | src/storages/graph/edge_table.cc:819-846 | after a deletion every edge shows its row without exactly the cells of the first columns of those names, in the same slots |
| `EdgeEffects.DeleteShowsThere` | src/storages/graph/edge_table.cc:819-846 | the same in recovery, with the lists rebuilt if what is left fits into the slots; unknown names change nothing |
| `EdgeEffects.AddEdgeHere` | src/storages/graph/edge_table.cc:850-877 | a new edge is refused exactly if its values do not fit; otherwise one more slot on either side shows the value of each column that is not deleted |
| `EdgeEffects.AddEdgeThere` | src/transaction/update_transaction.cc:1070-1077 | in recovery the same with all columns, and it fails exactly if the values do not fit |
| `EdgeEffects.RemoveEdgeBoth` | src/storages/graph/edge_table.cc:645-649 | exactly the two addressed slots lose their stamps, live and in recovery, which fails exactly beyond the end of a list |
| `EdgeEffects.SetEdgeHere` | src/storages/graph/edge_table.cc:698-719 | exactly the cell of the column changes, in the slots of those ranks |
| `EdgeEffects.SetEdgeThere` | src/transaction/update_transaction.cc:1085-1093 | in recovery both slots if the value is in them, and else the row of the outgoing slot with its other side; it fails exactly if a rank or the column is missing |
| `EdgeDeferral.DeferredExact` | src/transaction/update_transaction.cc:1223-1248 | an edge type with columns removed and lists rebuilt at commit equals the replayed log wherever the transaction stops, if and only if every change is one that recovery repeats |
| `EdgeDeferral.NextTransaction` | src/transaction/update_transaction.cc:158-186 | after commit the next transaction starts with recovery behind it again, though lists may differ in order |
| `EdgeOffsets.AlignedExact` | src/storages/graph/edge_table.cc:786-846 | a column change leaves every slot in the same place here and in recovery if and only if it does not rebuild, in recovery only, lists with deleted slots or out of order |
| `EdgeOffsets.OffsetsHold` | src/transaction/update_transaction.cc:1085-1135 | if no offset is used after a change that moves slots in recovery only, commit and recovery agree wherever the transaction stops |
| `StaleOffsets.StaleOffset` | src/transaction/update_transaction.cc:1094-1135 | the only property deleted, then the last slot behind a deleted one removed: recovery throws |
| `StaleOffsets.AddAfterDelete` | src/storages/graph/edge_table.cc:863-867 | with three columns, one deleted and then an edge added: whatever the values, transaction or recovery throws |
| `StaleOffsets.OtherOrder` | src/transaction/update_transaction.cc:1223-1248 | the only property deleted, then two edges added: the same edges, but another one at incoming offset 0 |
| `TypeDeferral.ChangeExact` | src/transaction/update_transaction.cc:201-1030 | one change of types, vertex columns or an edge type: commit would give what recovery gives if and only if it is one that recovery repeats |
| `TypeDeferral.DeferredExact` | src/transaction/update_transaction.cc:1183-1248 | edge types, vertex types, vertex columns, edge columns at commit equal the replayed log wherever the transaction stops, if and only if every change is one that recovery repeats |
| `TypeEffects.LiveDoes` | src/transaction/update_transaction.cc:201-664 | a change of types is refused exactly where it must be; otherwise labels, triplets, tombstones and what is to be removed change as it says, a dropped label taking exactly the triplets to other labels, and changes of columns and edges go to the type they name |
| `TypeEffects.LogHas` | src/transaction/update_transaction.cc:201-1030 | recovery meets exactly the changes that pass the transaction's own checks, whether or not the storage then refuses them |
| `TypeEffects.ReplayedDoes` | src/transaction/update_transaction.cc:1032-1149 | in recovery types go at once with exactly their triplets, columns and lists, and only records of edges can fail |
| `TypeEffects.CommitDoes` | src/transaction/update_transaction.cc:1183-1248 | commit throws exactly if an edge type without an end has columns to be removed; otherwise exactly the types that were not dropped, nor go with a dropped label in its turn, are left, without the collected columns |
| `TypeDeferral.LoopStuck` | src/transaction/update_transaction.cc:1223-1248 | columns of an edge type from a label to itself are to be removed and the label is dropped: commit throws |
| `TypeDeferral.RecreatedLabel` | src/transaction/update_transaction.cc:201-234 | a label dropped and created again is removed at commit and kept by recovery |
| `TypeDeferral.RecreatedEdgeType` | src/transaction/update_transaction.cc:236-281 | an edge type dropped and created again is refused but logged; recovery has it, commit has not |
| `TypePrinting.EqIsShape` | src/common/types.cc:47-64 | on well-formed types == is structural equality without string lengths |
| `TypePrinting.EqIsEquivalence` | src/common/extra_type_info.cc:41-90 | == is an equivalence relation |
| `TypePrinting.IllFormedAsymmetry` | src/common/extra_type_info.cc:41-60 | on ill-formed types == is not symmetric |
| `TypePrinting.ToString` | src/common/types.cc:214-273 | the recursive printer with its loop builds the printed form of the shape |
| `TypePrinting.ReadsBack` | src/common/types.cc:254-269 | a printed type can be read off the front of a text in one way only |
| `TypePrinting.PrintIsFaithful` | src/common/types.cc:214-273 | two well-formed types print the same if and only if they are == |
| `TypePrinting.NamesAre` | src/common/types.cc:214-253 | the printed name of every listed id, and the number behind UNKNOWN for the others |
| `TypePrinting.PrintForm` | src/common/types.cc:254-269 | a list prints its child in angle brackets, a struct its children with a comma and a blank between them |
| `Encoding.ItemBack` | src/utils/encoder.cc:22-106 | a decoded value is the encoded one and the rest of the buffer is untouched |
| `Encoding.EncodedBytes` | src/utils/encoder.cc:22-106 | numbers lie in four or eight bytes, the lowest first, negative ones in two's complement; strings behind four bytes or one byte of length |
| `Encoding.SmallExact` | src/utils/encoder.cc:92-98 | a small string comes back if and only if it has at most 255 bytes |
| `Encoding.AllBack` | src/utils/encoder.cc:122-201 | a sequence of values decodes to itself |
| `Encoding.FillReplaces` | src/utils/encoder.cc:28-36 | writing over a slot replaces just that value |
| `Encoding.Encoder.PutSmallString` | src/utils/encoder.cc:92-98 | appends the low byte of the length and the bytes |
| `Encoding.Encoder.PutAt` | src/utils/encoder.cc:34-36 | overwrites in place |
| `Encoding.Write` | src/utils/encoder.cc:22-106 | after any puts, skips and fills the buffer is the encoding of the final values |
| `Encoding.WrittenBack` | src/utils/encoder.cc:122-201 | decoding in the same order gives them back and uses up the buffer |
| `Encoding.Decoder.GetSmallString` | src/utils/encoder.cc:183-188 | reads the length byte, then as many bytes |
| `Brackets.FindEndOfExpressionInLine` | scripts/cpplint.py:1996-2071 | the loop equals the character-wise scan with the stack |
| `Brackets.CloseExpression` | scripts/cpplint.py:2074-2115 | the loop over lines equals the scan carried over line ends; nothing is searched where no bracket opens or a shift or comparison begins |
| `Brackets.FindStartOfExpressionInLine` | scripts/cpplint.py:2118-2192 | the backward loop, with its skips, equals the backward scan |
| `Brackets.ReverseCloseExpression` | scripts/cpplint.py:2195-2230 | the loop over lines equals the backward scan carried over line ends; nothing is searched where no bracket closes |
| `Matching.Retraces` | scripts/cpplint.py:2118-2192 | where forward had brackets open, backward has exactly their mates pending |
| `Matching.FirstReturn` | scripts/cpplint.py:1996-2071 | each open bracket is closed by its mate around a properly nested text |
| `Matching.MatchingIsInvertible` | scripts/cpplint.py:2074-2230 | without angle brackets a found end is the mate, the text between is nested, and backward returns to the start |
| `Matching.CloseAndReturn` | scripts/cpplint.py:2074-2230 | the same of the two procedures |
| `Matching.AngleBracketsDiffer` | scripts/cpplint.py:2140-2151 | with angle brackets a line on which backward does not return |
| `Angles.TemplateArgument` | scripts/cpplint.py:2014-2060 | a `<` that is no shift and no operator is closed by the next `>` that is no arrow: there the search ends, or goes on with what was open |
| `Angles.Shift` | scripts/cpplint.py:2014-2027 | two `<` in a row leave the open brackets as they were, and end a search that had none |
| `Angles.ArrowAndOperator` | scripts/cpplint.py:2022-2052 | an arrow and the name of an operator open and close nothing |
| `Angles.AfterOperatorIs` | scripts/cpplint.py:2022-2051 | a text ends in the name of an operator exactly if it has the keyword as a word with nothing but white space behind it |
| `Angles.PendingForgotten` | scripts/cpplint.py:2028-2068 | comparisons pending at a closing bracket or a semicolon are forgotten |
| `Angles.TemplateBack` | scripts/cpplint.py:2140-2162 | backward the `>` is led to its `<` |
| `Angles.PassedBack` | scripts/cpplint.py:2140-2155 | backward arrows, shifts, spaced comparisons and operators are passed over with the character before them |
| `Angles.PendingForgottenBack` | scripts/cpplint.py:2163-2188 | backward comparisons pending at an opening bracket or a semicolon are forgotten |
| `Angles.TemplateBothWays` | scripts/cpplint.py:2074-2230 | so both procedures match a template argument without brackets in it |

## Left out

- C++ memory orderings, sleeps, fairness and uint32 wrap-around: steps are sequentially consistent over naturals and only safety is proved.
- Compaction.ResetExact: the four stores of clear() are one step, so interleavings inside clear() are not covered.
- The acquire methods of the manager are steps of the protocol, not methods, because they wait; Commits has no compaction step.
- Commits.CoreStep: the graph an abort leaves is any without traces of the transaction; which one the undo records leave is stated by Restoring.UndoExact and Abort.AbortRestores.
- Agreement.AlterExact: update records of the schema are not in Commits; their replay, together with the records of edges between them, is TypeDeferral's. Edge payloads are the bundled form, one copy on either side, and removing a vertex with an edge that has lost one side counts as failing.
- Snapshots.WholeOrNothing: speaks of inserts after the last update; what lies before it is covered as a whole by Snapshots.SnapshotIsLogPrefix.
- Recovery.NeugDB.IngestWals: the order is stated for logs whose update timestamps differ; with repeated ones only coverage is.
- Ingest.IngestWal: retries after a failed lookup are one lookup, a full vertex table is not modelled, and the rows of Ingest carry no properties, which Commits has.
- Undo.UndoExact: edge properties kept in a separate table, capacities, and failures half way through one storage call are not modelled; payload changes address edges by rank among visible slots, removals by raw offset, as the storage does; how callers compute those numbers is not modelled.
- Restoring.UndoExact: a rebuild that loses the payload of bundled edges counts as a failing undo; a rename list that renames a deleted edge column stops half-way in the original and is refused here as a whole.
- Abort.UpdateTransaction.Run: when it is refused and what it does is stated for databases whose tables have both sides of every edge and whose edge columns have their places as ids, which Consistency.CarefulKeepsSound is about; that a refused operation changes nothing holds always.
- Columns.RenameUndoExact: for lists that rename each column once and not the primary key, whose case is Columns.PrimaryKeyRename; Columns.UndoExact has the same hypothesis for renames that are carried out.
- Columns.UndoExact: a name counts as deleted in the transaction exactly if its column is soft-deleted.
- EdgeDeferral.StepExact: removals and property changes name the two sides of one edge, or two deleted slots, as the callers compute them; a column keeps its values across column changes, and where a rename took the name of another column the decision to rebuild is read off the schema; removing a vertex is not among the records there, because it addresses edges by the vertex.
- EdgeOffsets.OffsetsHold: a property kept in the separate table is changed only on edges without a visible double.
- Labels are numbers; names of types are not modelled.
- Encoding.Write: floats and doubles are opaque blocks and not modelled; strings of 2^31 bytes and more are excluded.
- Matching.MatchingIsInvertible: for lines without angle brackets; with them Angles says what each kind of angle bracket does and Matching.AngleBracketsDiffer gives one line, not the exact class of lines.
- Brackets: `\s` is blank, tab, newline and carriage return.
- Louvain, k-core, planner, pipelines, caches, file locks, checkpoints, the HTTP service and format conversions.
