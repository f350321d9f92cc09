# veil-explorer backend: sync workers, repositories and controllers in Dafny

This project models the core of the veil-explorer backend, the ASP.NET service
behind the Veil block explorer. It keeps a PostgreSQL database, or in RPC mode
a pair of in-memory block caches, in step with a Veil node, and it serves
blocks, transactions and search over HTTP.

The model covers these parts:

- **BlocksWorker**. DB mode ingests a batch of heights per iteration. Each
  height is fetched from the node, inserted when absent, and marked synced. An
  orphan check then re-points the rows just below it whose stored hash is no
  longer the node's hash. RPC mode takes in the single next block and
  re-checks a trailing window of the caches. Both modes notify the blocks
  channel and raise the pending-broadcast flag (`BlockSync`, `DbSync`,
  `RpcSync`, `SyncTip`, `BlockStore`, `Caching`, `Hubs`).
- **BlockchainWorker**. It takes the node's chain info and chain-algo stats
  into the shared state, computes the next super-block height in unsigned
  32-bit arithmetic, and sends the chain info on the background channel when
  a broadcast is pending (`ChainInfoSync`).
- **BlockchainStatsWorker**. It builds the four transaction charts (day,
  week, month, overall) from `getchaintxstats` answers (`ChainStats`).
- **BaseRepository** and **RawTxsRepository**. Hex values become bytea SQL
  literals, and bytea columns are read back as lower-case hex. The
  `OR`-chained lookup assembles its dictionary, and the single lookup and the
  insert are modelled too (`BaseRepository`, `RawTxsRepository`).
- **RealtimeTransactionsDataService**. It reads transactions from the node
  and from the blocks cache in RPC mode (`RealtimeTransactions`).
- **SearchController** and **BlocksController**. The first classifies a
  query; the second checks the paging arguments (`SearchController`,
  `BlocksController`).

Stateful code is modelled as classes:

- `BlocksWorker`, `BlockchainWorker`, `BlockchainStatsWorker`.
- The `ChainInfoState` singleton, the two caches, the blocks table and the
  hub.
- Their methods carry `modifies` frames.

Each worker iteration is proved to compute a value-level specification
function (`DbIteration`, `RpcIteration`, `TxStats`, `AllCharts`). The
properties are then proved about those functions.

The rest of the system is passed in as parameters:

- The node is an `Upstream` value (getblockhash and getblock).
- The database, the utility service's checks (`VerifyHex`, `IsNumeric`,
  `VerifyAddress`, `HexToByteArray`), the interval formula of the charts and
  the node's chain-tx-stats answers are parameters.
- Failures of writes, sends and exceptions are oracle sets or flags.

Error paths are `Result` values that carry the exception message the source
would throw.

## Model

| member | source | states |
|---|---|---|
| Models.HashAt | explorer-backend/src/Services/Workers/BlocksWorker.cs:138-141 | getblockhash answers exactly for non-negative heights the node knows (the `(uint)` cast sends a negative height to one no node has), with the node's hash |
| Models.BlockFor | explorer-backend/src/Services/Workers/BlocksWorker.cs:143-149 | getblock answers exactly for hashes the node knows, with that block |
| Caching.ChainInfoState.MarkShouldBroadcast | explorer-backend/src/Services/Workers/BlocksWorker.cs:278-280 | the guarded section sets the pending-broadcast flag |
| Caching.ChainInfoState.TakeShouldBroadcast | explorer-backend/src/Services/Workers/BlockchainWorker.cs:68-77 | the guarded section clears the flag and reports whether it was set |
| Caching.TakeStep | explorer-backend/src/Services/Workers/BlockchainWorker.cs:71-75 | a take leaves the flag clear and sends exactly when it was set |
| Caching.Marks | explorer-backend/src/Services/Workers/BlocksWorker.cs:278-280 | n marks in a row, each one a mark |
| Caching.MarksSetFlag | explorer-backend/src/Services/Workers/BlocksWorker.cs:278-280 | after at least one mark the flag is set, whatever it was |
| Caching.MarksSendNothing | explorer-backend/src/Services/Workers/BlocksWorker.cs:278-280 | marks alone never send |
| Caching.CoalescedBroadcast | explorer-backend/src/Services/Workers/BlockchainWorker.cs:68-89 | any number (at least one) of marks followed by a take give exactly one send and a clear flag |
| Caching.TakeAfterTakeSendsNothing | explorer-backend/src/Services/Workers/BlockchainWorker.cs:68-77 | a second take with no mark in between sends nothing |
| Caching.SendsBounded | explorer-backend/src/Services/Workers/BlockchainWorker.cs:68-89 | sends never exceed marks (plus one for a flag set at the start) nor takes: no broadcast intent is consumed twice |
| Caching.BlocksCache.ValidateCache | explorer-backend/src/Services/Workers/BlocksWorker.cs:241 | valid exactly when an entry exists for the height and holds the given hash |
| Caching.BlocksCache.SetCacheData | explorer-backend/src/Services/Workers/BlocksWorker.cs:224 | upserts the entry of one height and changes no other |
| Caching.SimplifiedBlocksCache.SetBlockCache | explorer-backend/src/Services/Workers/BlocksWorker.cs:220 | stores the summary under the block's own height, no other entry changes |
| Hubs.EventsHub.SendBlocksUpdated | explorer-backend/src/Services/Workers/BlocksWorker.cs:267-276 | the notice is appended to the blocks channel |
| Hubs.EventsHub.SendBlockchainInfoUpdated | explorer-backend/src/Services/Workers/BlockchainWorker.cs:83 | the chain info is appended to the background channel |
| BlockStore.LatestSynced | explorer-backend/src/Services/Workers/BlocksWorker.cs:131-132 | the highest synced height: None exactly when no row is synced, otherwise a synced height no synced height exceeds |
| BlockStore.BlocksTable.GetLatestSyncedBlock | explorer-backend/src/Services/Workers/BlocksWorker.cs:92 | the scan returns the row of the highest synced height, or None exactly when there is none |
| BlockStore.BlocksTable.GetBlock | explorer-backend/src/Services/Workers/BlocksWorker.cs:153 | the stored row at a height, None exactly when absent |
| BlockStore.BlocksTable.InsertBlock | explorer-backend/src/Services/Workers/BlocksWorker.cs:159 | the call is logged; on success the row is stored under its own height, on failure nothing else changes |
| BlockStore.BlocksTable.SetBlockSyncState | explorer-backend/src/Services/Workers/BlocksWorker.cs:170 | succeeds exactly when the row exists and the write does not fail, then only that row's flag changes |
| BlockStore.BlocksTable.UpdateDbBlock | explorer-backend/src/Services/Workers/BlocksWorker.cs:196 | the call is logged; an existing row is re-pointed to the node's hash, a missing one is not created |
| SyncTip.Notice | explorer-backend/src/Services/Workers/BlocksWorker.cs:267-276 | the blocksUpdated message carries the block's height and the given transaction count |
| SyncTip.OnNewBlockNotifiesIff | explorer-backend/src/Services/Workers/BlocksWorker.cs:262-281 | the synced height always becomes the block's; a notice goes out and the flag is raised exactly when the height differs from the last notified one and the send succeeds; otherwise the channel and flag are unchanged |
| DbSync.RpcBlockToDb | explorer-backend/src/Services/Workers/BlocksWorker.cs:157 | the new row has the block's height and hash and is not yet synced |
| DbSync.RepairMatchesReference | explorer-backend/src/Services/Workers/BlocksWorker.cs:184-198 | without exceptions the orphan check issues exactly the owed updates in ascending order, re-points exactly the rows whose hash differs from the node's (unless the update fails), and keeps rows outside the window |
| DbSync.RepairAbortsIff | explorer-backend/src/Services/Workers/BlocksWorker.cs:184-204 | the orphan check ends early exactly when a height of its window throws |
| DbSync.RepairAbortIsFinal | explorer-backend/src/Services/Workers/BlocksWorker.cs:200-204 | after an exception no later height of the window is looked at |
| DbSync.RepairKeepsRows | explorer-backend/src/Services/Workers/BlocksWorker.cs:184-198 | the check keeps the stored heights, synced flags and row heights, and rows outside its window |
| DbSync.RepairOnlyUpdates | explorer-backend/src/Services/Workers/BlocksWorker.cs:184-198 | the check only appends update calls, for heights of its window |
| DbSync.StartHeight | explorer-backend/src/Services/Workers/BlocksWorker.cs:131-132 | an iteration starts one above the highest synced height (1 when none), above every synced height |
| DbSync.DbStepContinuesIff | explorer-backend/src/Services/Workers/BlocksWorker.cs:136-204 | a height is marked synced exactly when the hash and block exist, the row is present or its insert lands at that height, and the tx insert and sync-state update succeed; the batch goes on exactly when in addition no orphan-check call throws |
| DbSync.DbStepMissingIsNoop | explorer-backend/src/Services/Workers/BlocksWorker.cs:138-149 | a missing hash or block ends the batch with nothing changed |
| DbSync.DbStepSynced | explorer-backend/src/Services/Workers/BlocksWorker.cs:153-174 | one turn adds exactly its height to the synced heights or none, and keeps every row under its own height |
| DbSync.DbStepWrites | explorer-backend/src/Services/Workers/BlocksWorker.cs:153-198 | one turn only appends calls, inserts a row only at its height and only when absent, adds no row elsewhere, and keeps the hash of rows at and above its height |
| DbSync.IngestedBounded | explorer-backend/src/Services/Workers/BlocksWorker.cs:134 | a batch marks at most batch-size heights |
| DbSync.DbRunSyncedHeights | explorer-backend/src/Services/Workers/BlocksWorker.cs:134-205 | a batch from height i adds exactly the heights i .. i+n-1 to the synced set and keeps rows valid |
| DbSync.DbRunInsertsOnlyAbsent | explorer-backend/src/Services/Workers/BlocksWorker.cs:153-164 | a batch only appends calls, and every insert is for a height of the batch that was absent: a stored row is never inserted again |
| DbSync.DbRunTakesAll | explorer-backend/src/Services/Workers/BlocksWorker.cs:134-205 | with every hash and block available and no failure, the whole batch is ingested |
| DbSync.DbIterationGapFree | explorer-backend/src/Services/Workers/BlocksWorker.cs:131-205 | when heights 1 .. latest are synced, an iteration leaves exactly 1 .. latest+n synced with n at most the batch size: no gap is created |
| DbSync.FirstRunScenario | explorer-backend/src/Services/Workers/BlocksWorker.cs:131-205 | an empty store, a node with heights 1 .. 10, batch 10 and no failure give synced heights exactly 1 .. 10 |
| RpcSync.Validate | explorer-backend/src/Services/Workers/BlocksWorker.cs:241 | the cache check over the full-block cache: entry present with the same hash |
| RpcSync.RpcIterationMissingIsNoop | explorer-backend/src/Services/Workers/BlocksWorker.cs:212-218 | with no hash or block for the height after the synced one, a tick changes nothing |
| RpcSync.RecheckMatchesReference | explorer-backend/src/Services/Workers/BlocksWorker.cs:234-259 | the window pass ends early exactly when some height of it throws; it keeps the cached heights of the full cache and replaces, with the node's hash and block, exactly the entries it re-fetches (those that validate and whose block the node returns) at heights reached before any exception and whose cache update does not throw |
| RpcSync.RecheckSummariesMatchReference | explorer-backend/src/Services/Workers/BlocksWorker.cs:234-259 | the summary cache gains or overwrites exactly the heights re-fetched before any exception (also when the full-cache update then throws), each with the node's block; every other summary is kept |
| RpcSync.RecheckAbortsIff | explorer-backend/src/Services/Workers/BlocksWorker.cs:234-259 | the pass ends early exactly when GetBlockHash, ValidateCacheAsync or GetBlock throws at a window height, or UpdateCachedDataAsync throws at a height the pass re-fetches |
| RpcSync.RecheckAbortIsFinal | explorer-backend/src/Services/Workers/BlocksWorker.cs:255-259 | after an exception no later height of the window is looked at |
| RpcSync.WindowBelowTop | explorer-backend/src/Services/Workers/BlocksWorker.cs:220-253 | writing the new block's entry at the top height does not change which lower heights the pass writes |
| RpcSync.RpcIterationTakesIn | explorer-backend/src/Services/Workers/BlocksWorker.cs:212-259 | a tick that finds block h (the one after the synced height) makes h the synced and last notified height; the notice and the flag go out exactly when h differs from the last notified height and the send succeeds; both caches hold block h (the full one unless its write fails); below h, exactly the heights h - window .. h - 1 are re-checked against the caches as they were before the tick, as the two reference lemmas describe, and every other entry is kept |
| RpcSync.AsWrittenKeepsStaleEntry | explorer-backend/src/Services/Workers/BlocksWorker.cs:241-252 | as written, an entry whose hash differs from the node's is never replaced and still fails validation, whatever throws during the pass |
| RpcSync.AsWrittenReorgExample | explorer-backend/src/Services/Workers/BlocksWorker.cs:241-252 | a cached "aaa" at height 50 with the node reporting "bbb" stays "aaa" after the pass |
| RpcSync.CorrectedRecheckRepairs | explorer-backend/src/Services/Workers/BlocksWorker.cs:234-253 | with a re-fetch on a failed validation, a pass that no exception ends leaves every window height the node knows validating against the node's hash; only an exception at a window height ends it; entries outside the window are kept |
| RpcSync.CorrectedReorgExample | explorer-backend/src/Services/Workers/BlocksWorker.cs:234-253 | with the corrected rule the entry at 50 becomes ("bbb", block B) |
| BlockSync.BlocksWorker.constructor | explorer-backend/src/Services/Workers/BlocksWorker.cs:40-42 | a batch size or orphan window of 0 becomes 10 and 12 |
| BlockSync.BlocksWorker.StartDbMode | explorer-backend/src/Services/Workers/BlocksWorker.cs:90-95 | the synced height becomes the highest synced row's height, or stays when there is none |
| BlockSync.BlocksWorker.StartRpcMode | explorer-backend/src/Services/Workers/BlocksWorker.cs:71-77 | with the node's latest block, the synced height becomes its height and its summary is cached; without it nothing changes |
| BlockSync.BlocksWorker.OnNewBlockHubUpdate | explorer-backend/src/Services/Workers/BlocksWorker.cs:262-281 | the shared state changes exactly as OnNewBlock says |
| BlockSync.BlocksWorker.OrphanCheck | explorer-backend/src/Services/Workers/BlocksWorker.cs:184-198 | the store ends as Repair over base minus the window .. base - 1 says, and the result reports whether it aborted |
| BlockSync.BlocksWorker.IngestHeight | explorer-backend/src/Services/Workers/BlocksWorker.cs:136-204 | one loop turn changes the store and shared state and reports synced and go-on exactly as DbStep says |
| BlockSync.BlocksWorker.DbModeIteration | explorer-backend/src/Services/Workers/BlocksWorker.cs:123-206 | the store and shared state end as DbIteration says (so all DbSync properties hold of it) |
| BlockSync.BlocksWorker.RpcModeIteration | explorer-backend/src/Services/Workers/BlocksWorker.cs:208-260 | the caches and shared state end as RpcIteration says, exceptions in the window included |
| BlockSync.BlocksWorker.RecheckWindow | explorer-backend/src/Services/Workers/BlocksWorker.cs:234-259 | the window loop, stopping at the first exception, leaves the caches and reports the abort exactly as Recheck says |
| ChainInfoSync.NextSuperBlock | explorer-backend/src/Services/Workers/BlockchainWorker.cs:64 | a 32-bit value; below the wrap a multiple of 43200 above the height and at most one cycle above it |
| ChainInfoSync.NextSuperBlockIsNext | explorer-backend/src/Services/Workers/BlockchainWorker.cs:64 | below the wrap no multiple of the cycle lies strictly between the height and the next super block |
| ChainInfoSync.RaiseTo | explorer-backend/src/Services/Workers/BlockchainWorker.cs:65-66 | the node's last height never decreases and becomes the larger of the two |
| ChainInfoSync.BlockchainWorker.Tick | explorer-backend/src/Services/Workers/BlockchainWorker.cs:55-95 | with no chain info nothing but the algo stats may change; with it, the info is stored with its next super block, the node height raised, the flag cleared, and the info sent exactly when the flag was set and the send succeeds; the algo stats are replaced only when present |
| ChainStats.NormaliseOffset | explorer-backend/src/Services/Workers/BlockchainStatsWorker.cs:107-112 | an error exactly when the offset exceeds the height; a negative offset becomes offset + height (counting back from the tip); the result is at most the height, not negative exactly when the offset is at least minus the height |
| ChainStats.Targets | explorer-backend/src/Services/Workers/BlockchainStatsWorker.cs:121-126 | one interval per point, Max(10, formula): equal to the formula where it is at least 10, and exactly 10 where it is below |
| ChainStats.Kept | explorer-backend/src/Services/Workers/BlockchainStatsWorker.cs:128-145 | the indices, last to first, whose answer has transactions in its window, all within range |
| ChainStats.KeptDescending | explorer-backend/src/Services/Workers/BlockchainStatsWorker.cs:128-132 | the kept indices strictly decrease and each has a non-empty window |
| ChainStats.CollectMatchesKept | explorer-backend/src/Services/Workers/BlockchainStatsWorker.cs:128-145 | with every answer present the chart holds one count point, rate point and label per kept index, in order, with X = height - window blocks, Y = tx count - window txs, the rate, and the index as label |
| ChainStats.CollectFailsIff | explorer-backend/src/Services/Workers/BlockchainStatsWorker.cs:128-130 | the chart fails exactly when some interval gets no answer, with the no-answer error |
| ChainStats.CollectFailsAt | explorer-backend/src/Services/Workers/BlockchainStatsWorker.cs:128-130 | one unanswered interval fails the chart |
| ChainStats.CollectLockstep | explorer-backend/src/Services/Workers/BlockchainStatsWorker.cs:134-144 | the three lists grow in lockstep, at most one entry per interval |
| ChainStats.TxStatsShape | explorer-backend/src/Services/Workers/BlockchainStatsWorker.cs:105-148 | an offset above the height fails; otherwise at most one point per requested point, lists of equal length |
| ChainStats.AllCharts | explorer-backend/src/Services/Workers/BlockchainStatsWorker.cs:54-70 | the keys are day, week, month, overall, and there is a result exactly when all four charts succeed |
| ChainStats.WindowOffsetsInRange | explorer-backend/src/Services/Workers/BlockchainStatsWorker.cs:54-57 | none of the four fixed offsets is rejected |
| ChainStats.BlockchainStatsWorker.GetTxStats | explorer-backend/src/Services/Workers/BlockchainStatsWorker.cs:105-148 | the result is TxStats of the shared chain info |
| ChainStats.BlockchainStatsWorker.BuildTargets | explorer-backend/src/Services/Workers/BlockchainStatsWorker.cs:121-126 | the loop builds exactly Targets |
| ChainStats.BlockchainStatsWorker.CollectPoints | explorer-backend/src/Services/Workers/BlockchainStatsWorker.cs:128-145 | the reverse loop builds exactly Collect from index 0 |
| ChainStats.BlockchainStatsWorker.Tick | explorer-backend/src/Services/Workers/BlockchainStatsWorker.cs:52-70 | the shared charts become AllCharts when all succeed, otherwise stay |
| Decimal.NatToString | explorer-backend/src/Services/Workers/BlockchainStatsWorker.cs:144 | decimal digits only, no leading zero |
| Decimal.NatToStringRoundTrip | explorer-backend/src/Services/Workers/BlockchainStatsWorker.cs:144 | a label reads back as its index |
| Decimal.IntToString | explorer-backend/src/Controllers/BlocksController.cs:38 | a negative value gets a minus sign before the digits |
| Decimal.IntToStringInjective | explorer-backend/src/Services/Data/RealtimeTransactionsDataService.cs:52 | different heights have different texts |
| BaseRepository.TransformHex | explorer-backend/src/Persistence/BaseRepository.cs:28-34 | null or empty gives NULL; a non-empty input fails exactly when VerifyHex rejects it, with the source's message; a verified non-empty input gives exactly `'\x` + input + `'::bytea`, which reads back as the input |
| BaseRepository.NullIsNoLiteral | explorer-backend/src/Persistence/BaseRepository.cs:30-33 | NULL is never taken for a literal |
| BaseRepository.TransformHexInjective | explorer-backend/src/Persistence/BaseRepository.cs:28-34 | equal SQL texts come from equal inputs (or two null-or-empty ones) |
| BaseRepository.LowerHex | explorer-backend/src/Persistence/BaseRepository.cs:56-62 | two characters per byte |
| BaseRepository.UndashedIsUpperHex | explorer-backend/src/Persistence/BaseRepository.cs:61 | removing the dashes from BitConverter's text leaves two upper-case digits per byte |
| BaseRepository.LowerUpperHex | explorer-backend/src/Persistence/BaseRepository.cs:61 | lower-casing those digits gives the lower-case hex |
| BaseRepository.ReadHexIsLowerHex | explorer-backend/src/Persistence/BaseRepository.cs:56-62 | a bytea column reads as 2n lower-case hex digits, in byte order, no separators |
| BaseRepository.LowerHexRoundTrip | explorer-backend/src/Persistence/BaseRepository.cs:56-62 | the hex text parses back to the column's bytes |
| RawTxsRepository.LiteralsPointwise | explorer-backend/src/Persistence/Repositories/RawTxsRepository.cs:26-27 | the literals fail exactly when some id is rejected; otherwise one literal per id, that id's TransformHex text |
| RawTxsRepository.LiteralsRejected | explorer-backend/src/Persistence/Repositories/RawTxsRepository.cs:26-27 | one rejected id fails the whole list with the rejection |
| RawTxsRepository.WhereClauseFailsIff | explorer-backend/src/Persistence/Repositories/RawTxsRepository.cs:26-27 | the clause fails exactly on an empty list or a rejected id |
| RawTxsRepository.OrChainExtends | explorer-backend/src/Persistence/Repositories/RawTxsRepository.cs:27 | each later id appends one ` OR txid = ` term |
| RawTxsRepository.OrChainStartsWithFirst | explorer-backend/src/Persistence/Repositories/RawTxsRepository.cs:26 | the clause starts with the first id's equality |
| RawTxsRepository.AssembleKeys | explorer-backend/src/Persistence/Repositories/RawTxsRepository.cs:33-38 | an assembled dictionary has exactly the rows' keys |
| RawTxsRepository.AssembleValues | explorer-backend/src/Persistence/Repositories/RawTxsRepository.cs:33-38 | under each row's key it holds that row's data |
| RawTxsRepository.AssembleOkIff | explorer-backend/src/Persistence/Repositories/RawTxsRepository.cs:37 | the rows assemble exactly when their keys are pairwise distinct (Dictionary.Add throws on a repeat) |
| RawTxsRepository.DistinctTxidsDistinctKeys | explorer-backend/src/Persistence/Repositories/RawTxsRepository.cs:35-37 | rows with non-null txids clash exactly when the txids are equal |
| RawTxsRepository.ByIdsFailsBeforeQuery | explorer-backend/src/Persistence/Repositories/RawTxsRepository.cs:22-30 | an empty list or a rejected id fails whatever the database holds |
| RawTxsRepository.TransactionById | explorer-backend/src/Persistence/Repositories/RawTxsRepository.cs:10-20 | an error exactly for a non-empty rejected id; no row gives null; otherwise the data of the first row read |
| RawTxsRepository.InsertTransaction | explorer-backend/src/Persistence/Repositories/RawTxsRepository.cs:43-50 | an error exactly when either value is rejected; otherwise true exactly when a row was affected |
| RawTxsRepository.BuildWhereClause | explorer-backend/src/Persistence/Repositories/RawTxsRepository.cs:26-27 | the `+=` loop builds exactly WhereClause |
| RawTxsRepository.AssembleRows | explorer-backend/src/Persistence/Repositories/RawTxsRepository.cs:33-38 | the reader loop builds exactly Assemble |
| RawTxsRepository.AssembleStaysFailed | explorer-backend/src/Persistence/Repositories/RawTxsRepository.cs:37 | once a prefix fails the whole read fails with that error |
| RawTxsRepository.GetTransactionsByIds | explorer-backend/src/Persistence/Repositories/RawTxsRepository.cs:22-41 | the method returns TransactionsByIds |
| RealtimeTransactions.ExtendAll | explorer-backend/src/Services/Data/RealtimeTransactionsDataService.cs:84-101 | one entry per node transaction |
| RealtimeTransactions.ExtendAllPointwise | explorer-backend/src/Services/Data/RealtimeTransactionsDataService.cs:85-99 | entry i is the transaction at position i, stamped with the height, with its bytes |
| RealtimeTransactions.ExtendAllAppend | explorer-backend/src/Services/Data/RealtimeTransactionsDataService.cs:85-100 | converting a concatenation is concatenating the conversions |
| RealtimeTransactions.GetTransactionById | explorer-backend/src/Services/Data/RealtimeTransactionsDataService.cs:15-30 | a result exactly when the node answers, a null answer throws; the result is stamped with height 0 and carries the node transaction's txid, hash, version, sizes, weight, locktime and block hash |
| RealtimeTransactions.GetTransactionFullById | explorer-backend/src/Services/Data/RealtimeTransactionsDataService.cs:32-48 | a result exactly when the node answers, a null answer throws; the summary is GetTransactionById's and the bytes are those of the node's hex |
| RealtimeTransactions.ProbeTransactionByHash | explorer-backend/src/Services/Data/RealtimeTransactionsDataService.cs:73-78 | a result exactly when the node answers, a null answer throws; the result is the node's hex of the transaction |
| RealtimeTransactions.NodeLookupsAgree | explorer-backend/src/Services/Data/RealtimeTransactionsDataService.cs:15-78 | the summary is at height 0 with the node's txid and hash; the full form is that summary plus the bytes of the hex the probe returns |
| RealtimeTransactions.CacheKeysDistinct | explorer-backend/src/Services/Data/RealtimeTransactionsDataService.cs:52 | distinct heights read distinct cache entries |
| RealtimeTransactions.TransactionsForBlock | explorer-backend/src/Services/Data/RealtimeTransactionsDataService.cs:50-71 | a result exactly when the block is cached with a transaction list, otherwise the null dereference; entry i is cached transaction i, stamped with the block height and carrying its fields and bytes (ExtendAll) |
| RealtimeTransactions.RealtimeTransactionsDataService.ToTransactionExtended | explorer-backend/src/Services/Data/RealtimeTransactionsDataService.cs:80-102 | null for null, otherwise the loop builds exactly ExtendAll |
| RealtimeTransactions.RealtimeTransactionsDataService.GetTransactionsForBlock | explorer-backend/src/Services/Data/RealtimeTransactionsDataService.cs:50-71 | the loop builds exactly TransactionsForBlock, whatever the paging arguments: one entry per cached transaction, in order, stamped with the block height |
| SearchController.Search | explorer-backend/src/Controllers/SearchController.cs:29-82 | the query is always echoed, and found holds exactly when a kind was assigned |
| SearchController.SearchKindIff | explorer-backend/src/Controllers/SearchController.cs:38-79 | each kind in terms of the checks, both directions: number before address before hash, transaction (mempool or stored) before block |
| SearchController.NullQueryNotFound | explorer-backend/src/Controllers/SearchController.cs:31-38 | a null query gets the default response |
| SearchController.ProbesOnlyForHashes | explorer-backend/src/Controllers/SearchController.cs:40-52 | the repositories do not matter unless the query is a 64-character hex that is no number and no address |
| SearchController.MempoolBeforeRepositories | explorer-backend/src/Controllers/SearchController.cs:54-60 | a mempool hit is a transaction whatever the repositories say |
| SearchController.TransactionBeforeBlock | explorer-backend/src/Controllers/SearchController.cs:62-76 | the blocks repository does not matter once the transactions repository knows the hash |
| BlocksController.GetBlocks | explorer-backend/src/Controllers/BlocksController.cs:31-41 | the repository is asked, with the arguments unchanged, exactly when offset >= 0 and 1 <= count <= the maximum; otherwise status 400 |
| BlocksController.GetBlocksProblemOrder | explorer-backend/src/Controllers/BlocksController.cs:33-38 | the first failing check names the problem: offset, then count below one, then count above the maximum |
| BlocksController.ProblemsDistinct | explorer-backend/src/Controllers/BlocksController.cs:34-38 | the three messages differ |
| BlocksController.SortNeverRejected | explorer-backend/src/Controllers/BlocksController.cs:31-40 | the sort direction never decides whether the query is made |

## Left out

- The outer worker loops, delays, cancellation and service-provider lookups are not modelled. Each worker is modelled as one iteration (`DbModeIteration`, `RpcModeIteration`, `Tick`) plus its start-up. In the RPC start-up an exception is retried every 5 seconds, and a null answer ends the start-up with nothing changed. The model is one attempt, and `None` stands for either outcome.
- Concurrency: the semaphore around the broadcast flag is not modelled. Each guarded section is one atomic method, and `Replay` covers their interleavings. The concurrent cache write and hub update of RPC mode are modelled as independent failures.
- `GetBlockType` is the block-type mapping of the blocks service, and it is not part of this model. The notice carries the proof type string.
- `InsertTransactionsAsync` is in the blocks service, which is not part of this model. Only its failure outcome is modelled. In DB mode's batch loop, an exception from the node requester ends the batch exactly as a null answer does. It is modelled as a null answer there, and `orphanThrows` covers the orphan check. In RPC mode, an exception while fetching the next block returns with nothing changed, as a null answer does. In the window, exceptions are the separate `recheckThrows` and `updateThrows` oracles. In the blockchain worker, an exception from either node call discards both answers: that case is `Tick` with both answers absent.
- The lemmas about what a DB batch or an RPC tick writes assume that the node answers getblock(getblockhash(h)) with a block of height h (`UpstreamConsistent`). A node that breaks this is not modelled.
- `BlocksCacheSingleton` and `SimplifiedBlocksCacheSingleton` are not part of this model. The worker's cache is keyed by height, where the source keys it by the height's decimal text. `Decimal.IntToStringInjective` shows that the two keyings agree. The `isNewTip` argument of `SetBlockCache` is left out. The capacity and eviction of the summary cache are not modelled either: the map keeps every height.
- `ConfigSetup` and the HTTP client set-up of the blockchain worker (credentials, URI and their hash codes) are left out: they are configuration plumbing.
- `ChainInfoSync.NextSuperBlock` takes the node's block count as a non-negative integer. The `(int)` cast of `Blocks` for `LastSyncedBlockOnNode` is not modelled.
- `ChainStats.Targets` takes the floating-point interval expression as a `formula` parameter, giving its truncated value. For one point, the source divides 0 by 0; that NaN case is not modelled.
- `BLOCK_TIME` is not part of this model: the stats worker receives the block time as a constructor parameter.
- `TransformDouble` and `ReadDoubleFromBytea` are left out: they work on IEEE doubles.
- The database connection and the NpgsqlDataReader are modelled as a function from command text to rows, plus an affected-row count. `ReadByteaAsync` and `ReadHexFromByteaAsync` are not part of this model; they are taken to behave as `ReadBytea` and `ReadHexFromBytea`.
- Lists in the model cannot hold null elements: `RawBlock.txs`, the list given to `ToTransactionExtended` and `Lookups.unconfirmedTxids`. The source dereferences every element (RealtimeTransactionsDataService.cs:59 and :90, SearchController.cs:54), so a null element throws there. That case is not modelled.
- `HexToByteArray`, `VerifyHex`, `IsNumeric` and `VerifyAddress` belong to the utility service and are parameters. `HexToByteArray` receives the transaction's hex even when it is null, as the source passes it.
- `GetSimplifiedBlocks` belongs to the blocks repository, which is not part of this model. `BlocksController.GetBlocks` returns the call it makes.

## Findings

`ValidateCacheAsync` is taken to answer true exactly when the cached entry at that height holds the given hash. A reorg pass should replace a mismatched entry with the block for the node's hash. The code re-fetches when the validation answers true. The model's `BlocksWorker.RpcModeIteration` and `RpcSync.RpcIteration` follow the code as written. The corrected rule is defined beside them and its repair property is proved.

| source | as written | input that shows it | evidently intended | confidence | as-written member | corrected member |
|---|---|---|---|---|---|---|
| explorer-backend/src/Services/Workers/BlocksWorker.cs:241-252 | the window re-fetches a height when `ValidateCacheAsync` answers true, i.e. when the cached hash already matches the node's | cache holds hash "aaa" at height 50, the node now reports "bbb" at 50: after the pass over 45 .. 50 the cache still holds "aaa" | re-fetch when the validation answers false, so that a reorganised height gets the node's block | not executed; low: `ValidateCacheAsync` is not part of this model | RpcSync.AsWrittenReorgExample | RpcSync.CorrectedRecheckRepairs |
