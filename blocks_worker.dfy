/**
 * BlocksWorker: the background service that keeps the explorer in step with
 * the node. In DB mode it takes in a batch of heights per iteration and
 * repairs the heights just below each one; in RPC mode it takes in the single
 * next block and re-checks a trailing window of the caches. Each iteration is
 * proved to compute the specification of its mode (DbSync, RpcSync).
 */
module BlockSync {
  import opened Wrappers
  import opened Models
  import opened BlockStore
  import opened SyncTip
  import opened DbSync
  import opened RpcSync
  import opened Caching
  import opened Hubs

  /** The settings the worker reads from ExplorerConfig. */
  datatype ExplorerConfig = ExplorerConfig(blocksPerBatch: int, blocksOrphanCheck: int, rpcMode: bool)

  class BlocksWorker {
    const blocksPerBatch: int
    const blocksOrphanCheck: int
    const rpcMode: bool
    var rpcLatestSyncedBlock: int

    const chain: ChainInfoState
    const hub: EventsHub
    const store: BlocksTable
    const simplified: SimplifiedBlocksCache
    const cache: BlocksCache

    /** The state DB mode works on, as the value its specification is about. */
    ghost function Tip(): TipState
      reads this, chain, hub
    {
      TipState(chain.CurrentSyncedBlock, rpcLatestSyncedBlock, chain.BlockchainDataShouldBroadcast, hub.BlocksChannel)
    }

    ghost function Db(): DbState
      reads this, chain, hub, store
    {
      DbState(Table(store.Rows, store.Calls), Tip())
    }

    /** The state RPC mode works on. */
    ghost function Rpc(): RpcState
      reads this, chain, hub, simplified, cache
    {
      RpcState(Caches(simplified.Blocks, cache.Entries), Tip())
    }

    /** A configured batch size or orphan window of 0 means the default, 10 and 12. */
    constructor (config: ExplorerConfig, chain: ChainInfoState, hub: EventsHub, store: BlocksTable,
                 simplified: SimplifiedBlocksCache, cache: BlocksCache)
      ensures blocksPerBatch == if config.blocksPerBatch == 0 then 10 else config.blocksPerBatch
      ensures blocksOrphanCheck == if config.blocksOrphanCheck == 0 then 12 else config.blocksOrphanCheck
      ensures rpcMode == config.rpcMode && rpcLatestSyncedBlock == 0
      ensures this.chain == chain && this.hub == hub && this.store == store
      ensures this.simplified == simplified && this.cache == cache
    {
      blocksPerBatch := if config.blocksPerBatch == 0 then 10 else config.blocksPerBatch;
      blocksOrphanCheck := if config.blocksOrphanCheck == 0 then 12 else config.blocksOrphanCheck;
      rpcMode := config.rpcMode;
      rpcLatestSyncedBlock := 0;
      this.chain := chain;
      this.hub := hub;
      this.store := store;
      this.simplified := simplified;
      this.cache := cache;
    }

    /** DB-mode start-up: the synced height is the highest synced row's, when there is one. */
    method StartDbMode()
      requires store.Valid()
      modifies chain`CurrentSyncedBlock
      ensures LatestSynced(store.Rows).Some? ==> chain.CurrentSyncedBlock == LatestSynced(store.Rows).value
      ensures LatestSynced(store.Rows).None? ==> chain.CurrentSyncedBlock == old(chain.CurrentSyncedBlock)
    {
      var latest := store.GetLatestSyncedBlock();
      if latest.Some? {
        chain.CurrentSyncedBlock := latest.value.height;
      }
    }

    /**
     * RPC-mode start-up with the node's latest block, if it returned one:
     * the synced height becomes its height and its summary is cached.
     */
    method StartRpcMode(latest: Option<Block>)
      modifies chain`CurrentSyncedBlock, simplified
      ensures latest.Some? ==> chain.CurrentSyncedBlock == latest.value.height
      ensures latest.Some? ==> simplified.Blocks == old(simplified.Blocks)[latest.value.height := latest.value]
      ensures latest.None? ==> chain.CurrentSyncedBlock == old(chain.CurrentSyncedBlock)
      ensures latest.None? ==> simplified.Blocks == old(simplified.Blocks)
    {
      if latest.Some? {
        chain.CurrentSyncedBlock := latest.value.height;
        simplified.SetBlockCache(latest.value);
      }
    }

    /**
     * OnNewBlockHubUpdate: the synced height becomes the block's; unless it is
     * the last notified height, the notice is sent and the broadcast flag
     * raised. When the send throws the flag stays as it was.
     */
    method OnNewBlockHubUpdate(b: Block, sendFails: bool)
      modifies chain`CurrentSyncedBlock, chain`BlockchainDataShouldBroadcast, hub`BlocksChannel
      ensures Tip() == OnNewBlock(old(Tip()), b, sendFails)
    {
      chain.CurrentSyncedBlock := b.height;
      if chain.CurrentSyncedBlock == rpcLatestSyncedBlock {
        return;
      }
      if sendFails {
        return;
      }
      hub.SendBlocksUpdated(Notice(b, b.nTx));
      chain.MarkShouldBroadcast();
    }

    /**
     * The orphan check after taking in height i: heights from base minus the
     * window up to base - 1, in ascending order. An exception ends it.
     */
    method OrphanCheck(up: Upstream, f: DbFaults, i: int, base: int) returns (aborted: bool)
      requires store.Valid()
      modifies store
      ensures store.Valid()
      ensures RepairOutcome(Table(store.Rows, store.Calls), aborted) ==
              Repair(old(Table(store.Rows, store.Calls)), up, f, i, base - blocksOrphanCheck, base)
    {
      ghost var t0 := Table(store.Rows, store.Calls);
      var lo := base - blocksOrphanCheck;
      var j := lo;
      while j < base
        invariant store.Valid()
        invariant j == lo || lo <= j <= base
        invariant Repair(t0, up, f, i, lo, j) == RepairOutcome(Table(store.Rows, store.Calls), false)
        decreases base - j
      {
        if (i, j) in f.orphanThrows {
          RepairAbortIsFinal(t0, up, f, i, lo, j + 1, base);
          return true;
        }
        var h := HashAt(up, j);
        if h.Some? {
          var row := store.GetBlock(j);
          if !(row.Some? && row.value.hash == h.value) {
            var _ := store.UpdateDbBlock(j, h.value, (i, j) in f.repairFails);
          }
        }
        j := j + 1;
      }
      return false;
    }

    /** One turn of the DB-mode batch loop, for height i. */
    method IngestHeight(up: Upstream, f: DbFaults, i: int) returns (synced: bool, goOn: bool)
      requires store.Valid()
      modifies store, chain`CurrentSyncedBlock, chain`BlockchainDataShouldBroadcast, hub`BlocksChannel, this`rpcLatestSyncedBlock
      ensures store.Valid()
      ensures StepResult(Db(), synced, goOn) == DbStep(old(Db()), up, f, blocksOrphanCheck, i)
    {
      synced, goOn := false, false;
      var hash := HashAt(up, i);
      if hash.None? {
        return;
      }
      var block := BlockFor(up, hash.value);
      if block.None? {
        return;
      }
      var b := block.value;
      var target := store.GetBlock(i);
      var targetHeight: int;
      if target.None? {
        var row := RpcBlockToDb(b);
        var inserted := store.InsertBlock(row, i in f.insertFails);
        if !inserted {
          return;
        }
        targetHeight := row.height;
      } else {
        targetHeight := target.value.height;
      }
      if i in f.txInsertFails {
        return;
      }
      var marked := store.SetBlockSyncState(i, true, i in f.syncStateFails);
      if !marked {
        return;
      }
      assert targetHeight == i;
      OnNewBlockHubUpdate(b, i in f.hubSendFails);
      rpcLatestSyncedBlock := b.height;
      var aborted := OrphanCheck(up, f, i, targetHeight);
      synced, goOn := true, !aborted;
    }

    /**
     * DBModeIteration: from one above the highest synced height, take in up
     * to a batch of heights, stopping at the first that fails.
     */
    method DbModeIteration(up: Upstream, f: DbFaults)
      requires store.Valid()
      modifies store, chain`CurrentSyncedBlock, chain`BlockchainDataShouldBroadcast, hub`BlocksChannel, this`rpcLatestSyncedBlock
      ensures store.Valid()
      ensures Db() == DbIteration(old(Db()), up, f, blocksPerBatch, blocksOrphanCheck)
    {
      var latest := store.GetLatestSyncedBlock();
      var start := (if latest.Some? then latest.value.height else 0) + 1;
      assert start == StartHeight(store.Rows);
      ghost var goal := DbIteration(Db(), up, f, blocksPerBatch, blocksOrphanCheck);
      ghost var fuel: nat := Fuel(blocksPerBatch);
      var i := start;
      while i < start + blocksPerBatch
        invariant store.Valid()
        invariant fuel == Fuel(blocksPerBatch) - (i - start) && i >= start
        invariant DbRun(Db(), up, f, blocksOrphanCheck, i, fuel) == goal
        decreases start + blocksPerBatch - i
      {
        ghost var before := Db();
        var synced, goOn := IngestHeight(up, f, i);
        DbRunUnfold(before, up, f, blocksOrphanCheck, i, fuel, DbStep(before, up, f, blocksOrphanCheck, i));
        if !goOn {
          break;
        }
        i := i + 1;
        fuel := fuel - 1;
      }
    }

    /**
     * RPCModeIteration: take in the block after the synced height, then
     * re-check the heights from the window below it up to it.
     */
    method RpcModeIteration(up: Upstream, f: RpcFaults)
      modifies simplified, cache, chain`CurrentSyncedBlock, chain`BlockchainDataShouldBroadcast, hub`BlocksChannel, this`rpcLatestSyncedBlock
      ensures Rpc() == RpcIteration(old(Rpc()), up, f, blocksOrphanCheck)
    {
      var hash := HashAt(up, chain.CurrentSyncedBlock + 1);
      if hash.None? {
        return;
      }
      var block := BlockFor(up, hash.value);
      if block.None? {
        return;
      }
      var b := block.value;
      simplified.SetBlockCache(b);
      if !f.cacheSetFails {
        cache.SetCacheData(b.height, b.hash, b);
      }
      OnNewBlockHubUpdate(b, f.hubSendFails);
      rpcLatestSyncedBlock := b.height;

      var lo := chain.CurrentSyncedBlock - blocksOrphanCheck;
      var hi := chain.CurrentSyncedBlock + 1;
      var _ := RecheckWindow(up, f, lo, hi);
    }

    /**
     * The re-check of heights lo .. hi - 1 in ascending order: a height whose
     * cache entry validates is fetched again and both caches overwritten. An
     * exception ends the pass.
     */
    method RecheckWindow(up: Upstream, f: RpcFaults, lo: int, hi: int) returns (aborted: bool)
      modifies simplified, cache
      ensures RecheckOutcome(Caches(simplified.Blocks, cache.Entries), aborted) ==
              Recheck(old(Caches(simplified.Blocks, cache.Entries)), up, f, lo, hi)
    {
      ghost var c0 := Caches(simplified.Blocks, cache.Entries);
      var k := lo;
      while k < hi
        invariant k == lo || lo <= k <= hi
        invariant Recheck(c0, up, f, lo, k) == RecheckOutcome(Caches(simplified.Blocks, cache.Entries), false)
        decreases hi - k
      {
        if k in f.recheckThrows {
          RecheckAbortIsFinal(c0, up, f, lo, k + 1, hi);
          return true;
        }
        var h := HashAt(up, k);
        if h.Some? && cache.ValidateCache(k, h.value) {
          var prev := BlockFor(up, h.value);
          if prev.Some? {
            simplified.SetBlockCache(prev.value);
            if k in f.updateThrows {
              RecheckAbortIsFinal(c0, up, f, lo, k + 1, hi);
              return true;
            }
            cache.SetCacheData(k, h.value, prev.value);
          }
        }
        k := k + 1;
      }
      return false;
    }
  }
}
