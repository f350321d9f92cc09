/**
 * The process-wide singletons the workers share: the chain-info state with
 * its pending-broadcast flag, and the two block caches used in RPC mode.
 * Their own source files are not part of this model; only the members the
 * workers use are modelled, with the behaviour the workers rely on.
 */
module Caching {
  import opened Wrappers
  import opened Models

  /**
   * ChaininfoSingleton. The semaphore that guards the broadcast flag is not
   * modelled: each guarded section is one atomic method here.
   */
  class ChainInfoState {
    var CurrentSyncedBlock: int
    var LastSyncedBlockOnNode: int
    var BlockchainDataShouldBroadcast: bool
    var CurrentChainInfo: Option<BlockchainInfo>
    var CurrentChainAlgoStats: Option<ChainAlgoStats>
    var CurrentChainStats: Option<map<string, TxStatsEntry>>

    constructor ()
      ensures CurrentSyncedBlock == 0 && LastSyncedBlockOnNode == 0
      ensures !BlockchainDataShouldBroadcast
      ensures CurrentChainInfo == None && CurrentChainAlgoStats == None && CurrentChainStats == None
    {
      CurrentSyncedBlock := 0;
      LastSyncedBlockOnNode := 0;
      BlockchainDataShouldBroadcast := false;
      CurrentChainInfo := None;
      CurrentChainAlgoStats := None;
      CurrentChainStats := None;
    }

    /** The guarded "flag := true" section of the blocks worker. */
    method MarkShouldBroadcast()
      modifies this`BlockchainDataShouldBroadcast
      ensures BlockchainDataShouldBroadcast == MarkStep(old(BlockchainDataShouldBroadcast))
    {
      BlockchainDataShouldBroadcast := true;
    }

    /** The guarded read-then-clear section of the blockchain worker. */
    method TakeShouldBroadcast() returns (sendUpdate: bool)
      modifies this`BlockchainDataShouldBroadcast
      ensures (BlockchainDataShouldBroadcast, sendUpdate) == TakeStep(old(BlockchainDataShouldBroadcast))
    {
      sendUpdate := false;
      if BlockchainDataShouldBroadcast {
        BlockchainDataShouldBroadcast := false;
        sendUpdate := true;
      }
    }
  }

  /** Setting the flag, whatever it was. */
  function MarkStep(flag: bool): (r: bool)
    ensures r
  {
    true
  }

  /** Reading and clearing the flag: the new flag and whether to send. */
  function TakeStep(flag: bool): (r: (bool, bool))
    ensures !r.0
    ensures r.1 <==> flag
  {
    (false, flag)
  }

  /** What the two workers do to the flag, in the order the semaphore admits them. */
  datatype FlagEvent = Mark | Take

  /** The flag after a run of events, and how many takes returned true. */
  function Replay(flag: bool, events: seq<FlagEvent>): (bool, nat)
  {
    if events == [] then (flag, 0)
    else
      var (f, sends) := Replay(flag, events[..|events| - 1]);
      match events[|events| - 1]
      case Mark => (MarkStep(f), sends)
      case Take => var (f', send) := TakeStep(f); (f', sends + if send then 1 else 0)
  }

  function Marks(n: nat): (r: seq<FlagEvent>)
    ensures |r| == n && forall k | 0 <= k < n :: r[k] == Mark
  {
    if n == 0 then [] else Marks(n - 1) + [Mark]
  }

  function CountOf(events: seq<FlagEvent>, e: FlagEvent): nat
  {
    if events == [] then 0
    else CountOf(events[..|events| - 1], e) + if events[|events| - 1] == e then 1 else 0
  }

  /** After at least one mark the flag is set, whatever it was before. */
  lemma {:induction false} MarksSetFlag(flag: bool, n: nat)
    requires n >= 1
    ensures Replay(flag, Marks(n)).0
  {
    var evs := Marks(n);
    assert evs[..|evs| - 1] == Marks(n - 1);
  }

  /** A run of marks produces no send by itself. */
  lemma {:induction false} MarksSendNothing(flag: bool, n: nat)
    ensures Replay(flag, Marks(n)).1 == 0
  {
    if n > 0 {
      var evs := Marks(n);
      assert evs[..|evs| - 1] == Marks(n - 1);
      MarksSendNothing(flag, n - 1);
    }
  }

  /**
   * Broadcast coalescing: any number (at least one) of flag sets between
   * two take-and-clear passes give exactly one send, and leave the flag clear.
   */
  lemma CoalescedBroadcast(flag: bool, n: nat)
    requires n >= 1
    ensures Replay(flag, Marks(n) + [Take]) == (false, 1)
  {
    var evs := Marks(n) + [Take];
    assert evs[..|evs| - 1] == Marks(n);
    MarksSetFlag(flag, n);
    MarksSendNothing(flag, n);
  }

  /** A second take with no mark in between sends nothing. */
  lemma TakeAfterTakeSendsNothing(flag: bool, events: seq<FlagEvent>)
    requires events != [] && events[|events| - 1] == Take
    ensures !Replay(flag, events).0
    ensures Replay(flag, events + [Take]).1 == Replay(flag, events).1
  {
    var evs := events + [Take];
    assert evs[..|evs| - 1] == events;
  }

  /**
   * No intent is double-consumed: the number of sends never exceeds the
   * number of marks (plus one for a flag already set at the start), nor the
   * number of takes.
   */
  lemma {:induction false} SendsBounded(flag: bool, events: seq<FlagEvent>)
    ensures Replay(flag, events).1 + (if Replay(flag, events).0 then 1 else 0)
            <= CountOf(events, Mark) + (if flag then 1 else 0)
    ensures Replay(flag, events).1 <= CountOf(events, Take)
  {
    if events != [] {
      SendsBounded(flag, events[..|events| - 1]);
    }
  }

  /** An entry of the full-block cache: the hash it was stored under and the block. */
  datatype CacheEntry = CacheEntry(hash: Hash, block: Block)

  /**
   * BlocksCacheSingleton, keyed by height (the source keys it by the height's
   * decimal string).
   */
  class BlocksCache {
    var Entries: map<int, CacheEntry>

    constructor ()
      ensures Entries == map[]
    {
      Entries := map[];
    }

    /** ValidateCacheAsync: an entry exists for the height and its hash is the given one. */
    function ValidateCache(height: int, hash: Hash): (valid: bool)
      reads this
      ensures valid <==> height in Entries && Entries[height].hash == hash
    {
      height in Entries && Entries[height].hash == hash
    }

    /** SetServerCacheDataAsync and UpdateCachedDataAsync: upsert one height. */
    method SetCacheData(height: int, hash: Hash, block: Block)
      modifies this
      ensures Entries == old(Entries)[height := CacheEntry(hash, block)]
    {
      Entries := Entries[height := CacheEntry(hash, block)];
    }
  }

  /** SimplifiedBlocksCacheSingleton: block summaries by height. */
  class SimplifiedBlocksCache {
    var Blocks: map<int, Block>

    constructor ()
      ensures Blocks == map[]
    {
      Blocks := map[];
    }

    /** SetBlockCache: store the block under its own height. */
    method SetBlockCache(block: Block)
      modifies this
      ensures Blocks == old(Blocks)[block.height := block]
    {
      Blocks := Blocks[block.height := block];
    }
  }
}

/** EventsHub: the two push channels, as the log of what was sent on each. */
module Hubs {
  import opened Models

  class EventsHub {
    var BlocksChannel: seq<BlockNotice>
    var BackgroundDataChannel: seq<BlockchainInfo>

    constructor ()
      ensures BlocksChannel == [] && BackgroundDataChannel == []
    {
      BlocksChannel := [];
      BackgroundDataChannel := [];
    }

    method SendBlocksUpdated(notice: BlockNotice)
      modifies this`BlocksChannel
      ensures BlocksChannel == old(BlocksChannel) + [notice]
    {
      BlocksChannel := BlocksChannel + [notice];
    }

    method SendBlockchainInfoUpdated(info: BlockchainInfo)
      modifies this`BackgroundDataChannel
      ensures BackgroundDataChannel == old(BackgroundDataChannel) + [info]
    {
      BackgroundDataChannel := BackgroundDataChannel + [info];
    }
  }
}
