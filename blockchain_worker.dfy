/**
 * BlockchainWorker: one pass of its loop takes the node's chain info and
 * chain-algo stats into the shared state, keeps the node's highest known
 * height, and sends the chain info on the background channel when the
 * blocks worker has asked for a broadcast since the last pass.
 */
module ChainInfoSync {
  import opened Wrappers
  import opened Models
  import opened Caching
  import opened Hubs

  /** Heights between two super blocks. */
  const SuperBlockCycle: nat := 43200

  /** 2^32: the source computes the super-block height in unsigned 32-bit arithmetic. */
  const Uint32Modulus: nat := 0x1_0000_0000

  /**
   * The next super-block height for a chain of the given height: the next
   * multiple of the cycle, in wrapping 32-bit arithmetic. Below the wrap it
   * is a multiple of the cycle, above the height and at most a cycle above it.
   */
  function NextSuperBlock(blocks: nat): (r: nat)
    ensures r < Uint32Modulus
    ensures blocks + SuperBlockCycle < Uint32Modulus ==>
              r % SuperBlockCycle == 0 && blocks < r <= blocks + SuperBlockCycle
  {
    ((blocks / SuperBlockCycle + 1) * SuperBlockCycle) % Uint32Modulus
  }

  /** Below the wrap, no multiple of the cycle lies strictly between the height and the next super block. */
  lemma NextSuperBlockIsNext(blocks: nat, m: nat)
    requires blocks + SuperBlockCycle < Uint32Modulus
    requires m % SuperBlockCycle == 0 && blocks < m
    ensures NextSuperBlock(blocks) <= m
  {
    var q := blocks / SuperBlockCycle;
    assert NextSuperBlock(blocks) == (q + 1) * SuperBlockCycle;
    var p := m / SuperBlockCycle;
    assert q * SuperBlockCycle <= blocks < m == p * SuperBlockCycle;
    assert q < p;
  }

  /** LastSyncedBlockOnNode after seeing the node's height: never lower, and the larger of the two. */
  function RaiseTo(last: int, blocks: nat): (r: int)
    ensures r >= last && r >= blocks
    ensures r == last || r == blocks
  {
    if last < blocks then blocks else last
  }

  class BlockchainWorker {
    const chain: ChainInfoState
    const hub: EventsHub

    constructor (chain: ChainInfoState, hub: EventsHub)
      ensures this.chain == chain && this.hub == hub
    {
      this.chain := chain;
      this.hub := hub;
    }

    /**
     * One pass with the node's answers (None for a null answer) and whether
     * the background-channel send throws.
     */
    method Tick(info: Option<BlockchainInfo>, algoStats: Option<ChainAlgoStats>, sendFails: bool)
      modifies chain`CurrentChainInfo, chain`LastSyncedBlockOnNode, chain`BlockchainDataShouldBroadcast,
               chain`CurrentChainAlgoStats, hub`BackgroundDataChannel
      ensures info.None? ==> chain.CurrentChainInfo == old(chain.CurrentChainInfo)
      ensures info.None? ==> chain.LastSyncedBlockOnNode == old(chain.LastSyncedBlockOnNode)
      ensures info.None? ==> chain.BlockchainDataShouldBroadcast == old(chain.BlockchainDataShouldBroadcast)
      ensures info.None? ==> hub.BackgroundDataChannel == old(hub.BackgroundDataChannel)
      ensures info.Some? ==>
                var stored := info.value.(nextSuperBlock := NextSuperBlock(info.value.blocks));
                && chain.CurrentChainInfo == Some(stored)
                && chain.LastSyncedBlockOnNode == RaiseTo(old(chain.LastSyncedBlockOnNode), info.value.blocks)
                && !chain.BlockchainDataShouldBroadcast
                && hub.BackgroundDataChannel ==
                     old(hub.BackgroundDataChannel) +
                     (if old(chain.BlockchainDataShouldBroadcast) && !sendFails then [stored] else [])
      ensures chain.CurrentChainAlgoStats == if algoStats.Some? then algoStats else old(chain.CurrentChainAlgoStats)
    {
      if info.Some? {
        chain.CurrentChainInfo := Some(info.value.(nextSuperBlock := NextSuperBlock(info.value.blocks)));
        if chain.LastSyncedBlockOnNode < info.value.blocks {
          chain.LastSyncedBlockOnNode := info.value.blocks;
        }
        var sendUpdate := chain.TakeShouldBroadcast();
        if sendUpdate && !sendFails {
          hub.SendBlockchainInfoUpdated(chain.CurrentChainInfo.value);
        }
      }
      if algoStats.Some? {
        chain.CurrentChainAlgoStats := algoStats;
      }
    }
  }
}
