/**
 * The part of the shared state the blocks worker updates when it has taken
 * in a block: the synced height, the last height it notified about, the
 * pending-broadcast flag, and what went out on the blocks channel.
 */
module SyncTip {
  import opened Models

  datatype TipState = TipState(
    currentSynced: int,       // ChaininfoSingleton.CurrentSyncedBlock
    rpcLatest: int,           // BlocksWorker._rpcLatestSyncedBlock
    shouldBroadcast: bool,    // ChaininfoSingleton.BlockchainDataShouldBroadcast
    notices: seq<BlockNotice>)  // the blocks channel

  /** The "blocksUpdated" message for a block. */
  function Notice(b: Block, txCount: int): (n: BlockNotice)
    ensures n.height == b.height && n.txCount == txCount
  {
    BlockNotice(b.height, b.size, b.weight, b.proofType, b.time, b.medianTime, txCount)
  }

  /**
   * OnNewBlockHubUpdate: record the synced height; unless it equals the last
   * notified height, send the notice and raise the broadcast flag. A send
   * that throws skips the flag, and the caller swallows the exception.
   */
  function OnNewBlock(t: TipState, b: Block, sendFails: bool): TipState
  {
    var t1 := t.(currentSynced := b.height);
    if b.height == t.rpcLatest || sendFails then t1
    else t1.(notices := t.notices + [Notice(b, b.nTx)], shouldBroadcast := true)
  }

  /**
   * The synced height always becomes the block's height; a notice goes out
   * and the flag is raised exactly when that height differs from the last
   * notified one and the send succeeds; nothing else changes.
   */
  lemma OnNewBlockNotifiesIff(t: TipState, b: Block, sendFails: bool)
    ensures OnNewBlock(t, b, sendFails).currentSynced == b.height
    ensures OnNewBlock(t, b, sendFails).rpcLatest == t.rpcLatest
    ensures var sent := b.height != t.rpcLatest && !sendFails;
            && (sent ==> OnNewBlock(t, b, sendFails).notices == t.notices + [Notice(b, b.nTx)])
            && (sent ==> OnNewBlock(t, b, sendFails).shouldBroadcast)
            && (!sent ==> OnNewBlock(t, b, sendFails).notices == t.notices)
            && (!sent ==> OnNewBlock(t, b, sendFails).shouldBroadcast == t.shouldBroadcast)
  {
  }
}
