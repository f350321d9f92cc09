/**
 * Values exchanged between the node, the workers, the caches and the store:
 * blocks as the node returns them, rows of the blocks table, chain info,
 * chain-tx-stats responses and the push-channel messages.
 */
module Models {
  import opened Wrappers

  type Hash = string

  /** A block as the node's getblock call returns it (the fields the core reads). */
  datatype Block = Block(
    height: int,
    hash: Hash,
    size: int,
    weight: int,
    proofType: string,
    time: int,
    medianTime: int,
    nTx: int,
    tx: seq<string>)

  /**
   * The node as the workers see it during one iteration: getblockhash by
   * height and getblock by hash. A height with no entry is a null answer.
   */
  datatype Upstream = Upstream(hashes: map<int, Hash>, blocks: map<Hash, Block>)

  /**
   * getblockhash(height). The source casts the height to an unsigned 32-bit
   * integer, so a negative height asks for a height no node has.
   */
  function HashAt(up: Upstream, height: int): (r: Option<Hash>)
    ensures r.Some? <==> 0 <= height && height in up.hashes
    ensures r.Some? ==> r.value == up.hashes[height]
  {
    if height < 0 || height !in up.hashes then None else Some(up.hashes[height])
  }

  /** getblock(hash). */
  function BlockFor(up: Upstream, hash: Hash): (r: Option<Block>)
    ensures r.Some? <==> hash in up.blocks
    ensures r.Some? ==> r.value == up.blocks[hash]
  {
    if hash in up.blocks then Some(up.blocks[hash]) else None
  }

  /** The node answers getblock(getblockhash(h)) with a block of height h. */
  ghost predicate UpstreamConsistent(up: Upstream)
  {
    forall h | h in up.hashes && up.hashes[h] in up.blocks :: up.blocks[up.hashes[h]].height == h
  }

  /** A row of the blocks table: only what the sync engine reads or writes. */
  datatype BlockRow = BlockRow(height: int, hash: Hash, synced: bool)

  /** The message sent on the blocks channel ("blocksUpdated"). */
  datatype BlockNotice = BlockNotice(
    height: int,
    size: int,
    weight: int,
    proofType: string,
    time: int,
    medianTime: int,
    txCount: int)

  /** The getblockchaininfo result, with the derived next super-block height. */
  datatype BlockchainInfo = BlockchainInfo(chain: string, blocks: nat, bestBlockHash: Hash, nextSuperBlock: nat)

  /** The getchainalgostats result, carried as is. */
  datatype ChainAlgoStats = ChainAlgoStats(raw: string)

  /** One point of a chart: a block count on X and a transaction count on Y. */
  datatype CountPoint = CountPoint(x: int, y: int)

  /**
   * One point of the rate chart. The rate is a floating-point value in the
   * source; here it is copied, never computed with.
   */
  datatype RatePoint = RatePoint(x: int, y: real)

  /** One chart: three lists that grow together. */
  datatype TxStatsEntry = TxStatsEntry(txCounts: seq<CountPoint>, txRates: seq<RatePoint>, labels: seq<string>)

  /** The getchaintxstats result. */
  datatype ChainTxStats = ChainTxStats(windowBlockCount: int, windowTxCount: int, txCount: int, txRate: real)
}
