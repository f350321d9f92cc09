/**
 * RealtimeTransactionsDataService: in RPC mode, transactions are read from
 * the node and from the blocks cache instead of the database. The node's
 * getrawtransaction answer, the cache and the utility service's hex decoder
 * are parameters.
 */
module RealtimeTransactions {
  import opened Wrappers
  import opened Decimal
  import opened BaseRepository

  /** One transaction as the node describes it. */
  datatype RawTransaction = RawTransaction(
    txid: string, hash: string, version: int, size: int, vsize: int,
    weight: int, locktime: int, blockhash: string, hex: Option<string>)

  /** A block as the cache holds it; its transaction list may be null. */
  datatype RawBlock = RawBlock(txs: Option<seq<RawTransaction>>)

  /** The transaction summary the API returns. */
  datatype Transaction = Transaction(
    blockHeight: int, txid: string, hash: string, version: int, size: int,
    vsize: int, weight: int, locktime: int, blockhash: string)

  /** The summary together with the transaction's bytes. */
  datatype TransactionExtended = TransactionExtended(summary: Transaction, data: seq<byte>)

  /** What dereferencing a null answer ends in. */
  const NullAnswer := "NullReferenceException"

  /** The summary of a node transaction, stamped with a height. */
  function Summarise(tx: RawTransaction, height: int): (t: Transaction)
  {
    Transaction(height, tx.txid, tx.hash, tx.version, tx.size, tx.vsize, tx.weight, tx.locktime, tx.blockhash)
  }

  function Extend(tx: RawTransaction, height: int, hexToBytes: Option<string> -> seq<byte>): TransactionExtended
  {
    TransactionExtended(Summarise(tx, height), hexToBytes(tx.hex))
  }

  /** The list the conversion loops build: one entry per node transaction, in the node's order. */
  function ExtendAll(txs: seq<RawTransaction>, height: int, hexToBytes: Option<string> -> seq<byte>): (r: seq<TransactionExtended>)
    ensures |r| == |txs|
    decreases |txs|
  {
    if txs == [] then []
    else ExtendAll(txs[..|txs| - 1], height, hexToBytes) + [Extend(txs[|txs| - 1], height, hexToBytes)]
  }

  /**
   * Each entry of the list comes from the node transaction at the same
   * position: same identifiers and sizes, the given height, and that
   * transaction's bytes.
   */
  lemma {:induction false} ExtendAllPointwise(txs: seq<RawTransaction>, height: int, hexToBytes: Option<string> -> seq<byte>, i: int)
    requires 0 <= i < |txs|
    ensures ExtendAll(txs, height, hexToBytes)[i].summary.blockHeight == height
    ensures ExtendAll(txs, height, hexToBytes)[i].summary == Summarise(txs[i], height)
    ensures ExtendAll(txs, height, hexToBytes)[i].data == hexToBytes(txs[i].hex)
    decreases |txs|
  {
    if i < |txs| - 1 {
      ExtendAllPointwise(txs[..|txs| - 1], height, hexToBytes, i);
    }
  }

  /** Converting two lists one after the other is converting their concatenation. */
  lemma {:induction false} ExtendAllAppend(a: seq<RawTransaction>, b: seq<RawTransaction>, height: int, hexToBytes: Option<string> -> seq<byte>)
    ensures ExtendAll(a + b, height, hexToBytes) == ExtendAll(a, height, hexToBytes) + ExtendAll(b, height, hexToBytes)
    decreases |b|
  {
    if b == [] {
      assert a + b == a;
    } else {
      var b' := b[..|b| - 1];
      assert (a + b)[..|a + b| - 1] == a + b';
      ExtendAllAppend(a, b', height, hexToBytes);
    }
  }

  /** GetTransactionByIdAsync: the node's transaction at height 0; a null answer throws. */
  function GetTransactionById(txid: string, node: string -> Option<RawTransaction>): (r: Result<Transaction, string>)
    ensures r.Ok? <==> node(txid).Some?
    ensures r.Err? ==> r.error == NullAnswer
    ensures r.Ok? ==> var tx := node(txid).value;
              && r.value.blockHeight == 0 && r.value.txid == tx.txid && r.value.hash == tx.hash
              && r.value.version == tx.version && r.value.size == tx.size && r.value.vsize == tx.vsize
              && r.value.weight == tx.weight && r.value.locktime == tx.locktime && r.value.blockhash == tx.blockhash
  {
    match node(txid)
    case None => Err(NullAnswer)
    case Some(tx) => Ok(Summarise(tx, 0))
  }

  /** GetTransactionFullByIdAsync: the same, with the transaction's bytes. */
  function GetTransactionFullById(txid: string, node: string -> Option<RawTransaction>,
                                  hexToBytes: Option<string> -> seq<byte>): (r: Result<TransactionExtended, string>)
    ensures r.Ok? <==> node(txid).Some?
    ensures r.Err? ==> r.error == NullAnswer
    ensures r.Ok? ==> r.value.summary == GetTransactionById(txid, node).value
    ensures r.Ok? ==> r.value.data == hexToBytes(node(txid).value.hex)
  {
    match node(txid)
    case None => Err(NullAnswer)
    case Some(tx) => Ok(Extend(tx, 0, hexToBytes))
  }

  /** ProbeTransactionByHashAsync: the node's hex of the transaction (null when the node gives none). */
  function ProbeTransactionByHash(txid: string, node: string -> Option<RawTransaction>): (r: Result<Option<string>, string>)
    ensures r.Ok? <==> node(txid).Some?
    ensures r.Err? ==> r.error == NullAnswer
    ensures r.Ok? ==> r.value == node(txid).value.hex
  {
    match node(txid)
    case None => Err(NullAnswer)
    case Some(tx) => Ok(tx.hex)
  }

  /**
   * The three node lookups agree: the full transaction is the summary plus
   * the bytes of the hex the probe returns, and the summary is stamped with
   * height 0 and carries the asked-for node transaction's fields.
   */
  lemma NodeLookupsAgree(txid: string, node: string -> Option<RawTransaction>, hexToBytes: Option<string> -> seq<byte>)
    ensures GetTransactionById(txid, node).Ok? ==>
              && GetTransactionById(txid, node).value.blockHeight == 0
              && GetTransactionById(txid, node).value.txid == node(txid).value.txid
              && GetTransactionById(txid, node).value.hash == node(txid).value.hash
    ensures GetTransactionFullById(txid, node, hexToBytes).Ok? ==>
              && GetTransactionFullById(txid, node, hexToBytes).value.summary == GetTransactionById(txid, node).value
              && GetTransactionFullById(txid, node, hexToBytes).value.data ==
                 hexToBytes(ProbeTransactionByHash(txid, node).value)
  {
  }

  /** The cache key of a height: its decimal text. */
  function CacheKey(height: int): string
  {
    IntToString(height)
  }

  /** Distinct heights never read the same cached block. */
  lemma CacheKeysDistinct(a: int, b: int)
    requires a != b
    ensures CacheKey(a) != CacheKey(b)
  {
    if CacheKey(a) == CacheKey(b) {
      IntToStringInjective(a, b);
    }
  }

  /**
   * GetTransactionsForBlockAsync: the cached block's transactions, converted
   * in order and stamped with the height; a missing block or a null list
   * throws.
   */
  function TransactionsForBlock(cache: map<string, RawBlock>, blockHeight: int,
                                hexToBytes: Option<string> -> seq<byte>): (r: Result<seq<TransactionExtended>, string>)
    ensures r.Ok? <==> CacheKey(blockHeight) in cache && cache[CacheKey(blockHeight)].txs.Some?
    ensures r.Err? ==> r.error == NullAnswer
    ensures r.Ok? ==> |r.value| == |cache[CacheKey(blockHeight)].txs.value|
    ensures r.Ok? ==> r.value == ExtendAll(cache[CacheKey(blockHeight)].txs.value, blockHeight, hexToBytes)
    ensures r.Ok? ==> var txs := cache[CacheKey(blockHeight)].txs.value;
              forall i | 0 <= i < |r.value| ::
                && r.value[i].summary.blockHeight == blockHeight
                && r.value[i].summary == Summarise(txs[i], blockHeight)
                && r.value[i].data == hexToBytes(txs[i].hex)
  {
    var key := CacheKey(blockHeight);
    if key !in cache || cache[key].txs.None? then Err(NullAnswer)
    else
      var txs := cache[key].txs.value;
      assert forall i | 0 <= i < |txs| ::
               && ExtendAll(txs, blockHeight, hexToBytes)[i].summary.blockHeight == blockHeight
               && ExtendAll(txs, blockHeight, hexToBytes)[i].summary == Summarise(txs[i], blockHeight)
               && ExtendAll(txs, blockHeight, hexToBytes)[i].data == hexToBytes(txs[i].hex) by {
        forall i | 0 <= i < |txs| {
          ExtendAllPointwise(txs, blockHeight, hexToBytes, i);
        }
      }
      Ok(ExtendAll(txs, blockHeight, hexToBytes))
  }

  class RealtimeTransactionsDataService {
    const hexToBytes: Option<string> -> seq<byte>

    constructor (hexToBytes: Option<string> -> seq<byte>)
      ensures this.hexToBytes == hexToBytes
    {
      this.hexToBytes := hexToBytes;
    }

    /** ToTransactionExtended: None for a null list, otherwise each transaction converted in order. */
    method ToTransactionExtended(list: Option<seq<RawTransaction>>, height: int) returns (r: Option<seq<TransactionExtended>>)
      ensures r.Some? <==> list.Some?
      ensures r.Some? ==> r.value == ExtendAll(list.value, height, hexToBytes)
    {
      if list.None? {
        return None;
      }
      var txs := list.value;
      var extended: seq<TransactionExtended> := [];
      for i := 0 to |txs|
        invariant extended == ExtendAll(txs[..i], height, hexToBytes)
      {
        assert txs[..i + 1][..i] == txs[..i];
        extended := extended + [Extend(txs[i], height, hexToBytes)];
      }
      assert txs[..|txs|] == txs;
      return Some(extended);
    }

    /**
     * GetTransactionsForBlockAsync. The paging arguments are accepted and
     * not used: the whole block is returned whatever they are.
     */
    method GetTransactionsForBlock(cache: map<string, RawBlock>, blockHeight: int, offset: int, count: int, fetchAll: bool)
      returns (r: Result<seq<TransactionExtended>, string>)
      ensures r == TransactionsForBlock(cache, blockHeight, hexToBytes)
    {
      var key := IntToString(blockHeight);
      if key !in cache || cache[key].txs.None? {
        return Err(NullAnswer);
      }
      var txs := cache[key].txs.value;
      var list: seq<TransactionExtended> := [];
      for i := 0 to |txs|
        invariant list == ExtendAll(txs[..i], blockHeight, hexToBytes)
      {
        assert txs[..i + 1][..i] == txs[..i];
        list := list + [Extend(txs[i], blockHeight, hexToBytes)];
      }
      assert txs[..|txs|] == txs;
      return Ok(list);
    }
  }
}
