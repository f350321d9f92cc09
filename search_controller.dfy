/**
 * SearchController: classifies a search query as a block height, an address,
 * a transaction hash or a block hash. The syntactic checks of the utility
 * service, the mempool list and the two repository probes are parameters.
 */
module SearchController {
  import opened Wrappers

  datatype EntityType = UNKNOWN | BLOCK_HEIGHT | ADDRESS | TRANSACTION_HASH | BLOCK_HASH

  datatype SearchResponse = SearchResponse(found: bool, kind: EntityType, query: Option<string>)

  /**
   * What the controller consults: the utility service's checks, the txids of
   * the unconfirmed transactions (None when the shared list is null), and
   * whether the transactions and blocks repositories know a hash.
   */
  datatype Lookups = Lookups(
    isNumeric: string -> bool,
    verifyAddress: string -> bool,
    verifyHex: string -> bool,
    unconfirmedTxids: Option<seq<string>>,
    txKnown: string -> bool,
    blockKnown: string -> bool)

  /** A query of 64 characters that the utility service accepts as hex. */
  predicate HashShaped(q: string, env: Lookups)
  {
    |q| == 64 && env.verifyHex(q)
  }

  predicate InMempool(q: string, env: Lookups)
  {
    env.unconfirmedTxids.Some? && q in env.unconfirmedTxids.value
  }

  /** The response for a query: found exactly when classified, the query always echoed. */
  function Search(query: Option<string>, env: Lookups): (r: SearchResponse)
    ensures r.query == query
    ensures r.found <==> r.kind != UNKNOWN
  {
    var notFound := SearchResponse(false, UNKNOWN, query);
    match query
    case None => notFound
    case Some(q) =>
      if env.isNumeric(q) then SearchResponse(true, BLOCK_HEIGHT, query)
      else if env.verifyAddress(q) then SearchResponse(true, ADDRESS, query)
      else if HashShaped(q, env) then
        if InMempool(q, env) then SearchResponse(true, TRANSACTION_HASH, query)
        else if env.txKnown(q) then SearchResponse(true, TRANSACTION_HASH, query)
        else if env.blockKnown(q) then SearchResponse(true, BLOCK_HASH, query)
        else notFound
      else notFound
  }

  /**
   * Each kind in terms of the checks, with the precedence of the source: a
   * number before an address, an address before a hash, and a transaction
   * (unconfirmed or stored) before a block.
   */
  lemma SearchKindIff(query: Option<string>, env: Lookups)
    ensures Search(query, env).kind == BLOCK_HEIGHT <==>
              query.Some? && env.isNumeric(query.value)
    ensures Search(query, env).kind == ADDRESS <==>
              query.Some? && !env.isNumeric(query.value) && env.verifyAddress(query.value)
    ensures Search(query, env).kind == TRANSACTION_HASH <==>
              query.Some? && !env.isNumeric(query.value) && !env.verifyAddress(query.value)
              && HashShaped(query.value, env)
              && (InMempool(query.value, env) || env.txKnown(query.value))
    ensures Search(query, env).kind == BLOCK_HASH <==>
              query.Some? && !env.isNumeric(query.value) && !env.verifyAddress(query.value)
              && HashShaped(query.value, env)
              && !InMempool(query.value, env) && !env.txKnown(query.value) && env.blockKnown(query.value)
  {
  }

  /** A null query is answered with the default response. */
  lemma NullQueryNotFound(env: Lookups)
    ensures Search(None, env) == SearchResponse(false, UNKNOWN, None)
  {
  }

  /** The repositories are consulted only for hash-shaped queries that are no number and no address. */
  lemma ProbesOnlyForHashes(q: string, env: Lookups, txKnown': string -> bool, blockKnown': string -> bool)
    requires env.isNumeric(q) || env.verifyAddress(q) || !HashShaped(q, env)
    ensures Search(Some(q), env) == Search(Some(q), env.(txKnown := txKnown', blockKnown := blockKnown'))
  {
  }

  /** A transaction in the mempool is found without asking either repository. */
  lemma MempoolBeforeRepositories(q: string, env: Lookups, txKnown': string -> bool, blockKnown': string -> bool)
    requires !env.isNumeric(q) && !env.verifyAddress(q) && HashShaped(q, env) && InMempool(q, env)
    ensures Search(Some(q), env).kind == TRANSACTION_HASH
    ensures Search(Some(q), env) == Search(Some(q), env.(txKnown := txKnown', blockKnown := blockKnown'))
  {
  }

  /** The blocks repository is asked only when the transactions repository does not know the hash. */
  lemma TransactionBeforeBlock(q: string, env: Lookups, blockKnown': string -> bool)
    requires env.txKnown(q)
    ensures Search(Some(q), env) == Search(Some(q), env.(blockKnown := blockKnown'))
  {
  }
}
