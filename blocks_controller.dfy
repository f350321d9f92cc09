/**
 * BlocksController: the paged block list. The arguments are checked in a
 * fixed order; the first that fails gives a 400 problem, otherwise the
 * blocks repository is asked with the arguments as they came.
 */
module BlocksController {
  import opened Decimal

  datatype SortDirection = ASC | DESC

  /** The repository call the controller makes: GetSimplifiedBlocks(offset, count, sort). */
  datatype BlocksQuery = BlocksQuery(offset: int, count: int, sort: SortDirection)

  datatype GetBlocksResult =
    | Problem(status: int, detail: string)
    | Query(call: BlocksQuery)

  const BadRequest := 400
  const OffsetNegative := "offset should be higher or equal to zero"
  const CountTooSmall := "count should be more or equal to one"

  function CountTooLarge(maxBlocksPullCount: int): string
  {
    "count should be less or equal than " + IntToString(maxBlocksPullCount)
  }

  /**
   * GET /api/blocks: a problem with status 400 unless the offset is not
   * negative and the count lies between one and the configured maximum; the
   * repository is then asked with the arguments unchanged.
   */
  function GetBlocks(offset: int, count: int, sort: SortDirection, maxBlocksPullCount: int): (r: GetBlocksResult)
    ensures r.Query? <==> 0 <= offset && 1 <= count <= maxBlocksPullCount
    ensures r.Query? ==> r.call == BlocksQuery(offset, count, sort)
    ensures r.Problem? ==> r.status == BadRequest
  {
    if offset < 0 then Problem(BadRequest, OffsetNegative)
    else if count < 1 then Problem(BadRequest, CountTooSmall)
    else if count > maxBlocksPullCount then Problem(BadRequest, CountTooLarge(maxBlocksPullCount))
    else Query(BlocksQuery(offset, count, sort))
  }

  /** The first failing check names the problem: offset, then count below one, then count above the maximum. */
  lemma GetBlocksProblemOrder(offset: int, count: int, sort: SortDirection, maxBlocksPullCount: int)
    ensures offset < 0 ==> GetBlocks(offset, count, sort, maxBlocksPullCount).detail == OffsetNegative
    ensures offset >= 0 && count < 1 ==> GetBlocks(offset, count, sort, maxBlocksPullCount).detail == CountTooSmall
    ensures offset >= 0 && count >= 1 && count > maxBlocksPullCount ==>
              GetBlocks(offset, count, sort, maxBlocksPullCount).detail == CountTooLarge(maxBlocksPullCount)
  {
  }

  /** The three messages are distinct, so the problem tells which check failed. */
  lemma ProblemsDistinct(maxBlocksPullCount: int)
    ensures OffsetNegative != CountTooSmall
    ensures CountTooLarge(maxBlocksPullCount) != OffsetNegative
    ensures CountTooLarge(maxBlocksPullCount) != CountTooSmall
  {
    assert OffsetNegative[0] != CountTooSmall[0];
    assert CountTooLarge(maxBlocksPullCount)[0] != OffsetNegative[0];
    assert CountTooLarge(maxBlocksPullCount)[16] != CountTooSmall[16];
  }

  /** The sort direction is never checked: it changes only the call, never whether there is one. */
  lemma SortNeverRejected(offset: int, count: int, a: SortDirection, b: SortDirection, maxBlocksPullCount: int)
    ensures GetBlocks(offset, count, a, maxBlocksPullCount).Query? == GetBlocks(offset, count, b, maxBlocksPullCount).Query?
  {
  }
}
