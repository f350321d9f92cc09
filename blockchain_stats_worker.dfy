/**
 * BlockchainStatsWorker: the transaction charts. For a window of the chain
 * (an offset) and a number of points, the worker picks one getchaintxstats
 * interval per point, asks the node for each from the last to the first,
 * and appends a count point, a rate point and a label for every answer with
 * transactions in its window.
 */
module ChainStats {
  import opened Wrappers
  import opened Models
  import opened Caching
  import opened Decimal

  // ---------------------------------------------------------------------
  // One chart
  // ---------------------------------------------------------------------

  /** The chain height the charts are drawn against: the node's block count, or 1 without chain info. */
  function ChartCount(info: Option<BlockchainInfo>): int
  {
    match info
    case Some(i) => i.blocks
    case None => 1
  }

  /**
   * The offset into the chain: an offset above the chain height is an
   * error; a negative one counts back from the tip; any other is kept.
   */
  function NormaliseOffset(count: int, offset: int): (r: Result<int, string>)
    ensures r.Err? <==> offset > count
    ensures r.Ok? ==> r.value <= count
    ensures r.Ok? ==> (0 <= r.value <==> -count <= offset)
    ensures r.Ok? && offset >= 0 ==> r.value == offset
    ensures r.Ok? && offset < 0 ==> r.value == offset + count
  {
    if offset > count then Err("offset > count")
    else if offset < 0 then Ok(offset + count)
    else Ok(offset)
  }

  function Max(a: int, b: int): (r: int)
    ensures r >= a && r >= b && (r == a || r == b)
  {
    if a < b then b else a
  }

  /**
   * The getchaintxstats interval of each point. The source computes it in
   * floating point; `formula` gives the truncated value of that expression,
   * and the interval is never below 10.
   */
  function Targets(count: int, offset: int, points: int, formula: (int, int, int, int) -> int): (r: seq<int>)
    ensures |r| == Max(points, 0)
    ensures forall i | 0 <= i < |r| :: r[i] >= 10 && (formula(count, offset, points, i) >= 10 ==> r[i] == formula(count, offset, points, i))
    ensures forall i | 0 <= i < |r| :: formula(count, offset, points, i) < 10 ==> r[i] == 10
  {
    var r := seq(Max(points, 0), i => Max(10, formula(count, offset, points, i)));
    assert forall i | 0 <= i < |r| :: r[i] == Max(10, formula(count, offset, points, i));
    r
  }

  /** The error a target with no answer gives. */
  const NoAnswer := "getchaintxstats returned no result"

  /** A chart with nothing in it. */
  const EmptyEntry := TxStatsEntry([], [], [])

  /** The three points that one answer with transactions adds, for the point with index i. */
  function AddPoint(e: TxStatsEntry, count: int, res: ChainTxStats, i: nat): TxStatsEntry
  {
    TxStatsEntry(
      e.txCounts + [CountPoint(count - res.windowBlockCount, res.txCount - res.windowTxCount)],
      e.txRates + [RatePoint(count - res.windowBlockCount, res.txRate)],
      e.labels + [NatToString(i)])
  }

  /**
   * The points for the targets with index k and above, asked for from the
   * last to k. A target the node gives no answer for is an error (the source
   * throws); an answer with no transactions in its window adds nothing.
   */
  function Collect(count: int, targets: seq<int>, resp: map<int, ChainTxStats>, k: nat): Result<TxStatsEntry, string>
    requires k <= |targets|
    decreases |targets| - k
  {
    if k == |targets| then Ok(EmptyEntry)
    else
      match Collect(count, targets, resp, k + 1)
      case Err(e) => Err(e)
      case Ok(acc) =>
        if targets[k] !in resp then Err(NoAnswer)
        else if resp[targets[k]].windowTxCount == 0 then Ok(acc)
        else Ok(AddPoint(acc, count, resp[targets[k]], k))
  }

  /** GetTxStatsAsync as a function of the chain info, the node's answers and the interval formula. */
  function TxStats(info: Option<BlockchainInfo>, points: int, offset: int,
                   formula: (int, int, int, int) -> int, resp: map<int, ChainTxStats>): Result<TxStatsEntry, string>
  {
    var count := ChartCount(info);
    match NormaliseOffset(count, offset)
    case Err(e) => Err(e)
    case Ok(o) => Collect(count, Targets(count, o, points, formula), resp, 0)
  }

  // ---------------------------------------------------------------------
  // Properties of a chart
  // ---------------------------------------------------------------------

  /**
   * Independent reference: the indices, from the last to k, whose answer has
   * transactions in its window.
   */
  function Kept(targets: seq<int>, resp: map<int, ChainTxStats>, k: nat): (r: seq<nat>)
    requires k <= |targets|
    requires forall i | 0 <= i < |targets| :: targets[i] in resp
    ensures forall a | 0 <= a < |r| :: k <= r[a] < |targets|
    decreases |targets| - k
  {
    if k == |targets| then []
    else Kept(targets, resp, k + 1) + (if resp[targets[k]].windowTxCount != 0 then [k] else [])
  }

  /** The kept indices are in strictly decreasing order, all from k up, with a non-empty window each. */
  lemma {:induction false} KeptDescending(targets: seq<int>, resp: map<int, ChainTxStats>, k: nat)
    requires k <= |targets|
    requires forall i | 0 <= i < |targets| :: targets[i] in resp
    ensures var kept := Kept(targets, resp, k);
            && |kept| <= |targets| - k
            && (forall a | 0 <= a < |kept| :: resp[targets[kept[a]]].windowTxCount != 0)
            && (forall a, b | 0 <= a < b < |kept| :: kept[a] > kept[b])
    decreases |targets| - k
  {
    if k < |targets| {
      KeptDescending(targets, resp, k + 1);
    }
  }

  /**
   * With an answer for every target, the chart holds exactly one count
   * point, one rate point and one label per kept index, in that order: X is
   * the chain height minus the window's block count, the count Y the total
   * minus the window's transactions, the rate Y the answer's rate, and the
   * label the index.
   */
  lemma {:induction false} CollectMatchesKept(count: int, targets: seq<int>, resp: map<int, ChainTxStats>, k: nat)
    requires k <= |targets|
    requires forall i | 0 <= i < |targets| :: targets[i] in resp
    ensures var r := Collect(count, targets, resp, k);
            var kept := Kept(targets, resp, k);
            && r.Ok?
            && |r.value.txCounts| == |r.value.txRates| == |r.value.labels| == |kept|
            && forall j | 0 <= j < |kept| ::
                 var res := resp[targets[kept[j]]];
                 && r.value.txCounts[j] == CountPoint(count - res.windowBlockCount, res.txCount - res.windowTxCount)
                 && r.value.txRates[j] == RatePoint(count - res.windowBlockCount, res.txRate)
                 && r.value.labels[j] == NatToString(kept[j])
    decreases |targets| - k
  {
    if k < |targets| {
      CollectMatchesKept(count, targets, resp, k + 1);
    }
  }

  /** The chart fails exactly when some target from k up has no answer. */
  lemma {:induction false} CollectFailsIff(count: int, targets: seq<int>, resp: map<int, ChainTxStats>, k: nat)
    requires k <= |targets|
    ensures Collect(count, targets, resp, k).Err? <==> exists i :: k <= i < |targets| && targets[i] !in resp
    ensures Collect(count, targets, resp, k).Err? ==> Collect(count, targets, resp, k).error == NoAnswer
    decreases |targets| - k
  {
    if k < |targets| {
      CollectFailsIff(count, targets, resp, k + 1);
    }
  }

  /** One target without an answer fails the whole chart. */
  lemma CollectFailsAt(count: int, targets: seq<int>, resp: map<int, ChainTxStats>, k: nat)
    requires k < |targets| && targets[k] !in resp
    ensures Collect(count, targets, resp, 0) == Err(NoAnswer)
  {
    CollectFailsIff(count, targets, resp, 0);
  }

  /** The three lists grow in lockstep and never beyond one entry per target. */
  lemma {:induction false} CollectLockstep(count: int, targets: seq<int>, resp: map<int, ChainTxStats>, k: nat)
    requires k <= |targets|
    ensures var r := Collect(count, targets, resp, k);
            r.Ok? ==> |r.value.txCounts| == |r.value.txRates| == |r.value.labels| <= |targets| - k
    decreases |targets| - k
  {
    if k < |targets| {
      CollectLockstep(count, targets, resp, k + 1);
    }
  }

  /** A chart: an error for an offset above the chain height, otherwise at most one point per requested point. */
  lemma TxStatsShape(info: Option<BlockchainInfo>, points: int, offset: int,
                     formula: (int, int, int, int) -> int, resp: map<int, ChainTxStats>)
    ensures offset > ChartCount(info) ==> TxStats(info, points, offset, formula, resp).Err?
    ensures var r := TxStats(info, points, offset, formula, resp);
            r.Ok? ==> |r.value.txCounts| == |r.value.txRates| == |r.value.labels| <= Max(points, 0)
  {
    var count := ChartCount(info);
    var n := NormaliseOffset(count, offset);
    if n.Ok? {
      CollectLockstep(count, Targets(count, n.value, points, formula), resp, 0);
    }
  }

  // ---------------------------------------------------------------------
  // All four charts
  // ---------------------------------------------------------------------

  /** Chain blocks per day for a block time in seconds. */
  function BlocksPerDay(blockTime: int): int
    requires blockTime > 0
  {
    24 * 60 * 60 / blockTime
  }

  /**
   * The four charts: a quarter day's blocks worth of points over the last
   * 144, 1008 and 4320 blocks, and the configured number of points over the
   * whole chain. Any failing chart means no result.
   */
  function AllCharts(info: Option<BlockchainInfo>, blockTime: int, statsPointsCount: int,
                     formula: (int, int, int, int) -> int, resp: map<int, ChainTxStats>): (r: Option<map<string, TxStatsEntry>>)
    requires blockTime > 0
    ensures r.Some? ==> r.value.Keys == {"day", "week", "month", "overall"}
    ensures r.Some? <==>
              && TxStats(info, BlocksPerDay(blockTime) / 4, -144, formula, resp).Ok?
              && TxStats(info, BlocksPerDay(blockTime) / 4, -144 * 7, formula, resp).Ok?
              && TxStats(info, BlocksPerDay(blockTime) / 4, -144 * 30, formula, resp).Ok?
              && TxStats(info, statsPointsCount, 0, formula, resp).Ok?
  {
    var quarter := BlocksPerDay(blockTime) / 4;
    var day := TxStats(info, quarter, -144, formula, resp);
    var week := TxStats(info, quarter, -144 * 7, formula, resp);
    var month := TxStats(info, quarter, -144 * 30, formula, resp);
    var overall := TxStats(info, statsPointsCount, 0, formula, resp);
    if day.Ok? && week.Ok? && month.Ok? && overall.Ok? then
      Some(map["day" := day.value, "week" := week.value, "month" := month.value, "overall" := overall.value])
    else None
  }

  /** None of the four windows fails on its offset: each counts back from the tip or starts at 0. */
  lemma WindowOffsetsInRange(info: Option<BlockchainInfo>, offset: int)
    requires offset in {-144, -144 * 7, -144 * 30, 0}
    ensures NormaliseOffset(ChartCount(info), offset).Ok?
  {
  }

  class BlockchainStatsWorker {
    const chain: ChainInfoState
    const blockTime: int

    constructor (chain: ChainInfoState, blockTime: int)
      requires blockTime > 0
      ensures this.chain == chain && this.blockTime == blockTime
    {
      this.chain := chain;
      this.blockTime := blockTime;
    }

    /** GetTxStatsAsync: the interval list, then the points from the last interval to the first. */
    method GetTxStats(points: int, offset: int, formula: (int, int, int, int) -> int, resp: map<int, ChainTxStats>)
      returns (r: Result<TxStatsEntry, string>)
      ensures r == TxStats(chain.CurrentChainInfo, points, offset, formula, resp)
    {
      var count := ChartCount(chain.CurrentChainInfo);
      if offset > count {
        return Err("offset > count");
      }
      var off := offset;
      if off < 0 {
        off := off + count;
      }
      var targets := BuildTargets(count, off, points, formula);
      r := CollectPoints(count, targets, resp);
    }

    /** The first loop of GetTxStatsAsync: one interval per point, in point order. */
    method BuildTargets(count: int, offset: int, points: int, formula: (int, int, int, int) -> int) returns (targets: seq<int>)
      ensures targets == Targets(count, offset, points, formula)
    {
      targets := [];
      var i := 0;
      while i < points
        invariant 0 <= i <= Max(points, 0)
        invariant targets == Targets(count, offset, points, formula)[..i]
      {
        targets := targets + [Max(10, formula(count, offset, points, i))];
        i := i + 1;
      }
    }

    /** The second loop of GetTxStatsAsync: from the last interval to the first, one answer each. */
    method CollectPoints(count: int, targets: seq<int>, resp: map<int, ChainTxStats>) returns (r: Result<TxStatsEntry, string>)
      ensures r == Collect(count, targets, resp, 0)
    {
      var entry := EmptyEntry;
      var k := |targets| - 1;
      while k >= 0
        invariant -1 <= k < |targets|
        invariant Collect(count, targets, resp, k + 1) == Ok(entry)
      {
        if targets[k] !in resp {
          CollectFailsAt(count, targets, resp, k);
          return Err(NoAnswer);
        }
        var res := resp[targets[k]];
        if res.windowTxCount != 0 {
          entry := AddPoint(entry, count, res, k);
        }
        k := k - 1;
      }
      return Ok(entry);
    }

    /** One pass: the four charts replace the shared chart state, unless one of them fails. */
    method Tick(statsPointsCount: int, formula: (int, int, int, int) -> int, resp: map<int, ChainTxStats>)
      requires blockTime > 0
      modifies chain`CurrentChainStats
      ensures var all := AllCharts(chain.CurrentChainInfo, blockTime, statsPointsCount, formula, resp);
              chain.CurrentChainStats == if all.Some? then all else old(chain.CurrentChainStats)
    {
      var quarter := BlocksPerDay(blockTime) / 4;
      var day := GetTxStats(quarter, -144, formula, resp);
      if day.Err? {
        return;
      }
      var week := GetTxStats(quarter, -144 * 7, formula, resp);
      if week.Err? {
        return;
      }
      var month := GetTxStats(quarter, -144 * 30, formula, resp);
      if month.Err? {
        return;
      }
      var overall := GetTxStats(statsPointsCount, 0, formula, resp);
      if overall.Err? {
        return;
      }
      chain.CurrentChainStats := Some(map["day" := day.value, "week" := week.value, "month" := month.value, "overall" := overall.value]);
    }
  }
}
