/**
 * DB mode of the blocks worker as a specification over values: one pass
 * over a batch of heights, each height taken in, marked synced and followed
 * by the orphan check of the heights just below it.
 */
module DbSync {
  import opened Wrappers
  import opened Models
  import opened BlockStore
  import opened SyncTip

  /** The blocks table as a value: its rows and the write calls made so far. */
  datatype Table = Table(rows: map<int, BlockRow>, calls: seq<StoreCall>)

  ghost predicate ValidRows(rows: map<int, BlockRow>)
  {
    forall k | k in rows :: rows[k].height == k
  }

  /**
   * Where each call of one iteration fails. A write "fails" when it returns
   * false or throws; the sync engine treats both alike.
   */
  datatype DbFaults = DbFaults(
    insertFails: set<int>,            // InsertBlockAsync while taking in height i
    txInsertFails: set<int>,          // InsertTransactionsAsync(i) reports failure
    syncStateFails: set<int>,         // SetBlockSyncStateAsync(i, true)
    hubSendFails: set<int>,           // the blocks-channel send for height i
    repairFails: set<(int, int)>,     // UpdateDbBlockAsync(j) in the orphan check after height i
    orphanThrows: set<(int, int)>)    // a node or store call for j in that orphan check throws

  datatype DbState = DbState(table: Table, tip: TipState)

  /** RPCBlockToDb, restricted to the columns the sync engine reads. */
  function RpcBlockToDb(b: Block): (row: BlockRow)
    ensures row.height == b.height && row.hash == b.hash && !row.synced
  {
    BlockRow(b.height, b.hash, false)
  }

  /** The heights lo .. hi - 1. */
  function Range(lo: int, hi: int): (r: set<int>)
    ensures forall k :: k in r <==> lo <= k < hi
    decreases hi - lo
  {
    if hi <= lo then {} else Range(lo, hi - 1) + {hi - 1}
  }

  lemma RangeSplit(lo: int, hi: int)
    requires lo < hi
    ensures Range(lo, hi) == {lo} + Range(lo + 1, hi)
  {
  }

  // ---------------------------------------------------------------------
  // The orphan check
  // ---------------------------------------------------------------------

  datatype RepairOutcome = RepairOutcome(table: Table, aborted: bool)

  /**
   * One height j of the orphan check run after taking in height i: skip it
   * when the node has no hash for it or the stored hash is the node's;
   * otherwise ask the store to re-point the row to the node's hash.
   */
  function RepairAt(t: Table, up: Upstream, f: DbFaults, i: int, j: int): RepairOutcome
  {
    if (i, j) in f.orphanThrows then RepairOutcome(t, true)
    else
      match HashAt(up, j)
      case None => RepairOutcome(t, false)
      case Some(h) =>
        if j in t.rows && t.rows[j].hash == h then RepairOutcome(t, false)
        else
          var calls := t.calls + [UpdateDbBlockCall(j, h)];
          if j in t.rows && (i, j) !in f.repairFails
          then RepairOutcome(Table(t.rows[j := t.rows[j].(hash := h)], calls), false)
          else RepairOutcome(Table(t.rows, calls), false)
  }

  /** The heights lo .. hi - 1 in ascending order; an exception ends the check. */
  function Repair(t: Table, up: Upstream, f: DbFaults, i: int, lo: int, hi: int): RepairOutcome
    decreases hi - lo
  {
    if hi <= lo then RepairOutcome(t, false)
    else
      var prev := Repair(t, up, f, i, lo, hi - 1);
      if prev.aborted then prev else RepairAt(prev.table, up, f, i, hi - 1)
  }

  /** Independent reference: the update calls owed to heights lo .. hi - 1, judged on the rows before the check. */
  function OwedUpdates(rows: map<int, BlockRow>, up: Upstream, lo: int, hi: int): seq<StoreCall>
    decreases hi - lo
  {
    if hi <= lo then []
    else
      OwedUpdates(rows, up, lo, hi - 1) +
      match HashAt(up, hi - 1)
      case None => []
      case Some(h) => if hi - 1 in rows && rows[hi - 1].hash == h then [] else [UpdateDbBlockCall(hi - 1, h)]
  }

  /** Independent reference: the row at k once the check has dealt with it. */
  function RepairedRow(rows: map<int, BlockRow>, up: Upstream, f: DbFaults, i: int, k: int): BlockRow
    requires k in rows
  {
    match HashAt(up, k)
    case None => rows[k]
    case Some(h) => if (i, k) in f.repairFails then rows[k] else rows[k].(hash := h)
  }

  /**
   * Without exceptions the orphan check asks for exactly the owed updates,
   * in ascending height order, re-points exactly the rows whose stored hash
   * differs from the node's (unless that update fails), and touches no row
   * outside lo .. hi - 1.
   */
  lemma {:induction false} RepairMatchesReference(t: Table, up: Upstream, f: DbFaults, i: int, lo: int, hi: int)
    requires forall j | lo <= j < hi :: (i, j) !in f.orphanThrows
    ensures var r := Repair(t, up, f, i, lo, hi);
            && !r.aborted
            && r.table.calls == t.calls + OwedUpdates(t.rows, up, lo, hi)
            && r.table.rows.Keys == t.rows.Keys
            && forall k | k in t.rows ::
                 r.table.rows[k] == if lo <= k < hi then RepairedRow(t.rows, up, f, i, k) else t.rows[k]
    decreases hi - lo
  {
    if hi > lo {
      RepairMatchesReference(t, up, f, i, lo, hi - 1);
    }
  }

  /** The orphan check ends early exactly when some height of its window throws. */
  lemma {:induction false} RepairAbortsIff(t: Table, up: Upstream, f: DbFaults, i: int, lo: int, hi: int)
    ensures Repair(t, up, f, i, lo, hi).aborted <==> exists j :: lo <= j < hi && (i, j) in f.orphanThrows
    decreases hi - lo
  {
    if hi > lo {
      RepairAbortsIff(t, up, f, i, lo, hi - 1);
    }
  }

  /** An exception ends the orphan check: the later heights of the window are not looked at. */
  lemma {:induction false} RepairAbortIsFinal(t: Table, up: Upstream, f: DbFaults, i: int, lo: int, mid: int, hi: int)
    requires lo <= mid <= hi
    requires Repair(t, up, f, i, lo, mid).aborted
    ensures Repair(t, up, f, i, lo, hi) == Repair(t, up, f, i, lo, mid)
    decreases hi - mid
  {
    if hi > mid {
      RepairAbortIsFinal(t, up, f, i, lo, mid, hi - 1);
    }
  }

  /**
   * Whatever happens, the orphan check keeps the stored heights, their
   * synced flags and row heights, and never touches a row outside its window.
   */
  lemma {:induction false} RepairKeepsRows(t: Table, up: Upstream, f: DbFaults, i: int, lo: int, hi: int)
    ensures var r := Repair(t, up, f, i, lo, hi).table;
            && r.rows.Keys == t.rows.Keys
            && (forall k | k in t.rows :: r.rows[k].synced == t.rows[k].synced && r.rows[k].height == t.rows[k].height)
            && (forall k | k in t.rows && !(lo <= k < hi) :: r.rows[k] == t.rows[k])
    decreases hi - lo
  {
    if hi > lo {
      RepairKeepsRows(t, up, f, i, lo, hi - 1);
    }
  }

  /** The orphan check only appends calls, and only update calls for heights of its window. */
  lemma {:induction false} RepairOnlyUpdates(t: Table, up: Upstream, f: DbFaults, i: int, lo: int, hi: int)
    ensures var r := Repair(t, up, f, i, lo, hi).table;
            && t.calls <= r.calls
            && forall c | c in r.calls[|t.calls|..] :: c.UpdateDbBlockCall? && lo <= c.height < hi
    decreases hi - lo
  {
    if hi > lo {
      RepairOnlyUpdates(t, up, f, i, lo, hi - 1);
      var prev := Repair(t, up, f, i, lo, hi - 1);
      if !prev.aborted {
        var r := RepairAt(prev.table, up, f, i, hi - 1).table;
        assert r.calls[|t.calls|..] == prev.table.calls[|t.calls|..] + r.calls[|prev.table.calls|..];
      }
    }
  }

  // ---------------------------------------------------------------------
  // One height, a batch, an iteration
  // ---------------------------------------------------------------------

  /**
   * The state after one turn, whether the height was marked synced, and
   * whether the batch loop goes on (it does not after an exception in the
   * orphan check, although the height is synced by then).
   */
  datatype StepResult = StepResult(state: DbState, synced: bool, goOn: bool)

  function Stop(s: DbState): StepResult
  {
    StepResult(s, false, false)
  }

  /** One turn of the batch loop, for height i. */
  function DbStep(s: DbState, up: Upstream, f: DbFaults, window: int, i: int): StepResult
  {
    match HashAt(up, i)
    case None => Stop(s)
    case Some(h) =>
      match BlockFor(up, h)
      case None => Stop(s)
      case Some(b) =>
        var t := s.table;
        var insert := InsertBlockCall(RpcBlockToDb(b));
        if i !in t.rows && i in f.insertFails then
          Stop(s.(table := Table(t.rows, t.calls + [insert])))
        else
          var t1 := if i in t.rows then t else Table(t.rows[b.height := RpcBlockToDb(b)], t.calls + [insert]);
          if i in f.txInsertFails || i !in t1.rows || i in f.syncStateFails then
            Stop(s.(table := t1))
          else
            var t2 := t1.(rows := t1.rows[i := t1.rows[i].(synced := true)]);
            var tip := OnNewBlock(s.tip, b, i in f.hubSendFails).(rpcLatest := b.height);
            var rep := Repair(t2, up, f, i, i - window, i);
            var s' := DbState(rep.table, tip);
            StepResult(s', true, !rep.aborted)
  }

  /** The batch loop from height i with fuel turns left. */
  function DbRun(s: DbState, up: Upstream, f: DbFaults, window: int, i: int, fuel: nat): DbState
    decreases fuel
  {
    if fuel == 0 then s
    else
      var r := DbStep(s, up, f, window, i);
      if r.goOn then DbRun(r.state, up, f, window, i + 1, fuel - 1) else r.state
  }

  /** How many heights the batch loop marks synced. */
  function Ingested(s: DbState, up: Upstream, f: DbFaults, window: int, i: int, fuel: nat): nat
    decreases fuel
  {
    if fuel == 0 then 0
    else
      var r := DbStep(s, up, f, window, i);
      if !r.synced then 0
      else if r.goOn then 1 + Ingested(r.state, up, f, window, i + 1, fuel - 1)
      else 1
  }

  /** The first height of an iteration: one above the highest synced height, or 1. */
  ghost function StartHeight(rows: map<int, BlockRow>): (h: int)
    ensures LatestSynced(rows).None? ==> h == 1
    ensures LatestSynced(rows).Some? ==> h == LatestSynced(rows).value + 1
    ensures forall k | k in SyncedHeights(rows) :: k < h
  {
    (match LatestSynced(rows) case Some(latest) => latest case None => 0) + 1
  }

  function Fuel(blocksPerBatch: int): nat
  {
    if blocksPerBatch < 0 then 0 else blocksPerBatch
  }

  /** DBModeIteration as a function of the state before it. */
  ghost function DbIteration(s: DbState, up: Upstream, f: DbFaults, blocksPerBatch: int, window: int): DbState
  {
    DbRun(s, up, f, window, StartHeight(s.table.rows), Fuel(blocksPerBatch))
  }

  // ---------------------------------------------------------------------
  // Properties
  // ---------------------------------------------------------------------

  /**
   * The stop conditions of one turn: height i is marked synced exactly when
   * the node has the hash and the block, the block row is present or its
   * insert works and lands at height i, and the transaction insert and the
   * sync-state update succeed; the loop then goes on exactly when no call of
   * the orphan check throws.
   */
  lemma DbStepContinuesIff(s: DbState, up: Upstream, f: DbFaults, window: int, i: int)
    ensures DbStep(s, up, f, window, i).synced <==>
      && HashAt(up, i).Some?
      && HashAt(up, i).value in up.blocks
      && (i in s.table.rows || (i !in f.insertFails && up.blocks[HashAt(up, i).value].height == i))
      && i !in f.txInsertFails
      && i !in f.syncStateFails
    ensures DbStep(s, up, f, window, i).goOn <==>
      && DbStep(s, up, f, window, i).synced
      && !exists j :: i - window <= j < i && (i, j) in f.orphanThrows
  {
    match HashAt(up, i)
    case None =>
    case Some(h) =>
      if h in up.blocks {
        var b := up.blocks[h];
        var t := s.table;
        if !(i !in t.rows && i in f.insertFails) {
          var t1 := if i in t.rows then t else Table(t.rows[b.height := RpcBlockToDb(b)], t.calls + [InsertBlockCall(RpcBlockToDb(b))]);
          if !(i in f.txInsertFails || i !in t1.rows || i in f.syncStateFails) {
            var t2 := t1.(rows := t1.rows[i := t1.rows[i].(synced := true)]);
            RepairAbortsIff(t2, up, f, i, i - window, i);
          }
        }
      }
  }

  /** A missing hash or block at the first height changes nothing. */
  lemma DbStepMissingIsNoop(s: DbState, up: Upstream, f: DbFaults, window: int, i: int)
    requires HashAt(up, i).None? || HashAt(up, i).value !in up.blocks
    ensures DbStep(s, up, f, window, i) == Stop(s)
  {
  }

  /**
   * One turn either marks height i synced (and nothing else), or leaves the
   * synced heights alone, and it keeps every row under its own height.
   */
  lemma DbStepSynced(s: DbState, up: Upstream, f: DbFaults, window: int, i: int)
    requires ValidRows(s.table.rows) && UpstreamConsistent(up)
    ensures var r := DbStep(s, up, f, window, i);
            && ValidRows(r.state.table.rows)
            && SyncedHeights(r.state.table.rows) ==
                 SyncedHeights(s.table.rows) + (if r.synced then {i} else {})
  {
    match HashAt(up, i)
    case None =>
    case Some(h) =>
      if h in up.blocks {
        var b := up.blocks[h];
        var t := s.table;
        if !(i !in t.rows && i in f.insertFails) {
          var t1 := if i in t.rows then t else Table(t.rows[b.height := RpcBlockToDb(b)], t.calls + [InsertBlockCall(RpcBlockToDb(b))]);
          if !(i in f.txInsertFails || i !in t1.rows || i in f.syncStateFails) {
            var t2 := t1.(rows := t1.rows[i := t1.rows[i].(synced := true)]);
            assert SyncedHeights(t2.rows) == SyncedHeights(t.rows) + {i};
            RepairKeepsRows(t2, up, f, i, i - window, i);
            var rep := Repair(t2, up, f, i, i - window, i).table;
            assert SyncedHeights(rep.rows) == SyncedHeights(t2.rows);
          } else {
            assert SyncedHeights(t1.rows) == SyncedHeights(t.rows);
          }
        }
      }
  }

  /**
   * One turn only appends store calls; a block row is inserted only for a
   * height absent from the store, and that is height i. Rows at i and above
   * keep their hash, and no row appears other than at i.
   */
  lemma DbStepWrites(s: DbState, up: Upstream, f: DbFaults, window: int, i: int)
    requires ValidRows(s.table.rows) && UpstreamConsistent(up)
    ensures var r := DbStep(s, up, f, window, i).state.table;
            && s.table.rows.Keys <= r.rows.Keys <= s.table.rows.Keys + {i}
            && (forall k | k in s.table.rows && k >= i :: r.rows[k].hash == s.table.rows[k].hash)
            && s.table.calls <= r.calls
            && forall c | c in r.calls[|s.table.calls|..] && c.InsertBlockCall? ::
                 c.row.height == i && i !in s.table.rows
  {
    match HashAt(up, i)
    case None =>
    case Some(h) =>
      if h in up.blocks {
        var b := up.blocks[h];
        var t := s.table;
        var insert := InsertBlockCall(RpcBlockToDb(b));
        if !(i !in t.rows && i in f.insertFails) {
          var t1 := if i in t.rows then t else Table(t.rows[b.height := RpcBlockToDb(b)], t.calls + [insert]);
          if !(i in f.txInsertFails || i !in t1.rows || i in f.syncStateFails) {
            var t2 := t1.(rows := t1.rows[i := t1.rows[i].(synced := true)]);
            RepairKeepsRows(t2, up, f, i, i - window, i);
            RepairOnlyUpdates(t2, up, f, i, i - window, i);
            var rep := Repair(t2, up, f, i, i - window, i).table;
            assert rep.calls[|t.calls|..] == t2.calls[|t.calls|..] + rep.calls[|t2.calls|..];
          }
        }
      }
  }

  /** A batch marks at most as many heights synced as it has turns. */
  lemma {:induction false} IngestedBounded(s: DbState, up: Upstream, f: DbFaults, window: int, i: int, fuel: nat)
    ensures Ingested(s, up, f, window, i, fuel) <= fuel
    decreases fuel
  {
    if fuel > 0 {
      var st := DbStep(s, up, f, window, i);
      if st.synced && st.goOn {
        IngestedBounded(st.state, up, f, window, i + 1, fuel - 1);
      }
    }
  }

  /** The unfolding of one turn of the batch loop. */
  lemma DbRunUnfold(s: DbState, up: Upstream, f: DbFaults, window: int, i: int, fuel: nat, st: StepResult)
    requires fuel > 0 && st == DbStep(s, up, f, window, i)
    ensures DbRun(s, up, f, window, i, fuel) == if st.goOn then DbRun(st.state, up, f, window, i + 1, fuel - 1) else st.state
    ensures Ingested(s, up, f, window, i, fuel) ==
      if !st.synced then 0 else if st.goOn then 1 + Ingested(st.state, up, f, window, i + 1, fuel - 1) else 1
  {
  }

  /**
   * A batch marks synced exactly the heights i .. i + n - 1, n at most the
   * batch size, and leaves every other height's synced flag as it was:
   * heights are taken in strictly increasing order and the loop stops at the
   * first failing one, so no gap is created.
   */
  lemma {:induction false} DbRunSyncedHeights(s: DbState, up: Upstream, f: DbFaults, window: int, i: int, fuel: nat)
    requires ValidRows(s.table.rows) && UpstreamConsistent(up)
    ensures var r := DbRun(s, up, f, window, i, fuel);
            var n := Ingested(s, up, f, window, i, fuel);
            && ValidRows(r.table.rows)
            && SyncedHeights(r.table.rows) == SyncedHeights(s.table.rows) + Range(i, i + n)
    decreases fuel
  {
    if fuel > 0 {
      var st := DbStep(s, up, f, window, i);
      DbStepSynced(s, up, f, window, i);
      DbRunUnfold(s, up, f, window, i, fuel, st);
      var n := Ingested(s, up, f, window, i, fuel);
      if st.goOn {
        DbRunSyncedHeights(st.state, up, f, window, i + 1, fuel - 1);
        RangeSplit(i, i + n);
      } else if st.synced {
        RangeSplit(i, i + 1);
      }
    }
  }

  /**
   * A batch only appends store calls, and every block insert it makes is for
   * a height of the batch that was absent from the store: a stored row is
   * never inserted again.
   */
  lemma {:induction false} DbRunInsertsOnlyAbsent(s: DbState, up: Upstream, f: DbFaults, window: int, i: int, fuel: nat)
    requires ValidRows(s.table.rows) && UpstreamConsistent(up)
    ensures var r := DbRun(s, up, f, window, i, fuel).table;
            && s.table.rows.Keys <= r.rows.Keys
            && s.table.calls <= r.calls
            && forall c | c in r.calls[|s.table.calls|..] && c.InsertBlockCall? ::
                 c.row.height !in s.table.rows && i <= c.row.height < i + fuel
    decreases fuel
  {
    if fuel > 0 {
      var st := DbStep(s, up, f, window, i);
      DbStepWrites(s, up, f, window, i);
      DbStepSynced(s, up, f, window, i);
      if st.goOn {
        DbRunInsertsOnlyAbsent(st.state, up, f, window, i + 1, fuel - 1);
        var r := DbRun(st.state, up, f, window, i + 1, fuel - 1).table;
        var mid := st.state.table;
        assert r.calls[|s.table.calls|..] == mid.calls[|s.table.calls|..] + r.calls[|mid.calls|..];
      }
    }
  }

  /**
   * With every height of the batch known to the node and no failing write,
   * the batch takes in all of its heights.
   */
  lemma {:induction false} DbRunTakesAll(s: DbState, up: Upstream, f: DbFaults, window: int, i: int, fuel: nat)
    requires UpstreamConsistent(up)
    requires forall k | i <= k < i + fuel :: HashAt(up, k).Some? && HashAt(up, k).value in up.blocks
    requires f.insertFails == {} && f.txInsertFails == {} && f.syncStateFails == {} && f.orphanThrows == {}
    ensures Ingested(s, up, f, window, i, fuel) == fuel
    decreases fuel
  {
    if fuel > 0 {
      DbStepContinuesIff(s, up, f, window, i);
      var st := DbStep(s, up, f, window, i);
      DbRunTakesAll(st.state, up, f, window, i + 1, fuel - 1);
    }
  }

  /**
   * Gap-free ingestion: when the synced heights are 1 .. latest, an iteration
   * starts at latest + 1 and leaves them as 1 .. latest + n for some n no
   * larger than the batch size.
   */
  lemma DbIterationGapFree(s: DbState, up: Upstream, f: DbFaults, blocksPerBatch: int, window: int, latest: nat)
    requires ValidRows(s.table.rows) && UpstreamConsistent(up)
    requires SyncedHeights(s.table.rows) == Range(1, latest + 1)
    ensures StartHeight(s.table.rows) == latest + 1
    ensures var n := Ingested(s, up, f, window, latest + 1, Fuel(blocksPerBatch));
            && n <= Fuel(blocksPerBatch)
            && SyncedHeights(DbIteration(s, up, f, blocksPerBatch, window).table.rows) == Range(1, latest + 1 + n)
  {
    if latest > 0 {
      assert latest in SyncedHeights(s.table.rows);
    }
    DbRunSyncedHeights(s, up, f, window, latest + 1, Fuel(blocksPerBatch));
    IngestedBounded(s, up, f, window, latest + 1, Fuel(blocksPerBatch));
    var n := Ingested(s, up, f, window, latest + 1, Fuel(blocksPerBatch));
    assert Range(1, latest + 1) + Range(latest + 1, latest + 1 + n) == Range(1, latest + 1 + n);
  }

  /**
   * First run on an empty store, the node knowing heights 1 .. 10 or more,
   * batch size 10, no failing write: afterwards heights 1 .. 10 are synced.
   */
  lemma FirstRunScenario(up: Upstream, f: DbFaults, window: int, tip: TipState)
    requires UpstreamConsistent(up)
    requires forall k | 1 <= k <= 10 :: HashAt(up, k).Some? && HashAt(up, k).value in up.blocks
    requires f.insertFails == {} && f.txInsertFails == {} && f.syncStateFails == {} && f.orphanThrows == {}
    ensures SyncedHeights(DbIteration(DbState(Table(map[], []), tip), up, f, 10, window).table.rows) == Range(1, 11)
  {
    var s := DbState(Table(map[], []), tip);
    assert ValidRows(s.table.rows);
    assert SyncedHeights(s.table.rows) == Range(1, 1);
    assert Fuel(10) == 10;
    DbIterationGapFree(s, up, f, 10, window, 0);
    DbRunTakesAll(s, up, f, window, 1, 10);
    assert Ingested(s, up, f, window, 1, 10) == 10;
  }
}
