/**
 * The blocks table as the sync engine uses it (IBlocksRepository and the
 * two write calls of the blocks service). The repository's own code is not
 * part of this model: each call is given the behaviour the engine relies on,
 * and its failure (a false result or an exception) is an input.
 */
module BlockStore {
  import opened Wrappers
  import opened Models

  /** A write call the engine makes, in the order it makes them. */
  datatype StoreCall =
    | InsertBlockCall(row: BlockRow)
    | UpdateDbBlockCall(height: int, hash: Hash)

  /** The heights of the rows marked as fully synced. */
  function SyncedHeights(rows: map<int, BlockRow>): (r: set<int>)
    ensures forall k :: k in r <==> k in rows && rows[k].synced
  {
    set k | k in rows && rows[k].synced
  }

  /** A non-empty set has an element. */
  lemma NonEmptyHasElement(s: set<int>)
    requires s != {}
    ensures exists x :: x in s
  {
    if forall x :: x !in s {
      assert false;
    }
  }

  /** The largest element of a non-empty finite set of heights. */
  ghost function MaxOf(s: set<int>): (m: int)
    requires s != {}
    ensures m in s && forall k | k in s :: k <= m
    decreases |s|
  {
    NonEmptyHasElement(s);
    var x :| x in s;
    var rest := s - {x};
    if rest == {} then
      assert forall k | k in s :: k in rest || k == x;
      x
    else
      var m := MaxOf(rest);
      assert forall k | k in s :: k in rest || k == x;
      if x > m then x else m
  }

  /** GetLatestBlockAsync(onlySynced: true): the highest synced height, if any. */
  ghost function LatestSynced(rows: map<int, BlockRow>): (r: Option<int>)
    ensures r.None? <==> SyncedHeights(rows) == {}
    ensures r.Some? ==> r.value in SyncedHeights(rows)
    ensures r.Some? ==> forall k | k in SyncedHeights(rows) :: k <= r.value
  {
    var s := SyncedHeights(rows);
    if s == {} then None else Some(MaxOf(s))
  }

  class BlocksTable {
    var Rows: map<int, BlockRow>
    var Calls: seq<StoreCall>

    /** Every row is stored under its own height. */
    ghost predicate Valid()
      reads this
    {
      forall k | k in Rows :: Rows[k].height == k
    }

    constructor (rows: map<int, BlockRow>)
      requires forall k | k in rows :: rows[k].height == k
      ensures Valid() && Rows == rows && Calls == []
    {
      Rows := rows;
      Calls := [];
    }

    /** GetLatestBlockAsync(true), by a scan over the stored heights. */
    method GetLatestSyncedBlock() returns (r: Option<BlockRow>)
      requires Valid()
      ensures r.None? <==> LatestSynced(Rows).None?
      ensures r.Some? ==> r.value.height == LatestSynced(Rows).value && r.value == Rows[r.value.height]
    {
      var todo := Rows.Keys;
      r := None;
      while todo != {}
        invariant todo <= Rows.Keys
        invariant r.None? ==> forall k | k in Rows.Keys - todo :: !Rows[k].synced
        invariant r.Some? ==> r.value.height in Rows.Keys - todo && r.value == Rows[r.value.height] && r.value.synced
        invariant r.Some? ==> forall k | k in Rows.Keys - todo && Rows[k].synced :: k <= r.value.height
        decreases todo
      {
        NonEmptyHasElement(todo);
        var k :| k in todo;
        if Rows[k].synced && (r.None? || r.value.height < k) {
          r := Some(Rows[k]);
        }
        todo := todo - {k};
      }
    }

    /** GetBlockAsync(height). */
    function GetBlock(height: int): (r: Option<BlockRow>)
      reads this
      requires Valid()
      ensures r.Some? <==> height in Rows
      ensures r.Some? ==> r.value == Rows[height] && r.value.height == height
    {
      if height in Rows then Some(Rows[height]) else None
    }

    /** InsertBlockAsync: on success the row is stored under its height. */
    method InsertBlock(row: BlockRow, fails: bool) returns (ok: bool)
      requires Valid()
      modifies this
      ensures Valid()
      ensures ok == !fails
      ensures Rows == if ok then old(Rows)[row.height := row] else old(Rows)
      ensures Calls == old(Calls) + [InsertBlockCall(row)]
    {
      Calls := Calls + [InsertBlockCall(row)];
      ok := !fails;
      if ok {
        Rows := Rows[row.height := row];
      }
    }

    /** SetBlockSyncStateAsync: an update of an existing row's synced flag. */
    method SetBlockSyncState(height: int, synced: bool, fails: bool) returns (ok: bool)
      requires Valid()
      modifies this`Rows
      ensures Valid()
      ensures ok == (height in old(Rows) && !fails)
      ensures Rows == if ok then old(Rows)[height := old(Rows)[height].(synced := synced)] else old(Rows)
    {
      ok := height in Rows && !fails;
      if ok {
        Rows := Rows[height := Rows[height].(synced := synced)];
      }
    }

    /**
     * UpdateDbBlockAsync: re-point the row at a height to the node's hash.
     * A missing row is not created.
     */
    method UpdateDbBlock(height: int, hash: Hash, fails: bool) returns (ok: bool)
      requires Valid()
      modifies this
      ensures Valid()
      ensures ok == (height in old(Rows) && !fails)
      ensures Rows == if ok then old(Rows)[height := old(Rows)[height].(hash := hash)] else old(Rows)
      ensures Calls == old(Calls) + [UpdateDbBlockCall(height, hash)]
    {
      Calls := Calls + [UpdateDbBlockCall(height, hash)];
      ok := height in Rows && !fails;
      if ok {
        Rows := Rows[height := Rows[height].(hash := hash)];
      }
    }
  }
}
