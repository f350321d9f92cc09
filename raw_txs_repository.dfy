/**
 * RawTxsRepository: raw transactions by id. The database is a parameter: the
 * rows its reader yields for a command text, and the affected-row count of a
 * non-query.
 */
module RawTxsRepository {
  import opened Wrappers
  import opened BaseRepository

  /** A row of rawtxs as the reader returns it; a NULL column is None. */
  datatype RawTxRow = RawTxRow(txid: Option<seq<byte>>, data: Option<seq<byte>>)

  /** The error of txids[0] on an empty list. */
  const IndexOutOfRange := "Index was out of range"

  /** The error of Dictionary.Add for a key already present. */
  const DuplicateKey := "An item with the same key has already been added"

  const SelectById := "SELECT \"data\" FROM rawtxs WHERE txid = "
  const SelectByIds := "SELECT txid, \"data\" FROM rawtxs WHERE "

  // ---------------------------------------------------------------------
  // The WHERE clause of GetTransactionsByIdsAsync
  // ---------------------------------------------------------------------

  /** The SQL text of each id, in list order, or the error of the first id TransformHex rejects. */
  function Literals(txids: seq<string>, verifyHex: string -> bool): Result<seq<string>, string>
    decreases |txids|
  {
    if txids == [] then Ok([])
    else
      match TransformHex(Some(txids[0]), verifyHex)
      case Err(e) => Err(e)
      case Ok(lit) =>
        match Literals(txids[1..], verifyHex)
        case Err(e) => Err(e)
        case Ok(rest) => Ok([lit] + rest)
  }

  /** `txid = l0 OR txid = l1 ... OR txid = ln`. */
  function OrChain(lits: seq<string>): string
    requires |lits| >= 1
    decreases |lits|
  {
    if |lits| == 1 then "txid = " + lits[0]
    else OrChain(lits[..|lits| - 1]) + " OR txid = " + lits[|lits| - 1]
  }

  function WhereClause(txids: seq<string>, verifyHex: string -> bool): Result<string, string>
  {
    if txids == [] then Err(IndexOutOfRange)
    else
      match Literals(txids, verifyHex)
      case Err(e) => Err(e)
      case Ok(lits) => if |lits| == 0 then Err(IndexOutOfRange) else Ok(OrChain(lits))
  }

  /**
   * Literals keeps the list: on success there is one literal per id, the
   * TransformHex text of that id; it fails exactly when some id is rejected.
   */
  lemma {:induction false} LiteralsPointwise(txids: seq<string>, verifyHex: string -> bool)
    ensures Literals(txids, verifyHex).Err? <==> exists i :: 0 <= i < |txids| && TransformHex(Some(txids[i]), verifyHex).Err?
    ensures Literals(txids, verifyHex).Err? ==> Literals(txids, verifyHex).error == HexRejected
    ensures var r := Literals(txids, verifyHex);
            r.Ok? ==> |r.value| == |txids| && forall i | 0 <= i < |txids| :: TransformHex(Some(txids[i]), verifyHex) == Ok(r.value[i])
    decreases |txids|
  {
    if txids != [] {
      LiteralsPointwise(txids[1..], verifyHex);
      if TransformHex(Some(txids[0]), verifyHex).Ok? && Literals(txids[1..], verifyHex).Err? {
        var i :| 0 <= i < |txids[1..]| && TransformHex(Some(txids[1..][i]), verifyHex).Err?;
        assert TransformHex(Some(txids[i + 1]), verifyHex).Err?;
      }
      if Literals(txids, verifyHex).Ok? {
        forall i | 0 <= i < |txids|
          ensures TransformHex(Some(txids[i]), verifyHex) == Ok(Literals(txids, verifyHex).value[i])
        {
          if i > 0 {
            assert txids[i] == txids[1..][i - 1];
          }
        }
      }
    }
  }

  /** One rejected id fails the whole list, with the rejection's error. */
  lemma LiteralsRejected(txids: seq<string>, verifyHex: string -> bool, i: int)
    requires 0 <= i < |txids| && TransformHex(Some(txids[i]), verifyHex).Err?
    ensures Literals(txids, verifyHex) == Err(HexRejected)
  {
    LiteralsPointwise(txids, verifyHex);
  }

  /** Literals accepted one by one make up the list's literals. */
  lemma {:induction false} LiteralsOk(txids: seq<string>, verifyHex: string -> bool, lits: seq<string>)
    requires |lits| == |txids|
    requires forall k | 0 <= k < |txids| :: TransformHex(Some(txids[k]), verifyHex) == Ok(lits[k])
    ensures Literals(txids, verifyHex) == Ok(lits)
    decreases |txids|
  {
    if txids != [] {
      assert forall k | 0 <= k < |txids[1..]| :: txids[1..][k] == txids[k + 1] && lits[1..][k] == lits[k + 1];
      LiteralsOk(txids[1..], verifyHex, lits[1..]);
      assert [lits[0]] + lits[1..] == lits;
    }
  }

  /** The clause fails on an empty list and on any rejected id, and only then. */
  lemma WhereClauseFailsIff(txids: seq<string>, verifyHex: string -> bool)
    ensures WhereClause(txids, verifyHex).Err? <==>
              txids == [] || exists i :: 0 <= i < |txids| && TransformHex(Some(txids[i]), verifyHex).Err?
  {
    LiteralsPointwise(txids, verifyHex);
  }

  /** The chain appends one more ` OR txid = ` term for each id after the first. */
  lemma OrChainExtends(lits: seq<string>, lit: string)
    requires |lits| >= 1
    ensures OrChain(lits + [lit]) == OrChain(lits) + " OR txid = " + lit
  {
    assert (lits + [lit])[..|lits|] == lits;
  }

  /** The chain for one id is a single equality; it always starts with that of the first id. */
  lemma {:induction false} OrChainStartsWithFirst(lits: seq<string>)
    requires |lits| >= 1
    ensures "txid = " + lits[0] <= OrChain(lits)
    decreases |lits|
  {
    if |lits| > 1 {
      OrChainStartsWithFirst(lits[..|lits| - 1]);
    }
  }

  // ---------------------------------------------------------------------
  // The result dictionary
  // ---------------------------------------------------------------------

  /** The key of a row: its txid as hex, or "" for a NULL txid. */
  function RowKey(row: RawTxRow): string
  {
    match ReadHexFromBytea(row.txid)
    case Some(hex) => hex
    case None => ""
  }

  /** The value of a row: its data, or no bytes for a NULL data column. */
  function RowData(row: RawTxRow): seq<byte>
  {
    match row.data
    case Some(d) => d
    case None => []
  }

  /** The dictionary after adding the rows in reader order; a repeated key is an error. */
  function Assemble(rows: seq<RawTxRow>): Result<map<string, seq<byte>>, string>
    decreases |rows|
  {
    if rows == [] then Ok(map[])
    else
      match Assemble(rows[..|rows| - 1])
      case Err(e) => Err(e)
      case Ok(m) =>
        var row := rows[|rows| - 1];
        if RowKey(row) in m then Err(DuplicateKey) else Ok(m[RowKey(row) := RowData(row)])
  }

  /** The keys of the rows, as a set. */
  predicate HasKey(rows: seq<RawTxRow>, k: string)
  {
    exists i :: 0 <= i < |rows| && RowKey(rows[i]) == k
  }

  /** A dictionary that is assembled has exactly the rows' keys. */
  lemma {:induction false} AssembleKeys(rows: seq<RawTxRow>)
    ensures var r := Assemble(rows);
            r.Ok? ==> forall k :: k in r.value <==> HasKey(rows, k)
    decreases |rows|
  {
    if rows != [] {
      var init := rows[..|rows| - 1];
      var last := rows[|rows| - 1];
      AssembleKeys(init);
      var prev := Assemble(init);
      if prev.Ok? && RowKey(last) !in prev.value {
        var m := prev.value[RowKey(last) := RowData(last)];
        forall k ensures k in m <==> HasKey(rows, k) {
          if k in prev.value {
            var i :| 0 <= i < |init| && RowKey(init[i]) == k;
            assert RowKey(rows[i]) == k;
          }
          if HasKey(rows, k) {
            var i :| 0 <= i < |rows| && RowKey(rows[i]) == k;
            if i < |init| {
              assert RowKey(init[i]) == k;
            }
          }
        }
      }
    }
  }

  /** A dictionary that is assembled holds, under each row's key, that row's data. */
  lemma {:induction false} AssembleValues(rows: seq<RawTxRow>)
    ensures var r := Assemble(rows);
            r.Ok? ==> forall i | 0 <= i < |rows| :: RowKey(rows[i]) in r.value && r.value[RowKey(rows[i])] == RowData(rows[i])
    decreases |rows|
  {
    if rows != [] {
      var init := rows[..|rows| - 1];
      var last := rows[|rows| - 1];
      AssembleValues(init);
      var prev := Assemble(init);
      if prev.Ok? && RowKey(last) !in prev.value {
        var m := prev.value[RowKey(last) := RowData(last)];
        forall i | 0 <= i < |rows| ensures RowKey(rows[i]) in m && m[RowKey(rows[i])] == RowData(rows[i]) {
          if i < |init| {
            assert rows[i] == init[i];
          }
        }
      }
    }
  }

  /** The rows are assembled exactly when their keys are pairwise distinct. */
  lemma {:induction false} AssembleOkIff(rows: seq<RawTxRow>)
    ensures Assemble(rows).Ok? <==> forall i, j | 0 <= i < j < |rows| :: RowKey(rows[i]) != RowKey(rows[j])
    decreases |rows|
  {
    if rows != [] {
      var init := rows[..|rows| - 1];
      var last := rows[|rows| - 1];
      AssembleOkIff(init);
      AssembleKeys(init);
      var prev := Assemble(init);
      if prev.Ok? {
        if RowKey(last) in prev.value {
          var i :| 0 <= i < |init| && RowKey(init[i]) == RowKey(last);
          assert RowKey(rows[i]) == RowKey(rows[|rows| - 1]);
        } else {
          forall i, j | 0 <= i < j < |rows| ensures RowKey(rows[i]) != RowKey(rows[j]) {
            assert rows[i] == init[i];
            if j < |init| {
              assert rows[j] == init[j];
            } else {
              assert !HasKey(init, RowKey(last));
            }
          }
        }
      } else {
        var i, j :| 0 <= i < j < |init| && RowKey(init[i]) == RowKey(init[j]);
        assert RowKey(rows[i]) == RowKey(rows[j]);
      }
    }
  }

  /** Rows with different non-null txids never clash: the hex key is the txid's bytes. */
  lemma DistinctTxidsDistinctKeys(a: RawTxRow, b: RawTxRow)
    requires a.txid.Some? && b.txid.Some?
    ensures RowKey(a) == RowKey(b) <==> a.txid == b.txid
  {
    ReadHexIsLowerHex(a.txid.value);
    ReadHexIsLowerHex(b.txid.value);
    LowerHexRoundTrip(a.txid.value);
    LowerHexRoundTrip(b.txid.value);
  }

  /** GetTransactionsByIdsAsync as a function of the ids and the database. */
  function TransactionsByIds(txids: seq<string>, verifyHex: string -> bool, db: string -> seq<RawTxRow>)
    : Result<map<string, seq<byte>>, string>
  {
    match WhereClause(txids, verifyHex)
    case Err(e) => Err(e)
    case Ok(clause) => Assemble(db(SelectByIds + clause))
  }

  /** A rejected id or an empty list fails the call whatever the database holds: no query is needed. */
  lemma ByIdsFailsBeforeQuery(txids: seq<string>, verifyHex: string -> bool, db1: string -> seq<RawTxRow>, db2: string -> seq<RawTxRow>)
    requires txids == [] || exists i :: 0 <= i < |txids| && TransformHex(Some(txids[i]), verifyHex).Err?
    ensures TransactionsByIds(txids, verifyHex, db1).Err?
    ensures TransactionsByIds(txids, verifyHex, db1) == TransactionsByIds(txids, verifyHex, db2)
  {
    WhereClauseFailsIff(txids, verifyHex);
  }

  // ---------------------------------------------------------------------
  // The other two calls
  // ---------------------------------------------------------------------

  /**
   * GetTransactionByIdAsync: a rejected id is an error; no row gives null;
   * otherwise the data column of the first row (null for a NULL column).
   */
  function TransactionById(txid: string, verifyHex: string -> bool, db: string -> seq<RawTxRow>)
    : (r: Result<Option<seq<byte>>, string>)
    ensures r.Err? <==> txid != "" && !verifyHex(txid)
    ensures r.Ok? && db(SelectById + TransformHex(Some(txid), verifyHex).value) == [] ==> r.value.None?
    ensures r.Ok? && db(SelectById + TransformHex(Some(txid), verifyHex).value) != [] ==>
              r.value == db(SelectById + TransformHex(Some(txid), verifyHex).value)[0].data
    ensures r.Ok? && r.value.Some? ==> exists row | row in db(SelectById + TransformHex(Some(txid), verifyHex).value) :: row.data == r.value
  {
    match TransformHex(Some(txid), verifyHex)
    case Err(e) => Err(e)
    case Ok(lit) =>
      var rows := db(SelectById + lit);
      if rows == [] then Ok(None) else Ok(rows[0].data)
  }

  function InsertCommand(txidLit: string, dataLit: string): string
  {
    "INSERT INTO rawtxs (txid,\"data\") VALUES (" + txidLit + ", " + dataLit + ");"
  }

  /** InsertTransactionAsync: an error when either value is rejected, else whether any row was affected. */
  function InsertTransaction(txidHex: string, dataHex: string, verifyHex: string -> bool, affected: string -> int)
    : (r: Result<bool, string>)
    ensures r.Err? <==> TransformHex(Some(txidHex), verifyHex).Err? || TransformHex(Some(dataHex), verifyHex).Err?
    ensures r.Ok? ==> (r.value <==> affected(InsertCommand(TransformHex(Some(txidHex), verifyHex).value,
                                                           TransformHex(Some(dataHex), verifyHex).value)) > 0)
  {
    match (TransformHex(Some(txidHex), verifyHex), TransformHex(Some(dataHex), verifyHex))
    case (Ok(t), Ok(d)) => Ok(affected(InsertCommand(t, d)) > 0)
    case (Err(e), _) => Err(e)
    case (_, Err(e)) => Err(e)
  }

  // ---------------------------------------------------------------------
  // The loops
  // ---------------------------------------------------------------------

  /** The WHERE clause, built the way the source builds it: the first id, then `+=` for each later one. */
  method BuildWhereClause(txids: seq<string>, verifyHex: string -> bool) returns (r: Result<string, string>)
    ensures r == WhereClause(txids, verifyHex)
  {
    if txids == [] {
      return Err(IndexOutOfRange);
    }
    var first := TransformHex(Some(txids[0]), verifyHex);
    if first.Err? {
      LiteralsRejected(txids, verifyHex, 0);
      return Err(first.error);
    }
    var query := "txid = " + first.value;
    ghost var lits := [first.value];
    var i := 1;
    while i < |txids|
      invariant 1 <= i <= |txids| && |lits| == i
      invariant forall k | 0 <= k < i :: TransformHex(Some(txids[k]), verifyHex) == Ok(lits[k])
      invariant query == OrChain(lits)
    {
      var lit := TransformHex(Some(txids[i]), verifyHex);
      if lit.Err? {
        LiteralsRejected(txids, verifyHex, i);
        return Err(lit.error);
      }
      OrChainExtends(lits, lit.value);
      query := query + " OR txid = " + lit.value;
      lits := lits + [lit.value];
      i := i + 1;
    }
    LiteralsOk(txids, verifyHex, lits);
    return Ok(query);
  }

  /** The reader loop: one Dictionary.Add per row. */
  method AssembleRows(rows: seq<RawTxRow>) returns (r: Result<map<string, seq<byte>>, string>)
    ensures r == Assemble(rows)
  {
    var result: map<string, seq<byte>> := map[];
    var i := 0;
    while i < |rows|
      invariant 0 <= i <= |rows|
      invariant Assemble(rows[..i]) == Ok(result)
    {
      assert rows[..i + 1][..i] == rows[..i];
      var key := RowKey(rows[i]);
      if key in result {
        AssembleStaysFailed(rows, i + 1);
        return Err(DuplicateKey);
      }
      result := result[key := RowData(rows[i])];
      i := i + 1;
    }
    assert rows[..|rows|] == rows;
    return Ok(result);
  }

  /** Once a prefix fails, the whole read fails with the same error. */
  lemma {:induction false} AssembleStaysFailed(rows: seq<RawTxRow>, n: nat)
    requires n <= |rows| && Assemble(rows[..n]).Err?
    ensures Assemble(rows) == Assemble(rows[..n])
    decreases |rows| - n
  {
    if n < |rows| {
      assert rows[..n + 1][..n] == rows[..n];
      AssembleStaysFailed(rows, n + 1);
    } else {
      assert rows[..n] == rows;
    }
  }

  /** GetTransactionsByIdsAsync: the clause, one query, the dictionary. */
  method GetTransactionsByIds(txids: seq<string>, verifyHex: string -> bool, db: string -> seq<RawTxRow>)
    returns (r: Result<map<string, seq<byte>>, string>)
    ensures r == TransactionsByIds(txids, verifyHex, db)
  {
    var clause := BuildWhereClause(txids, verifyHex);
    if clause.Err? {
      return Err(clause.error);
    }
    r := AssembleRows(db(SelectByIds + clause.value));
  }
}
