/** The product table seen through `DBRepository`: stock rows and the locked read-check-write transaction. */
module ProductDb {
  import opened Int32

  type ProductId = nat
  type StockTable = map<ProductId, int>

  /** What the database does to one transaction, besides running it. */
  datatype Fault = NoFault | BeginFails | CommitFails

  datatype StockResult = Updated(stock: int) | Insufficient | NoRow | DbError

  /** Every row holds a non-negative INTEGER, as the table's CHECK and column type demand. */
  ghost predicate ValidTable(t: StockTable) {
    forall p :: p in t ==> 0 <= t[p] <= MAX
  }

  /** One transaction of `UpdateStockWithLock`: the new table and the answer. */
  function LockedUpdate(t: StockTable, id: ProductId, delta: int, fault: Fault): (StockTable, StockResult) {
    if fault == BeginFails then
      (t, DbError)
    else if id !in t then
      (t, NoRow)
    else
      var newStock := Wrap(t[id] + delta);
      if newStock < 0 then
        (t, Insufficient)
      else if fault == CommitFails then
        (t, DbError)
      else
        (t[id := newStock], Updated(newStock))
  }

  /** An update changes at most its own row, changes it by exactly `delta` when it answers `Updated` and not at
      all otherwise, and is refused exactly when the row would leave 0..MAX. */
  lemma {:induction false} LockedUpdateIsExact(t: StockTable, id: ProductId, delta: int, fault: Fault)
    requires ValidTable(t) && InRange(delta)
    ensures var (t', r) := LockedUpdate(t, id, delta, fault);
            && ValidTable(t')
            && t'.Keys == t.Keys
            && (r.Updated? <==> fault.NoFault? && id in t && 0 <= t[id] + delta <= MAX)
            && (r.Updated? ==> t' == t[id := t[id] + delta] && r.stock == t[id] + delta)
            && (!r.Updated? ==> t' == t)
            && (r.Insufficient? <==> !fault.BeginFails? && id in t && !(0 <= t[id] + delta <= MAX))
            && (r.NoRow? <==> !fault.BeginFails? && id !in t)
  {
  }

  class DBRepository {
    var rows: StockTable

    constructor (rows: StockTable)
      ensures this.rows == rows
    {
      this.rows := rows;
    }

    method UpdateStockWithLock(id: ProductId, delta: int, fault: Fault) returns (r: StockResult)
      modifies this
      ensures (rows, r) == LockedUpdate(old(rows), id, delta, fault)
    {
      if fault == BeginFails {
        return DbError;
      }
      if id !in rows {
        return NoRow;
      }
      var newStock := Wrap(rows[id] + delta);
      if newStock < 0 {
        return Insufficient;
      }
      if fault == CommitFails {
        return DbError;
      }
      rows := rows[id := newStock];
      return Updated(newStock);
    }

    /** The unconditional write that `EndHotdeal` uses; the row must exist for the UPDATE to return one, the CHECK
        must hold, and the statement may fail. */
    method UpdateStock(id: ProductId, stock: int, fault: Fault) returns (ok: bool)
      modifies this
      ensures ok == (fault.NoFault? && id in old(rows) && stock >= 0)
      ensures rows == if ok then old(rows)[id := stock] else old(rows)
    {
      ok := fault.NoFault? && id in rows && stock >= 0;
      if ok {
        rows := rows[id := stock];
      }
    }

    method GetStock(id: ProductId) returns (found: bool, stock: int)
      ensures found == (id in rows)
      ensures found ==> stock == rows[id]
    {
      found := id in rows;
      stock := if found then rows[id] else 0;
    }
  }
}
