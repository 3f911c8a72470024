/** The `Stock` document: one stock item and its balance. */
module StockModel {

  /** A stored `Stock` document. `stockid` is unique across the collection. */
  datatype Stock = Stock(
    stockid: string,
    stockDesc: string,
    balQty: int,
    deleted: bool,
    createdBy: string,
    modifiedBy: string)

  /** What the schema's validators accept: the required strings are non-empty and `balQty` is at least 0. */
  predicate Valid(s: Stock)
  {
    s.stockid != "" && s.createdBy != "" && s.modifiedBy != "" && s.balQty >= 0
  }

  /**
   * A new document with the schema defaults: an empty description, a zero
   * balance, not deleted.
   */
  function NewStock(stockid: string, createdBy: string, modifiedBy: string, stockDesc: string := "", balQty: int := 0)
    : (s: Stock)
    ensures s.stockid == stockid && s.stockDesc == stockDesc && s.balQty == balQty
    ensures !s.deleted
    ensures s.createdBy == createdBy && s.modifiedBy == modifiedBy
    ensures Valid(s) <==> stockid != "" && createdBy != "" && modifiedBy != "" && balQty >= 0
  {
    Stock(stockid, stockDesc, balQty, false, createdBy, modifiedBy)
  }
}
