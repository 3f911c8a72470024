/**
 * The stock ledger: the `Stock` collection with the module-level look-aside
 * cache `stockCache`, and the operations that read and write both.
 */
module StockController {
  import opened Wrappers
  import opened StockModel

  /** A stock record as the controller reads it back: `deleted`, `_id` and `__v` are projected away. */
  datatype StockView = StockView(stockid: string, stockDesc: string, balQty: int, createdBy: string, modifiedBy: string)

  function View(s: Stock): StockView
  {
    StockView(s.stockid, s.stockDesc, s.balQty, s.createdBy, s.modifiedBy)
  }

  /** A `findOne` filter on `Stock`: always by `stockid`, by `deleted` when given. */
  datatype StockQuery = StockQuery(stockid: string, deleted: Option<bool>)

  predicate Matches(q: StockQuery, s: Stock)
  {
    s.stockid == q.stockid && (q.deleted.Some? ==> s.deleted == q.deleted.value)
  }

  /** `Stock.findOne(query)` over a store keyed by the unique `stockid`. */
  function FindOne(store: map<string, Stock>, q: StockQuery): (r: Option<Stock>)
    requires forall k :: k in store ==> store[k].stockid == k
    ensures r.Some? ==> r.value in store.Values && Matches(q, r.value)
    ensures r.None? <==> forall k :: k in store ==> !Matches(q, store[k])
  {
    if q.stockid in store && Matches(q, store[q.stockid]) then Some(store[q.stockid]) else None
  }

  /** The body of an HTTP reply from `addNewItem`. */
  datatype Body = Error(error: string) | SaveFailed(reason: string) | Created(userid: string)

  datatype Response = Response(status: int, body: Body)

  const BlankStockIdError := "New stock id cannot be blank"

  class StockLedger {
    /** The `Stock` collection, keyed by `stockid`. */
    var store: map<string, Stock>
    /** `stockCache`: stock id to the record last read or written through this module. */
    var cache: map<string, StockView>

    /**
     * Store keys are the records' ids, and every cache entry is the projection
     * of the record storage currently holds under that id.
     */
    ghost predicate Valid()
      reads this
    {
      && (forall k :: k in store ==> store[k].stockid == k)
      && (forall k :: k in cache ==> k in store && cache[k] == View(store[k]))
    }

    constructor (store: map<string, Stock>)
      requires forall k :: k in store ==> store[k].stockid == k
      ensures Valid() && this.store == store && cache == map[]
    {
      this.store := store;
      cache := map[];
    }

    /**
     * `findStockById(stkid, includeDelete)`: a cache hit is returned as it is;
     * on a miss storage is asked, excluding soft-deleted records unless
     * `includeDelete`, and a hit is cached only when deleted records were
     * excluded.
     */
    method FindStockById(stkid: string, includeDelete: bool := false) returns (stock: Option<StockView>)
      requires Valid()
      modifies this`cache
      ensures Valid()
      ensures stock.Some? ==> stkid in store && stock.value == View(store[stkid])
      // a hit answers from the cache and leaves it as it was
      ensures stkid in old(cache) ==> stock == Some(old(cache)[stkid]) && cache == old(cache)
      // a miss: soft-deleted records only when asked for
      ensures stkid !in old(cache) ==>
        (stock.Some? <==> stkid in store && (includeDelete || !store[stkid].deleted))
      // the cache only ever learns a record found with deleted ones excluded
      ensures includeDelete || stock.None? ==> cache == old(cache)
      ensures stkid !in old(cache) && !includeDelete && stock.Some? ==> cache == old(cache)[stkid := stock.value]
    {
      stock := None;
      if stkid in cache {
        stock := Some(cache[stkid]);
      }
      if stock.None? {
        var query := StockQuery(stkid, None);
        if !includeDelete {
          query := query.(deleted := Some(false));
        }
        var found := FindOne(store, query);
        stock := if found.Some? then Some(View(found.value)) else None;
        if stock.Some? && !includeDelete {
          cache := cache[stkid := stock.value];
        }
      }
    }

    /**
     * `adjStockBal(usrid, stkid, adjQty)`: with both ids non-blank, add
     * `adjQty` to the balance of the record with that id (deleted or not),
     * stamp `modifiedBy`, and replace its cache entry with the updated record.
     */
    method AdjStockBal(usrid: string := "", stkid: string := "", adjQty: int := 0) returns (adjusted: Option<StockView>)
      requires Valid()
      modifies this
      ensures Valid()
      ensures usrid == "" || stkid == "" || stkid !in old(store) ==>
        adjusted.None? && store == old(store) && cache == old(cache)
      ensures usrid != "" && stkid != "" && stkid in old(store) ==>
        && store == old(store)[stkid := old(store)[stkid].(balQty := old(store)[stkid].balQty + adjQty, modifiedBy := usrid)]
        && adjusted == Some(View(store[stkid]))
        && cache == old(cache)[stkid := adjusted.value]
    {
      adjusted := None;
      if usrid != "" && stkid != "" {
        if stkid in store {
          var s := store[stkid];
          store := store[stkid := s.(balQty := s.balQty + adjQty, modifiedBy := usrid)];
          adjusted := Some(View(store[stkid]));
        }
        if adjusted.Some? {
          cache := cache[stkid := adjusted.value];
        }
      }
    }

    /**
     * `POST /stock` (`addNewItem`) for the current user `curUsrId`: a blank or
     * missing stock id is answered 400; otherwise a record with the schema
     * defaults is saved, which fails (500) when the validators reject it or
     * the id is already taken. The cache is never touched.
     */
    method AddNewItem(curUsrId: string, stockid: Option<string>, stockDesc: Option<string>, qty: Option<int>)
      returns (res: Response)
      requires Valid()
      modifies this`store
      ensures Valid() && cache == old(cache)
      ensures res.status == 400 <==> stockid.None? || stockid == Some("")
      ensures res.status == 400 ==> res.body == Error(BlankStockIdError)
      ensures res.status == 200 <==>
        && stockid.Some? && stockid.value != "" && stockid.value !in old(store)
        && curUsrId != "" && (qty.None? || qty.value >= 0)
      ensures res.status == 200 ==>
        var item := NewStock(stockid.value, curUsrId, curUsrId,
                             if stockDesc.Some? then stockDesc.value else "",
                             if qty.Some? then qty.value else 0);
        && res.body == Created(stockid.value)
        && store == old(store)[stockid.value := item]
        && item.balQty == (if qty.Some? then qty.value else 0)
        && item.createdBy == item.modifiedBy == curUsrId
      ensures res.status != 200 ==> store == old(store)
      ensures res.status in {200, 400, 500}
    {
      var inputStockid := if stockid.Some? then stockid.value else "";
      var inputStockDesc := if stockDesc.Some? then stockDesc.value else "";
      var inputQty := if qty.Some? then qty.value else 0;
      if inputStockid == "" {
        return Response(400, Error(BlankStockIdError));
      }
      var createItem := NewStock(inputStockid, curUsrId, curUsrId, inputStockDesc, inputQty);
      if !StockModel.Valid(createItem) {
        return Response(500, SaveFailed("ValidationError"));
      }
      if inputStockid in store {
        return Response(500, SaveFailed("DuplicateKey"));
      }
      store := store[inputStockid := createItem];
      res := Response(200, Created(inputStockid));
    }
  }
}

/** Callers of the ledger: what the contracts above let them conclude. */
module StockScenarios {
  import opened Wrappers
  import opened StockModel
  import opened StockController

  /**
   * A lookup that includes deleted records does not poison the cache: a
   * normal lookup of a soft-deleted item right after it still finds nothing.
   */
  method DeletedLookupKeepsCacheClean(ledger: StockLedger, stkid: string) returns (first: Option<StockView>, second: Option<StockView>)
    requires ledger.Valid()
    requires stkid in ledger.store && ledger.store[stkid].deleted && stkid !in ledger.cache
    modifies ledger`cache
    ensures first.Some? && second.None?
    ensures ledger.cache == old(ledger.cache)
  {
    first := ledger.FindStockById(stkid, true);
    second := ledger.FindStockById(stkid, false);
  }

  /**
   * `adjStockBal` does not look at `deleted`: adjusting a soft-deleted item
   * caches it, and from then on a normal lookup serves it.
   */
  method AdjustedDeletedStockIsServed(ledger: StockLedger, usrid: string, stkid: string, adjQty: int)
    returns (found: Option<StockView>)
    requires ledger.Valid()
    requires usrid != "" && stkid != "" && stkid in ledger.store && ledger.store[stkid].deleted
    modifies ledger
    ensures found.Some? && found.value.balQty == old(ledger.store[stkid].balQty) + adjQty
    ensures stkid in ledger.store && ledger.store[stkid].deleted
  {
    var adjusted := ledger.AdjStockBal(usrid, stkid, adjQty);
    found := ledger.FindStockById(stkid);
  }
}
