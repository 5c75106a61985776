/** Store inventory: one stock row per (store, product), the audit log of
    stock movements, the adjust route that moves stock in or out, and the
    low-stock selections. */
module Inventory {
  import opened Common
  import Auth

  /** The roles admitted by `authorize('supervisor', 'ceo')`. */
  const Managers: seq<Role> := [Supervisor, Ceo]

  /** A StoreInventory row: units in stock and the level at which to reorder. */
  datatype StockRow = StockRow(quantity: int, reorderLevel: int)

  /** The row `findOrCreate` creates for a (store, product) pair with none. */
  const DefaultRow := StockRow(0, 10)

  /** A (store id, product id) pair: the unique key of a stock row. */
  type StockKey = (Uuid, Uuid)

  /** The movement type: 'in' or 'out'. */
  datatype Movement = In | Out

  /** A StockTransaction row: the audit record of one adjustment. */
  datatype StockTransaction = StockTransaction(
    storeId: Uuid,
    productId: Uuid,
    quantity: int,
    movement: Movement,
    salesPersonId: Option<Uuid>,
    notes: Option<string>,
    createdBy: Uuid,
    date: int)

  /** What POST /inventory/adjust answers: the updated row, with the stock
      before and after. */
  datatype Adjustment = Adjustment(row: StockRow, previousStock: int, newStock: int)

  /** The stock row of a pair, or the default row when there is none. */
  function RowOrDefault(rows: map<StockKey, StockRow>, key: StockKey): (row: StockRow)
    ensures key in rows ==> row == rows[key]
    ensures key !in rows ==> row.quantity == 0 && row.reorderLevel == 10
  {
    if key in rows then rows[key] else DefaultRow
  }

  /** The stock after moving `quantity` units in or out. */
  function Adjusted(current: int, quantity: int, movement: Movement): (n: int)
    ensures movement == In ==> n == current + quantity
    ensures movement == Out ==> n == current - quantity
  {
    match movement
    case In => current + quantity
    case Out => current - quantity
  }

  // ---------------------------------------------------------------------------
  // Low stock

  /** A row is low when its stock is at or below its reorder level. */
  predicate IsLow(row: StockRow) {
    row.quantity <= row.reorderLevel
  }

  /** An inventory row as a listing returns it. */
  datatype Item = Item(storeId: Uuid, productId: Uuid, row: StockRow)

  /** The low-stock selection: the items at or below their reorder level, in
      the order they were listed. */
  function LowStock(items: seq<Item>): (low: seq<Item>)
    ensures |low| <= |items|
    ensures forall x :: x in low <==> x in items && IsLow(x.row)
  {
    if items == [] then []
    else (if IsLow(items[0].row) then [items[0]] else []) + LowStock(items[1..])
  }

  /** The selection keeps order: selecting from a concatenation selects from
      each part and concatenates the results, so it is a subsequence of the
      listing. */
  lemma {:induction false} LowStockConcat(a: seq<Item>, b: seq<Item>)
    ensures LowStock(a + b) == LowStock(a) + LowStock(b)
  {
    if a == [] {
      assert a + b == b;
    } else {
      assert (a + b)[0] == a[0];
      assert (a + b)[1..] == a[1..] + b;
      LowStockConcat(a[1..], b);
    }
  }

  /** Selecting twice selects nothing more. */
  lemma {:induction false} LowStockIdempotent(items: seq<Item>)
    ensures LowStock(LowStock(items)) == LowStock(items)
  {
    if items != [] {
      LowStockIdempotent(items[1..]);
      var head := if IsLow(items[0].row) then [items[0]] else [];
      LowStockConcat(head, LowStock(items[1..]));
    }
  }

  /** GET /inventory: the listing, validated, and narrowed to low-stock rows
      only when the low_stock query reads exactly "true". The store and product
      filters are applied by the query that fetched `items`. */
  function ListInventory(items: seq<Item>, storeId: Option<string>, productId: Option<string>,
                         lowStock: Option<string>): (r: Result<seq<Item>>)
    ensures r.Err? <==> !OptionalUuid(storeId) || !OptionalUuid(productId)
                        || (lowStock.Some? && !(lowStock.value in {"true", "false", "1", "0"}))
    ensures r.Err? ==> r.status == BadRequest
    ensures r.Ok? && lowStock == Some("true") ==> r.value == LowStock(items)
    ensures r.Ok? && lowStock != Some("true") ==> r.value == items
  {
    if !OptionalUuid(storeId) || !OptionalUuid(productId)
       || (lowStock.Some? && !(lowStock.value in {"true", "false", "1", "0"})) then
      Err(BadRequest)
    else if lowStock == Some("true") then
      Ok(LowStock(items))
    else
      Ok(items)
  }

  class StockBook {
    var rows: map<StockKey, StockRow>
    /** The StockTransaction rows in the order they were recorded. */
    var log: seq<StockTransaction>

    /** No row ever holds negative stock. */
    ghost predicate Valid()
      reads this
    {
      forall key :: key in rows ==> rows[key].quantity >= 0
    }

    constructor ()
      ensures Valid()
      ensures rows == map[] && log == []
    {
      rows := map[];
      log := [];
    }

    /** POST /inventory/adjust: moves stock in or out of one (store, product)
        row, creating the row at its defaults when missing; stock may not go
        below zero. Every accepted adjustment is logged once. */
    method Adjust(caller: User, storeId: string, productId: string, quantity: int, movement: Movement,
                  salesPersonId: Option<string>, notes: Option<string>, now: int) returns (r: Result<Adjustment>)
      requires Valid()
      modifies this
      ensures Valid()
      ensures !Auth.Permits(caller, Managers) ==> r == Err(Forbidden)
      ensures (Auth.Permits(caller, Managers)
               && (!IsUuid(storeId) || !IsUuid(productId) || quantity < 1 || !OptionalUuid(salesPersonId)))
                ==> r == Err(BadRequest)
      ensures (Auth.Permits(caller, Managers)
               && IsUuid(storeId) && IsUuid(productId) && quantity >= 1 && OptionalUuid(salesPersonId)
               && Adjusted(RowOrDefault(old(rows), (storeId, productId)).quantity, quantity, movement) < 0)
                ==> r == Err(BadRequest)
      ensures r.Ok? <==>
                && Auth.Permits(caller, Managers)
                && IsUuid(storeId) && IsUuid(productId) && quantity >= 1 && OptionalUuid(salesPersonId)
                && Adjusted(RowOrDefault(old(rows), (storeId, productId)).quantity, quantity, movement) >= 0
      ensures r.Err? ==> r.status in {Forbidden, BadRequest}
      ensures r.Err? ==> rows == old(rows) && log == old(log)
      ensures r.Ok? ==>
                var previous := RowOrDefault(old(rows), (storeId, productId));
                && r.value.previousStock == previous.quantity
                && r.value.newStock == Adjusted(previous.quantity, quantity, movement)
                && r.value.row == previous.(quantity := r.value.newStock)
                && rows == old(rows)[(storeId, productId) := r.value.row]
                && log == old(log) + [StockTransaction(storeId, productId, quantity, movement, salesPersonId,
                                                       TrimOption(notes), caller.id, now)]
    {
      if !Auth.Permits(caller, Managers) {
        return Err(Forbidden);
      }
      if !IsUuid(storeId) || !IsUuid(productId) || quantity < 1 || !OptionalUuid(salesPersonId) {
        return Err(BadRequest);
      }
      var key := (storeId, productId);
      var inventory := if key in rows then rows[key] else DefaultRow;
      var currentStock := inventory.quantity;
      var newStock := if movement == In then currentStock + quantity else currentStock - quantity;
      if newStock < 0 {
        // the transaction is rolled back, including a row findOrCreate created
        return Err(BadRequest);
      }
      var updated := inventory.(quantity := newStock);
      rows := rows[key := updated];
      log := log + [StockTransaction(storeId, productId, quantity, movement, salesPersonId,
                                     TrimOption(notes), caller.id, now)];
      r := Ok(Adjustment(updated, currentStock, newStock));
    }
  }
}
