/** The renderer's state machine: the draft order `currentOrder`, the selected cashier,
    and the operations that move data between the draft and the four collections. */
module App {
  import opened Records
  import opened Totals
  import opened Draft
  import opened Store

  /** What `completeOrder` reports, by the first check or store call that stops it. */
  function CompleteOutcome(tableId: Option<Id>, items: seq<Item>, tables: map<Id, Table>,
                           faults: set<Call>): Outcome
  {
    if tableId.None? || |items| == 0 then Err(InvalidOrder)
    else if FindTable in faults || tableId.value !in tables then Err(TableNotFound)
    else if InsertOrder in faults then Err(OrderInsertFailed)
    else if UpdateTable in faults then Err(TableUpdateFailed)
    else Ok
  }

  /** What `processPayment` reports, by the first check or store call that stops it. */
  ghost function PaymentOutcome(cashier: Option<string>, orders: map<Id, Order>, tid: Id,
                                faults: set<Call>): Outcome
  {
    if !Truthy(cashier) then Err(NoCashierSelected)
    else if FindOrders in faults then Err(OrdersLoadFailed)
    else if !HasActive(orders, tid) then Err(NoActiveOrder)
    else if UpdateOrders in faults then Err(PaymentFailed)
    else if UpdateTable in faults then Err(TableUpdateFailed)
    else Ok
  }

  /** The order document `completeOrder` stores for the draft. */
  function NewOrder(tid: Id, table: Table, items: seq<Item>, total: int, now: int): Order
  {
    Order(tid, table.number, items, total, Active, now, None, None)
  }

  /** The renderer's globals: `currentOrder` (`tableId`, `items`, `total`) and
      `selectedCashier`, over the database `db`. */
  class Pos {
    const db: Database
    var tableId: Option<Id>
    var items: seq<Item>
    var total: int
    var selectedCashier: Option<string>

    /** The draft's total is always the sum of its lines, no product has two lines, and
        every quantity is at least 1. */
    ghost predicate Valid()
      reads this, db
    {
      && db.Valid()
      && total == Sum(items)
      && UniqueIds(items)
      && PositiveQuantities(items)
    }

    /** Page load: the draft is `{ tableId: null, items: [], total: 0 }` and no cashier
        is selected. */
    constructor (db: Database)
      requires db.Valid()
      ensures Valid() && this.db == db
      ensures tableId == None && items == [] && total == 0 && selectedCashier == None
    {
      this.db := db;
      tableId, items, total := None, [], 0;
      selectedCashier := None;
    }

    /** `selectTable`: a table's card exists exactly when the table is stored (the order
        page draws one card per stored table). Only the selection changes: the lines and
        the total carry over to the new table. */
    method SelectTable(id: Id)
      requires Valid()
      modifies this
      ensures Valid()
      ensures tableId == (if id in db.tables then Some(id) else old(tableId))
      ensures items == old(items) && total == old(total)
      ensures selectedCashier == old(selectedCashier)
    {
      if id in db.tables {
        tableId := Some(id);
      }
    }

    /** `addToOrder`: refuses without a selected table, for a product the lookup does not
        return, and for stock at or below zero, leaving the draft as it was; otherwise the
        product's line gains one unit or a new line is appended, and the total is
        recomputed. */
    method AddToOrder(productId: Id, faults: set<Call>) returns (r: Outcome)
      requires Valid()
      modifies this
      ensures Valid()
      ensures r == if old(tableId).None? then Err(NoTableSelected)
                   else if FindProduct in faults || productId !in db.products then Err(ProductNotFound)
                   else if db.products[productId].stock <= 0 then Err(OutOfStock)
                   else Ok
      ensures r.Ok? ==> items == Added(old(items), productId, db.products[productId])
      ensures r.Err? ==> items == old(items) && total == old(total)
      ensures tableId == old(tableId) && selectedCashier == old(selectedCashier)
    {
      if tableId.None? {
        return Err(NoTableSelected);
      }
      if FindProduct in faults || productId !in db.products {
        return Err(ProductNotFound);
      }
      var product := db.products[productId];
      if product.stock <= 0 {
        return Err(OutOfStock);
      }
      AddedLines(items, productId, product);
      match Find(items, productId) {
        case Some(i) =>
          items := items[i := items[i].(quantity := items[i].quantity + 1)];
        case None =>
          items := items + [Item(productId, product.name, product.price, 1)];
      }
      total := Sum(items);
      r := Ok;
    }

    /** `updateItemQuantity`: a quantity at or below zero removes the line; otherwise the
        product's line, if any, gets quantity `q` and the total is recomputed. Stock is not
        consulted. */
    method UpdateItemQuantity(productId: Id, q: int)
      requires Valid()
      modifies this
      ensures Valid()
      ensures q <= 0 ==> items == Without(old(items), productId)
      ensures q > 0 ==> items == WithQuantity(old(items), productId, q)
      ensures tableId == old(tableId) && selectedCashier == old(selectedCashier)
    {
      if q <= 0 {
        RemoveFromOrder(productId);
        return;
      }
      WithQuantityLines(items, productId, q);
      match Find(items, productId) {
        case Some(i) =>
          items := items[i := items[i].(quantity := q)];
          total := Sum(items);
        case None =>
      }
    }

    /** `removeFromOrder`: drops the product's lines and recomputes the total. */
    method RemoveFromOrder(productId: Id)
      requires Valid()
      modifies this
      ensures Valid()
      ensures items == Without(old(items), productId)
      ensures tableId == old(tableId) && selectedCashier == old(selectedCashier)
    {
      WithoutKeepsUnique(items, productId);
      WithoutKeepsPositive(items, productId);
      items := Without(items, productId);
      total := Sum(items);
    }

    /** `completeOrder`: with a table and at least one line, looks the table up, stores an
        active order copying the draft, marks the table occupied, takes each line's
        quantity off its product's stock, and resets the draft. A failed lookup or insert
        changes nothing; a failed table update leaves the stored order behind. Every
        failure keeps the draft for a retry. */
    method CompleteOrder(faults: set<Call>, now: int) returns (r: Outcome)
      requires Valid()
      modifies this, db
      ensures Valid()
      ensures r == CompleteOutcome(old(tableId), old(items), old(db.tables), faults)
      ensures r.Ok? || r == Err(TableUpdateFailed) ==>
                var tid := old(tableId).value;
                && old(db.nextId) !in old(db.orders)
                && db.orders == old(db.orders)[old(db.nextId) :=
                                 NewOrder(tid, old(db.tables)[tid], old(items), old(total), now)]
      ensures r.Ok? ==> db.tables == SetStatus(old(db.tables), old(tableId).value, Occupied)
      ensures r.Ok? ==> db.products == Decremented(old(db.products), old(items))
      ensures r.Ok? ==> tableId == None && items == [] && total == 0
      ensures r.Err? ==> tableId == old(tableId) && items == old(items) && total == old(total)
      ensures r.Err? ==> db.tables == old(db.tables) && db.products == old(db.products)
      ensures !(r.Ok? || r == Err(TableUpdateFailed)) ==> db.orders == old(db.orders)
      ensures db.settings == old(db.settings) && selectedCashier == old(selectedCashier)
      ensures r.Ok? && old(Occupancy(db.tables, db.orders)) ==> Occupancy(db.tables, db.orders)
      ensures old(TotalsMatch(db.orders)) ==> TotalsMatch(db.orders)
    {
      if tableId.None? || |items| == 0 {
        return Err(InvalidOrder);
      }
      var tid := tableId.value;
      if FindTable in faults || tid !in db.tables {
        return Err(TableNotFound);
      }
      var order := NewOrder(tid, db.tables[tid], items, total, now);
      if InsertOrder in faults {
        return Err(OrderInsertFailed);
      }
      ghost var tables0, orders0 := db.tables, db.orders;
      var id := db.InsertOrder(order);
      if UpdateTable in faults {
        return Err(TableUpdateFailed);
      }
      db.UpdateTableStatus(tid, Occupied);
      if Occupancy(tables0, orders0) {
        CompleteKeepsOccupancy(tables0, orders0, id, order);
      }

      // the per-line stock decrements, applied one after another
      db.DecrementStock(items);

      tableId, items, total := None, [], 0;
      r := Ok;
    }

    /** `selectCashier`. */
    method SelectCashier(cashier: string)
      modifies this
      ensures selectedCashier == Some(cashier)
      ensures tableId == old(tableId) && items == old(items) && total == old(total)
    {
      selectedCashier := Some(cashier);
    }

    /** `processPayment`: with a cashier selected and at least one active order for the
        table, marks every such order paid by that cashier at `now`, then frees the table.
        If the table update fails the orders stay paid. The draft is not touched. */
    method ProcessPayment(tid: Id, faults: set<Call>, now: int) returns (r: Outcome)
      requires Valid()
      modifies db
      ensures Valid()
      ensures r == PaymentOutcome(old(selectedCashier), old(db.orders), tid, faults)
      ensures r.Ok? || r == Err(TableUpdateFailed) ==>
                db.orders == PayTable(old(db.orders), tid, selectedCashier.value, now)
      ensures !(r.Ok? || r == Err(TableUpdateFailed)) ==> db.orders == old(db.orders)
      ensures r.Ok? ==> db.tables == SetStatus(old(db.tables), tid, Free)
      ensures r.Err? ==> db.tables == old(db.tables)
      ensures db.products == old(db.products) && db.settings == old(db.settings)
      ensures r.Ok? && old(Occupancy(db.tables, db.orders)) ==> Occupancy(db.tables, db.orders)
      ensures old(TotalsMatch(db.orders)) ==> TotalsMatch(db.orders)
    {
      if !Truthy(selectedCashier) {
        return Err(NoCashierSelected);
      }
      if FindOrders in faults {
        return Err(OrdersLoadFailed);
      }
      var active := db.FindActive(tid);
      if active == {} {
        return Err(NoActiveOrder);
      }
      if UpdateOrders in faults {
        return Err(PaymentFailed);
      }
      ghost var tables0, orders0 := db.tables, db.orders;
      PayTableEffect(orders0, tid, selectedCashier.value, now);
      db.PayActive(tid, selectedCashier.value, now);
      if UpdateTable in faults {
        return Err(TableUpdateFailed);
      }
      db.UpdateTableStatus(tid, Free);
      if Occupancy(tables0, orders0) {
        PayKeepsOccupancy(tables0, orders0, tid, selectedCashier.value, now);
      }
      r := Ok;
    }

    /** `updateStock` after the prompt: `entered` is `parseInt`'s result, `None` for NaN.
        NaN and negative values are refused; otherwise only that product's stock field is
        set (an unknown product matches nothing). */
    method UpdateStock(productId: Id, entered: Option<int>, faults: set<Call>) returns (r: Outcome)
      requires Valid()
      modifies db
      ensures Valid()
      ensures r == if entered.None? || entered.value < 0 then Err(InvalidStock)
                   else if UpdateProduct in faults then Err(StockUpdateFailed)
                   else Ok
      ensures db.products == if r.Ok? then SetStock(old(db.products), productId, entered.value)
                             else old(db.products)
      ensures db.orders == old(db.orders) && db.tables == old(db.tables)
      ensures db.settings == old(db.settings)
    {
      if entered.None? || entered.value < 0 {
        return Err(InvalidStock);
      }
      if UpdateProduct in faults {
        return Err(StockUpdateFailed);
      }
      db.UpdateStock(productId, entered.value);
      r := Ok;
    }

    /** The add-table form: stores a free table with the given number. Numbers are not
        checked for uniqueness. */
    method AddTable(number: int, faults: set<Call>, now: int) returns (r: Outcome)
      requires Valid()
      modifies db
      ensures Valid()
      ensures r == if InsertTable in faults then Err(TableInsertFailed) else Ok
      ensures r.Ok? ==> old(db.nextId) !in old(db.tables)
                        && db.tables == old(db.tables)[old(db.nextId) := Table(number, Free, now)]
      ensures r.Err? ==> db.tables == old(db.tables)
      ensures db.products == old(db.products) && db.orders == old(db.orders)
      ensures db.settings == old(db.settings)
      ensures old(Occupancy(db.tables, db.orders)) ==> Occupancy(db.tables, db.orders)
    {
      if InsertTable in faults {
        return Err(TableInsertFailed);
      }
      var tb := Table(number, Free, now);
      ghost var tables0 := db.tables;
      var id := db.InsertTable(tb);
      if Occupancy(tables0, db.orders) {
        NewTableKeepsOccupancy(tables0, db.orders, id, tb);
      }
      r := Ok;
    }

    /** `deleteTable` after confirmation: removes the table whatever its status. */
    method DeleteTable(tid: Id, faults: set<Call>) returns (r: Outcome)
      requires Valid()
      modifies db
      ensures Valid()
      ensures r == if RemoveTable in faults then Err(TableDeleteFailed) else Ok
      ensures db.tables == if r.Ok? then old(db.tables) - {tid} else old(db.tables)
      ensures db.products == old(db.products) && db.orders == old(db.orders)
      ensures db.settings == old(db.settings)
      ensures old(Occupancy(db.tables, db.orders)) ==> Occupancy(db.tables, db.orders)
    {
      if RemoveTable in faults {
        return Err(TableDeleteFailed);
      }
      db.RemoveTable(tid);
      r := Ok;
    }

    /** `clearDatabase` after confirmation: removes every product, order and table, each
        removal on its own; a failing removal is ignored and success is reported. Settings
        and the draft are left alone. */
    method ClearDatabase(faults: set<Call>)
      requires Valid()
      modifies db
      ensures Valid()
      ensures db.products == if RemoveProducts in faults then old(db.products) else map[]
      ensures db.orders == if RemoveOrders in faults then old(db.orders) else map[]
      ensures db.tables == if RemoveTables in faults then old(db.tables) else map[]
      ensures db.settings == old(db.settings)
      ensures RemoveTables !in faults ==> Occupancy(db.tables, db.orders)
      ensures old(TotalsMatch(db.orders)) ==> TotalsMatch(db.orders)
    {
      db.RemoveAll(RemoveProducts !in faults, RemoveOrders !in faults, RemoveTables !in faults);
    }
  }
}
