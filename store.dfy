/** The four collections held in memory as maps keyed by identifier, the store calls the
    operations make on them, and the occupancy invariant that ties table status to
    active orders. */
module Store {
  import opened Records
  import opened Totals

  /** `update({ _id: id }, { $set: { status: st } })`: no match, no change. */
  function SetStatus(tables: map<Id, Table>, id: Id, st: TableStatus): (r: map<Id, Table>)
    ensures r.Keys == tables.Keys
    ensures id in tables ==> r[id] == tables[id].(status := st)
    ensures forall k :: k in tables && k != id ==> r[k] == tables[k]
  {
    if id in tables then tables[id := tables[id].(status := st)] else tables
  }

  /** `update({ _id: id }, { $set: { stock: v } })`: only that product's stock field. */
  function SetStock(products: map<Id, Product>, id: Id, v: int): (r: map<Id, Product>)
    ensures r.Keys == products.Keys
    ensures id in products ==> r[id] == products[id].(stock := v)
    ensures forall k :: k in products && k != id ==> r[k] == products[k]
  {
    if id in products then products[id := products[id].(stock := v)] else products
  }

  /** `update({ _id: id }, { $inc: { stock: delta } })`. */
  function IncStock(products: map<Id, Product>, id: Id, delta: int): map<Id, Product>
  {
    if id in products then products[id := products[id].(stock := products[id].stock + delta)]
    else products
  }

  /** The products after `$inc: { stock: -quantity }` for each line in turn. */
  function Decremented(products: map<Id, Product>, items: seq<Item>): map<Id, Product>
  {
    if items == [] then products
    else
      var it := items[|items| - 1];
      IncStock(Decremented(products, items[..|items| - 1]), it.productId, -it.quantity)
  }

  /** `update({ tableId: tid, status: 'active' }, { $set: { status: 'paid', paidAt, cashier } },
      { multi: true })`. */
  function PayTable(orders: map<Id, Order>, tid: Id, cashier: string, now: int): map<Id, Order>
  {
    map k | k in orders ::
      if orders[k].tableId == tid && orders[k].status == Active
      then orders[k].(status := Paid, paidAt := Some(now), cashier := Some(cashier))
      else orders[k]
  }

  ghost predicate IsActiveOf(orders: map<Id, Order>, k: Id, tid: Id)
  {
    k in orders && orders[k].tableId == tid && orders[k].status == Active
  }

  /** `find({ tableId: tid, status: 'active' })` returns at least one order. */
  ghost predicate HasActive(orders: map<Id, Order>, tid: Id)
  {
    exists k :: IsActiveOf(orders, k, tid)
  }

  /** A table is occupied if and only if it has an active order. The source never checks
      this; the lifecycle operations keep it when all their store calls succeed. */
  ghost predicate Occupancy(tables: map<Id, Table>, orders: map<Id, Order>)
  {
    forall t :: t in tables ==> (tables[t].status == Occupied <==> HasActive(orders, t))
  }

  /** Every stored order's total is the sum of its lines. */
  ghost predicate TotalsMatch(orders: map<Id, Order>)
  {
    forall k :: k in orders ==> orders[k].total == Sum(orders[k].items)
  }

  /** After the per-line decrements every product keeps all its fields but stock, and its
      stock has dropped by the total quantity of its lines, with no clamp at zero. */
  lemma {:induction false} DecrementedStock(products: map<Id, Product>, items: seq<Item>)
    ensures Decremented(products, items).Keys == products.Keys
    ensures forall k :: k in products ==>
              Decremented(products, items)[k]
              == products[k].(stock := products[k].stock - QuantityOf(items, k))
  {
    if items != [] {
      DecrementedStock(products, items[..|items| - 1]);
    }
  }

  /** Paying a table: every active order of that table becomes paid by `cashier` at `now`
      with lines and total untouched, every other order is unchanged, and none of that
      table's orders is left active. */
  lemma PayTableEffect(orders: map<Id, Order>, tid: Id, cashier: string, now: int)
    ensures var r := PayTable(orders, tid, cashier, now);
      && r.Keys == orders.Keys
      && (forall k :: IsActiveOf(orders, k, tid) ==>
            r[k] == orders[k].(status := Paid, paidAt := Some(now), cashier := Some(cashier)))
      && (forall k :: k in orders && !IsActiveOf(orders, k, tid) ==> r[k] == orders[k])
      && !HasActive(r, tid)
      && (forall t :: t != tid ==> (HasActive(r, t) <==> HasActive(orders, t)))
      && (TotalsMatch(orders) ==> TotalsMatch(r))
  {
    var r := PayTable(orders, tid, cashier, now);
    forall t | t != tid ensures HasActive(r, t) <==> HasActive(orders, t) {
      if HasActive(r, t) {
        var k :| IsActiveOf(r, k, t);
        assert IsActiveOf(orders, k, t);
      }
      if HasActive(orders, t) {
        var k :| IsActiveOf(orders, k, t);
        assert IsActiveOf(r, k, t);
      }
    }
  }

  /** Completing an order keeps occupancy: the order's table becomes occupied together
      with its new active order, and no other table's status or orders change. */
  lemma CompleteKeepsOccupancy(tables: map<Id, Table>, orders: map<Id, Order>,
                               id: Id, o: Order)
    requires Occupancy(tables, orders)
    requires id !in orders && o.status == Active
    ensures Occupancy(SetStatus(tables, o.tableId, Occupied), orders[id := o])
  {
    var ts := SetStatus(tables, o.tableId, Occupied);
    var os := orders[id := o];
    forall t | t in ts ensures ts[t].status == Occupied <==> HasActive(os, t) {
      if t == o.tableId {
        assert IsActiveOf(os, id, t);
      } else {
        if HasActive(os, t) {
          var k :| IsActiveOf(os, k, t);
          assert IsActiveOf(orders, k, t);
        }
        if HasActive(orders, t) {
          var k :| IsActiveOf(orders, k, t);
          assert IsActiveOf(os, k, t);
        }
      }
    }
  }

  /** Taking payment keeps occupancy: the paid table becomes free and has no active order
      left; other tables are untouched. */
  lemma PayKeepsOccupancy(tables: map<Id, Table>, orders: map<Id, Order>,
                          tid: Id, cashier: string, now: int)
    requires Occupancy(tables, orders)
    ensures Occupancy(SetStatus(tables, tid, Free), PayTable(orders, tid, cashier, now))
  {
    PayTableEffect(orders, tid, cashier, now);
  }

  /** A new free table whose identifier no order refers to keeps occupancy. */
  lemma NewTableKeepsOccupancy(tables: map<Id, Table>, orders: map<Id, Order>, id: Id, tb: Table)
    requires Occupancy(tables, orders) && tb.status == Free
    requires forall k :: k in orders ==> orders[k].tableId != id
    ensures Occupancy(tables[id := tb], orders)
  {
  }

  /** The window of `completeOrder`: if the order is stored but the table update fails, a
      table that was free now has an active order and occupancy is broken. */
  lemma InsertWithoutTableUpdate(tables: map<Id, Table>, orders: map<Id, Order>, id: Id, o: Order)
    requires Occupancy(tables, orders)
    requires id !in orders && o.status == Active
    requires o.tableId in tables && tables[o.tableId].status == Free
    ensures !Occupancy(tables, orders[id := o])
  {
    assert IsActiveOf(orders[id := o], id, o.tableId);
  }

  /** The window of `processPayment`: if the orders are paid but the table update fails,
      an occupied table is left with no active order and occupancy is broken. */
  lemma PayWithoutTableUpdate(tables: map<Id, Table>, orders: map<Id, Order>,
                              tid: Id, cashier: string, now: int)
    requires Occupancy(tables, orders)
    requires tid in tables && HasActive(orders, tid)
    ensures !Occupancy(tables, PayTable(orders, tid, cashier, now))
  {
    PayTableEffect(orders, tid, cashier, now);
  }

  /** The four collections (the NeDB data files, loaded into memory) and the identifier
      generator. */
  class Database {
    var products: map<Id, Product>
    var orders: map<Id, Order>
    var tables: map<Id, Table>
    var settings: map<Id, Settings>
    /** Every identifier in use is below `nextId`. */
    var nextId: nat

    ghost predicate Valid()
      reads this
    {
      && (forall k :: k in products ==> k < nextId)
      && (forall k :: k in orders ==> k < nextId && orders[k].tableId < nextId)
      && (forall k :: k in tables ==> k < nextId)
      && (forall k :: k in settings ==> k < nextId)
    }

    constructor Load(products: map<Id, Product>, orders: map<Id, Order>,
                     tables: map<Id, Table>, settings: map<Id, Settings>, nextId: nat)
      requires forall k :: k in products ==> k < nextId
      requires forall k :: k in orders ==> k < nextId && orders[k].tableId < nextId
      requires forall k :: k in tables ==> k < nextId
      requires forall k :: k in settings ==> k < nextId
      ensures Valid()
      ensures this.products == products && this.orders == orders && this.tables == tables
      ensures this.settings == settings && this.nextId == nextId
    {
      this.products, this.orders, this.tables := products, orders, tables;
      this.settings, this.nextId := settings, nextId;
    }

    /** `orders.insert(o)`: stores `o` under a fresh identifier. */
    method InsertOrder(o: Order) returns (id: Id)
      requires Valid() && o.tableId < nextId
      modifies this
      ensures Valid()
      ensures id !in old(orders) && id == old(nextId) && nextId == old(nextId) + 1
      ensures orders == old(orders)[id := o]
      ensures products == old(products) && tables == old(tables) && settings == old(settings)
    {
      id := nextId;
      orders := orders[id := o];
      nextId := nextId + 1;
    }

    /** `tables.insert(tb)`: stores `tb` under a fresh identifier that no order refers to. */
    method InsertTable(tb: Table) returns (id: Id)
      requires Valid()
      modifies this
      ensures Valid()
      ensures id !in old(tables) && id == old(nextId) && nextId == old(nextId) + 1
      ensures forall k :: k in orders ==> orders[k].tableId != id
      ensures tables == old(tables)[id := tb]
      ensures products == old(products) && orders == old(orders) && settings == old(settings)
    {
      id := nextId;
      tables := tables[id := tb];
      nextId := nextId + 1;
    }

    method UpdateTableStatus(id: Id, st: TableStatus)
      requires Valid()
      modifies this
      ensures Valid()
      ensures tables == SetStatus(old(tables), id, st)
      ensures products == old(products) && orders == old(orders)
      ensures settings == old(settings) && nextId == old(nextId)
    {
      tables := SetStatus(tables, id, st);
    }

    method UpdateStock(id: Id, v: int)
      requires Valid()
      modifies this
      ensures Valid()
      ensures products == SetStock(old(products), id, v)
      ensures orders == old(orders) && tables == old(tables)
      ensures settings == old(settings) && nextId == old(nextId)
    {
      products := SetStock(products, id, v);
    }

    method IncrementStock(id: Id, delta: int)
      requires Valid()
      modifies this
      ensures Valid()
      ensures products == IncStock(old(products), id, delta)
      ensures orders == old(orders) && tables == old(tables)
      ensures settings == old(settings) && nextId == old(nextId)
    {
      products := IncStock(products, id, delta);
    }

    /** The `forEach` over the lines of a completed order: `$inc: { stock: -quantity }`
        for each line in turn. */
    method DecrementStock(lines: seq<Item>)
      requires Valid()
      modifies this
      ensures Valid()
      ensures products == Decremented(old(products), lines)
      ensures orders == old(orders) && tables == old(tables)
      ensures settings == old(settings) && nextId == old(nextId)
    {
      var i := 0;
      while i < |lines|
        invariant 0 <= i <= |lines|
        invariant Valid()
        invariant products == Decremented(old(products), lines[..i])
        invariant orders == old(orders) && tables == old(tables)
        invariant settings == old(settings) && nextId == old(nextId)
      {
        assert lines[..i + 1][..i] == lines[..i];
        IncrementStock(lines[i].productId, -lines[i].quantity);
        i := i + 1;
      }
      assert lines[..i] == lines;
    }

    /** `orders.find({ tableId: tid, status: 'active' })`, as the set of matching ids. */
    method FindActive(tid: Id) returns (ids: set<Id>)
      ensures forall k :: k in ids <==> IsActiveOf(orders, k, tid)
      ensures ids == {} <==> !HasActive(orders, tid)
    {
      ids := set k | k in orders && orders[k].tableId == tid && orders[k].status == Active;
      if HasActive(orders, tid) {
        var k :| IsActiveOf(orders, k, tid);
        assert k in ids;
      }
    }

    method PayActive(tid: Id, cashier: string, now: int)
      requires Valid()
      modifies this
      ensures Valid()
      ensures orders == PayTable(old(orders), tid, cashier, now)
      ensures products == old(products) && tables == old(tables)
      ensures settings == old(settings) && nextId == old(nextId)
    {
      orders := PayTable(orders, tid, cashier, now);
    }

    method RemoveTable(id: Id)
      requires Valid()
      modifies this
      ensures Valid()
      ensures tables == old(tables) - {id}
      ensures products == old(products) && orders == old(orders)
      ensures settings == old(settings) && nextId == old(nextId)
    {
      tables := tables - {id};
    }

    /** `remove({}, { multi: true })` on products, orders and tables, each call applied
        unless it reports an error; settings are never touched. */
    method RemoveAll(clearProducts: bool, clearOrders: bool, clearTables: bool)
      requires Valid()
      modifies this
      ensures Valid()
      ensures products == (if clearProducts then map[] else old(products))
      ensures orders == (if clearOrders then map[] else old(orders))
      ensures tables == (if clearTables then map[] else old(tables))
      ensures settings == old(settings) && nextId == old(nextId)
    {
      if clearProducts { products := map[]; }
      if clearOrders { orders := map[]; }
      if clearTables { tables := map[]; }
    }
  }
}
