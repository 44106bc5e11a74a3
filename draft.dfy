/** The line list of the draft order (`currentOrder.items`) and how `addToOrder`,
    `updateItemQuantity` and `removeFromOrder` change it. The class App.Pos applies
    these changes in place; the functions here are their specifications. */
module Draft {
  import opened Records
  import opened Totals

  /** `items.find(item => item.productId === pid)`, as the index of the first match. */
  function Find(items: seq<Item>, pid: Id): (r: Option<nat>)
    ensures r.Some? ==> r.value < |items| && items[r.value].productId == pid
    ensures r.Some? ==> forall j :: 0 <= j < r.value ==> items[j].productId != pid
    ensures r.None? ==> forall j :: 0 <= j < |items| ==> items[j].productId != pid
  {
    if items == [] then None
    else
      match Find(items[..|items| - 1], pid)
      case Some(i) => Some(i)
      case None => if items[|items| - 1].productId == pid then Some(|items| - 1) else None
  }

  /** No product has two lines. */
  ghost predicate UniqueIds(items: seq<Item>)
  {
    forall i, j :: 0 <= i < j < |items| ==> items[i].productId != items[j].productId
  }

  ghost predicate PositiveQuantities(items: seq<Item>)
  {
    forall i :: 0 <= i < |items| ==> items[i].quantity >= 1
  }

  /** The lines after `addToOrder` accepted product `p` with identifier `pid`: the
      existing line's quantity goes up by one, or a line with quantity 1 is appended. */
  function Added(items: seq<Item>, pid: Id, p: Product): seq<Item>
  {
    match Find(items, pid)
    case Some(i) => items[i := items[i].(quantity := items[i].quantity + 1)]
    case None => items + [Item(pid, p.name, p.price, 1)]
  }

  /** The lines after `updateItemQuantity(pid, q)` with `q > 0`. */
  function WithQuantity(items: seq<Item>, pid: Id, q: int): seq<Item>
  {
    match Find(items, pid)
    case Some(i) => items[i := items[i].(quantity := q)]
    case None => items
  }

  /** `items.filter(item => item.productId !== pid)`. */
  function Without(items: seq<Item>, pid: Id): seq<Item>
  {
    if items == [] then []
    else Without(items[..|items| - 1], pid)
         + (if items[|items| - 1].productId == pid then [] else [items[|items| - 1]])
  }

  /** Adding a product: its quantity rises by exactly one and no other product's changes;
      a new line copies the product's name and price; the total rises by the line's
      price (the snapshot already in the draft, or the product's current price for a new
      line); unique product ids and positive quantities are kept. */
  lemma AddedLines(items: seq<Item>, pid: Id, p: Product)
    ensures var r := Added(items, pid, p);
      && QuantityOf(r, pid) == QuantityOf(items, pid) + 1
      && (forall k :: k != pid ==> QuantityOf(r, k) == QuantityOf(items, k))
      && Sum(r) == Sum(items) + (match Find(items, pid)
                                 case Some(i) => items[i].price
                                 case None => p.price)
      && (Find(items, pid).None? ==> r == items + [Item(pid, p.name, p.price, 1)])
      && (Find(items, pid).Some? ==> |r| == |items|)
      && (UniqueIds(items) ==> UniqueIds(r))
      && (PositiveQuantities(items) ==> PositiveQuantities(r))
  {
    var r := Added(items, pid, p);
    match Find(items, pid)
    case Some(i) =>
      var x := items[i].(quantity := items[i].quantity + 1);
      SumUpdate(items, i, x);
      forall k ensures QuantityOf(r, k) == QuantityOf(items, k) + (if k == pid then 1 else 0) {
        QuantityUpdate(items, i, x, k);
      }
    case None =>
      assert r[..|r| - 1] == items;
  }

  /** Setting a quantity `q`: with a line for `pid`, that line (and only that line) gets
      quantity `q`, so with unique ids the product's quantity becomes `q`; without one,
      nothing changes. Unique ids are kept, and positive quantities when `q > 0`. */
  lemma WithQuantityLines(items: seq<Item>, pid: Id, q: int)
    ensures var r := WithQuantity(items, pid, q);
      && |r| == |items|
      && (Find(items, pid).None? ==> r == items)
      && (Find(items, pid).Some? ==>
            var i := Find(items, pid).value;
            && r[i] == items[i].(quantity := q)
            && (forall j :: 0 <= j < |items| && j != i ==> r[j] == items[j])
            && Sum(r) == Sum(items) + items[i].price * (q - items[i].quantity)
            && (UniqueIds(items) ==> QuantityOf(r, pid) == q))
      && (forall k :: k != pid ==> QuantityOf(r, k) == QuantityOf(items, k))
      && (UniqueIds(items) ==> UniqueIds(r))
      && (PositiveQuantities(items) && q > 0 ==> PositiveQuantities(r))
  {
    var r := WithQuantity(items, pid, q);
    match Find(items, pid)
    case Some(i) =>
      var x := items[i].(quantity := q);
      SumUpdate(items, i, x);
      assert LineTotal(x) - LineTotal(items[i]) == items[i].price * (q - items[i].quantity);
      forall k ensures QuantityOf(r, k) == QuantityOf(items, k) + (if k == pid then q - items[i].quantity else 0) {
        QuantityUpdate(items, i, x, k);
      }
      if UniqueIds(items) {
        SingleLine(items, i, pid);
      }
    case None =>
  }

  /** Removing a product: its quantity becomes 0, no other product's changes, and the
      total drops by the product's subtotal. */
  lemma {:induction false} WithoutTotals(items: seq<Item>, pid: Id)
    ensures QuantityOf(Without(items, pid), pid) == 0
    ensures forall k :: k != pid ==> QuantityOf(Without(items, pid), k) == QuantityOf(items, k)
    ensures Sum(Without(items, pid)) == Sum(items) - SubtotalOf(items, pid)
  {
    if items != [] {
      var n := |items| - 1;
      WithoutTotals(items[..n], pid);
      var r0 := Without(items[..n], pid);
      if items[n].productId != pid {
        var r := r0 + [items[n]];
        assert Without(items, pid) == r;
        assert r[..|r| - 1] == r0;
      } else {
        assert Without(items, pid) == r0;
      }
    }
  }

  /** Removing a product keeps exactly the other lines, in order: every remaining line is
      a line of the draft for another product, and removing an absent product is the
      identity. */
  lemma {:induction false} WithoutMembers(items: seq<Item>, pid: Id)
    ensures forall j :: 0 <= j < |Without(items, pid)| ==>
              Without(items, pid)[j].productId != pid && Without(items, pid)[j] in items
    ensures forall j :: 0 <= j < |items| && items[j].productId != pid ==> items[j] in Without(items, pid)
    ensures Find(items, pid).None? ==> Without(items, pid) == items
  {
    if items != [] {
      var n := |items| - 1;
      WithoutMembers(items[..n], pid);
      assert items[..n] + [items[n]] == items;
      forall j | 0 <= j < |items| && items[j].productId != pid
        ensures items[j] in Without(items, pid)
      {
        if j < n {
          assert items[..n][j] == items[j];
        }
      }
    }
  }

  /** Removing a product keeps product ids unique. */
  lemma {:induction false} WithoutKeepsUnique(items: seq<Item>, pid: Id)
    requires UniqueIds(items)
    ensures UniqueIds(Without(items, pid))
  {
    if items != [] {
      var n := |items| - 1;
      var prefix := items[..n];
      assert UniqueIds(prefix);
      WithoutKeepsUnique(prefix, pid);
      WithoutMembers(prefix, pid);
      var r0 := Without(prefix, pid);
      if items[n].productId != pid {
        var r := r0 + [items[n]];
        assert Without(items, pid) == r;
        forall i, j | 0 <= i < j < |r| ensures r[i].productId != r[j].productId {
          if j == |r| - 1 {
            assert r0[i] in prefix;
            var k :| 0 <= k < n && prefix[k] == r0[i];
            assert items[k] == r0[i];
          } else {
            assert r[i] == r0[i] && r[j] == r0[j];
          }
        }
      } else {
        assert Without(items, pid) == r0;
      }
    }
  }

  /** Removing a product keeps quantities positive. */
  lemma WithoutKeepsPositive(items: seq<Item>, pid: Id)
    requires PositiveQuantities(items)
    ensures PositiveQuantities(Without(items, pid))
  {
    WithoutMembers(items, pid);
  }
}
