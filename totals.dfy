/** The `reduce` folds over line items: the draft's and an order's total, and the
    quantity of one product across the lines. */
module Totals {
  import opened Records

  function LineTotal(it: Item): int
  {
    it.price * it.quantity
  }

  /** `items.reduce((sum, item) => sum + item.price * item.quantity, 0)`, a left fold. */
  function Sum(items: seq<Item>): int
  {
    if items == [] then 0 else Sum(items[..|items| - 1]) + LineTotal(items[|items| - 1])
  }

  /** Total quantity of the lines that carry product `pid`. */
  function QuantityOf(items: seq<Item>, pid: Id): int
  {
    if items == [] then 0
    else QuantityOf(items[..|items| - 1], pid)
         + (if items[|items| - 1].productId == pid then items[|items| - 1].quantity else 0)
  }

  /** Sum of the line totals of the lines that carry product `pid`. */
  function SubtotalOf(items: seq<Item>, pid: Id): int
  {
    if items == [] then 0
    else SubtotalOf(items[..|items| - 1], pid)
         + (if items[|items| - 1].productId == pid then LineTotal(items[|items| - 1]) else 0)
  }

  /** Replacing one line changes the total by the difference of the two line totals. */
  lemma {:induction false} SumUpdate(items: seq<Item>, i: nat, x: Item)
    requires i < |items|
    ensures Sum(items[i := x]) == Sum(items) - LineTotal(items[i]) + LineTotal(x)
  {
    var n := |items| - 1;
    if i < n {
      assert items[i := x][..n] == items[..n][i := x];
      SumUpdate(items[..n], i, x);
    } else {
      assert items[i := x][..n] == items[..n];
    }
  }

  /** Replacing one line by a line of the same product changes that product's quantity by
      the difference of the two quantities, and no other product's. */
  lemma {:induction false} QuantityUpdate(items: seq<Item>, i: nat, x: Item, pid: Id)
    requires i < |items| && x.productId == items[i].productId
    ensures QuantityOf(items[i := x], pid)
            == QuantityOf(items, pid)
               + (if pid == x.productId then x.quantity - items[i].quantity else 0)
  {
    var n := |items| - 1;
    if i < n {
      assert items[i := x][..n] == items[..n][i := x];
      QuantityUpdate(items[..n], i, x, pid);
    } else {
      assert items[i := x][..n] == items[..n];
    }
  }

  /** A product none of whose lines is present has quantity and subtotal 0. */
  lemma {:induction false} AbsentProduct(items: seq<Item>, pid: Id)
    requires forall j :: 0 <= j < |items| ==> items[j].productId != pid
    ensures QuantityOf(items, pid) == 0 && SubtotalOf(items, pid) == 0
  {
    if items != [] {
      AbsentProduct(items[..|items| - 1], pid);
    }
  }

  /** When `pid` has exactly one line, at index `i`, its quantity and subtotal are that line's. */
  lemma {:induction false} SingleLine(items: seq<Item>, i: nat, pid: Id)
    requires i < |items| && items[i].productId == pid
    requires forall j :: 0 <= j < |items| && j != i ==> items[j].productId != pid
    ensures QuantityOf(items, pid) == items[i].quantity
    ensures SubtotalOf(items, pid) == LineTotal(items[i])
  {
    var n := |items| - 1;
    if i < n {
      SingleLine(items[..n], i, pid);
    } else {
      AbsentProduct(items[..n], pid);
    }
  }
}
