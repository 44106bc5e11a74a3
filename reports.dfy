/** The summary page's arithmetic over the paid orders of a period: total, count,
    average and per-cashier sums (`loadPeriodSummary`), the five best-selling products
    (`loadTopProducts`), and the chart buckets (`loadSalesChart`). The orders are the
    query's result list; the period's start date is an input. */
module Reports {
  import opened Records
  import opened Tally

  /** Sum of the totals of the orders that satisfy `p`. */
  function TotalWhere(os: seq<Order>, p: Order -> bool): int
  {
    if os == [] then 0
    else TotalWhere(os[..|os| - 1], p) + (if p(os[|os| - 1]) then os[|os| - 1].total else 0)
  }

  /** `orders.reduce((sum, order) => sum + order.total, 0)`. */
  function SumTotals(os: seq<Order>): int
  {
    if os == [] then 0 else SumTotals(os[..|os| - 1]) + os[|os| - 1].total
  }

  /** The query `{ createdAt: { $gte: start }, status: 'paid' }` over a list of orders. */
  function Matching(os: seq<Order>, start: int): (r: seq<Order>)
    ensures |r| <= |os|
    ensures forall o :: o in r ==> o in os && o.status == Paid && o.createdAt >= start
    ensures forall o :: o in os && o.status == Paid && o.createdAt >= start ==> o in r
  {
    if os == [] then []
    else
      var o := os[|os| - 1];
      assert os == os[..|os| - 1] + [o];
      Matching(os[..|os| - 1], start) + (if o.status == Paid && o.createdAt >= start then [o] else [])
  }

  // ---------------------------------------------------------------- period summary

  /** The `forEach` that fills `cashierSales`: orders with a (truthy) cashier add their
      total under the cashier's name. */
  function CashierSales(os: seq<Order>): Entries<string>
  {
    if os == [] then []
    else
      var t := CashierSales(os[..|os| - 1]);
      var o := os[|os| - 1];
      if Truthy(o.cashier) then Add(t, o.cashier.value, o.total) else t
  }

  /** True for an order whose cashier field is the non-empty name `c`. */
  predicate PaidBy(o: Order, c: string)
  {
    o.cashier == Some(c) && c != ""
  }

  /** Each cashier is listed once, and exactly when some order carries that name. */
  lemma {:induction false} CashierSalesKeys(os: seq<Order>)
    ensures UniqueKeys(CashierSales(os))
    ensures forall c :: Has(CashierSales(os), c) <==> exists i :: 0 <= i < |os| && PaidBy(os[i], c)
  {
    if os != [] {
      var n := |os| - 1;
      var o := os[n];
      var pre := os[..n];
      CashierSalesKeys(pre);
      var t := CashierSales(pre);
      if Truthy(o.cashier) {
        AddKeys(t, o.cashier.value, o.total);
        AddGet(t, o.cashier.value, o.total);
      }
      forall c ensures Has(CashierSales(os), c) <==> exists i :: 0 <= i < |os| && PaidBy(os[i], c) {
        if exists i :: 0 <= i < n && PaidBy(pre[i], c) {
          var i :| 0 <= i < n && PaidBy(pre[i], c);
          assert PaidBy(os[i], c);
        }
        if exists i :: 0 <= i < |os| && PaidBy(os[i], c) {
          var i :| 0 <= i < |os| && PaidBy(os[i], c);
          if i < n {
            assert PaidBy(pre[i], c);
          }
        }
      }
    }
  }

  /** A cashier's sum is the total of exactly the orders that carry the cashier's name. */
  lemma {:induction false} CashierSalesGet(os: seq<Order>)
    ensures forall c :: Get(CashierSales(os), c) == TotalWhere(os, (o: Order) => PaidBy(o, c))
  {
    if os != [] {
      var n := |os| - 1;
      var o := os[n];
      var pre := os[..n];
      CashierSalesGet(pre);
      CashierSalesKeys(pre);
      if Truthy(o.cashier) {
        AddGet(CashierSales(pre), o.cashier.value, o.total);
      }
    }
  }

  /** The listed sums plus the totals of the orders with no cashier make up the whole
      total. */
  lemma {:induction false} CashierSalesSum(os: seq<Order>)
    ensures SumValues(CashierSales(os)) + TotalWhere(os, (o: Order) => !Truthy(o.cashier)) == SumTotals(os)
  {
    if os != [] {
      var n := |os| - 1;
      var o := os[n];
      CashierSalesSum(os[..n]);
      if Truthy(o.cashier) {
        AddSum(CashierSales(os[..n]), o.cashier.value, o.total);
      }
    }
  }

  /** The per-cashier sums are exactly the sum of each cashier's orders; a name is listed
      exactly when some order carries it; names are listed once; and the listed sums plus
      the totals of orders with no cashier make up the whole total. */
  lemma CashierSalesSpec(os: seq<Order>)
    ensures UniqueKeys(CashierSales(os))
    ensures forall c :: Has(CashierSales(os), c) <==> exists i :: 0 <= i < |os| && PaidBy(os[i], c)
    ensures forall c :: Get(CashierSales(os), c) == TotalWhere(os, (o: Order) => PaidBy(o, c))
    ensures SumValues(CashierSales(os)) + TotalWhere(os, (o: Order) => !Truthy(o.cashier)) == SumTotals(os)
  {
    CashierSalesKeys(os);
    CashierSalesGet(os);
    CashierSalesSum(os);
  }

  /** With no negative totals the per-cashier sums add up to at most the total sales. */
  lemma CashierSalesBounded(os: seq<Order>)
    requires forall i :: 0 <= i < |os| ==> os[i].total >= 0
    ensures SumValues(CashierSales(os)) <= SumTotals(os)
  {
    CashierSalesSum(os);
    TotalWhereNonNegative(os, (o: Order) => !Truthy(o.cashier));
  }

  lemma {:induction false} TotalWhereNonNegative(os: seq<Order>, p: Order -> bool)
    requires forall i :: 0 <= i < |os| ==> os[i].total >= 0
    ensures TotalWhere(os, p) >= 0
  {
    if os != [] {
      TotalWhereNonNegative(os[..|os| - 1], p);
    }
  }

  /** `orderCount > 0 ? totalSales / orderCount : 0`, as an exact quotient. */
  function Average(totalSales: int, orderCount: nat): (r: real)
    ensures orderCount == 0 ==> r == 0.0
    ensures orderCount > 0 ==> r * orderCount as real == totalSales as real
  {
    if orderCount > 0 then totalSales as real / orderCount as real else 0.0
  }

  /** `loadPeriodSummary`'s arithmetic: total sales, order count, the average (0 when
      there is no order, never a division by zero) and the per-cashier sums. */
  method PeriodSummary(os: seq<Order>)
    returns (totalSales: int, orderCount: nat, average: real, cashierSales: Entries<string>)
    ensures totalSales == SumTotals(os) && orderCount == |os|
    ensures average == Average(totalSales, orderCount)
    ensures cashierSales == CashierSales(os)
    ensures (forall i :: 0 <= i < |os| ==> os[i].total >= 0) ==> SumValues(cashierSales) <= totalSales
  {
    totalSales := SumTotals(os);
    orderCount := |os|;
    average := Average(totalSales, orderCount);
    cashierSales := [];
    var i := 0;
    while i < |os|
      invariant 0 <= i <= |os|
      invariant cashierSales == CashierSales(os[..i])
    {
      assert os[..i + 1][..i] == os[..i];
      var o := os[i];
      if Truthy(o.cashier) {
        cashierSales := Add(cashierSales, o.cashier.value, o.total);
      }
      i := i + 1;
    }
    assert os[..i] == os;
    if forall i :: 0 <= i < |os| ==> os[i].total >= 0 {
      CashierSalesBounded(os);
    }
  }

  // ---------------------------------------------------------------- top products

  /** The inner `forEach` of `loadTopProducts`: each line adds its quantity under its
      product name. */
  function ItemSales(t: Entries<string>, items: seq<Item>): Entries<string>
  {
    if items == [] then t
    else
      var it := items[|items| - 1];
      Add(ItemSales(t, items[..|items| - 1]), it.name, it.quantity)
  }

  /** The outer `forEach`: `productSales` after all orders. */
  function ProductSales(os: seq<Order>): Entries<string>
  {
    if os == [] then [] else ItemSales(ProductSales(os[..|os| - 1]), os[|os| - 1].items)
  }

  /** Quantity on the lines named `name`. */
  function QuantityNamed(items: seq<Item>, name: string): int
  {
    if items == [] then 0
    else
      var it := items[|items| - 1];
      QuantityNamed(items[..|items| - 1], name) + (if it.name == name then it.quantity else 0)
  }

  /** Quantity sold under `name` over all orders. */
  function SoldQuantity(os: seq<Order>, name: string): int
  {
    if os == [] then 0 else SoldQuantity(os[..|os| - 1], name) + QuantityNamed(os[|os| - 1].items, name)
  }

  /** Some line of `items` is named `name`. */
  predicate Names(items: seq<Item>, name: string)
  {
    exists j :: 0 <= j < |items| && items[j].name == name
  }

  lemma NamesSnoc(items: seq<Item>, k: string)
    requires items != []
    ensures Names(items, k) <==> Names(items[..|items| - 1], k) || items[|items| - 1].name == k
  {
    var pre := items[..|items| - 1];
    if Names(pre, k) {
      var j :| 0 <= j < |pre| && pre[j].name == k;
      assert items[j].name == k;
    }
  }

  /** Tallying one order's lines: names stay unique, the listed names gain exactly the
      order's line names, and each name's sum rises by the quantity on its lines. */
  lemma {:induction false} ItemSalesSpec(t: Entries<string>, items: seq<Item>)
    requires UniqueKeys(t)
    ensures UniqueKeys(ItemSales(t, items))
    ensures forall k :: Has(ItemSales(t, items), k) <==> Has(t, k) || Names(items, k)
    ensures forall k :: Get(ItemSales(t, items), k) == Get(t, k) + QuantityNamed(items, k)
  {
    if items != [] {
      var n := |items| - 1;
      var pre := items[..n];
      ItemSalesSpec(t, pre);
      var t0 := ItemSales(t, pre);
      AddKeys(t0, items[n].name, items[n].quantity);
      AddGet(t0, items[n].name, items[n].quantity);
      forall k ensures Has(ItemSales(t, items), k) <==> Has(t, k) || Names(items, k) {
        NamesSnoc(items, k);
      }
    }
  }

  /** Some order of `os` has a line named `name`. */
  predicate Sold(os: seq<Order>, name: string)
  {
    exists i :: 0 <= i < |os| && Names(os[i].items, name)
  }

  /** The product tally lists each name once, lists exactly the names that appear on some
      line, and holds for each name the total quantity sold under it. */
  lemma {:induction false} ProductSalesSpec(os: seq<Order>)
    ensures UniqueKeys(ProductSales(os))
    ensures forall k :: Has(ProductSales(os), k) <==> Sold(os, k)
    ensures forall k :: Get(ProductSales(os), k) == SoldQuantity(os, k)
  {
    if os != [] {
      var n := |os| - 1;
      var pre := os[..n];
      ProductSalesSpec(pre);
      ItemSalesSpec(ProductSales(pre), os[n].items);
      forall k ensures Sold(os, k) <==> Sold(pre, k) || Names(os[n].items, k) {
        if Sold(pre, k) {
          var i :| 0 <= i < n && Names(pre[i].items, k);
          assert os[i] == pre[i];
        }
        if Sold(os, k) {
          var i :| 0 <= i < |os| && Names(os[i].items, k);
          if i < n {
            assert os[i] == pre[i];
          }
        }
      }
    }
  }

  /** Values in non-increasing order. */
  predicate NonIncreasing<K>(t: Entries<K>)
  {
    forall i, j :: 0 <= i < j < |t| ==> t[i].1 >= t[j].1
  }

  /** Places `e` after every entry whose value is at least `e`'s. */
  function Insert<K>(e: (K, int), t: Entries<K>): Entries<K>
  {
    if t == [] then [e]
    else if t[0].1 >= e.1 then [t[0]] + Insert(e, t[1..])
    else [e] + t
  }

  /** `.sort(([,a], [,b]) => b - a)`: the entries by value, largest first. */
  function SortDesc<K>(t: Entries<K>): Entries<K>
  {
    if t == [] then [] else Insert(t[|t| - 1], SortDesc(t[..|t| - 1]))
  }

  /** Inserting adds exactly the one entry. */
  lemma {:induction false} InsertMultiset<K>(e: (K, int), t: Entries<K>)
    ensures multiset(Insert(e, t)) == multiset(t) + multiset{e}
  {
    if t != [] && t[0].1 >= e.1 {
      InsertMultiset(e, t[1..]);
      assert t == [t[0]] + t[1..];
    }
  }

  /** No value above `b`. */
  predicate AtMost<K>(t: Entries<K>, b: int)
  {
    forall j :: 0 <= j < |t| ==> t[j].1 <= b
  }

  lemma InsertAtMost<K>(e: (K, int), t: Entries<K>, b: int)
    requires AtMost(t, b) && e.1 <= b
    ensures AtMost(Insert(e, t), b)
  {
    InsertMultiset(e, t);
    forall j | 0 <= j < |Insert(e, t)| ensures Insert(e, t)[j].1 <= b {
      var x := Insert(e, t)[j];
      assert x in multiset(Insert(e, t));
      if x != e {
        assert x in multiset(t);
        var m :| 0 <= m < |t| && t[m] == x;
      }
    }
  }

  /** Inserting into a non-increasing list keeps it non-increasing. */
  lemma {:induction false} InsertSorted<K>(e: (K, int), t: Entries<K>)
    requires NonIncreasing(t)
    ensures NonIncreasing(Insert(e, t))
  {
    if t != [] {
      var rest := t[1..];
      if t[0].1 >= e.1 {
        assert NonIncreasing(rest);
        InsertSorted(e, rest);
        assert AtMost(rest, t[0].1);
        InsertAtMost(e, rest, t[0].1);
        var ins := Insert(e, rest);
        var r := [t[0]] + ins;
        assert Insert(e, t) == r;
        forall i, j | 0 <= i < j < |r| ensures r[i].1 >= r[j].1 {
          assert r[j] == ins[j - 1];
          if i > 0 {
            assert r[i] == ins[i - 1];
          }
        }
      } else {
        var r := [e] + t;
        assert Insert(e, t) == r;
        forall i, j | 0 <= i < j < |r| ensures r[i].1 >= r[j].1 {
          assert r[j] == t[j - 1];
          if i > 0 {
            assert r[i] == t[i - 1];
          }
        }
      }
    }
  }

  /** Sorting yields the same entries, as a multiset, in non-increasing order. */
  lemma {:induction false} SortDescSpec<K>(t: Entries<K>)
    ensures multiset(SortDesc(t)) == multiset(t)
    ensures NonIncreasing(SortDesc(t))
    ensures |SortDesc(t)| == |t|
  {
    if t != [] {
      var n := |t| - 1;
      SortDescSpec(t[..n]);
      InsertMultiset(t[n], SortDesc(t[..n]));
      InsertSorted(t[n], SortDesc(t[..n]));
      assert t == t[..n] + [t[n]];
    }
    assert |multiset(SortDesc(t))| == |SortDesc(t)|;
  }

  function Min(a: int, b: int): int
  {
    if a <= b then a else b
  }

  /** `.slice(0, 5)` of the sorted entries. */
  function TopFive<K>(t: Entries<K>): Entries<K>
  {
    var s := SortDesc(t);
    s[..Min(5, |s|)]
  }

  /** The top list holds five entries (fewer only when fewer exist), all taken from the
      tally, largest first, and no entry left out has a larger value than any listed. */
  lemma TopFiveSpec<K>(t: Entries<K>)
    ensures |TopFive(t)| == Min(5, |t|)
    ensures NonIncreasing(TopFive(t))
    ensures multiset(TopFive(t)) <= multiset(t)
    ensures forall e, i :: e in t && e !in TopFive(t) && 0 <= i < |TopFive(t)| ==> e.1 <= TopFive(t)[i].1
  {
    var s := SortDesc(t);
    SortDescSpec(t);
    var r := TopFive(t);
    assert s == r + s[|r|..];
    forall e, i | e in t && e !in r && 0 <= i < |r| ensures e.1 <= r[i].1 {
      assert e in multiset(s);
      var j :| 0 <= j < |s| && s[j] == e;
    }
  }

  /** `loadTopProducts`' tally and ranking. */
  method TopProducts(os: seq<Order>) returns (top: Entries<string>)
    ensures top == TopFive(ProductSales(os))
  {
    var productSales: Entries<string> := [];
    var i := 0;
    while i < |os|
      invariant 0 <= i <= |os|
      invariant productSales == ProductSales(os[..i])
    {
      assert os[..i + 1][..i] == os[..i];
      var items := os[i].items;
      ghost var before := productSales;
      var j := 0;
      while j < |items|
        invariant 0 <= j <= |items|
        invariant productSales == ItemSales(before, items[..j])
      {
        assert items[..j + 1][..j] == items[..j];
        productSales := Add(productSales, items[j].name, items[j].quantity);
        j := j + 1;
      }
      assert items[..j] == items;
      i := i + 1;
    }
    assert os[..i] == os;
    top := TopFive(productSales);
  }

  // ---------------------------------------------------------------- sales chart

  /** `intervals.forEach(interval => { salesData[interval.label] = 0; })`. Every value in
      the tally is 0 at this point, so adding 0 is the same as assigning it. */
  function InitBuckets<L(==)>(labels: seq<L>): Entries<L>
  {
    if labels == [] then [] else Add(InitBuckets(labels[..|labels| - 1]), labels[|labels| - 1], 0)
  }

  /** The `forEach` over the orders: an order adds its total to its label's bucket when
      that label is one of the buckets (`label in salesData`), and is dropped otherwise. */
  function Bucketed<L(==)>(t: Entries<L>, os: seq<Order>, labelOf: Order -> L): Entries<L>
  {
    if os == [] then t
    else
      var t0 := Bucketed(t, os[..|os| - 1], labelOf);
      var l := labelOf(os[|os| - 1]);
      if Has(t0, l) then Add(t0, l, os[|os| - 1].total) else t0
  }

  /** `salesData` after both loops. */
  function SalesData<L(==)>(labels: seq<L>, os: seq<Order>, labelOf: Order -> L): Entries<L>
  {
    Bucketed(InitBuckets(labels), os, labelOf)
  }

  /** No two labels equal. */
  ghost predicate Distinct<L>(labels: seq<L>)
  {
    forall i, j :: 0 <= i < j < |labels| ==> labels[i] != labels[j]
  }

  /** The empty buckets: one per distinct label. */
  lemma {:induction false} InitBucketsKeys<L>(labels: seq<L>)
    ensures UniqueKeys(InitBuckets(labels))
    ensures forall k :: Has(InitBuckets(labels), k) <==> k in labels
  {
    if labels != [] {
      var n := |labels| - 1;
      var pre := labels[..n];
      InitBucketsKeys(pre);
      AddKeys(InitBuckets(pre), labels[n], 0);
      AddGet(InitBuckets(pre), labels[n], 0);
      assert labels == pre + [labels[n]];
    }
  }

  /** Every empty bucket holds 0. */
  lemma {:induction false} InitBucketsZero<L>(labels: seq<L>)
    ensures forall k :: Get(InitBuckets(labels), k) == 0
    ensures SumValues(InitBuckets(labels)) == 0
  {
    if labels != [] {
      var n := |labels| - 1;
      var pre := labels[..n];
      InitBucketsZero(pre);
      InitBucketsKeys(pre);
      AddGet(InitBuckets(pre), labels[n], 0);
      AddSum(InitBuckets(pre), labels[n], 0);
    }
  }

  /** The empty buckets: one per distinct label, each 0. */
  lemma InitBucketsSpec<L>(labels: seq<L>)
    ensures UniqueKeys(InitBuckets(labels))
    ensures forall k :: Has(InitBuckets(labels), k) <==> k in labels
    ensures forall k :: Get(InitBuckets(labels), k) == 0
    ensures SumValues(InitBuckets(labels)) == 0
  {
    InitBucketsKeys(labels);
    InitBucketsZero(labels);
  }

  /** With distinct labels the buckets come in the labels' order. */
  lemma {:induction false} InitBucketsOrder<L>(labels: seq<L>)
    requires Distinct(labels)
    ensures |InitBuckets(labels)| == |labels|
    ensures forall i :: 0 <= i < |labels| ==> InitBuckets(labels)[i].0 == labels[i]
  {
    if labels != [] {
      var n := |labels| - 1;
      var pre := labels[..n];
      assert Distinct(pre);
      InitBucketsOrder(pre);
      InitBucketsKeys(pre);
      assert labels[n] !in pre;
      assert !Has(InitBuckets(pre), labels[n]);
      assert InitBuckets(labels) == InitBuckets(pre) + [(labels[n], 0)];
    }
  }

  lemma {:induction false} BucketedSpec<L>(t: Entries<L>, os: seq<Order>, labelOf: Order -> L)
    requires UniqueKeys(t)
    ensures UniqueKeys(Bucketed(t, os, labelOf))
    ensures forall k :: Has(Bucketed(t, os, labelOf), k) <==> Has(t, k)
    ensures |Bucketed(t, os, labelOf)| == |t|
    ensures forall i :: 0 <= i < |t| ==> Bucketed(t, os, labelOf)[i].0 == t[i].0
    ensures forall k :: Has(t, k) ==>
              Get(Bucketed(t, os, labelOf), k) == Get(t, k) + TotalWhere(os, (o: Order) => labelOf(o) == k)
    ensures SumValues(Bucketed(t, os, labelOf)) == SumValues(t) + TotalWhere(os, (o: Order) => Has(t, labelOf(o)))
  {
    if os != [] {
      var n := |os| - 1;
      BucketedSpec(t, os[..n], labelOf);
      var t0 := Bucketed(t, os[..n], labelOf);
      var l := labelOf(os[n]);
      if Has(t0, l) {
        AddKeys(t0, l, os[n].total);
      AddGet(t0, l, os[n].total);
      AddSum(t0, l, os[n].total);
      }
    }
  }

  /** The chart has one bucket per distinct label, in the labels' order; each bucket holds
      the total of exactly the orders whose own label is that bucket's; and the chart adds up
      to the total of the orders whose label is one of the buckets: the rest are dropped. */
  lemma ChartSpec<L>(labels: seq<L>, os: seq<Order>, labelOf: Order -> L)
    ensures UniqueKeys(SalesData(labels, os, labelOf))
    ensures forall k :: Has(SalesData(labels, os, labelOf), k) <==> k in labels
    ensures forall k :: k in labels ==>
              Get(SalesData(labels, os, labelOf), k) == TotalWhere(os, (o: Order) => labelOf(o) == k)
    ensures SumValues(SalesData(labels, os, labelOf)) == TotalWhere(os, (o: Order) => labelOf(o) in labels)
    ensures Distinct(labels) ==>
              (|SalesData(labels, os, labelOf)| == |labels|
               && forall i :: 0 <= i < |labels| ==> SalesData(labels, os, labelOf)[i].0 == labels[i])
  {
    var t := InitBuckets(labels);
    InitBucketsSpec(labels);
    if Distinct(labels) {
      InitBucketsOrder(labels);
    }
    BucketedSpec(t, os, labelOf);
    var inBuckets := (o: Order) => Has(t, labelOf(o));
    var inLabels := (o: Order) => labelOf(o) in labels;
    forall o ensures inBuckets(o) == inLabels(o) {
      assert Has(t, labelOf(o)) <==> labelOf(o) in labels;
    }
    TotalWhereSame(os, inBuckets, inLabels);
  }

  /** Two filters that agree on every order select the same total. */
  lemma {:induction false} TotalWhereSame(os: seq<Order>, p: Order -> bool, q: Order -> bool)
    requires forall o :: p(o) == q(o)
    ensures TotalWhere(os, p) == TotalWhere(os, q)
  {
    if os != [] {
      TotalWhereSame(os[..|os| - 1], p, q);
    }
  }

  /** A bucket's value is the total of the orders that `p` selects, for any `p` that
      selects exactly the orders labelled with the bucket's label. */
  lemma ChartBucket<L>(labels: seq<L>, os: seq<Order>, labelOf: Order -> L, k: L, p: Order -> bool)
    requires k in labels
    requires forall o :: p(o) <==> labelOf(o) == k
    ensures Get(SalesData(labels, os, labelOf), k) == TotalWhere(os, p)
  {
    ChartSpec(labels, os, labelOf);
    TotalWhereSame(os, (o: Order) => labelOf(o) == k, p);
  }

  /** The chart's sum is the total of the orders that `p` selects, for any `p` that
      selects exactly the orders whose label is a bucket. */
  lemma ChartSum<L>(labels: seq<L>, os: seq<Order>, labelOf: Order -> L, p: Order -> bool)
    requires forall o :: p(o) <==> labelOf(o) in labels
    ensures SumValues(SalesData(labels, os, labelOf)) == TotalWhere(os, p)
  {
    ChartSpec(labels, os, labelOf);
    TotalWhereSame(os, (o: Order) => labelOf(o) in labels, p);
  }

  /** `loadSalesChart`'s grouping and the `Object.keys` / `Object.values` it draws. */
  method SalesChart<L(==)>(labels: seq<L>, os: seq<Order>, labelOf: Order -> L)
    returns (chartLabels: seq<L>, data: seq<int>)
    ensures |chartLabels| == |data| == |SalesData(labels, os, labelOf)|
    ensures forall i :: 0 <= i < |data| ==>
              (chartLabels[i], data[i]) == SalesData(labels, os, labelOf)[i]
  {
    var salesData: Entries<L> := [];
    var i := 0;
    while i < |labels|
      invariant 0 <= i <= |labels|
      invariant salesData == InitBuckets(labels[..i])
    {
      assert labels[..i + 1][..i] == labels[..i];
      salesData := Add(salesData, labels[i], 0);
      i := i + 1;
    }
    assert labels[..i] == labels;
    ghost var init := salesData;
    i := 0;
    while i < |os|
      invariant 0 <= i <= |os|
      invariant salesData == Bucketed(init, os[..i], labelOf)
    {
      assert os[..i + 1][..i] == os[..i];
      var lbl := labelOf(os[i]);
      if Has(salesData, lbl) {
        salesData := Add(salesData, lbl, os[i].total);
      }
      i := i + 1;
    }
    assert os[..i] == os;
    chartLabels := seq(|salesData|, k requires 0 <= k < |salesData| => salesData[k].0);
    data := seq(|salesData|, k requires 0 <= k < |salesData| => salesData[k].1);
  }
}
