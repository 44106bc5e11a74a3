/** A JavaScript object used as a dictionary of running sums (`cashierSales`,
    `productSales`, `salesData`), as the list of its entries in key-insertion order, which
    is the order `Object.entries` and `Object.keys` list them in. */
module Tally {
  import opened Records

  type Entries<K> = seq<(K, int)>

  /** Position of key `k`, if present. */
  function IndexOf<K(==)>(t: Entries<K>, k: K): (r: Option<nat>)
    ensures r.Some? ==> r.value < |t| && t[r.value].0 == k
    ensures r.None? ==> forall i :: 0 <= i < |t| ==> t[i].0 != k
  {
    if t == [] then None
    else
      match IndexOf(t[..|t| - 1], k)
      case Some(i) => Some(i)
      case None => if t[|t| - 1].0 == k then Some(|t| - 1) else None
  }

  /** `k in t` */
  predicate Has<K(==)>(t: Entries<K>, k: K)
  {
    IndexOf(t, k).Some?
  }

  /** `t[k] || 0` */
  function Get<K(==)>(t: Entries<K>, k: K): int
  {
    match IndexOf(t, k)
    case Some(i) => t[i].1
    case None => 0
  }

  /** `t[k] = (t[k] || 0) + v`: an existing key keeps its place, a new key goes last. */
  function Add<K(==)>(t: Entries<K>, k: K, v: int): Entries<K>
  {
    match IndexOf(t, k)
    case Some(i) => t[i := (k, t[i].1 + v)]
    case None => t + [(k, v)]
  }

  function SumValues<K>(t: Entries<K>): int
  {
    if t == [] then 0 else SumValues(t[..|t| - 1]) + t[|t| - 1].1
  }

  ghost predicate UniqueKeys<K>(t: Entries<K>)
  {
    forall i, j :: 0 <= i < j < |t| ==> t[i].0 != t[j].0
  }

  lemma {:induction false} SumValuesUpdate<K>(t: Entries<K>, i: nat, e: (K, int))
    requires i < |t|
    ensures SumValues(t[i := e]) == SumValues(t) - t[i].1 + e.1
  {
    var n := |t| - 1;
    if i < n {
      assert t[i := e][..n] == t[..n][i := e];
      SumValuesUpdate(t[..n], i, e);
    } else {
      assert t[i := e][..n] == t[..n];
    }
  }

  /** Adding `v` under `k`: the keys are the old keys plus `k`, in the same order; a new
      key goes last. */
  lemma AddKeys<K>(t: Entries<K>, k: K, v: int)
    ensures forall k' :: Has(Add(t, k, v), k') <==> Has(t, k') || k' == k
    ensures Has(t, k) ==> |Add(t, k, v)| == |t| && forall i :: 0 <= i < |t| ==> Add(t, k, v)[i].0 == t[i].0
    ensures !Has(t, k) ==> Add(t, k, v) == t + [(k, v)]
  {
    var r := Add(t, k, v);
    match IndexOf(t, k)
    case Some(i) =>
      forall k' ensures Has(r, k') <==> Has(t, k') {
        if Has(t, k') {
          var j := IndexOf(t, k').value;
          assert r[j].0 == k';
        }
        if Has(r, k') {
          var j := IndexOf(r, k').value;
          assert t[j].0 == k';
        }
      }
    case None =>
      forall k' ensures Has(r, k') <==> Has(t, k') || k' == k {
        if Has(r, k') && k' != k {
          var j := IndexOf(r, k').value;
          assert t[j].0 == k';
        }
        if Has(t, k') {
          var j := IndexOf(t, k').value;
          assert r[j].0 == k';
        }
      }
  }

  /** Adding `v` under `k` raises the sum of the values by `v`. */
  lemma AddSum<K>(t: Entries<K>, k: K, v: int)
    ensures SumValues(Add(t, k, v)) == SumValues(t) + v
  {
    match IndexOf(t, k)
    case Some(i) =>
      SumValuesUpdate(t, i, (k, t[i].1 + v));
    case None =>
      var r := Add(t, k, v);
      assert r[..|r| - 1] == t;
  }

  /** Adding keeps keys unique, raises `k`'s value by `v` and no other key's. */
  lemma AddGet<K>(t: Entries<K>, k: K, v: int)
    requires UniqueKeys(t)
    ensures UniqueKeys(Add(t, k, v))
    ensures forall k' :: Get(Add(t, k, v), k') == Get(t, k') + (if k' == k then v else 0)
  {
    var r := Add(t, k, v);
    AddKeys(t, k, v);
    match IndexOf(t, k)
    case Some(i) =>
      forall k' ensures Get(r, k') == Get(t, k') + (if k' == k then v else 0) {
        if Has(t, k') {
          var j := IndexOf(t, k').value;
          assert IndexOf(r, k') == Some(j);
        }
      }
    case None =>
      assert r[..|r| - 1] == t;
      forall k' ensures Get(r, k') == Get(t, k') + (if k' == k then v else 0) {
        if Has(t, k') {
          var j := IndexOf(t, k').value;
          assert IndexOf(r, k') == Some(j);
        } else if k' == k {
          assert IndexOf(r, k') == Some(|t|);
        }
      }
  }

  /** `t[k] = (t[k] || 0) + v`, all of the above together. */
  lemma AddSpec<K>(t: Entries<K>, k: K, v: int)
    ensures var r := Add(t, k, v);
      && (forall k' :: Has(r, k') <==> Has(t, k') || k' == k)
      && (Has(t, k) ==> |r| == |t| && forall i :: 0 <= i < |t| ==> r[i].0 == t[i].0)
      && (!Has(t, k) ==> r == t + [(k, v)])
      && SumValues(r) == SumValues(t) + v
      && (UniqueKeys(t) ==> UniqueKeys(r))
      && (UniqueKeys(t) ==> forall k' :: Get(r, k') == Get(t, k') + (if k' == k then v else 0))
  {
    AddKeys(t, k, v);
    AddSum(t, k, v);
    if UniqueKeys(t) {
      AddGet(t, k, v);
    }
  }

  /** In a dictionary with unique keys, every listed entry is what a lookup returns. */
  lemma EntryIsGet<K>(t: Entries<K>, e: (K, int))
    requires UniqueKeys(t) && e in t
    ensures Has(t, e.0) && Get(t, e.0) == e.1
  {
    var i :| 0 <= i < |t| && t[i] == e;
    assert IndexOf(t, e.0) == Some(i);
  }
}
