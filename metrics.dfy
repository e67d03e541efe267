/** The three headline figures of the overview page (app.py:85-87). */
module Metrics {
  import opened Table

  function Price(x: Record): int {
    x.totalpriceRupiah
  }

  function Quantity(x: Record): int {
    x.quantity
  }

  /** `filtered_df['totalprice_rupiah'].sum()`: zero for an empty table, and
      never negative when no row has a negative price. */
  function TotalSales(t: seq<Record>): (r: int)
    ensures t == [] ==> r == 0
    ensures (forall x :: x in t ==> x.totalpriceRupiah >= 0) ==> r >= 0
  {
    SumByNonNegative(t, Price);
    SumBy(t, Price)
  }

  /** `filtered_df['quantity'].sum()`: zero for an empty table, and never
      negative when no row has a negative quantity. */
  function TotalUnits(t: seq<Record>): (r: int)
    ensures t == [] ==> r == 0
    ensures (forall x :: x in t ==> x.quantity >= 0) ==> r >= 0
  {
    SumByNonNegative(t, Quantity);
    SumBy(t, Quantity)
  }

  /** A column with no negative entry sums to a non-negative total. */
  lemma {:induction false} SumByNonNegative(t: seq<Record>, f: Record -> int)
    ensures (forall x :: x in t ==> f(x) >= 0) ==> SumBy(t, f) >= 0
  {
    if |t| > 0 && forall x :: x in t ==> f(x) >= 0 {
      assert t[0] in t;
      assert forall x :: x in t[1..] ==> x in t;
      SumByNonNegative(t[1..], f);
    }
  }

  /** The distinct order-line identifiers occurring in the table: each row's
      identifier is in it, and nothing else is. */
  function OrderIds(t: seq<Record>): (ids: set<int>)
    ensures forall x :: x in t ==> x.orderDetailId in ids
    ensures forall id :: id in ids ==> exists i :: 0 <= i < |t| && t[i].orderDetailId == id
    ensures |ids| <= |t|
  {
    if |t| == 0 then {}
    else
      assert t == [t[0]] + t[1..];
      var rest := OrderIds(t[1..]);
      assert forall id :: id in rest ==> exists i :: 0 <= i < |t| && t[i].orderDetailId == id by {
        forall id | id in rest
          ensures exists i :: 0 <= i < |t| && t[i].orderDetailId == id
        {
          var i :| 0 <= i < |t[1..]| && t[1..][i].orderDetailId == id;
          assert t[i + 1].orderDetailId == id;
        }
      }
      {t[0].orderDetailId} + rest
  }

  /** `filtered_df['order_detail_id'].nunique()`: the number of distinct
      identifiers; never more than the number of rows, and zero exactly for
      an empty table. */
  function TotalOrders(t: seq<Record>): (n: nat)
    ensures n <= |t|
    ensures n == 0 <==> t == []
  {
    assert t != [] ==> t[0].orderDetailId in OrderIds(t);
    |OrderIds(t)|
  }

  /** Every row being a different order line, the count of orders is the
      count of rows. */
  lemma {:induction false} DistinctIdsCountRows(t: seq<Record>)
    requires forall i, j :: 0 <= i < j < |t| ==> t[i].orderDetailId != t[j].orderDetailId
    ensures TotalOrders(t) == |t|
  {
    if |t| > 0 {
      var rest := t[1..];
      assert forall i, j :: 0 <= i < j < |rest| ==> rest[i].orderDetailId != rest[j].orderDetailId by {
        forall i, j | 0 <= i < j < |rest|
          ensures rest[i].orderDetailId != rest[j].orderDetailId
        {
          assert rest[i] == t[i + 1] && rest[j] == t[j + 1];
        }
      }
      DistinctIdsCountRows(rest);
      assert t[0].orderDetailId !in OrderIds(rest);
    }
  }

  /** Removing rows never adds an order, and with non-negative columns never
      raises the sales or the units sold. */
  lemma {:induction false} MetricsOfSubsequence(a: seq<Record>, b: seq<Record>)
    requires IsSubsequence(a, b)
    ensures TotalOrders(a) <= TotalOrders(b)
    ensures (forall x :: x in b ==> x.totalpriceRupiah >= 0) ==> TotalSales(a) <= TotalSales(b)
    ensures (forall x :: x in b ==> x.quantity >= 0) ==> TotalUnits(a) <= TotalUnits(b)
    decreases |b|
  {
    SubsequenceMembers(a, b);
    var ia, ib := OrderIds(a), OrderIds(b);
    assert ia <= ib by {
      forall id | id in ia
        ensures id in ib
      {
        var i :| 0 <= i < |a| && a[i].orderDetailId == id;
        assert a[i] in a;
      }
    }
    SubsetCardinality(ia, ib);
    if (forall x :: x in b ==> x.totalpriceRupiah >= 0) {
      SubsequenceSum(a, b, Price);
    }
    if (forall x :: x in b ==> x.quantity >= 0) {
      SubsequenceSum(a, b, Quantity);
    }
  }

  lemma SubsetCardinality(a: set<int>, b: set<int>)
    requires a <= b
    ensures |a| <= |b|
  {
    assert b == a + (b - a);
  }

  lemma {:induction false} SubsequenceMembers(a: seq<Record>, b: seq<Record>)
    requires IsSubsequence(a, b)
    ensures forall x :: x in a ==> x in b
    decreases |b|
  {
    if |a| > 0 {
      if a[0] == b[0] && IsSubsequence(a[1..], b[1..]) {
        SubsequenceMembers(a[1..], b[1..]);
        assert a == [a[0]] + a[1..];
      } else {
        SubsequenceMembers(a, b[1..]);
      }
      assert b == [b[0]] + b[1..];
    }
  }

  lemma {:induction false} SubsequenceSum(a: seq<Record>, b: seq<Record>, f: Record -> int)
    requires IsSubsequence(a, b)
    requires forall x :: x in b ==> f(x) >= 0
    ensures SumBy(a, f) <= SumBy(b, f)
    decreases |b|
  {
    if |a| == 0 {
      SumByNonNegative(b, f);
    } else {
      assert b[0] in b;
      assert forall x :: x in b[1..] ==> x in b;
      if a[0] == b[0] && IsSubsequence(a[1..], b[1..]) {
        SubsequenceSum(a[1..], b[1..], f);
      } else {
        SubsequenceSum(a, b[1..], f);
      }
    }
  }
}
