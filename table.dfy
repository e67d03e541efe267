/** The in-memory sales table after loading (app.py:25-29): a sequence of rows
    in file order, and the two primitives every later stage is built from —
    selecting rows with a boolean mask, and summing a numeric column. */
module Table {
  import opened Dates

  /** One row of the sales table, with the columns the dashboard reads.
      Monetary amounts are whole Rupiah. */
  datatype Record = Record(
    orderDetailId: int,
    orderDate: Date,
    territoryGroups: string,
    category: string,
    quantity: int,
    totalpriceRupiah: int)

  /** `a` is `b` with some rows dropped and the rest kept in order. */
  predicate IsSubsequence<T(==)>(a: seq<T>, b: seq<T>)
    decreases |b|
  {
    if |a| == 0 then true
    else if |b| == 0 then false
    else (a[0] == b[0] && IsSubsequence(a[1..], b[1..])) || IsSubsequence(a, b[1..])
  }

  lemma {:induction false} SubsequenceReflexive<T>(t: seq<T>)
    ensures IsSubsequence(t, t)
  {
    if |t| > 0 {
      SubsequenceReflexive(t[1..]);
    }
  }

  /** `df[mask]`: the rows for which `keep` holds, in their original order.
      Every kept row appears exactly as often as in the input, every other row
      not at all. */
  function Where(t: seq<Record>, keep: Record -> bool): (r: seq<Record>)
    ensures IsSubsequence(r, t)
    ensures forall x :: multiset(r)[x] == if keep(x) then multiset(t)[x] else 0
    ensures forall x :: x in r <==> x in t && keep(x)
  {
    if |t| == 0 then []
    else
      var rest := Where(t[1..], keep);
      assert t == [t[0]] + t[1..];
      if keep(t[0]) then [t[0]] + rest else rest
  }

  /** `df[col].sum()` for a column read by `f`; 0 on an empty table. */
  function SumBy(t: seq<Record>, f: Record -> int): int {
    if |t| == 0 then 0 else f(t[0]) + SumBy(t[1..], f)
  }

  /** The conjunction of two masks, `m1 & m2`. */
  function Both(p: Record -> bool, q: Record -> bool): Record -> bool {
    x => p(x) && q(x)
  }

  /** The complement of a mask, `~m`. */
  function Not(p: Record -> bool): Record -> bool {
    x => !p(x)
  }

  /** Selecting with the same mask a second time changes nothing. */
  lemma {:induction false} WhereIdempotent(t: seq<Record>, keep: Record -> bool)
    ensures Where(Where(t, keep), keep) == Where(t, keep)
  {
    if |t| > 0 {
      WhereIdempotent(t[1..], keep);
    }
  }

  /** Selecting with one mask and then another is selecting with both. */
  lemma {:induction false} WhereWhere(t: seq<Record>, p: Record -> bool, q: Record -> bool)
    ensures Where(Where(t, p), q) == Where(t, Both(p, q))
  {
    if |t| > 0 {
      WhereWhere(t[1..], p, q);
    }
  }

  /** Two selections may be applied in either order. */
  lemma {:induction false} WhereCommutes(t: seq<Record>, p: Record -> bool, q: Record -> bool)
    ensures Where(Where(t, p), q) == Where(Where(t, q), p)
  {
    if |t| > 0 {
      WhereCommutes(t[1..], p, q);
    }
  }

  /** A mask that holds for every row keeps the table as it is. */
  lemma {:induction false} WhereAll(t: seq<Record>, keep: Record -> bool)
    requires forall x :: x in t ==> keep(x)
    ensures Where(t, keep) == t
  {
    if |t| > 0 {
      assert t[0] in t;
      assert forall x :: x in t[1..] ==> x in t;
      WhereAll(t[1..], keep);
      assert t == [t[0]] + t[1..];
    }
  }

  /** A mask and its complement split the table: their column sums add up to
      the column sum of the whole table. */
  lemma {:induction false} SumByPartition(t: seq<Record>, keep: Record -> bool, f: Record -> int)
    ensures SumBy(Where(t, keep), f) + SumBy(Where(t, Not(keep)), f) == SumBy(t, f)
  {
    if |t| > 0 {
      SumByPartition(t[1..], keep, f);
    }
  }

  /** With a non-negative column, a selection never sums to more than the
      whole table, and never to less than zero. */
  lemma {:induction false} SumByWhereBounded(t: seq<Record>, keep: Record -> bool, f: Record -> int)
    requires forall x :: x in t ==> f(x) >= 0
    ensures 0 <= SumBy(Where(t, keep), f) <= SumBy(t, f)
  {
    if |t| > 0 {
      assert forall x :: x in t[1..] ==> x in t;
      SumByWhereBounded(t[1..], keep, f);
    }
  }
}
