/** The data behind the three charts of the overview page: the sales trend
    (app.py:98-104), sales per product category (app.py:123-125) and sales per
    region (app.py:140-142). */
module Aggregates {
  import opened Orderings
  import opened Dates
  import opened Table
  import opened Metrics
  import opened GroupBy
  import opened Filters

  function CategoryOf(x: Record): string {
    x.category
  }

  function RegionOf(x: Record): string {
    x.territoryGroups
  }

  function OrderDate(x: Record): Date {
    x.orderDate
  }

  /** Sales per product category (app.py:123-125): one row per category
      present, categories in ascending text order, each row the total price of
      that category's rows; the rows add up to the total sales. */
  function CategorySales(t: seq<Record>): (g: seq<Group<string>>)
    ensures StrictlySorted(g, StringLess)
    ensures KeysOf(g) == set x | x in t :: x.category
    ensures |g| == |KeysOf(g)|
    ensures forall i :: 0 <= i < |g| ==>
      g[i].total == TotalSales(Where(t, HasKey(CategoryOf, g[i].key)))
    ensures TotalOf(g) == TotalSales(t)
  {
    StringLessIsStrictTotalOrder();
    GroupSumRows(t, CategoryOf, StringLess);
    GroupSum(t, CategoryOf, StringLess)
  }

  /** Sales per region (app.py:140-142): one row per region present, regions
      in ascending text order, each row the total price of that region's rows;
      the rows add up to the total sales. */
  function RegionSales(t: seq<Record>): (g: seq<Group<string>>)
    ensures StrictlySorted(g, StringLess)
    ensures KeysOf(g) == set x | x in t :: x.territoryGroups
    ensures |g| == |KeysOf(g)|
    ensures forall i :: 0 <= i < |g| ==>
      g[i].total == TotalSales(Where(t, HasKey(RegionOf, g[i].key)))
    ensures TotalOf(g) == TotalSales(t)
  {
    StringLessIsStrictTotalOrder();
    GroupSumRows(t, RegionOf, StringLess);
    GroupSum(t, RegionOf, StringLess)
  }

  /** After the region stage, the region chart shows only selected regions. */
  lemma RegionSalesWithinSelection(t: seq<Record>, selected: seq<string>)
    ensures var g := RegionSales(RegionStage(t, selected));
      forall i :: 0 <= i < |g| ==> g[i].key in selected
  {
    var g := RegionSales(RegionStage(t, selected));
    forall i | 0 <= i < |g| ensures g[i].key in selected {
      assert g[i].key in KeysOf(g);
    }
  }

  /** `groupby('order_date')` (app.py:98-99): one row per distinct day,
      strictly ascending by day, each the total price of that day's rows. */
  function SalesByDay(t: seq<Record>): (g: seq<Group<Date>>)
    ensures StrictlySorted(g, DateLess)
    ensures KeysOf(g) == set x | x in t :: x.orderDate
    ensures |g| == |KeysOf(g)|
    ensures forall i :: 0 <= i < |g| ==>
      g[i].total == TotalSales(Where(t, HasKey(OrderDate, g[i].key)))
    ensures TotalOf(g) == TotalSales(t)
  {
    DateLessIsStrictTotalOrder();
    GroupSumRows(t, OrderDate, DateLess);
    GroupSum(t, OrderDate, DateLess)
  }

  /** `.dt.to_period('M')` on the grouped column (app.py:101-102): each row
      keeps its total and is relabelled with the month of its day. Rows are
      not merged, so several rows may now carry the same month. */
  function ToMonths(g: seq<Group<Date>>): (r: seq<Group<Period>>)
    ensures |r| == |g|
    ensures forall i :: 0 <= i < |g| ==> r[i] == Group(PeriodOf(g[i].key), g[i].total)
  {
    if |g| == 0 then [] else [Group(PeriodOf(g[0].key), g[0].total)] + ToMonths(g[1..])
  }

  predicate MonthSorted(s: seq<Group<Period>>) {
    forall i, j :: 0 <= i < j < |s| ==> PeriodLe(s[i].key, s[j].key)
  }

  /** Places `x` before the first row whose month is not earlier. */
  function InsertByMonth(s: seq<Group<Period>>, x: Group<Period>): (r: seq<Group<Period>>)
    ensures multiset(r) == multiset(s) + multiset{x}
    ensures |r| == |s| + 1
    ensures TotalOf(r) == TotalOf(s) + x.total
    ensures MonthSorted(s) ==> MonthSorted(r)
  {
    if |s| == 0 then [x]
    else if PeriodLe(x.key, s[0].key) then
      InsertAtFrontSorted(s, x);
      [x] + s
    else
      var rest := InsertByMonth(s[1..], x);
      assert s == [s[0]] + s[1..];
      InsertAfterHeadSorted(s, x, rest);
      [s[0]] + rest
  }

  lemma InsertAtFrontSorted(s: seq<Group<Period>>, x: Group<Period>)
    requires |s| > 0 && PeriodLe(x.key, s[0].key)
    ensures MonthSorted(s) ==> MonthSorted([x] + s)
    ensures TotalOf([x] + s) == TotalOf(s) + x.total
  {
    assert ([x] + s)[1..] == s;
  }

  lemma InsertAfterHeadSorted(s: seq<Group<Period>>, x: Group<Period>, rest: seq<Group<Period>>)
    requires |s| > 0 && !PeriodLe(x.key, s[0].key)
    requires multiset(rest) == multiset(s[1..]) + multiset{x}
    requires MonthSorted(s[1..]) ==> MonthSorted(rest)
    ensures MonthSorted(s) ==> MonthSorted([s[0]] + rest)
    ensures TotalOf([s[0]] + rest) == s[0].total + TotalOf(rest)
  {
    var r := [s[0]] + rest;
    assert r[1..] == rest;
    if MonthSorted(s) {
      assert MonthSorted(s[1..]);
      forall j | 0 <= j < |rest| ensures PeriodLe(s[0].key, rest[j].key) {
        assert rest[j] in multiset(rest);
        if rest[j] != x {
          assert rest[j] in multiset(s[1..]);
          var i :| 0 <= i < |s[1..]| && s[1..][i] == rest[j];
          assert s[i + 1] == rest[j];
        }
      }
      forall i, j | 0 <= i < j < |r| ensures PeriodLe(r[i].key, r[j].key) {
        if i > 0 {
          assert r[i] == rest[i - 1] && r[j] == rest[j - 1];
        } else {
          assert r[j] == rest[j - 1];
        }
      }
    }
  }

  /** `sort_values('order_date')` (app.py:103), as a stable insertion sort:
      the result is ordered by month and holds the same rows. */
  function SortByMonth(s: seq<Group<Period>>): (r: seq<Group<Period>>)
    ensures MonthSorted(r)
    ensures multiset(r) == multiset(s)
    ensures |r| == |s|
    ensures TotalOf(r) == TotalOf(s)
  {
    if |s| == 0 then []
    else
      assert s == [s[0]] + s[1..];
      InsertByMonth(SortByMonth(s[1..]), s[0])
  }

  /** Sorting rows that are already in month order leaves them in place. */
  lemma {:induction false} SortByMonthSorted(s: seq<Group<Period>>)
    requires MonthSorted(s)
    ensures SortByMonth(s) == s
  {
    if |s| > 0 {
      assert MonthSorted(s[1..]);
      SortByMonthSorted(s[1..]);
      if |s| > 1 {
        assert PeriodLe(s[0].key, s[1].key);
      }
    }
  }

  /** Relabelling days that ascend gives months that never descend. */
  lemma ToMonthsSorted(g: seq<Group<Date>>)
    requires StrictlySorted(g, DateLess)
    ensures MonthSorted(ToMonths(g))
  {
    var r := ToMonths(g);
    forall i, j | 0 <= i < j < |r| ensures PeriodLe(r[i].key, r[j].key) {
      PeriodOfMonotone(g[i].key, g[j].key);
    }
  }

  /** One point of the trend chart: the month written as text, the total
      kept. */
  function LabelPoint(g: Group<Period>): Group<string> {
    Group(FormatPeriod(g.key), g.total)
  }

  /** `f` applied to every element, in order. */
  function MapSeq<A, B>(s: seq<A>, f: A -> B): seq<B> {
    seq(|s|, i requires 0 <= i < |s| => f(s[i]))
  }

  lemma MapSeqAppend<A, B>(x: seq<A>, y: seq<A>, f: A -> B)
    ensures MapSeq(x + y, f) == MapSeq(x, f) + MapSeq(y, f)
  {
  }

  /** Mapping two orderings of the same elements gives two orderings of the
      same images. */
  lemma {:induction false} MapSeqPermutation<A, B>(a: seq<A>, b: seq<A>, f: A -> B)
    requires multiset(a) == multiset(b)
    ensures multiset(MapSeq(a, f)) == multiset(MapSeq(b, f))
    decreases |a|
  {
    if |a| == 0 {
      assert |b| == |multiset(b)| == 0;
    } else {
      assert a[0] in multiset(b);
      var k :| 0 <= k < |b| && b[k] == a[0];
      var front, back := b[..k], b[k + 1..];
      var rest := front + back;
      assert b == front + [b[k]] + back;
      assert multiset(rest) == multiset(a[1..]) by {
        assert a == [a[0]] + a[1..];
        assert multiset(b) == multiset(front) + multiset{b[k]} + multiset(back);
        assert multiset(rest) == multiset(front) + multiset(back);
        assert multiset(rest) == multiset(b) - multiset{b[k]};
        assert multiset(a[1..]) == multiset(a) - multiset{a[0]};
      }
      MapSeqPermutation(a[1..], rest, f);
      MapSeqAppend(front, back, f);
      MapSeqAppend(front + [b[k]], back, f);
      MapSeqAppend(front, [b[k]], f);
      MapSeqAppend([a[0]], a[1..], f);
      assert a == [a[0]] + a[1..];
      var m := MapSeq([b[k]], f);
      assert m == [f(a[0])];
      assert multiset(MapSeq(b, f))
          == multiset(MapSeq(front, f)) + multiset(m) + multiset(MapSeq(back, f));
      assert multiset(MapSeq(a, f)) == multiset(m) + multiset(MapSeq(a[1..], f));
    }
  }

  lemma {:induction false} LabelsTotal(s: seq<Group<Period>>)
    ensures TotalOf(MapSeq(s, LabelPoint)) == TotalOf(s)
  {
    if |s| > 0 {
      LabelsTotal(s[1..]);
      assert MapSeq(s, LabelPoint)[1..] == MapSeq(s[1..], LabelPoint);
      assert MapSeq(s, LabelPoint)[0] == LabelPoint(s[0]);
    }
  }

  /** `astype(str)` on the period column (app.py:104). */
  function LabelMonths(s: seq<Group<Period>>): (r: seq<Group<string>>)
    ensures |r| == |s|
    ensures forall i :: 0 <= i < |s| ==>
      r[i].total == s[i].total && ParseLabel(r[i].key) == Some(s[i].key)
    ensures TotalOf(r) == TotalOf(s)
  {
    LabelsTotal(s);
    assert forall i :: 0 <= i < |s| ==> MapSeq(s, LabelPoint)[i] == LabelPoint(s[i]);
    MapSeq(s, LabelPoint)
  }

  /** The orders of the relabelled per-day rows that pandas' `sort_values`
      may produce: ordered by month, holding the same rows. Its default
      quicksort is not stable, so days of the same month may come in any
      order. */
  predicate AdmissibleMonthOrder(t: seq<Record>, s: seq<Group<Period>>) {
    MonthSorted(s) && multiset(s) == multiset(ToMonths(SalesByDay(t)))
  }

  /** Each point of a trend series, whatever the order: the month of a day
      present in the table, with that day's total price. */
  lemma PointOfSomeDay(t: seq<Record>, s: seq<Group<Period>>, i: int)
    ensures AdmissibleMonthOrder(t, s) && 0 <= i < |s| ==>
      exists d :: (&& d in (set x | x in t :: x.orderDate)
                   && ParseLabel(LabelMonths(s)[i].key) == Some(PeriodOf(d))
                   && LabelMonths(s)[i].total == TotalSales(Where(t, HasKey(OrderDate, d))))
  {
    if AdmissibleMonthOrder(t, s) && 0 <= i < |s| {
      var g := SalesByDay(t);
      var months := ToMonths(g);
      assert s[i] in multiset(months);
      var j :| 0 <= j < |months| && months[j] == s[i];
      var d := g[j].key;
      assert d in KeysOf(g);
      assert LabelMonths(s)[i].total == g[j].total;
      assert ParseLabel(LabelMonths(s)[i].key) == Some(PeriodOf(d));
    }
  }

  /** Under any admissible order the month labels never go back in time. */
  lemma AnyMonthOrderLabelsSorted(s: seq<Group<Period>>)
    requires MonthSorted(s)
    ensures var r := LabelMonths(s);
      forall i, j :: 0 <= i < j < |r| ==>
        PeriodLe(ParseLabel(r[i].key).value, ParseLabel(r[j].key).value)
  {
    var r := LabelMonths(s);
    forall i, j | 0 <= i < j < |r|
      ensures PeriodLe(ParseLabel(r[i].key).value, ParseLabel(r[j].key).value)
    {
      assert ParseLabel(r[i].key) == Some(s[i].key);
      assert ParseLabel(r[j].key) == Some(s[j].key);
    }
  }

  /** Under any admissible order the series holds the same points as the
      day-ordered one, so it has one point per day and the same sum. */
  lemma AnyMonthOrderSamePoints(t: seq<Record>, s: seq<Group<Period>>)
    ensures AdmissibleMonthOrder(t, s) ==>
      && |LabelMonths(s)| == |set x | x in t :: x.orderDate|
      && TotalOf(LabelMonths(s)) == TotalSales(t)
      && multiset(LabelMonths(s)) == multiset(LabelMonths(ToMonths(SalesByDay(t))))
  {
    if AdmissibleMonthOrder(t, s) {
      var months := ToMonths(SalesByDay(t));
      assert |s| == |multiset(s)| == |multiset(months)| == |months|;
      TotalOfPermutation(s, months);
      ToMonthsTotal(SalesByDay(t));
      MapSeqPermutation(s, months, LabelPoint);
    }
  }

  /** The trend series under any order pandas may produce (app.py:98-104):
      one point per distinct day, labels that never go back in time, points
      adding up to the total sales, and the same points as the day-ordered
      series, each the month of a day of the table with that day's total. */
  lemma TrendUnderAnyMonthOrder(t: seq<Record>, s: seq<Group<Period>>)
    ensures AdmissibleMonthOrder(t, s) ==> var r := LabelMonths(s);
      && |r| == |set x | x in t :: x.orderDate|
      && (forall i, j :: 0 <= i < j < |r| ==>
            PeriodLe(ParseLabel(r[i].key).value, ParseLabel(r[j].key).value))
      && TotalOf(r) == TotalSales(t)
      && multiset(r) == multiset(LabelMonths(ToMonths(SalesByDay(t))))
      && (forall i :: 0 <= i < |r| ==>
            exists d :: (&& d in (set x | x in t :: x.orderDate)
                         && ParseLabel(r[i].key) == Some(PeriodOf(d))
                         && r[i].total == TotalSales(Where(t, HasKey(OrderDate, d)))))
  {
    if AdmissibleMonthOrder(t, s) {
      AnyMonthOrderLabelsSorted(s);
      AnyMonthOrderSamePoints(t, s);
      forall i | 0 <= i < |LabelMonths(s)|
        ensures exists d :: (&& d in (set x | x in t :: x.orderDate)
                             && ParseLabel(LabelMonths(s)[i].key) == Some(PeriodOf(d))
                             && LabelMonths(s)[i].total == TotalSales(Where(t, HasKey(OrderDate, d))))
      {
        PointOfSomeDay(t, s, i);
      }
    }
  }

  /** The order this model's stable sort produces is one of them. */
  lemma SortByMonthAdmissible(t: seq<Record>)
    ensures AdmissibleMonthOrder(t, SortByMonth(ToMonths(SalesByDay(t))))
  {
  }

  /** Relabelling the per-day rows by month, sorting them by month and
      writing the months as text keeps the rows where they were: row `i` of
      the result is row `i` of the input, labelled with its month, and the
      labels never go back in time. */
  lemma {:induction false} RelabelKeepsDayOrder(g: seq<Group<Date>>)
    requires StrictlySorted(g, DateLess)
    ensures var r := LabelMonths(SortByMonth(ToMonths(g)));
      && |r| == |g|
      && (forall i :: 0 <= i < |r| ==>
            ParseLabel(r[i].key) == Some(PeriodOf(g[i].key)) && r[i].total == g[i].total)
      && (forall i, j :: 0 <= i < j < |r| ==>
            PeriodLe(ParseLabel(r[i].key).value, ParseLabel(r[j].key).value))
      && TotalOf(r) == TotalOf(g)
  {
    var months := ToMonths(g);
    ToMonthsSorted(g);
    SortByMonthSorted(months);
    ToMonthsTotal(g);
    var r := LabelMonths(months);
    forall i, j | 0 <= i < j < |r|
      ensures PeriodLe(ParseLabel(r[i].key).value, ParseLabel(r[j].key).value)
    {
      assert ParseLabel(r[i].key) == Some(months[i].key);
      assert ParseLabel(r[j].key) == Some(months[j].key);
    }
  }

  lemma {:induction false} ToMonthsTotal(g: seq<Group<Date>>)
    ensures TotalOf(ToMonths(g)) == TotalOf(g)
  {
    if |g| > 0 {
      ToMonthsTotal(g[1..]);
      assert ToMonths(g)[1..] == ToMonths(g[1..]);
    }
  }

  /** The sales-trend series (app.py:98-104), as the code computes it: one
      point per distinct day of the table, not per month, labelled with that
      day's month; the labels never go back in time, each point is the total
      price of its day's rows, and the points add up to the total sales. */
  function SalesTrend(t: seq<Record>): (r: seq<Group<string>>)
    ensures |r| == |set x | x in t :: x.orderDate|
    ensures forall i :: 0 <= i < |r| ==>
      && ParseLabel(r[i].key) == Some(PeriodOf(SalesByDay(t)[i].key))
      && r[i].total == TotalSales(Where(t, HasKey(OrderDate, SalesByDay(t)[i].key)))
    ensures forall i, j :: 0 <= i < j < |r| ==>
      PeriodLe(ParseLabel(r[i].key).value, ParseLabel(r[j].key).value)
    ensures TotalOf(r) == TotalSales(t)
  {
    RelabelKeepsDayOrder(SalesByDay(t));
    LabelMonths(SortByMonth(ToMonths(SalesByDay(t))))
  }
}
