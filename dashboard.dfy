/** The overview page end to end (app.py:42-150, without the widgets and
    charts): filter the loaded table, then compute the three headline figures
    and the three charts' data from the filtered table. */
module Dashboard {
  import opened Orderings
  import opened Dates
  import opened Table
  import opened Filters
  import opened Metrics
  import opened GroupBy
  import opened Aggregates

  /** Everything the overview page shows. */
  datatype Summary = Summary(
    totalSales: int,
    totalOrders: nat,
    totalProductsSold: int,
    trend: seq<Group<string>>,
    byCategory: seq<Group<string>>,
    byRegion: seq<Group<string>>)

  /** The page content (app.py:79-150): only the overview page computes
      anything, and every figure and chart is computed from the filtered
      table. The headline sales are those of the rows passing both sidebar
      masks. The three charts break the same total sales down three ways,
      the region chart shows selected regions only, no more orders are counted
      than rows kept, and with non-negative prices the sales shown never
      exceed those of the whole table. */
  function PageContent(full: seq<Record>, page: Page, dateRange: seq<Date>, selected: seq<string>)
    : (s: Option<Summary>)
    ensures s.Some? <==> page == Overview
    ensures s.Some? ==> var w := WorkingTable(full, page, dateRange, selected);
      && s.value.totalSales == TotalSales(w)
      && s.value.totalOrders == TotalOrders(w)
      && s.value.totalProductsSold == TotalUnits(w)
      && s.value.trend == SalesTrend(w)
      && s.value.byCategory == CategorySales(w)
      && s.value.byRegion == RegionSales(w)
    ensures s.Some? && |dateRange| == 2 ==>
      s.value.totalSales
        == TotalSales(Where(full, Both(InDateRange(dateRange[0], dateRange[1]), InRegions(selected))))
    ensures s.Some? && |dateRange| != 2 ==>
      s.value.totalSales == TotalSales(Where(full, InRegions(selected)))
    ensures s.Some? ==> && TotalOf(s.value.trend) == s.value.totalSales
                        && TotalOf(s.value.byCategory) == s.value.totalSales
                        && TotalOf(s.value.byRegion) == s.value.totalSales
    ensures s.Some? ==> forall i :: 0 <= i < |s.value.byRegion| ==> s.value.byRegion[i].key in selected
    ensures s.Some? ==> s.value.totalOrders <= |WorkingTable(full, page, dateRange, selected)|
    ensures s.Some? && selected == [] ==>
      s.value.totalSales == 0 && s.value.totalOrders == 0 && s.value.totalProductsSold == 0
      && s.value.trend == [] && s.value.byCategory == [] && s.value.byRegion == []
    ensures s.Some? && (forall x :: x in full ==> x.totalpriceRupiah >= 0) ==>
      0 <= s.value.totalSales <= TotalSales(full)
  {
    if page == Overview then
      var filtered := WorkingTable(full, page, dateRange, selected);
      MetricsOfSubsequence(filtered, full);
      RegionSalesWithinSelection(DateStage(full, dateRange), selected);
      WorkingTableIsOneSelection(full, dateRange, selected);
      Some(Summary(
        TotalSales(filtered),
        TotalOrders(filtered),
        TotalUnits(filtered),
        SalesTrend(filtered),
        CategorySales(filtered),
        RegionSales(filtered)))
    else
      None
  }

  /** Three order lines: two bikes in January (North and South) and locks in
      February (North). */
  const Row1 := Record(1, Date(2024, 1, 15), "North", "Bike", 2, 1000)
  const Row2 := Record(2, Date(2024, 1, 20), "South", "Bike", 1, 500)
  const Row3 := Record(3, Date(2024, 2, 1), "North", "Lock", 5, 100)
  const ExampleRows: seq<Record> := [Row1, Row2, Row3]

  const January: seq<Date> := [Date(2024, 1, 1), Date(2024, 1, 31)]
  const BothRegions: seq<string> := ["North", "South"]

  /** The two January lines grouped by day. */
  const JanuaryDays: seq<Group<Date>> :=
    [Group(Date(2024, 1, 15), 1000), Group(Date(2024, 1, 20), 500)]

  /** Filtering the example to January and both regions keeps the two January
      lines. */
  lemma ExampleFilter()
    ensures WorkingTable(ExampleRows, Overview, January, BothRegions) == [Row1, Row2]
  {
    var inRange := InDateRange(January[0], January[1]);
    assert ExampleRows[1..] == [Row2, Row3] && [Row2, Row3][1..] == [Row3] && [Row3][1..] == [];
    assert Where([Row3], inRange) == [];
    assert Where([Row2, Row3], inRange) == [Row2];
    assert DateStage(ExampleRows, January) == [Row1, Row2];
    WhereAll([Row1, Row2], InRegions(BothRegions));
  }

  /** On the two January lines: sales of 1500 Rupiah, 2 orders, 3 units. */
  lemma ExampleMetrics()
    ensures TotalSales([Row1, Row2]) == 1500
    ensures TotalOrders([Row1, Row2]) == 2
    ensures TotalUnits([Row1, Row2]) == 3
  {
    assert [Row1, Row2][1..] == [Row2] && [Row2][1..] == [];
    assert SumBy([Row2], Price) == 500;
    assert SumBy([Row2], Quantity) == 1;
    assert OrderIds([Row1, Row2]) == {1, 2};
  }

  /** Grouping the two January lines by day gives one row per day. */
  lemma ExampleSalesByDay()
    ensures SalesByDay([Row1, Row2]) == JanuaryDays
  {
    assert [Row1, Row2][1..] == [Row2] && [Row2][1..] == [];
    DateLessIsStrictTotalOrder();
    var d1, d2 := Date(2024, 1, 15), Date(2024, 1, 20);
    assert GroupSum([], OrderDate, DateLess) == [];
    assert AddTo([], d2, 500, DateLess) == [Group(d2, 500)];
    assert GroupSum([Row2], OrderDate, DateLess) == [Group(d2, 500)];
    assert AddTo([Group(d2, 500)], d1, 1000, DateLess) == [Group(d1, 1000), Group(d2, 500)];
  }

  /** Relabelling, sorting and writing out the two January days. */
  lemma ExampleRelabel()
    ensures LabelMonths(SortByMonth(ToMonths(JanuaryDays)))
         == [Group("2024-01", 1000), Group("2024-01", 500)]
  {
    var months := ToMonths(JanuaryDays);
    assert JanuaryDays[1..] == [Group(Date(2024, 1, 20), 500)];
    assert months == [Group(Period(2024, 1), 1000), Group(Period(2024, 1), 500)];
    SortByMonthSorted(months);
    assert FormatPeriod(Period(2024, 1)) == "2024-01";
    assert LabelMonths(months) == [LabelPoint(months[0]), LabelPoint(months[1])];
  }

  /** The trend has one point per day, both labelled "2024-01", not a single
      January point. */
  lemma ExampleTrend()
    ensures SalesTrend([Row1, Row2]) == [Group("2024-01", 1000), Group("2024-01", 500)]
  {
    ExampleSalesByDay();
    ExampleRelabel();
  }

  /** All January sales are bikes; North sold 1000 and South 500. */
  lemma ExampleBreakdowns()
    ensures CategorySales([Row1, Row2]) == [Group("Bike", 1500)]
    ensures RegionSales([Row1, Row2]) == [Group("North", 1000), Group("South", 500)]
  {
    assert [Row1, Row2][1..] == [Row2] && [Row2][1..] == [];
    StringLessIsStrictTotalOrder();
    assert GroupSum([], CategoryOf, StringLess) == [];
    assert AddTo([], "Bike", 500, StringLess) == [Group("Bike", 500)];
    assert GroupSum([Row2], CategoryOf, StringLess) == [Group("Bike", 500)];
    assert AddTo([Group("Bike", 500)], "Bike", 1000, StringLess) == [Group("Bike", 1500)];
    assert GroupSum([], RegionOf, StringLess) == [];
    assert AddTo([], "South", 500, StringLess) == [Group("South", 500)];
    assert GroupSum([Row2], RegionOf, StringLess) == [Group("South", 500)];
    assert StringLess("North", "South");
    assert AddTo([Group("South", 500)], "North", 1000, StringLess)
        == [Group("North", 1000), Group("South", 500)];
  }

  /** The whole overview page on the example, January and both regions. */
  lemma ExamplePage()
    ensures PageContent(ExampleRows, Overview, January, BothRegions)
      == Some(Summary(1500, 2, 3,
                      [Group("2024-01", 1000), Group("2024-01", 500)],
                      [Group("Bike", 1500)],
                      [Group("North", 1000), Group("South", 500)]))
  {
    ExampleFilter();
    ExampleMetrics();
    ExampleTrend();
    ExampleBreakdowns();
  }
}
