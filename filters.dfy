/** The two sidebar filters of the overview page (app.py:42-76).

    The widgets themselves are not modelled: what `date_input` returned is the
    sequence `dateRange` (zero, one or two dates) and what `multiselect`
    returned is the list `selected`. */
module Filters {
  import opened Dates
  import opened Table

  /** The pages offered by the sidebar radio (app.py:37-40). */
  datatype Page = Overview | Forecast

  /** The date mask of app.py:61-62: on or after the start day and on or
      before the end day, both ends included. */
  function InDateRange(start: Date, end: Date): Record -> bool {
    (x: Record) => DateLe(start, x.orderDate) && DateLe(x.orderDate, end)
  }

  /** `isin(selected)` on the region column (app.py:73-74). */
  function InRegions(selected: seq<string>): Record -> bool {
    (x: Record) => x.territoryGroups in selected
  }

  /** The date stage (app.py:57-64). Only a selection of exactly two dates
      filters, keeping the rows dated from the first to the second day
      inclusive, in table order; any other selection (the widget yields one
      date while the user is still picking the range) leaves the table as it
      is. */
  function DateStage(t: seq<Record>, dateRange: seq<Date>): (r: seq<Record>)
    ensures IsSubsequence(r, t)
    ensures |dateRange| != 2 ==> r == t
    ensures |dateRange| == 2 ==> forall x ::
      multiset(r)[x] ==
        if DateLe(dateRange[0], x.orderDate) && DateLe(x.orderDate, dateRange[1])
        then multiset(t)[x] else 0
    ensures |dateRange| == 2 ==> forall x ::
      x in r <==> x in t && DateLe(dateRange[0], x.orderDate) && DateLe(x.orderDate, dateRange[1])
  {
    if |dateRange| == 2 then Where(t, InDateRange(dateRange[0], dateRange[1]))
    else SubsequenceReflexive(t); t
  }

  /** The region stage (app.py:73-74): the rows whose region is one of the
      selected ones, in table order; nothing is kept when nothing is
      selected. */
  function RegionStage(t: seq<Record>, selected: seq<string>): (r: seq<Record>)
    ensures IsSubsequence(r, t)
    ensures forall x :: multiset(r)[x] == if x.territoryGroups in selected then multiset(t)[x] else 0
    ensures forall x :: x in r <==> x in t && x.territoryGroups in selected
    ensures selected == [] ==> r == []
  {
    Where(t, InRegions(selected))
  }

  /** `filtered_df` as the rest of the script sees it (app.py:42-76): on the
      overview page the date stage followed by the region stage, on any other
      page the full table. */
  function WorkingTable(full: seq<Record>, page: Page, dateRange: seq<Date>, selected: seq<string>)
    : (r: seq<Record>)
    ensures IsSubsequence(r, full)
    ensures page != Overview ==> r == full
    ensures page == Overview ==> forall x ::
      x in r <==> && x in full
                  && x.territoryGroups in selected
                  && (|dateRange| == 2 ==>
                       DateLe(dateRange[0], x.orderDate) && DateLe(x.orderDate, dateRange[1]))
    ensures page == Overview ==> forall x ::
      multiset(r)[x] ==
        if && x.territoryGroups in selected
           && (|dateRange| == 2 ==>
                DateLe(dateRange[0], x.orderDate) && DateLe(x.orderDate, dateRange[1]))
        then multiset(full)[x] else 0
  {
    if page == Overview then
      var dated := DateStage(full, dateRange);
      SubsetOfWorking(full, dateRange, selected);
      RegionStage(dated, selected)
    else
      SubsequenceReflexive(full);
      full
  }

  /** The two overview stages together keep a subsequence of the full table. */
  lemma SubsetOfWorking(full: seq<Record>, dateRange: seq<Date>, selected: seq<string>)
    ensures IsSubsequence(RegionStage(DateStage(full, dateRange), selected), full)
  {
    if |dateRange| != 2 {
      SubsequenceReflexive(full);
    } else {
      WhereWhere(full, InDateRange(dateRange[0], dateRange[1]), InRegions(selected));
    }
  }

  /** On the overview page the two stages amount to one selection of the
      full table: with both masks when two dates are given, with the region
      mask alone otherwise. */
  lemma WorkingTableIsOneSelection(full: seq<Record>, dateRange: seq<Date>, selected: seq<string>)
    ensures |dateRange| == 2 ==>
      WorkingTable(full, Overview, dateRange, selected)
        == Where(full, Both(InDateRange(dateRange[0], dateRange[1]), InRegions(selected)))
    ensures |dateRange| != 2 ==>
      WorkingTable(full, Overview, dateRange, selected) == Where(full, InRegions(selected))
  {
    if |dateRange| == 2 {
      WhereWhere(full, InDateRange(dateRange[0], dateRange[1]), InRegions(selected));
    }
  }

  /** A date stage with the same two dates a second time changes nothing. */
  lemma DateStageIdempotent(t: seq<Record>, dateRange: seq<Date>)
    ensures DateStage(DateStage(t, dateRange), dateRange) == DateStage(t, dateRange)
  {
    if |dateRange| == 2 {
      WhereIdempotent(t, InDateRange(dateRange[0], dateRange[1]));
    }
  }

  /** A region stage with the same selection a second time changes nothing. */
  lemma RegionStageIdempotent(t: seq<Record>, selected: seq<string>)
    ensures RegionStage(RegionStage(t, selected), selected) == RegionStage(t, selected)
  {
    WhereIdempotent(t, InRegions(selected));
  }

  /** The two stages are independent: applying the region stage first gives
      the same table, row for row and in the same order. */
  lemma StagesCommute(t: seq<Record>, dateRange: seq<Date>, selected: seq<string>)
    ensures RegionStage(DateStage(t, dateRange), selected)
         == DateStage(RegionStage(t, selected), dateRange)
  {
    if |dateRange| == 2 {
      WhereCommutes(t, InDateRange(dateRange[0], dateRange[1]), InRegions(selected));
    }
  }

  /** Rows dated exactly on the first or the last selected day are kept. */
  lemma DateStageKeepsEnds(t: seq<Record>, start: Date, end: Date, x: Record)
    requires DateLe(start, end)
    requires x in t && (x.orderDate == start || x.orderDate == end)
    ensures x in DateStage(t, [start, end])
  {
  }

  /** A range whose first day lies after its last keeps no row at all. */
  lemma DateStageReversedEmpty(t: seq<Record>, start: Date, end: Date)
    requires DateLess(end, start)
    ensures DateStage(t, [start, end]) == []
  {
  }

  /** Picking the first and the 31st of a month keeps exactly the rows dated
      in that month. */
  lemma DateStageWholeMonth(t: seq<Record>, year: Year, month: Month, x: Record)
    ensures x in DateStage(t, [Date(year, month, 1), Date(year, month, 31)])
        <==> x in t && PeriodOf(x.orderDate) == Period(year, month)
  {
  }
}
