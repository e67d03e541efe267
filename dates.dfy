/** Calendar values of the `order_date` column.

    The loader parses `order_date` into pandas datetimes (app.py:28-29). The
    model assumes those timestamps carry no time of day, so a date is a whole
    day (year, month, day). The date-range widget yields dates that pandas turns
    into midnight timestamps (app.py:58-59); with whole days, comparing a row's
    date against them is exactly the comparison of days below. */
module Dates {
  import opened Orderings

  /** The years a `datetime.date` can hold. */
  type Year = y: int | 1 <= y <= 9999 witness 1
  type Month = m: int | 1 <= m <= 12 witness 1
  type Day = d: int | 1 <= d <= 31 witness 1

  datatype Date = Date(year: Year, month: Month, day: Day)

  /** A monthly period, what `.dt.to_period('M')` yields (app.py:101-102). */
  datatype Period = Period(year: Year, month: Month)

  datatype Option<T> = None | Some(value: T)

  /** Chronological order on days. */
  predicate DateLess(a: Date, b: Date) {
    || a.year < b.year
    || (a.year == b.year && a.month < b.month)
    || (a.year == b.year && a.month == b.month && a.day < b.day)
  }

  predicate DateLe(a: Date, b: Date) {
    a == b || DateLess(a, b)
  }

  /** Days are sorted by a strict total order, so grouping by day has one
      well-defined place for every day. */
  lemma DateLessIsStrictTotalOrder()
    ensures StrictTotalOrder(DateLess)
  {
  }

  /** Chronological order on months. */
  predicate PeriodLess(p: Period, q: Period) {
    p.year < q.year || (p.year == q.year && p.month < q.month)
  }

  predicate PeriodLe(p: Period, q: Period) {
    p == q || PeriodLess(p, q)
  }

  /** The month a day falls in. */
  function PeriodOf(d: Date): Period {
    Period(d.year, d.month)
  }

  /** Later days never fall in earlier months. */
  lemma PeriodOfMonotone(a: Date, b: Date)
    requires DateLe(a, b)
    ensures PeriodLe(PeriodOf(a), PeriodOf(b))
  {
  }

  function Digit(n: int): (c: char)
    requires 0 <= n <= 9
    ensures '0' <= c <= '9' && DigitValue(c) == n
  {
    (48 + n) as char
  }

  function DigitValue(c: char): int {
    c as int - 48
  }

  predicate IsDigit(c: char) {
    '0' <= c <= '9'
  }

  /** The four decimal digits of a year put back together give the year. */
  lemma FourDigits(y: int)
    requires 0 <= y <= 9999
    ensures 0 <= y / 1000 <= 9
    ensures 1000 * (y / 1000) + 100 * (y / 100 % 10) + 10 * (y / 10 % 10) + y % 10 == y
  {
    var q1 := y / 10;
    assert y == 10 * q1 + y % 10;
    var q2 := q1 / 10;
    assert q1 == 10 * q2 + q1 % 10;
    assert y / 100 == q2;
    var q3 := q2 / 10;
    assert q2 == 10 * q3 + q2 % 10;
  }

  /** The text of a monthly period, as `astype(str)` writes it (app.py:104):
      four-digit year, a dash, two-digit month, e.g. "2024-01". Each label
      reads back as the period it was made from, so distinct months always get
      distinct labels. */
  function FormatPeriod(p: Period): (text: string)
    ensures |text| == 7 && text[4] == '-'
    ensures forall i :: 0 <= i < 7 && i != 4 ==> IsDigit(text[i])
    ensures ParseLabel(text) == Some(p)
  {
    var y, m := p.year, p.month;
    FourDigits(y);
    [Digit(y / 1000), Digit(y / 100 % 10), Digit(y / 10 % 10), Digit(y % 10),
     '-', Digit(m / 10), Digit(m % 10)]
  }

  /** Reads a "YYYY-MM" label back into the month it names; `None` for any
      other text. */
  function ParseLabel(s: string): Option<Period> {
    if |s| != 7 || s[4] != '-' then None
    else if !(IsDigit(s[0]) && IsDigit(s[1]) && IsDigit(s[2]) && IsDigit(s[3])
              && IsDigit(s[5]) && IsDigit(s[6])) then None
    else
      var y := 1000 * DigitValue(s[0]) + 100 * DigitValue(s[1])
               + 10 * DigitValue(s[2]) + DigitValue(s[3]);
      var m := 10 * DigitValue(s[5]) + DigitValue(s[6]);
      if 1 <= y <= 9999 && 1 <= m <= 12 then Some(Period(y, m)) else None
  }

  /** Two labels are equal exactly when they name the same month. */
  lemma LabelInjective(p: Period, q: Period)
    ensures FormatPeriod(p) == FormatPeriod(q) <==> p == q
  {
    if FormatPeriod(p) == FormatPeriod(q) {
      assert ParseLabel(FormatPeriod(p)) == ParseLabel(FormatPeriod(q));
    }
  }
}
