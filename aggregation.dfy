/** The dashboard's three spending totals: today's, this month's and the calendar year's. */
module Aggregation {

  /** JavaScript's `s.slice(0, n)` for `n >= 0`: the first `n` characters, or all of `s` when it is shorter. */
  function Prefix(s: string, n: nat): (p: string)
    ensures |p| == if |s| < n then |s| else n
    ensures p <= s
  {
    if |s| <= n then s else s[..n]
  }

  /** Equal day strings (10-character prefixes) have equal month strings (7-character prefixes). */
  lemma SameDayIsSameMonth(a: string, b: string)
    requires Prefix(a, 10) == Prefix(b, 10)
    ensures Prefix(a, 7) == Prefix(b, 7)
  {
    if |a| >= 10 && |b| >= 10 {
      assert a[..7] == a[..10][..7] && b[..7] == b[..10][..7];
    }
  }

  // ---- A proleptic Gregorian calendar on a millisecond clock ----

  predicate IsLeapYear(y: int) {
    y % 4 == 0 && (y % 100 != 0 || y % 400 == 0)
  }

  function DaysInMonth(y: int, m: int): int
    requires 1 <= m <= 12
  {
    if m == 2 then (if IsLeapYear(y) then 29 else 28)
    else if m in {4, 6, 9, 11} then 30
    else 31
  }

  /** Days in the months of year `y` before month `m`. */
  function DaysBeforeMonth(y: int, m: int): int
    requires 1 <= m <= 12
  {
    [0, 31, 59, 90, 120, 151, 181, 212, 243, 273, 304, 334][m - 1] + (if m > 2 && IsLeapYear(y) then 1 else 0)
  }

  /** Leap years among the years 1 .. y-1 (extended to all integers by floor division). */
  function LeapYearsBefore(y: int): int {
    (y - 1) / 4 - (y - 1) / 100 + (y - 1) / 400
  }

  /** Days from 1 January 1970 to 1 January of year `y` (negative before 1970). */
  function DaysBeforeYear(y: int): int {
    365 * (y - 1970) + LeapYearsBefore(y) - LeapYearsBefore(1970)
  }

  /** A year has as many days as the calendar says: 366 exactly in leap years. */
  lemma {:induction false} YearLength(y: int)
    ensures DaysBeforeYear(y + 1) - DaysBeforeYear(y) == if IsLeapYear(y) then 366 else 365
  {
    assert y / 4 - (y - 1) / 4 == if y % 4 == 0 then 1 else 0;
    assert y / 100 - (y - 1) / 100 == if y % 100 == 0 then 1 else 0;
    assert y / 400 - (y - 1) / 400 == if y % 400 == 0 then 1 else 0;
  }

  predicate ValidDateTime(y: int, mo: int, d: int, h: int, mi: int, s: int, ms: int) {
    1 <= mo <= 12 && 1 <= d <= DaysInMonth(y, mo) && 0 <= h < 24 && 0 <= mi < 60 && 0 <= s < 60 && 0 <= ms < 1000
  }

  /** `new Date(y, mo - 1, d, h, mi, s, ms)` as milliseconds on the local clock. */
  function Millis(y: int, mo: int, d: int, h: int, mi: int, s: int, ms: int): int
    requires ValidDateTime(y, mo, d, h, mi, s, ms)
  {
    ((((DaysBeforeYear(y) + DaysBeforeMonth(y, mo) + d - 1) * 24 + h) * 60 + mi) * 60 + s) * 1000 + ms
  }

  /** `cyStart`: 1 January 00:00:00.000 of year `y`. */
  function YearStart(y: int): (t: int)
    ensures t == DaysBeforeYear(y) * 86400000
    ensures y == 1970 ==> t == 0
  {
    Millis(y, 1, 1, 0, 0, 0, 0)
  }

  /** `cyEnd`: 31 December 23:59:59.999 of year `y`. */
  function YearEnd(y: int): (t: int)
    ensures YearStart(y) < t < YearStart(y + 1)
    ensures t + 1 == YearStart(y + 1)
  {
    YearLength(y);
    Millis(y, 12, 31, 23, 59, 59, 999)
  }

  /** `expDate >= cyStart && expDate <= cyEnd`: the closed calendar-year window. */
  predicate InCalendarYear(t: int, y: int) {
    YearStart(y) <= t <= YearEnd(y)
  }

  /** The closed window ends one millisecond before the next year starts, so it is exactly the
      half-open year and consecutive windows neither overlap nor leave a gap. */
  lemma {:induction false} WindowIsHalfOpenYear(t: int, y: int)
    ensures YearEnd(y) + 1 == YearStart(y + 1)
    ensures InCalendarYear(t, y) <==> YearStart(y) <= t < YearStart(y + 1)
  {
    YearLength(y);
  }

  /** The last millisecond of the year is counted; the first millisecond of the next year is not. */
  lemma {:induction false} CalendarYearBoundary(y: int)
    ensures InCalendarYear(Millis(y, 12, 31, 23, 59, 59, 999), y)
    ensures !InCalendarYear(Millis(y + 1, 1, 1, 0, 0, 0, 0), y)
    ensures InCalendarYear(Millis(y, 1, 1, 0, 0, 0, 0), y)
    ensures !InCalendarYear(Millis(y, 1, 1, 0, 0, 0, 0) - 1, y)
  {
    WindowIsHalfOpenYear(Millis(y + 1, 1, 1, 0, 0, 0, 0), y);
  }

  // ---- Totals ----

  /** The fields of an expense row the totals read: the amount, the `created_at` text and the
      instant `new Date(created_at)` denotes on the local clock. */
  datatype ExpenseRecord = ExpenseRecord(amount: real, createdAt: string, createdTime: int)

  datatype Totals = Totals(daily: real, monthly: real, cy: real)

  /** Which records a total counts. */
  datatype Window = Day(today: string) | Month(thisMonth: string) | Year(year: int)

  predicate Counts(w: Window, e: ExpenseRecord)
    ensures w.Day? && Counts(w, e) ==> Prefix(e.createdAt, 7) == Prefix(w.today, 7)
    ensures w.Year? ==> (Counts(w, e) <==> YearStart(w.year) <= e.createdTime < YearStart(w.year + 1))
  {
    match w
    case Day(today) => Prefix(e.createdAt, 10) == today
    case Month(thisMonth) => Prefix(e.createdAt, 7) == thisMonth
    case Year(y) => WindowIsHalfOpenYear(e.createdTime, y); InCalendarYear(e.createdTime, y)
  }

  /** The sum of the amounts of the records `w` counts. */
  function Total(es: seq<ExpenseRecord>, w: Window): (t: real)
    ensures (forall i | 0 <= i < |es| :: !Counts(w, es[i])) ==> t == 0.0
    ensures (forall i | 0 <= i < |es| :: es[i].amount >= 0.0) ==> t >= 0.0
  {
    if es == [] then 0.0
    else Total(es[..|es| - 1], w) + (if Counts(w, es[|es| - 1]) then es[|es| - 1].amount else 0.0)
  }

  /** The totals for the moment whose ISO string is `nowIso` and whose local year is `year`. */
  function Aggregate(es: seq<ExpenseRecord>, nowIso: string, year: int): (t: Totals)
    ensures es == [] ==> t == Totals(0.0, 0.0, 0.0)
  {
    Totals(Total(es, Day(Prefix(nowIso, 10))), Total(es, Month(Prefix(nowIso, 7))), Total(es, Year(year)))
  }

  /** `calculateTotals`: a single pass that adds each record's amount to every total that counts it. */
  method CalculateTotals(expenses: seq<ExpenseRecord>, nowIso: string, year: int) returns (totals: Totals)
    ensures totals == Aggregate(expenses, nowIso, year)
  {
    var today := Prefix(nowIso, 10);
    var thisMonth := Prefix(nowIso, 7);
    var cyStart := YearStart(year);
    var cyEnd := YearEnd(year);
    var daily, monthly, cy := 0.0, 0.0, 0.0;
    for i := 0 to |expenses|
      invariant daily == Total(expenses[..i], Day(today))
      invariant monthly == Total(expenses[..i], Month(thisMonth))
      invariant cy == Total(expenses[..i], Year(year))
    {
      var curr := expenses[i];
      assert expenses[..i + 1][..i] == expenses[..i];
      var date := Prefix(curr.createdAt, 10);
      var month := Prefix(curr.createdAt, 7);
      var amt := curr.amount;
      if date == today {
        daily := daily + amt;
      }
      if month == thisMonth {
        monthly := monthly + amt;
      }
      if curr.createdTime >= cyStart && curr.createdTime <= cyEnd {
        cy := cy + amt;
      }
    }
    assert expenses[..|expenses|] == expenses;
    totals := Totals(daily, monthly, cy);
  }

  /** A total over a concatenation is the sum of the totals, so the order of the rows does not matter
      for splitting the list. */
  lemma {:induction false} TotalAppend(a: seq<ExpenseRecord>, b: seq<ExpenseRecord>, w: Window)
    ensures Total(a + b, w) == Total(a, w) + Total(b, w)
  {
    if b == [] {
      assert a + b == a;
    } else {
      assert (a + b)[..|a + b| - 1] == a + b[..|b| - 1];
      TotalAppend(a, b[..|b| - 1], w);
    }
  }

  /** A window that counts at least what another counts has at least its total, given non-negative amounts. */
  lemma {:induction false} TotalMonotone(es: seq<ExpenseRecord>, narrow: Window, wide: Window)
    requires forall i | 0 <= i < |es| :: es[i].amount >= 0.0
    requires forall i | 0 <= i < |es| :: Counts(narrow, es[i]) ==> Counts(wide, es[i])
    ensures Total(es, narrow) <= Total(es, wide)
  {
    if es != [] {
      TotalMonotone(es[..|es| - 1], narrow, wide);
    }
  }

  /** Every record counted today is counted this month, so with non-negative amounts the daily total
      never exceeds the monthly one. */
  lemma {:induction false} DailyWithinMonthly(es: seq<ExpenseRecord>, nowIso: string, year: int)
    requires forall i | 0 <= i < |es| :: es[i].amount >= 0.0
    ensures Aggregate(es, nowIso, year).daily <= Aggregate(es, nowIso, year).monthly
  {
    forall i | 0 <= i < |es| && Counts(Day(Prefix(nowIso, 10)), es[i])
      ensures Counts(Month(Prefix(nowIso, 7)), es[i])
    {
      SameDayIsSameMonth(es[i].createdAt, nowIso);
    }
    TotalMonotone(es, Day(Prefix(nowIso, 10)), Month(Prefix(nowIso, 7)));
  }

  /** A worked example on 14 October 2026: one expense today (100), one on the first of the month (50)
      and one a year earlier (25). */
  function ExampleExpenses(): seq<ExpenseRecord> {
    [ ExpenseRecord(100.0, "2026-10-14T09:00:00.000Z", Millis(2026, 10, 14, 9, 0, 0, 0)),
      ExpenseRecord(50.0, "2026-10-01T12:00:00.000Z", Millis(2026, 10, 1, 12, 0, 0, 0)),
      ExpenseRecord(25.0, "2025-10-14T09:00:00.000Z", Millis(2025, 10, 14, 9, 0, 0, 0)) ]
  }

  const ExampleNow: string := "2026-10-14T10:30:00.000Z"

  lemma ExampleTotal(w: Window, first: bool, second: bool, third: bool)
    requires Counts(w, ExampleExpenses()[0]) == first
    requires Counts(w, ExampleExpenses()[1]) == second
    requires Counts(w, ExampleExpenses()[2]) == third
    ensures Total(ExampleExpenses(), w) ==
      (if first then 100.0 else 0.0) + (if second then 50.0 else 0.0) + (if third then 25.0 else 0.0)
  {
    var es := ExampleExpenses();
    assert es[..2][..1] == es[..1] && es[..1][..0] == [];
    assert Total(es[..1], w) == if first then 100.0 else 0.0;
    assert Total(es[..2], w) == Total(es[..1], w) + (if second then 50.0 else 0.0);
    assert Total(es, w) == Total(es[..2], w) + (if third then 25.0 else 0.0);
  }

  /** The worked example gives a daily total of 100, a monthly total of 150 and, the third expense
      lying in the previous year, a calendar-year total of 150. */
  lemma AggregationExample()
    ensures Aggregate(ExampleExpenses(), ExampleNow, 2026) == Totals(100.0, 150.0, 150.0)
  {
    var es := ExampleExpenses();
    assert Prefix(ExampleNow, 10) == "2026-10-14";
    assert Prefix(ExampleNow, 7) == "2026-10";
    assert Aggregate(es, ExampleNow, 2026) == Totals(Total(es, Day("2026-10-14")), Total(es, Month("2026-10")), Total(es, Year(2026)));
    ExampleDaily();
    ExampleMonthly();
    ExampleYearly();
  }

  lemma ExampleDaily()
    ensures Total(ExampleExpenses(), Day("2026-10-14")) == 100.0
  {
    var es := ExampleExpenses();
    assert Prefix(es[1].createdAt, 10)[9] != "2026-10-14"[9];
    assert Prefix(es[2].createdAt, 10)[3] != "2026-10-14"[3];
    ExampleTotal(Day("2026-10-14"), true, false, false);
  }

  lemma ExampleMonthly()
    ensures Total(ExampleExpenses(), Month("2026-10")) == 150.0
  {
    var es := ExampleExpenses();
    assert Prefix(es[2].createdAt, 7)[3] != "2026-10"[3];
    ExampleTotal(Month("2026-10"), true, true, false);
  }

  lemma ExampleYearly()
    ensures Total(ExampleExpenses(), Year(2026)) == 150.0
  {
    assert DaysBeforeYear(2025) == 20089 && DaysBeforeYear(2026) == 20454 && DaysBeforeYear(2027) == 20819;
    ExampleTotal(Year(2026), true, true, false);
  }
}
