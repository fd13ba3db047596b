/** Local calendar time as JavaScript's `Date` constructor builds it, and the
    half-open one-month window that every read endpoint of the server filters
    `dateOfSale` with. */
module Calendar {

  const MsPerDay: int := 86400000

  /** An instant in the server's local time: a calendar day and the
      milliseconds elapsed since its midnight. */
  datatype Instant = Instant(year: int, month: int, day: int, msOfDay: int)

  predicate IsLeapYear(y: int) {
    (y % 4 == 0 && y % 100 != 0) || y % 400 == 0
  }

  function DaysInMonth(y: int, m: int): (n: int)
    requires 1 <= m <= 12
    ensures 28 <= n <= 31
    ensures n == 29 <==> m == 2 && IsLeapYear(y)
  {
    if m == 2 then (if IsLeapYear(y) then 29 else 28)
    else if m == 4 || m == 6 || m == 9 || m == 11 then 30
    else 31
  }

  /** A well-formed instant of the proleptic Gregorian calendar. */
  predicate Valid(t: Instant) {
    && 1 <= t.month <= 12
    && 1 <= t.day <= DaysInMonth(t.year, t.month)
    && 0 <= t.msOfDay < MsPerDay
  }

  /** Strict chronological order: `a < b` on two `Date` values. */
  predicate Before(a: Instant, b: Instant) {
    || a.year < b.year
    || (a.year == b.year && a.month < b.month)
    || (a.year == b.year && a.month == b.month && a.day < b.day)
    || (a.year == b.year && a.month == b.month && a.day == b.day && a.msOfDay < b.msOfDay)
  }

  /** The number of whole months from January of year 0 to the month of `t`. */
  function MonthNumber(t: Instant): int {
    t.year * 12 + (t.month - 1)
  }

  /** `Date` reads a year argument from 0 to 99 as 1900 to 1999. The result
      keeps the last two digits and is never itself such a two-digit year, so
      reading it again changes nothing. */
  function FullYear(y: int): (r: int)
    ensures r % 100 == y % 100
    ensures !(0 <= r <= 99)
  {
    if 0 <= y <= 99 then 1900 + y else y
  }

  /** `new Date(year, monthIndex, 1)`: local midnight of the first day of the
      month, with a 0-based month index that `Date` normalises, so that index
      12 is January of the next year and index -1 December of the previous one. */
  function FirstOfMonth(year: int, monthIndex: int): (r: Instant)
    ensures Valid(r)
    ensures r.day == 1 && r.msOfDay == 0
    ensures MonthNumber(r) == FullYear(year) * 12 + monthIndex
  {
    Instant(FullYear(year) + monthIndex / 12, monthIndex % 12 + 1, 1, 0)
  }

  /** The `{ $gte: start, $lt: end }` range of a `dateOfSale` condition. */
  datatype Window = Window(start: Instant, end: Instant)

  predicate InWindow(t: Instant, w: Window) {
    !Before(t, w.start) && Before(t, w.end)
  }

  /** `[new Date(year, month - 1, 1), new Date(year, month, 1))` for a 1-based
      `month`: the window is exactly one calendar month long. */
  function MonthWindow(year: int, month: int): (w: Window)
    ensures Valid(w.start) && Valid(w.end)
    ensures MonthNumber(w.start) == FullYear(year) * 12 + month - 1
    ensures MonthNumber(w.end) == MonthNumber(w.start) + 1
  {
    Window(FirstOfMonth(year, month - 1), FirstOfMonth(year, month))
  }

  /** A valid instant lies at or after the first of a month exactly when its
      own month is that month or a later one. */
  lemma NotBeforeFirstOfMonth(t: Instant, f: Instant)
    requires Valid(t) && Valid(f) && f.day == 1 && f.msOfDay == 0
    ensures !Before(t, f) <==> MonthNumber(f) <= MonthNumber(t)
  {
    if t.year < f.year {
      assert MonthNumber(t) < MonthNumber(f) by {
        assert t.year * 12 <= f.year * 12 - 12;
      }
    } else if t.year > f.year {
      assert MonthNumber(t) > MonthNumber(f) by {
        assert t.year * 12 >= f.year * 12 + 12;
      }
    }
  }

  /** The month window of (year, month) holds exactly the valid instants of the
      calendar month numbered `FullYear(year) * 12 + month - 1`, whatever the
      integer `month`. */
  lemma {:induction false} MonthWindowSelectsMonth(year: int, month: int, t: Instant)
    requires Valid(t)
    ensures InWindow(t, MonthWindow(year, month)) <==> MonthNumber(t) == FullYear(year) * 12 + month - 1
  {
    var w := MonthWindow(year, month);
    NotBeforeFirstOfMonth(t, w.start);
    NotBeforeFirstOfMonth(t, w.end);
  }

  /** For a month from 1 to 12 the window holds exactly the instants of that
      calendar month of that (full) year. */
  lemma MonthWindowIsCalendarMonth(year: int, month: int, t: Instant)
    requires 1 <= month <= 12 && Valid(t)
    ensures InWindow(t, MonthWindow(year, month)) <==> t.year == FullYear(year) && t.month == month
  {
    MonthWindowSelectsMonth(year, month, t);
    if t.year < FullYear(year) {
      assert t.year * 12 <= FullYear(year) * 12 - 12;
    } else if t.year > FullYear(year) {
      assert t.year * 12 >= FullYear(year) * 12 + 12;
    }
  }

  /** The window is half-open: its first instant is inside, the first instant
      of the next month is not, and so two consecutive months never share an
      instant. */
  lemma MonthWindowHalfOpen(year: int, month: int)
    ensures InWindow(MonthWindow(year, month).start, MonthWindow(year, month))
    ensures !InWindow(MonthWindow(year, month).end, MonthWindow(year, month))
    ensures MonthWindow(year, month).end == MonthWindow(year, month + 1).start
  {
    var w := MonthWindow(year, month);
    MonthWindowSelectsMonth(year, month, w.start);
    MonthWindowSelectsMonth(year, month, w.end);
  }

  /** For months 1 to 12 the bounds are the first of `month` and the first of
      the following month; December's upper bound is 1 January of the next year. */
  lemma MonthWindowBounds(year: int, month: int)
    requires 1 <= month <= 12
    ensures MonthWindow(year, month).start == Instant(FullYear(year), month, 1, 0)
    ensures month < 12 ==> MonthWindow(year, month).end == Instant(FullYear(year), month + 1, 1, 0)
    ensures month == 12 ==> MonthWindow(year, month).end == Instant(FullYear(year) + 1, 1, 1, 0)
  {
  }

  /** A query-string month of "0" is truthy and `Date` reads index -1 as
      December of the previous year; "13" gives January of the next year. */
  lemma MonthWindowOutOfRange(year: int)
    ensures MonthWindow(year, 0).start == Instant(FullYear(year) - 1, 12, 1, 0)
    ensures MonthWindow(year, 13).start == Instant(FullYear(year) + 1, 1, 1, 0)
  {
  }

  /** A two-digit year names a year of the twentieth century. */
  lemma TwoDigitYear(year: int, month: int)
    requires 0 <= year <= 99 && 1 <= month <= 12
    ensures MonthWindow(year, month).start == Instant(1900 + year, month, 1, 0)
  {
  }
}
