/** Local calendar dates as the JavaScript Date getters see them:
    getFullYear, getMonth (0-based), getDate, plus the time of day. */
module Calendar {

  datatype Date = Date(year: int, month: int, day: int, millis: int)

  const MILLIS_PER_DAY: int := 86_400_000

  predicate IsLeapYear(y: int)
  {
    y % 4 == 0 && (y % 100 != 0 || y % 400 == 0)
  }

  function DaysInMonth(y: int, m: int): (n: int)
    requires 0 <= m < 12
    ensures 28 <= n <= 31
  {
    if m == 1 then (if IsLeapYear(y) then 29 else 28)
    else if m == 3 || m == 5 || m == 8 || m == 10 then 30
    else 31
  }

  /** A real calendar date with a time of day inside the day. */
  predicate Valid(d: Date)
  {
    && 0 <= d.month < 12
    && 1 <= d.day <= DaysInMonth(d.year, d.month)
    && 0 <= d.millis < MILLIS_PER_DAY
  }

  /** Components/Transactions.tsx isSameDay: same year, month and day of month. */
  predicate SameDay(a: Date, b: Date)
  {
    a.year == b.year && a.month == b.month && a.day == b.day
  }

  /** Same calendar month of the same year. */
  predicate SameMonth(a: Date, b: Date)
  {
    a.month == b.month && a.year == b.year
  }

  lemma SameDayIsEquivalence(a: Date, b: Date, c: Date)
    ensures SameDay(a, a)
    ensures SameDay(a, b) ==> SameDay(b, a)
    ensures SameDay(a, b) && SameDay(b, c) ==> SameDay(a, c)
    ensures SameDay(a, b) ==> SameMonth(a, b)
  {
  }

  /** Midnight at the start of `d`'s day: `new Date(y, m, d)`. */
  function StartOfDay(d: Date): Date
  {
    Date(d.year, d.month, d.day, 0)
  }

  /** `new Date(y, m, d - 1)`: midnight of the previous calendar day, the
      day-of-month underflow carried into the month and the year. */
  function PrevDay(d: Date): (r: Date)
    requires Valid(d)
    ensures Valid(r) && r.millis == 0
    ensures r.day == d.day - 1 || (d.day == 1 && r.day == DaysInMonth(r.year, r.month))
    ensures d.day > 1 ==> r.year == d.year && r.month == d.month
    ensures d.day == 1 ==> if d.month > 0 then r.year == d.year && r.month == d.month - 1
                           else r.year == d.year - 1 && r.month == 11
  {
    if d.day > 1 then Date(d.year, d.month, d.day - 1, 0)
    else if d.month > 0 then Date(d.year, d.month - 1, DaysInMonth(d.year, d.month - 1), 0)
    else Date(d.year - 1, 11, 31, 0)
  }

  /** Midnight of the next calendar day; the inverse of PrevDay. */
  function NextDay(d: Date): (r: Date)
    requires Valid(d)
    ensures Valid(r) && r.millis == 0
  {
    if d.day < DaysInMonth(d.year, d.month) then Date(d.year, d.month, d.day + 1, 0)
    else if d.month < 11 then Date(d.year, d.month + 1, 1, 0)
    else Date(d.year + 1, 0, 1, 0)
  }

  /** PrevDay and NextDay are inverse on days: "yesterday" is the day whose
      next day is today. */
  lemma PrevNextRoundTrip(d: Date)
    requires Valid(d)
    ensures NextDay(PrevDay(d)) == StartOfDay(d)
    ensures PrevDay(NextDay(d)) == StartOfDay(d)
  {
  }

  /** An integer that orders dates by local date, then time of day (not the
      epoch value itself). */
  function Timestamp(d: Date): int
  {
    ((d.year * 12 + d.month) * 31 + (d.day - 1)) * MILLIS_PER_DAY + d.millis
  }

  /** Earlier in (year, month, day, time of day), compared in that order. */
  predicate Before(a: Date, b: Date)
  {
    a.year < b.year
    || (a.year == b.year && a.month < b.month)
    || (a.year == b.year && a.month == b.month && a.day < b.day)
    || (a.year == b.year && a.month == b.month && a.day == b.day && a.millis < b.millis)
  }

  /** A number written with a digit of base `n` below it compares digit by digit. */
  lemma PlaceValueOrder(x1: int, r1: int, x2: int, r2: int, n: int)
    requires n > 0 && 0 <= r1 < n && 0 <= r2 < n
    ensures x1 * n + r1 < x2 * n + r2 <==> x1 < x2 || (x1 == x2 && r1 < r2)
    ensures x1 * n + r1 == x2 * n + r2 <==> x1 == x2 && r1 == r2
  {
    if x1 < x2 {
      LaterPlaceIsLarger(x1, x2, n);
    } else if x2 < x1 {
      LaterPlaceIsLarger(x2, x1, n);
    }
  }

  lemma LaterPlaceIsLarger(x1: int, x2: int, n: int)
    requires x1 < x2 && n > 0
    ensures x2 * n >= x1 * n + n
  {
    var d := x2 - x1;
    assert x2 * n == x1 * n + d * n;
    MulAtLeast(d, n);
  }

  lemma {:induction false} MulAtLeast(d: nat, n: nat)
    requires d >= 1
    ensures d * n >= n
  {
    if d > 1 {
      MulAtLeast(d - 1, n);
      assert d * n == (d - 1) * n + n;
    }
  }

  /** Timestamp orders valid dates as the calendar does: by year, then month,
      then day, then time of day. */
  lemma TimestampOrders(a: Date, b: Date)
    requires Valid(a) && Valid(b)
    ensures Timestamp(a) < Timestamp(b) <==> Before(a, b)
  {
    PlaceValueOrder(a.year, a.month, b.year, b.month, 12);
    PlaceValueOrder(a.year * 12 + a.month, a.day - 1, b.year * 12 + b.month, b.day - 1, 31);
    PlaceValueOrder((a.year * 12 + a.month) * 31 + (a.day - 1), a.millis,
                    (b.year * 12 + b.month) * 31 + (b.day - 1), b.millis, MILLIS_PER_DAY);
  }
}
