/** `DateTime` as a count of 100-nanosecond ticks since 0001-01-01 00:00 in
    the proleptic Gregorian calendar, and the custom formats the services
    render dates with ("yyyyMMdd", "MM/dd/yyyy", "yyyy-MM-dd HH:mm:ss"). */
module Calendar {
  import opened Text

  const TicksPerSecond: nat := 10_000_000
  const TicksPerMinute: nat := 60 * TicksPerSecond
  const TicksPerHour: nat := 60 * TicksPerMinute
  const TicksPerDay: nat := 24 * TicksPerHour

  /** A point in time, in ticks. */
  type Instant = nat

  predicate IsLeapYear(y: nat) {
    y % 4 == 0 && (y % 100 != 0 || y % 400 == 0)
  }

  function DaysInYear(y: nat): nat {
    if IsLeapYear(y) then 366 else 365
  }

  function DaysInMonth(y: nat, m: nat): nat
    requires 1 <= m <= 12
  {
    if m == 2 then (if IsLeapYear(y) then 29 else 28)
    else if m == 4 || m == 6 || m == 9 || m == 11 then 30
    else 31
  }

  /** Days of a common year before the first of month m (m = 13: the whole year). */
  const CumulativeDays: seq<nat> := [0, 31, 59, 90, 120, 151, 181, 212, 243, 273, 304, 334, 365]

  /** Days of year y before the first of month m. */
  function DaysBeforeMonth(y: nat, m: nat): (r: nat)
    requires 1 <= m <= 13
    ensures m == 13 ==> r == DaysInYear(y)
  {
    CumulativeDays[m - 1] + (if IsLeapYear(y) && m > 2 then 1 else 0)
  }

  /** Month m adds its own length to the days before it. */
  lemma MonthStep(y: nat, m: nat)
    requires 1 <= m <= 12
    ensures DaysBeforeMonth(y, m) + DaysInMonth(y, m) == DaysBeforeMonth(y, m + 1)
  {
  }

  /** Days from 0001-01-01 to the first of January of year y. */
  function DaysBeforeYear(y: nat): nat
    requires y >= 1
  {
    if y == 1 then 0 else DaysBeforeYear(y - 1) + DaysInYear(y - 1)
  }

  datatype Date = Date(year: nat, month: nat, day: nat)

  predicate ValidDate(d: Date) {
    d.year >= 1 && 1 <= d.month <= 12 && 1 <= d.day <= DaysInMonth(d.year, d.month)
  }

  /** Days from 0001-01-01 to `d`. */
  function DayNumber(d: Date): nat
    requires ValidDate(d)
  {
    DaysBeforeYear(d.year) + DaysBeforeMonth(d.year, d.month) + d.day - 1
  }

  /** The date `n` days after the first of month m of year y, within that year. */
  function DateInYear(n: nat, y: nat, m: nat): (d: Date)
    requires y >= 1 && 1 <= m <= 12
    requires n < DaysBeforeMonth(y, 13) - DaysBeforeMonth(y, m)
    ensures ValidDate(d) && d.year == y
    ensures DaysBeforeMonth(y, d.month) + d.day - 1 == DaysBeforeMonth(y, m) + n
    decreases 12 - m
  {
    MonthStep(y, m);
    if n < DaysInMonth(y, m) then Date(y, m, n + 1)
    else DateInYear(n - DaysInMonth(y, m), y, m + 1)
  }

  /** The date `n` days after the first of January of year y. */
  function DateFromYear(n: nat, y: nat): (d: Date)
    requires y >= 1
    ensures ValidDate(d) && d.year >= y
    ensures DayNumber(d) == DaysBeforeYear(y) + n
    decreases n
  {
    if n < DaysInYear(y) then DateInYear(n, y, 1)
    else
      var d := DateFromYear(n - DaysInYear(y), y + 1);
      assert DaysBeforeYear(y + 1) == DaysBeforeYear(y) + DaysInYear(y);
      d
  }

  /** The calendar date of day number n. */
  function DateOfDay(n: nat): (d: Date)
    ensures ValidDate(d) && DayNumber(d) == n
  {
    DateFromYear(n, 1)
  }

  /** The calendar date an instant falls on. */
  function DateOf(t: Instant): (d: Date)
    ensures ValidDate(d) && DayNumber(d) == t / TicksPerDay
  {
    DateOfDay(t / TicksPerDay)
  }

  /** `DateTime.Parse(t.ToString())`: the general date format stops at the
      seconds, so the round trip drops the fraction of a second. */
  function WholeSeconds(t: Instant): (r: Instant)
    ensures r <= t < r + TicksPerSecond && r % TicksPerSecond == 0
  {
    t - t % TicksPerSecond
  }

  /** `DateTime` covers the years 1 to 9999. */
  predicate InDateTimeRange(t: Instant) {
    DateOf(t).year <= 9999
  }

  lemma {:induction false} DaysBeforeYearMonotone(a: nat, b: nat)
    requires 1 <= a <= b
    ensures DaysBeforeYear(a) + (if a < b then DaysInYear(a) else 0) <= DaysBeforeYear(b)
    decreases b - a
  {
    if a < b {
      DaysBeforeYearMonotone(a + 1, b);
    }
  }

  lemma {:induction false} DaysBeforeMonthMonotone(y: nat, a: nat, b: nat)
    requires 1 <= a <= b <= 13
    ensures DaysBeforeMonth(y, a) <= DaysBeforeMonth(y, b)
    decreases b - a
  {
    if a < b {
      MonthStep(y, a);
      DaysBeforeMonthMonotone(y, a + 1, b);
    }
  }

  /** Distinct valid dates have distinct day numbers. */
  lemma DayNumberInjective(d1: Date, d2: Date)
    requires ValidDate(d1) && ValidDate(d2) && DayNumber(d1) == DayNumber(d2)
    ensures d1 == d2
  {
    if d1.year != d2.year {
      var (a, b) := if d1.year < d2.year then (d1, d2) else (d2, d1);
      DaysBeforeYearMonotone(a.year, b.year);
      MonthStep(a.year, a.month);
      DaysBeforeMonthMonotone(a.year, a.month + 1, 13);
      assert false;
    } else if d1.month != d2.month {
      var (a, b) := if d1.month < d2.month then (d1, d2) else (d2, d1);
      MonthStep(a.year, a.month);
      DaysBeforeMonthMonotone(a.year, a.month + 1, b.month);
      assert false;
    }
  }

  /** Reading a valid date's day number back as a date gives the date. */
  lemma DateRoundTrip(d: Date)
    requires ValidDate(d)
    ensures DateOfDay(DayNumber(d)) == d
  {
    DayNumberInjective(DateOfDay(DayNumber(d)), d);
  }

  // ---------------------------------------------------------------------
  // Custom date formats
  // ---------------------------------------------------------------------

  /** "yyyyMMdd". */
  function FormatYmd(t: Instant): string
  {
    var d := DateOf(t);
    Padded(d.year, 4) + Padded(d.month, 2) + Padded(d.day, 2)
  }

  /** "MM/dd/yyyy", with '/' as the date separator. */
  function FormatMdy(t: Instant): string
  {
    var d := DateOf(t);
    Padded(d.month, 2) + "/" + Padded(d.day, 2) + "/" + Padded(d.year, 4)
  }

  /** "yyyy-MM-dd HH:mm:ss". */
  function FormatYmdHms(t: Instant): string
  {
    var d := DateOf(t);
    var s := (t % TicksPerDay) / TicksPerSecond;
    Padded(d.year, 4) + "-" + Padded(d.month, 2) + "-" + Padded(d.day, 2) + " "
      + Padded(s / 3600, 2) + ":" + Padded(s / 60 % 60, 2) + ":" + Padded(s % 60, 2)
  }

  /** Within `DateTime`'s range, "yyyyMMdd" is eight characters wide, and two
      instants render alike exactly when they fall on the same day. */
  lemma FormatYmdDistinguishesDays(t1: Instant, t2: Instant)
    requires InDateTimeRange(t1) && InDateTimeRange(t2)
    ensures |FormatYmd(t1)| == 8
    ensures FormatYmd(t1) == FormatYmd(t2) <==> t1 / TicksPerDay == t2 / TicksPerDay
  {
    var d1, d2 := DateOf(t1), DateOf(t2);
    assert Pow10(2) == 100 && Pow10(4) == 10000 by {
      assert Pow10(1) == 10;
      assert Pow10(3) == 1000;
    }
    PaddedRoundTrip(d1.year, 4);
    PaddedRoundTrip(d1.month, 2);
    PaddedRoundTrip(d1.day, 2);
    PaddedRoundTrip(d2.year, 4);
    PaddedRoundTrip(d2.month, 2);
    PaddedRoundTrip(d2.day, 2);
    var y1, y2 := Padded(d1.year, 4), Padded(d2.year, 4);
    var m1, m2 := Padded(d1.month, 2), Padded(d2.month, 2);
    var a1, a2 := Padded(d1.day, 2), Padded(d2.day, 2);
    if FormatYmd(t1) == FormatYmd(t2) {
      var f := FormatYmd(t1);
      assert y1 == f[..4] == y2;
      assert m1 == f[4..6] == m2;
      assert a1 == f[6..] == a2;
      PaddedInjective(d1.year, d2.year, 4);
      PaddedInjective(d1.month, d2.month, 2);
      PaddedInjective(d1.day, d2.day, 2);
      assert d1 == d2;
    }
  }
}
