/** The proleptic Gregorian calendar (ISO 8601) as Python's `datetime` counts it:
    day 1 is Monday, 1 January of year 1, and the last representable year is 9999. */
module Calendar {

  const MIN_YEAR := 1
  const MAX_YEAR := 9999
  const MINUTES_PER_DAY := 1440

  datatype Date = Date(year: int, month: int, day: int)

  /** A UTC timestamp with its seconds and microseconds dropped. */
  datatype Moment = Moment(date: Date, hour: int, minute: int)

  predicate IsLeap(y: int) {
    y % 4 == 0 && (y % 100 != 0 || y % 400 == 0)
  }

  function DaysInMonth(y: int, m: int): (n: int)
    ensures 28 <= n <= 31
  {
    if m == 2 then (if IsLeap(y) then 29 else 28)
    else if m == 4 || m == 6 || m == 9 || m == 11 then 30
    else 31
  }

  predicate ValidDate(d: Date) {
    MIN_YEAR <= d.year && 1 <= d.month <= 12 && 1 <= d.day <= DaysInMonth(d.year, d.month)
  }

  predicate ValidMoment(t: Moment) {
    ValidDate(t.date) && 0 <= t.hour < 24 && 0 <= t.minute < 60
  }

  function DaysBeforeYear(y: int): int {
    365 * (y - 1) + (y - 1) / 4 - (y - 1) / 100 + (y - 1) / 400
  }

  function DaysBeforeMonth(y: int, m: int): int
    requires 1 <= m
  {
    if m == 1 then 0 else DaysBeforeMonth(y, m - 1) + DaysInMonth(y, m - 1)
  }

  function Ordinal(d: Date): int
    requires ValidDate(d)
  {
    DaysBeforeYear(d.year) + DaysBeforeMonth(d.year, d.month) + d.day
  }

  function MinuteOfDay(t: Moment): int {
    60 * t.hour + t.minute
  }

  function Minutes(t: Moment): int
    requires ValidMoment(t)
  {
    MINUTES_PER_DAY * Ordinal(t.date) + MinuteOfDay(t)
  }

  // Python's weekday(): Monday is 0.
  function Weekday(d: Date): int
    requires ValidDate(d)
  {
    (Ordinal(d) + 6) % 7
  }

  // Cron's numbering: Sunday is 0.
  function CronWeekday(d: Date): int
    requires ValidDate(d)
  {
    (Weekday(d) + 1) % 7
  }

  /* --- Moving forward. A result past MAX_YEAR is what Python refuses to build. --- */

  function FirstOfNextMonth(d: Date): Date {
    if d.month == 12 then Date(d.year + 1, 1, 1) else Date(d.year, d.month + 1, 1)
  }

  function NextDay(d: Date): Date {
    if d.day < DaysInMonth(d.year, d.month) then d.(day := d.day + 1) else FirstOfNextMonth(d)
  }

  function NextHour(t: Moment): Moment {
    if t.hour < 23 then Moment(t.date, t.hour + 1, t.minute) else Moment(NextDay(t.date), 0, t.minute)
  }

  function NextMinute(t: Moment): Moment {
    if t.minute < 59 then t.(minute := t.minute + 1) else NextHour(t).(minute := 0)
  }

  function StartOfDay(d: Date): Moment {
    Moment(d, 0, 0)
  }

  /* --- The ordinal is a strictly increasing numbering without gaps --- */

  predicate Before(a: Date, b: Date) {
    a.year < b.year
    || (a.year == b.year && (a.month < b.month || (a.month == b.month && a.day < b.day)))
  }

  lemma {:induction false} MonthsAccumulate(y: int, m: int, m': int)
    requires 1 <= m < m'
    ensures DaysBeforeMonth(y, m) + DaysInMonth(y, m) <= DaysBeforeMonth(y, m')
  {
    if m + 1 < m' {
      MonthsAccumulate(y, m, m' - 1);
    }
  }

  lemma MonthTable(y: int)
    ensures var leap := if IsLeap(y) then 1 else 0;
            && DaysBeforeMonth(y, 2) == 31
            && DaysBeforeMonth(y, 3) == 59 + leap && DaysBeforeMonth(y, 4) == 90 + leap
            && DaysBeforeMonth(y, 5) == 120 + leap && DaysBeforeMonth(y, 6) == 151 + leap
            && DaysBeforeMonth(y, 7) == 181 + leap && DaysBeforeMonth(y, 8) == 212 + leap
            && DaysBeforeMonth(y, 9) == 243 + leap && DaysBeforeMonth(y, 10) == 273 + leap
            && DaysBeforeMonth(y, 11) == 304 + leap && DaysBeforeMonth(y, 12) == 334 + leap
  {
    assert DaysBeforeMonth(y, 4) == DaysBeforeMonth(y, 3) + 31;
    assert DaysBeforeMonth(y, 6) == DaysBeforeMonth(y, 5) + 31;
    assert DaysBeforeMonth(y, 8) == DaysBeforeMonth(y, 7) + 31;
    assert DaysBeforeMonth(y, 10) == DaysBeforeMonth(y, 9) + 30;
  }

  lemma QuotientIs(n: int, divisor: int, q: int)
    requires divisor > 0 && divisor * q <= n < divisor * q + divisor
    ensures n / divisor == q
  {
    var d := n / divisor;
    assert divisor * d <= n < divisor * d + divisor;
    assert d == q by {
      assert divisor * (d - q) < divisor && divisor * (q - d) < divisor;
      MultiplesAreApart(divisor, d - q);
    }
  }

  lemma MultiplesAreApart(step: int, x: int)
    ensures step > 0 ==> x == 0 || step * x >= step || step * x <= -step
  {
  }

  lemma NextQuotient(y: int, n: int)
    requires n > 0
    ensures y / n == (y - 1) / n + (if y % n == 0 then 1 else 0)
  {
    var q := y / n;
    assert y == n * q + y % n;
    if y % n == 0 {
      assert n * (q - 1) == n * q - n;
      QuotientIs(y - 1, n, q - 1);
    } else {
      QuotientIs(y - 1, n, q);
    }
  }

  lemma YearLength(y: int)
    ensures DaysBeforeYear(y + 1) == DaysBeforeYear(y) + (if IsLeap(y) then 366 else 365)
  {
    NextQuotient(y, 4);
    NextQuotient(y, 100);
    NextQuotient(y, 400);
  }

  lemma {:induction false} YearsAccumulate(y: int, y': int)
    requires y <= y'
    ensures DaysBeforeYear(y) + 365 * (y' - y) <= DaysBeforeYear(y') <= DaysBeforeYear(y) + 366 * (y' - y)
    decreases y' - y
  {
    if y < y' {
      YearLength(y);
      YearsAccumulate(y + 1, y');
    }
  }

  /** A date's ordinal lies within its own year. */
  lemma InsideYear(d: Date)
    requires ValidDate(d)
    ensures DaysBeforeYear(d.year) < Ordinal(d) <= DaysBeforeYear(d.year + 1)
  {
    MonthTable(d.year);
    YearLength(d.year);
    MonthsAccumulate(d.year, 1, 13);
    if d.month < 12 {
      MonthsAccumulate(d.year, d.month, 12);
    }
    if d.month > 1 {
      MonthsAccumulate(d.year, 1, d.month);
    }
  }

  lemma OrdinalIncreases(a: Date, b: Date)
    requires ValidDate(a) && ValidDate(b) && Before(a, b)
    ensures Ordinal(a) < Ordinal(b)
  {
    if a.year < b.year {
      InsideYear(a);
      InsideYear(b);
      YearsAccumulate(a.year + 1, b.year);
    } else if a.month < b.month {
      MonthsAccumulate(a.year, a.month, b.month);
    }
  }

  lemma OrdinalOrders(a: Date, b: Date)
    requires ValidDate(a) && ValidDate(b)
    ensures Ordinal(a) < Ordinal(b) <==> Before(a, b)
    ensures Ordinal(a) == Ordinal(b) <==> a == b
  {
    if Before(a, b) {
      OrdinalIncreases(a, b);
    } else if Before(b, a) {
      OrdinalIncreases(b, a);
    }
  }

  lemma FirstOfNextMonthOrdinal(d: Date)
    requires ValidDate(d)
    ensures ValidDate(FirstOfNextMonth(d))
    ensures Ordinal(FirstOfNextMonth(d)) == Ordinal(d) - d.day + DaysInMonth(d.year, d.month) + 1
  {
    if d.month == 12 {
      MonthTable(d.year);
      YearLength(d.year);
    }
  }

  /** `timedelta(days=1)` is one step of the ordinal. */
  lemma NextDayOrdinal(d: Date)
    requires ValidDate(d)
    ensures ValidDate(NextDay(d)) && Ordinal(NextDay(d)) == Ordinal(d) + 1
  {
    FirstOfNextMonthOrdinal(d);
  }

  /** `timedelta(hours=1)` and `timedelta(minutes=1)` are 60 and 1 steps of the minute count. */
  lemma NextMinuteCounts(t: Moment)
    requires ValidMoment(t)
    ensures ValidMoment(NextHour(t)) && Minutes(NextHour(t)) == Minutes(t) + 60
    ensures ValidMoment(NextMinute(t)) && Minutes(NextMinute(t)) == Minutes(t) + 1
  {
    NextDayOrdinal(t.date);
  }

  lemma MomentOrder(a: Moment, b: Moment)
    requires ValidMoment(a) && ValidMoment(b)
    ensures Minutes(a) == Minutes(b) <==> a == b
    ensures Minutes(a) <= Minutes(b) ==>
              Ordinal(a.date) <= Ordinal(b.date)
              && (a.date == b.date || Before(a.date, b.date))
  {
    OrdinalOrders(a.date, b.date);
  }

  /* --- The 400-year cycle --- */

  /** The k-th leap year after a multiple of 400 starts 1461k days later. */
  lemma FourYearSteps(b: int, k: int)
    requires b % 400 == 0 && 0 <= k <= 6
    ensures DaysBeforeYear(b + 4 * k) == DaysBeforeYear(b) + 1461 * k
    ensures IsLeap(b + 4 * k)
  {
    var c := b / 400;
    var later := if k > 0 then 1 else 0;
    assert b == 400 * c;
    QuotientIs(b - 1, 4, 100 * c - 1);
    QuotientIs(b - 1, 100, 4 * c - 1);
    QuotientIs(b - 1, 400, c - 1);
    QuotientIs(b + 4 * k - 1, 4, 100 * c - 1 + k);
    QuotientIs(b + 4 * k - 1, 100, 4 * c - 1 + later);
    QuotientIs(b + 4 * k - 1, 400, c - 1 + later);
    assert (b + 4 * k) % 4 == 0 && (b + 4 * k) % 100 == 4 * k by {
      QuotientIs(b + 4 * k, 4, 100 * c + k);
      QuotientIs(b + 4 * k, 100, 4 * c);
    }
  }

  // How many leap years after a multiple of 400 the weekday has moved on by `shift`.
  function LeapYearsToShift(shift: int): (k: int)
    ensures 0 <= k <= 6
  {
    (3 * shift) % 7
  }

  lemma WeekdayShifts(ordinal: int, w: int)
    requires 0 <= w < 7
    ensures (ordinal + 1461 * LeapYearsToShift(w - ordinal % 7)) % 7 == w
  {
    var r, q := ordinal % 7, ordinal / 7;
    var k := LeapYearsToShift(w - r);
    var z := (3 * (w - r)) / 7;
    var m := q + 626 * (w - r) - 1461 * z;
    assert k == 3 * (w - r) - 7 * z;
    assert ordinal + 1461 * k == 7 * m + w;
    QuotientIs(ordinal + 1461 * k, 7, m);
  }

  lemma MondayToSundayBase(n: int)
    ensures ((n + 6) % 7 + 1) % 7 == n % 7
  {
    var q, m := (n + 6) / 7, (n + 6) % 7;
    assert n == 7 * (q - 1) + (m + 1);
    QuotientIs(n, 7, if m == 6 then q else q - 1);
  }

  lemma CronWeekdayIsOrdinal(d: Date)
    requires ValidDate(d)
    ensures CronWeekday(d) == Ordinal(d) % 7
  {
    hide Ordinal;
    MondayToSundayBase(Ordinal(d));
  }

  /* --- Anchors: which day is which --- */

  // The date `n` days after 1 January of year 1.
  function DaysOn(n: nat): Date {
    if n == 0 then FIRST_DAY else NextDay(DaysOn(n - 1))
  }

  lemma {:induction false} DaysOnOrdinal(n: nat)
    ensures ValidDate(DaysOn(n)) && Ordinal(DaysOn(n)) == n + 1
  {
    if n == 0 {
      CountingStartsAtOne();
    } else {
      hide Ordinal, NextDay;
      DaysOnOrdinal(n - 1);
      NextDayOrdinal(DaysOn(n - 1));
    }
  }

  const FIRST_DAY := Date(1, 1, 1)

  lemma CountingStartsAtOne()
    ensures ValidDate(FIRST_DAY) && Ordinal(FIRST_DAY) == 1
  {
  }

  lemma NextRemainder(n: int)
    ensures (n + 1) % 7 == if n % 7 == 6 then 0 else n % 7 + 1
  {
    QuotientIs(n + 1, 7, if n % 7 == 6 then n / 7 + 1 else n / 7);
  }

  // No date comes before the first.
  lemma NothingIsEarlier(d: Date)
    requires ValidDate(d)
    ensures Ordinal(d) >= 1
  {
    hide Ordinal;
    CountingStartsAtOne();
    OrdinalOrders(d, FIRST_DAY);
  }

  /** The day number is a count: the first day is 1, and every date is reached from it day by day. */
  lemma OrdinalCountsDays(d: Date)
    requires ValidDate(d)
    ensures Ordinal(d) >= 1 && DaysOn(Ordinal(d) - 1) == d
  {
    hide Ordinal, DaysOn;
    NothingIsEarlier(d);
    DaysOnOrdinal(Ordinal(d) - 1);
    OrdinalOrders(DaysOn(Ordinal(d) - 1), d);
  }

  /** Weekdays go round, one a day, from the Monday that the first day is. */
  lemma WeekdaysFollow(d: Date)
    requires ValidDate(d)
    ensures d == FIRST_DAY ==> Weekday(d) == 0 && CronWeekday(d) == 1
    ensures ValidDate(NextDay(d)) && CronWeekday(NextDay(d)) == if CronWeekday(d) == 6 then 0 else CronWeekday(d) + 1
  {
    hide Ordinal, CronWeekday, NextDay;
    CountingStartsAtOne();
    NextDayOrdinal(d);
    CronWeekdayIsOrdinal(d);
    CronWeekdayIsOrdinal(NextDay(d));
    NextRemainder(Ordinal(d));
  }

  /** The leap rule: 400 years have 146097 days, and so the calendar repeats, weekdays included. */
  lemma CalendarRepeats(d: Date)
    requires ValidDate(d)
    ensures var later := d.(year := d.year + 400);
            ValidDate(later) && Ordinal(later) == Ordinal(d) + 146097 && CronWeekday(later) == CronWeekday(d)
  {
    var y, later := d.year, d.(year := d.year + 400);
    QuotientShifts(y - 1, 4, 100);
    QuotientShifts(y - 1, 100, 4);
    QuotientShifts(y - 1, 400, 1);
    LeapRepeats(y);
    SameMonths(y, y + 400, d.month);
    CronWeekdayIsOrdinal(d);
    CronWeekdayIsOrdinal(later);
    assert 146097 == 7 * 20871;
    QuotientShifts(Ordinal(d), 7, 20871);
  }

  lemma QuotientShifts(n: int, divisor: int, k: int)
    requires divisor > 0
    ensures (n + divisor * k) / divisor == n / divisor + k && (n + divisor * k) % divisor == n % divisor
  {
    assert divisor * (n / divisor + k) == divisor * (n / divisor) + divisor * k;
    QuotientIs(n + divisor * k, divisor, n / divisor + k);
  }

  lemma LeapRepeats(y: int)
    ensures IsLeap(y + 400) <==> IsLeap(y)
  {
    QuotientShifts(y, 4, 100);
    QuotientShifts(y, 100, 4);
    QuotientShifts(y, 400, 1);
  }

  lemma {:induction false} SameMonths(y: int, y': int, m: int)
    requires 1 <= m && (IsLeap(y) <==> IsLeap(y'))
    ensures DaysBeforeMonth(y, m) == DaysBeforeMonth(y', m) && DaysInMonth(y, m) == DaysInMonth(y', m)
  {
    if m > 1 {
      SameMonths(y, y', m - 1);
    }
  }

  /** Known days: centuries are leap years only every fourth time, 1 January 2000 was a Saturday, and
      5 January 2026 is a Monday. */
  lemma KnownDays()
    ensures NextDay(Date(1900, 2, 28)) == Date(1900, 3, 1) && NextDay(Date(2000, 2, 28)) == Date(2000, 2, 29)
    ensures NextDay(Date(2024, 2, 28)) == Date(2024, 2, 29) && NextDay(Date(2025, 2, 28)) == Date(2025, 3, 1)
    ensures Ordinal(Date(2000, 1, 1)) == 730120 && CronWeekday(Date(2000, 1, 1)) == 6
    ensures Ordinal(Date(2026, 1, 1)) == 739617 && CronWeekday(Date(2026, 1, 1)) == 4
    ensures Ordinal(Date(2026, 1, 5)) == 739621 && CronWeekday(Date(2026, 1, 5)) == 1
  {
  }

  /** Every day of the year, 29 February included, falls on every weekday in some
      leap year at most 424 years after any given year. */
  lemma EveryDateMeetsEveryWeekday(y: int, m: int, d: int, w: int) returns (found: Date)
    requires MIN_YEAR <= y && 1 <= m <= 12 && 1 <= d <= DaysInMonth(2000, m) && 0 <= w < 7
    ensures ValidDate(found) && found.month == m && found.day == d
    ensures CronWeekday(found) == w && y < found.year <= y + 424
  {
    var b := y + 400 - y % 400;
    assert b % 400 == 0;
    FourYearSteps(b, 0);
    var base := Date(b, m, d);
    var k := LeapYearsToShift(w - Ordinal(base) % 7);
    FourYearSteps(b, k);
    found := Date(b + 4 * k, m, d);
    SameMonths(b, b + 4 * k, m);
    assert Ordinal(found) == Ordinal(base) + 1461 * k;
    WeekdayShifts(Ordinal(base), w);
    CronWeekdayIsOrdinal(found);
  }
}
