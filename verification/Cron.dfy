/** Cron fields and the "next run" search. */
module Cron {
  import opened Calendar

  /* ---------- Fields ---------- */

  datatype Range = Star | Span(first: int, last: int) | Single(value: int)

  // A part without a "/" has step 1.
  datatype Part = Part(range: Range, step: int)

  datatype CronError = EmptyField | StepNotPositive | OutOfBounds

  datatype Result<T> = Ok(value: T) | Err(error: CronError)

  function First(p: Part, minVal: int): int {
    match p.range case Star => minVal case Span(a, _) => a case Single(n) => n
  }

  function Last(p: Part, maxVal: int): int {
    match p.range case Star => maxVal case Span(_, b) => b case Single(n) => n
  }

  predicate GoodPart(p: Part, minVal: int, maxVal: int) {
    p.step > 0 && minVal <= First(p, minVal) <= Last(p, maxVal) <= maxVal
  }

  // What a part denotes: every `step`-th value of its range, from the start of the range.
  predicate Selects(p: Part, minVal: int, maxVal: int, v: int) {
    p.step > 0 && First(p, minVal) <= v <= Last(p, maxVal) && (v - First(p, minVal)) % p.step == 0
  }

  lemma RemainderAfter(step: int, k: int, r: int)
    requires 0 <= r < step
    ensures (step * k + r) % step == r
  {
    var n := step * k + r;
    assert n == step * (n / step) + n % step;
    assert step * (k - n / step) == n % step - r by {
      assert step * (k - n / step) == step * k - step * (n / step);
    }
    MultiplesAreApart(step, k - n / step);
  }

  method ParsePart(p: Part, minVal: int, maxVal: int, seen: set<int>) returns (allowed: set<int>)
    requires GoodPart(p, minVal, maxVal)
    ensures forall v :: v in allowed <==> v in seen || Selects(p, minVal, maxVal, v)
    ensures NonEmpty(allowed)
  {
    var start, end := First(p, minVal), Last(p, maxVal);
    allowed := seen;
    var val := start;
    ghost var k := 0;
    while val <= end
      invariant 0 <= k && val == start + p.step * k
      invariant forall v :: v in allowed <==> v in seen || (Selects(p, minVal, maxVal, v) && v < val)
      invariant k > 0 ==> start in allowed
      decreases end - val
    {
      allowed := allowed + {val};
      RemainderAfter(p.step, k, 0);
      forall v | val < v < val + p.step
        ensures !Selects(p, minVal, maxVal, v)
      {
        RemainderAfter(p.step, k, v - val);
      }
      val, k := val + p.step, k + 1;
    }
  }

  predicate GoodField(parts: seq<Part>, minVal: int, maxVal: int) {
    parts != [] && forall i :: 0 <= i < |parts| ==> GoodPart(parts[i], minVal, maxVal)
  }

  ghost predicate Denotes(parts: seq<Part>, minVal: int, maxVal: int, v: int) {
    exists i :: 0 <= i < |parts| && Selects(parts[i], minVal, maxVal, v)
  }

  ghost predicate NonEmpty(vs: set<int>) {
    exists v :: v in vs
  }

  /** A field is accepted exactly when it has a part and every part has a positive step and
      stays within the field's bounds; it then allows exactly the values its parts select. */
  method ParseField(parts: seq<Part>, minVal: int, maxVal: int) returns (r: Result<set<int>>)
    ensures r.Ok? <==> GoodField(parts, minVal, maxVal)
    ensures r.Ok? ==> NonEmpty(r.value) && forall v :: v in r.value ==> minVal <= v <= maxVal
    ensures r.Ok? ==> forall v :: v in r.value <==> Denotes(parts, minVal, maxVal, v)
  {
    if parts == [] {
      return Err(EmptyField);
    }
    var allowed: set<int> := {};
    var i := 0;
    while i < |parts|
      invariant 0 <= i <= |parts|
      invariant forall j :: 0 <= j < i ==> GoodPart(parts[j], minVal, maxVal)
      invariant i > 0 ==> NonEmpty(allowed)
      invariant forall v :: v in allowed <==> exists j :: 0 <= j < i && Selects(parts[j], minVal, maxVal, v)
    {
      var part := parts[i];
      if part.step <= 0 {
        assert !GoodPart(parts[i], minVal, maxVal);
        return Err(StepNotPositive);
      }
      if First(part, minVal) < minVal || Last(part, maxVal) > maxVal || First(part, minVal) > Last(part, maxVal) {
        assert !GoodPart(parts[i], minVal, maxVal);
        return Err(OutOfBounds);
      }
      allowed := ParsePart(part, minVal, maxVal, allowed);
      i := i + 1;
    }
    return Ok(allowed);
  }

  /* ---------- Schedules ---------- */

  datatype Schedule = Schedule(minutes: set<int>, hours: set<int>, daysOfMonth: set<int>,
                               months: set<int>, daysOfWeek: set<int>)
  {
    // What construction guarantees: no field is empty and every value is in range.
    ghost predicate Valid() {
      && NonEmpty(minutes) && (forall v :: v in minutes ==> 0 <= v < 60)
      && NonEmpty(hours) && (forall v :: v in hours ==> 0 <= v < 24)
      && NonEmpty(daysOfMonth) && (forall v :: v in daysOfMonth ==> 1 <= v <= 31)
      && NonEmpty(months) && (forall v :: v in months ==> 1 <= v <= 12)
      && NonEmpty(daysOfWeek) && (forall v :: v in daysOfWeek ==> 0 <= v < 7)
    }
  }

  datatype Fields = Fields(minute: seq<Part>, hour: seq<Part>, dayOfMonth: seq<Part>,
                           month: seq<Part>, dayOfWeek: seq<Part>)

  /** Construction accepts exactly the well-formed field lists and always yields a valid
      schedule; 7 and 0 are both Sunday. */
  method ParseSchedule(f: Fields) returns (r: Result<Schedule>)
    ensures r.Ok? <==> GoodField(f.minute, 0, 59) && GoodField(f.hour, 0, 23)
                       && GoodField(f.dayOfMonth, 1, 31) && GoodField(f.month, 1, 12)
                       && GoodField(f.dayOfWeek, 0, 7)
    ensures r.Ok? ==> r.value.Valid()
    ensures r.Ok? ==> forall v :: v in r.value.minutes <==> Denotes(f.minute, 0, 59, v)
    ensures r.Ok? ==> forall v :: v in r.value.hours <==> Denotes(f.hour, 0, 23, v)
    ensures r.Ok? ==> forall v :: v in r.value.daysOfMonth <==> Denotes(f.dayOfMonth, 1, 31, v)
    ensures r.Ok? ==> forall v :: v in r.value.months <==> Denotes(f.month, 1, 12, v)
    ensures r.Ok? ==> forall v :: v in r.value.daysOfWeek <==>
                        (v != 7 && Denotes(f.dayOfWeek, 0, 7, v)) || (v == 0 && Denotes(f.dayOfWeek, 0, 7, 7))
  {
    hide GoodField, Denotes;
    var minutes := ParseField(f.minute, 0, 59);
    if minutes.Err? { return Err(minutes.error); }
    var hours := ParseField(f.hour, 0, 23);
    if hours.Err? { return Err(hours.error); }
    var doms := ParseField(f.dayOfMonth, 1, 31);
    if doms.Err? { return Err(doms.error); }
    var months := ParseField(f.month, 1, 12);
    if months.Err? { return Err(months.error); }
    var raw := ParseField(f.dayOfWeek, 0, 7);
    if raw.Err? { return Err(raw.error); }
    var dows := set d | d in raw.value :: if d == 7 then 0 else d;
    var some :| some in raw.value;
    assert (if some == 7 then 0 else some) in dows;
    assert 7 in raw.value ==> 0 in dows;
    assert forall d :: d in raw.value && d != 7 ==> d in dows;
    hide NonEmpty;
    r := Ok(Schedule(minutes.value, hours.value, doms.value, months.value, dows));
  }

  /* ---------- Which minutes a schedule asks for ---------- */

  predicate MonthMatches(s: Schedule, d: Date) {
    d.month in s.months
  }

  // Both day fields must match: the code requires both, unlike POSIX crontab.
  predicate DayMatches(s: Schedule, d: Date)
    requires ValidDate(d)
  {
    d.day in s.daysOfMonth && CronWeekday(d) in s.daysOfWeek
  }

  predicate EveryDay(s: Schedule) {
    forall d :: 1 <= d <= 31 ==> d in s.daysOfMonth
  }

  predicate EveryWeekday(s: Schedule) {
    forall w :: 0 <= w < 7 ==> w in s.daysOfWeek
  }

  // The rule the code's comment gives: two restricted day fields match when either of them does.
  // `open` says that one of the two fields is written as a star.
  predicate EitherDayMatches(s: Schedule, open: bool, d: Date)
    requires ValidDate(d)
  {
    if open then DayMatches(s, d)
    else d.day in s.daysOfMonth || CronWeekday(d) in s.daysOfWeek
  }

  /** The two rules agree on every date exactly when one field is a star, or both admit every day. */
  lemma EitherRuleAgreesExactlyWhen(s: Schedule, open: bool)
    requires s.Valid()
    ensures (forall d :: ValidDate(d) ==> (DayMatches(s, d) <==> EitherDayMatches(s, open, d)))
            <==> open || (EveryDay(s) && EveryWeekday(s))
  {
    hide CronWeekday;
    if open {
    } else if EveryDay(s) && EveryWeekday(s) {
      forall d | ValidDate(d) ensures DayMatches(s, d) && EitherDayMatches(s, open, d) {
        assert CronWeekday(d) in s.daysOfWeek by { CronWeekdayIsOrdinal(d); }
      }
    } else {
      var day, weekday;
      if !EveryDay(s) {
        day :| 1 <= day <= 31 && day !in s.daysOfMonth;
        weekday :| weekday in s.daysOfWeek;
      } else {
        day :| day in s.daysOfMonth;
        weekday :| 0 <= weekday < 7 && weekday !in s.daysOfWeek;
      }
      var date := EveryDateMeetsEveryWeekday(1, 1, day, weekday);
      assert !DayMatches(s, date) && EitherDayMatches(s, open, date);
    }
  }

  /** One such schedule: the 13th and Fridays. Saturday the 13th of January of year 1 is a run under
      the rule of the comment and not under the code. */
  lemma ThirteenthOrFriday()
    ensures var s, d := Schedule({0}, {0}, {13}, {1, 2, 3, 4, 5, 6, 7, 8, 9, 10, 11, 12}, {5}), Date(1, 1, 13);
            s.Valid() && ValidDate(d) && EitherDayMatches(s, false, d) && !DayMatches(s, d)
  {
    var s, d := Schedule({0}, {0}, {13}, {1, 2, 3, 4, 5, 6, 7, 8, 9, 10, 11, 12}, {5}), Date(1, 1, 13);
    assert 0 in s.minutes && 0 in s.hours && 13 in s.daysOfMonth && 1 in s.months && 5 in s.daysOfWeek;
    assert Ordinal(d) == 13;
    CronWeekdayIsOrdinal(d);
  }

  predicate Matches(s: Schedule, t: Moment)
    requires ValidMoment(t)
  {
    MonthMatches(s, t.date) && DayMatches(s, t.date) && t.hour in s.hours && t.minute in s.minutes
  }

  // No matching minute m with after < m < end.
  ghost predicate NoMatchBetween(s: Schedule, after: int, end: int) {
    forall e {:trigger Minutes(e)} :: ValidMoment(e) && after < Minutes(e) < end ==> !Matches(s, e)
  }

  // `next` is the least matching minute strictly after minute number `after`.
  ghost predicate IsNext(s: Schedule, after: int, next: Moment) {
    ValidMoment(next) && Matches(s, next) && after < Minutes(next) && NoMatchBetween(s, after, Minutes(next))
  }

  lemma OnMonday(s: Schedule, e: Moment, ordinal: int)
    requires s.daysOfWeek == {1} && ValidMoment(e) && Matches(s, e)
    requires ordinal % 7 == 1 && ordinal - 7 < Ordinal(e.date) <= ordinal
    ensures Ordinal(e.date) == ordinal
  {
    hide Ordinal, CronWeekday;
    CronWeekdayIsOrdinal(e.date);
    QuotientIs(ordinal, 7, ordinal / 7);
  }

  lemma OrdinalWithin(a: Moment, e: Moment, b: Moment)
    ensures ValidMoment(a) && ValidMoment(e) && ValidMoment(b) && Minutes(a) < Minutes(e) < Minutes(b) ==>
              Ordinal(a.date) <= Ordinal(e.date) <= Ordinal(b.date)
    ensures ValidMoment(a) && ValidMoment(e) && ValidMoment(b) && Minutes(a) < Minutes(e) < Minutes(b) ==>
              (Ordinal(e.date) == Ordinal(b.date) ==> e.hour < b.hour || (e.hour == b.hour && e.minute < b.minute))
  {
    hide Ordinal;
  }

  /** "30 9 * * 1", asked as Thursday, 1 January 2026 begins: the next run is on Monday the 5th, at 09:30. */
  lemma NextMonday(s: Schedule)
    requires s.Valid() && s.minutes == {30} && s.hours == {9} && s.daysOfWeek == {1}
    requires EveryDay(s) && 1 in s.months
    ensures ValidDate(Date(2026, 1, 1)) && CronWeekday(Date(2026, 1, 1)) == 4
    ensures IsNext(s, Minutes(StartOfDay(Date(2026, 1, 1))), Moment(Date(2026, 1, 5), 9, 30))
  {
    var asked, next := StartOfDay(Date(2026, 1, 1)), Moment(Date(2026, 1, 5), 9, 30);
    hide Ordinal, CronWeekday, Minutes, Schedule.Valid, Matches;
    KnownDays();
    assert 5 in s.daysOfMonth;
    MinutesAre(asked);
    MinutesAre(next);
    assert Matches(s, next) by { MatchesMeans(s, next); }
    forall e {:trigger Minutes(e)} | ValidMoment(e) && Minutes(asked) < Minutes(e) < Minutes(next)
      ensures !Matches(s, e)
    {
      OrdinalWithin(asked, e, next);
      if Matches(s, e) {
        MatchesMeans(s, e);
        OnMonday(s, e, 739621);
      }
    }
  }

  lemma MinutesAre(t: Moment)
    ensures ValidMoment(t) ==> Minutes(t) == 1440 * Ordinal(t.date) + 60 * t.hour + t.minute
  {
    hide Ordinal;
  }

  lemma MatchesMeans(s: Schedule, t: Moment)
    requires ValidMoment(t)
    ensures Matches(s, t) <==> && t.date.month in s.months && t.date.day in s.daysOfMonth
                               && CronWeekday(t.date) in s.daysOfWeek && t.hour in s.hours && t.minute in s.minutes
  {
    hide CronWeekday;
  }

  // Some date of the calendar has an allowed month and an allowed day of month.
  predicate Feasible(s: Schedule) {
    exists m, d :: 1 <= m <= 12 && 1 <= d <= DaysInMonth(2000, m) && m in s.months && d in s.daysOfMonth
  }

  /* ---------- The skipping search ---------- */

  const MAX_ITERATIONS := 5 * 366 * 24 * 60

  datatype Outcome = Found(at: Moment) | NotFound | OutOfRange

  lemma SkipMonth(s: Schedule, after: int, t: Moment)
    requires ValidMoment(t) && NoMatchBetween(s, after, Minutes(t)) && !MonthMatches(s, t.date)
    ensures ValidDate(FirstOfNextMonth(t.date))
    ensures Ordinal(t.date) < Ordinal(FirstOfNextMonth(t.date))
    ensures NoMatchBetween(s, after, Minutes(StartOfDay(FirstOfNextMonth(t.date))))
  {
    FirstOfNextMonthOrdinal(t.date);
    var next := StartOfDay(FirstOfNextMonth(t.date));
    forall e {:trigger Minutes(e)} | ValidMoment(e) && after < Minutes(e) < Minutes(next)
      ensures !Matches(s, e)
    {
      if Minutes(t) <= Minutes(e) {
        MomentOrder(t, e);
        OrdinalOrders(e.date, next.date);
      }
    }
  }

  lemma SkipDay(s: Schedule, after: int, t: Moment)
    requires ValidMoment(t) && NoMatchBetween(s, after, Minutes(t)) && !DayMatches(s, t.date)
    ensures ValidDate(NextDay(t.date)) && Ordinal(NextDay(t.date)) == Ordinal(t.date) + 1
    ensures NoMatchBetween(s, after, Minutes(StartOfDay(NextDay(t.date))))
  {
    NextDayOrdinal(t.date);
    var next := StartOfDay(NextDay(t.date));
    forall e {:trigger Minutes(e)} | ValidMoment(e) && after < Minutes(e) < Minutes(next)
      ensures !Matches(s, e)
    {
      if Minutes(t) <= Minutes(e) {
        MomentOrder(t, e);
        OrdinalOrders(t.date, e.date);
      }
    }
  }

  lemma SkipHour(s: Schedule, after: int, t: Moment)
    requires ValidMoment(t) && NoMatchBetween(s, after, Minutes(t)) && t.hour !in s.hours
    ensures var next := NextHour(t).(minute := 0);
            ValidMoment(next) && Minutes(next) == Minutes(t) - t.minute + 60
            && NoMatchBetween(s, after, Minutes(next))
  {
    NextMinuteCounts(t);
    var next := NextHour(t).(minute := 0);
    forall e {:trigger Minutes(e)} | ValidMoment(e) && after < Minutes(e) < Minutes(next)
      ensures !Matches(s, e)
    {
      if Minutes(t) <= Minutes(e) {
        MomentOrder(t, e);
        OrdinalOrders(t.date, e.date);
        assert Ordinal(e.date) == Ordinal(t.date);
      }
    }
  }

  lemma SkipMinute(s: Schedule, after: int, t: Moment)
    requires ValidMoment(t) && NoMatchBetween(s, after, Minutes(t)) && !Matches(s, t)
    ensures ValidMoment(NextMinute(t)) && Minutes(NextMinute(t)) == Minutes(t) + 1
    ensures NoMatchBetween(s, after, Minutes(NextMinute(t)))
  {
    NextMinuteCounts(t);
    forall e {:trigger Minutes(e)} | ValidMoment(e) && after < Minutes(e) < Minutes(NextMinute(t))
      ensures !Matches(s, e)
    {
      MomentOrder(t, e);
    }
  }

  /* ---------- How fast the search moves ---------- */

  // The most iterations one month can cost when no date is ever accepted.
  function MonthCost(m: int): (c: int)
    ensures 1 <= c <= 30
  {
    if m == 2 then 29 else if m == 4 || m == 6 || m == 9 || m == 11 then 30 else 1
  }

  function CostBefore(m: int): int
    requires 1 <= m
  {
    if m == 1 then 0 else CostBefore(m - 1) + MonthCost(m - 1)
  }

  const YEAR_COST := 156

  function Spent(d: Date): int
    requires 1 <= d.month
  {
    YEAR_COST * d.year + CostBefore(d.month)
    + (if d.day <= MonthCost(d.month) then d.day else MonthCost(d.month))
  }

  lemma CostTable()
    ensures CostBefore(12) + MonthCost(12) == YEAR_COST
    ensures forall m :: 1 <= m <= 12 ==> 0 <= CostBefore(m) && CostBefore(m) + MonthCost(m) <= YEAR_COST
  {
    assert CostBefore(2) == 1 && CostBefore(3) == 30 && CostBefore(4) == 31;
    assert CostBefore(5) == 61 && CostBefore(6) == 62 && CostBefore(7) == 92;
    assert CostBefore(8) == 93 && CostBefore(9) == 94 && CostBefore(10) == 124;
    assert CostBefore(11) == 125 && CostBefore(12) == 155;
    forall m | 1 <= m <= 12
      ensures 0 <= CostBefore(m) && CostBefore(m) + MonthCost(m) <= YEAR_COST
    {
      assert m == 1 || m == 2 || m == 3 || m == 4 || m == 5 || m == 6
          || m == 7 || m == 8 || m == 9 || m == 10 || m == 11 || m == 12;
    }
  }

  lemma MonthSkipSpends(d: Date)
    requires ValidDate(d)
    ensures Spent(FirstOfNextMonth(d)) >= Spent(d) + 1
  {
    if d.month == 12 {
      CostTable();
    }
  }

  lemma DaySkipSpends(d: Date)
    requires ValidDate(d) && MonthCost(d.month) > 1
    ensures Spent(NextDay(d)) >= Spent(d) + 1
  {
    MonthSkipSpends(d);
  }

  lemma InfeasibleDay(s: Schedule, d: Date)
    requires s.Valid() && !Feasible(s) && ValidDate(d) && MonthMatches(s, d)
    ensures !DayMatches(s, d) && MonthCost(d.month) > 1
  {
    var some :| some in s.daysOfMonth;
    assert !(1 <= d.month <= 12 && 1 <= some <= DaysInMonth(2000, d.month) && d.month in s.months && some in s.daysOfMonth);
    assert !(1 <= d.month <= 12 && 1 <= d.day <= DaysInMonth(2000, d.month) && d.month in s.months && d.day in s.daysOfMonth);
  }

  /** A feasible schedule has a run within 425 years of any moment. */
  lemma FeasibleSoon(s: Schedule, t: Moment) returns (e: Moment)
    requires s.Valid() && Feasible(s) && ValidMoment(t)
    ensures ValidMoment(e) && Matches(s, e) && Minutes(t) < Minutes(e)
    ensures e.date.year <= t.date.year + 424
    ensures Ordinal(e.date) <= Ordinal(t.date) + 366 * 425
  {
    var m, d :| 1 <= m <= 12 && 1 <= d <= DaysInMonth(2000, m) && m in s.months && d in s.daysOfMonth;
    var w :| w in s.daysOfWeek;
    var h :| h in s.hours;
    var mi :| mi in s.minutes;
    var date := EveryDateMeetsEveryWeekday(t.date.year, m, d, w);
    e := Moment(date, h, mi);
    OrdinalOrders(t.date, date);
    InsideYear(t.date);
    InsideYear(date);
    YearsAccumulate(t.date.year, date.year + 1);
  }

  // The pace of the search: `iterations` are accounted for by the distance from `first` to `t`.
  ghost predicate Pace(s: Schedule, first: Moment, t: Moment, iterations: int)
    requires ValidMoment(first) && ValidMoment(t)
  {
    && Minutes(first) <= Minutes(t)
    && (t.date == first.date ==> iterations <= Minutes(t) - Minutes(first))
    && (t.date != first.date ==>
          && iterations <= MINUTES_PER_DAY + Ordinal(t.date) - Ordinal(first.date) + MinuteOfDay(t)
          && (!(MonthMatches(s, t.date) && DayMatches(s, t.date)) ==> MinuteOfDay(t) == 0))
    && (!Feasible(s) ==> iterations <= Spent(t.date) - Spent(first.date))
  }

  lemma PaceToNewDay(s: Schedule, first: Moment, t: Moment, next: Date, iterations: int)
    requires ValidMoment(first) && ValidMoment(t) && ValidDate(next) && Pace(s, first, t, iterations)
    requires !(MonthMatches(s, t.date) && DayMatches(s, t.date)) || t.date == first.date
    requires Ordinal(t.date) < Ordinal(next)
    requires !Feasible(s) ==> Spent(next) >= Spent(t.date) + 1
    ensures Pace(s, first, StartOfDay(next), iterations + 1)
  {
    MomentOrder(first, t);
    OrdinalOrders(t.date, next);
    OrdinalOrders(first.date, t.date);
  }

  lemma PaceWithinDay(s: Schedule, first: Moment, t: Moment, next: Moment, iterations: int)
    requires s.Valid() && ValidMoment(first) && ValidMoment(t) && ValidMoment(next)
    requires Pace(s, first, t, iterations)
    requires NoMatchBetween(s, Minutes(first) - 1, Minutes(t))
    requires MonthMatches(s, t.date) && DayMatches(s, t.date)
    requires Minutes(t) < Minutes(next)
    requires next.date == t.date || (next == StartOfDay(NextDay(t.date)))
    requires next.date != t.date ==> NoMatchBetween(s, Minutes(first) - 1, Minutes(next))
    ensures Pace(s, first, next, iterations + 1)
  {
    if !Feasible(s) {
      InfeasibleDay(s, t.date);
    } else if next.date != t.date {
      NextDayOrdinal(t.date);
      if t.date != first.date {
        // A matching day still has its run ahead, so that the search cannot have left it.
        var h, m :| h in s.hours && m in s.minutes;
        var e := Moment(t.date, h, m);
        MomentOrder(first, t);
        OrdinalOrders(first.date, t.date);
        assert Minutes(first) - 1 < Minutes(e) < Minutes(next) && Matches(s, e);
      } else {
        PaceToNewDay(s, first, t, NextDay(t.date), iterations);
      }
    }
  }

  // The loop invariant of the search after `iterations` passes.
  ghost predicate Searching(s: Schedule, from: Moment, t: Moment, iterations: int)
    requires ValidMoment(from)
  {
    NextMinuteCounts(from);
    && ValidMoment(t)
    && NoMatchBetween(s, Minutes(from), Minutes(t))
    && Pace(s, NextMinute(from), t, iterations)
  }

  lemma StartSearch(s: Schedule, from: Moment)
    requires ValidMoment(from)
    ensures ValidMoment(NextMinute(from)) && Searching(s, from, NextMinute(from), 0)
  {
    NextMinuteCounts(from);
  }

  lemma MonthStep(s: Schedule, from: Moment, t: Moment, iterations: int)
    requires s.Valid() && ValidMoment(from) && Searching(s, from, t, iterations)
    requires !MonthMatches(s, t.date)
    ensures ValidMoment(StartOfDay(FirstOfNextMonth(t.date)))
    ensures Searching(s, from, StartOfDay(FirstOfNextMonth(t.date)), iterations + 1)
  {
    NextMinuteCounts(from);
    SkipMonth(s, Minutes(from), t);
    MonthSkipSpends(t.date);
    PaceToNewDay(s, NextMinute(from), t, FirstOfNextMonth(t.date), iterations);
  }

  lemma DayStep(s: Schedule, from: Moment, t: Moment, iterations: int)
    requires s.Valid() && ValidMoment(from) && Searching(s, from, t, iterations)
    requires MonthMatches(s, t.date) && !DayMatches(s, t.date)
    ensures ValidMoment(StartOfDay(NextDay(t.date)))
    ensures Searching(s, from, StartOfDay(NextDay(t.date)), iterations + 1)
  {
    NextMinuteCounts(from);
    SkipDay(s, Minutes(from), t);
    if !Feasible(s) {
      InfeasibleDay(s, t.date);
      DaySkipSpends(t.date);
    }
    PaceToNewDay(s, NextMinute(from), t, NextDay(t.date), iterations);
  }

  lemma HourStep(s: Schedule, from: Moment, t: Moment, iterations: int)
    requires s.Valid() && ValidMoment(from) && Searching(s, from, t, iterations)
    requires MonthMatches(s, t.date) && DayMatches(s, t.date) && t.hour !in s.hours
    ensures ValidMoment(NextHour(t).(minute := 0))
    ensures Searching(s, from, NextHour(t).(minute := 0), iterations + 1)
  {
    NextMinuteCounts(from);
    SkipHour(s, Minutes(from), t);
    PaceWithinDay(s, NextMinute(from), t, NextHour(t).(minute := 0), iterations);
  }

  lemma MinuteStep(s: Schedule, from: Moment, t: Moment, iterations: int)
    requires s.Valid() && ValidMoment(from) && Searching(s, from, t, iterations)
    requires MonthMatches(s, t.date) && DayMatches(s, t.date) && t.minute !in s.minutes
    ensures ValidMoment(NextMinute(t))
    ensures Searching(s, from, NextMinute(t), iterations + 1)
  {
    NextMinuteCounts(from);
    SkipMinute(s, Minutes(from), t);
    PaceWithinDay(s, NextMinute(from), t, NextMinute(t), iterations);
  }

  /** The iteration cap is never what ends the search. */
  lemma CapIsNotReached(s: Schedule, from: Moment, t: Moment, iterations: int)
    requires s.Valid() && ValidMoment(from) && Searching(s, from, t, iterations)
    requires t.date.year <= MAX_YEAR
    ensures iterations < MAX_ITERATIONS
  {
    NextMinuteCounts(from);
    var first := NextMinute(from);
    MomentOrder(first, t);
    if Feasible(s) {
      var e := FeasibleSoon(s, first);
      assert Minutes(t) <= Minutes(e);
      MomentOrder(t, e);
    } else {
      CostTable();
      OrdinalOrders(first.date, t.date);
    }
  }

  // No run after minute number `after` before the calendar ends.
  ghost predicate NoMatchLeft(s: Schedule, after: int) {
    forall e {:trigger Minutes(e)} ::
      ValidMoment(e) && after < Minutes(e) && e.date.year <= MAX_YEAR ==> !Matches(s, e)
  }

  lemma BeyondTheCalendar(s: Schedule, from: Moment, t: Moment, iterations: int)
    requires ValidMoment(from) && Searching(s, from, t, iterations) && t.date.year > MAX_YEAR
    ensures NoMatchLeft(s, Minutes(from))
  {
    forall e {:trigger Minutes(e)} | ValidMoment(e) && Minutes(from) < Minutes(e) && e.date.year <= MAX_YEAR
      ensures !Matches(s, e)
    {
      OrdinalOrders(e.date, t.date);
    }
  }

  lemma StopAtMatch(s: Schedule, from: Moment, t: Moment, iterations: int)
    requires ValidMoment(from) && Searching(s, from, t, iterations) && Matches(s, t)
    ensures IsNext(s, Minutes(from), t)
    ensures t.date.year <= MAX_YEAR ==> !NoMatchLeft(s, Minutes(from))
  {
    NextMinuteCounts(from);
  }

  /** The search: it stops at the least matching minute after `from`, or leaves the calendar
      because there is none up to the end of year 9999. Its "not found" error never happens. */
  method NextAfter(s: Schedule, from: Moment) returns (r: Outcome)
    requires s.Valid() && ValidMoment(from) && from.date.year <= MAX_YEAR
    ensures r.Found? ==> IsNext(s, Minutes(from), r.at) && r.at.date.year <= MAX_YEAR
    ensures r.OutOfRange? ==> NoMatchLeft(s, Minutes(from))
    ensures r != NotFound
    ensures from.date.year + 425 <= MAX_YEAR ==> (r.Found? <==> Feasible(s))
  {
    hide Searching, NoMatchLeft, IsNext, ValidDate, FirstOfNextMonth, NextDay, NextHour, NextMinute,
      StartOfDay, Ordinal, Minutes, Weekday, CronWeekday, Feasible;
    MatchesRemainExactlyWhenFeasible(s, from);
    StartSearch(s, from);
    var dt := NextMinute(from);
    if dt.date.year > MAX_YEAR {
      BeyondTheCalendar(s, from, dt, 0);
      return OutOfRange;
    }
    var iterations := 0;
    while iterations < MAX_ITERATIONS
      invariant 0 <= iterations < MAX_ITERATIONS
      invariant ValidMoment(dt) && dt.date.year <= MAX_YEAR
      invariant Searching(s, from, dt, iterations)
      decreases MAX_ITERATIONS - iterations
    {
      iterations := iterations + 1;
      if dt.date.month !in s.months {
        MonthStep(s, from, dt, iterations - 1);
        dt := StartOfDay(FirstOfNextMonth(dt.date));
      } else if !(dt.date.day in s.daysOfMonth && CronWeekday(dt.date) in s.daysOfWeek) {
        DayStep(s, from, dt, iterations - 1);
        dt := StartOfDay(NextDay(dt.date));
      } else if dt.hour !in s.hours {
        HourStep(s, from, dt, iterations - 1);
        dt := NextHour(dt).(minute := 0);
      } else if dt.minute !in s.minutes {
        MinuteStep(s, from, dt, iterations - 1);
        dt := NextMinute(dt);
      } else {
        StopAtMatch(s, from, dt, iterations - 1);
        return Found(dt);
      }
      if dt.date.year > MAX_YEAR {
        BeyondTheCalendar(s, from, dt, iterations);
        return OutOfRange;
      }
      CapIsNotReached(s, from, dt, iterations);
    }
    assert false;
    r := NotFound;
  }

  /* ---------- What the search means ---------- */

  /** While 425 years of calendar remain, a run is left exactly when the month and day-of-month
      sets admit a real date. */
  lemma MatchesRemainExactlyWhenFeasible(s: Schedule, from: Moment)
    requires s.Valid() && ValidMoment(from)
    ensures from.date.year + 425 <= MAX_YEAR ==> (Feasible(s) <==> !NoMatchLeft(s, Minutes(from)))
  {
    if Feasible(s) {
      var e := FeasibleSoon(s, from);
      assert Minutes(from) < Minutes(e) && Matches(s, e);
    } else {
      InfeasibleNeverMatches(s);
    }
  }

  lemma InfeasibleNeverMatches(s: Schedule)
    requires s.Valid() && !Feasible(s)
    ensures forall e :: ValidMoment(e) ==> !Matches(s, e)
  {
    forall e | ValidMoment(e)
      ensures !Matches(s, e)
    {
      if MonthMatches(s, e.date) {
        InfeasibleDay(s, e.date);
      }
    }
  }

  /** The reference: look at one minute after another, at most `tries` of them. */
  function Scan(s: Schedule, t: Moment, tries: nat): Outcome
    requires ValidMoment(t)
    decreases tries
  {
    if tries == 0 then NotFound
    else if Matches(s, t) then Found(t)
    else NextMinuteCounts(t); Scan(s, NextMinute(t), tries - 1)
  }

  /** The least match is what a minute-by-minute scan reports, and a scan too short to reach
      it reports nothing. */
  lemma {:induction false} ScanFindsTheSame(s: Schedule, t: Moment, next: Moment, tries: nat)
    requires ValidMoment(t) && IsNext(s, Minutes(t) - 1, next)
    ensures Scan(s, t, tries) == if Minutes(next) - Minutes(t) < tries then Found(next) else NotFound
    decreases tries
  {
    if tries == 0 {
    } else {
      MomentOrder(t, next);
      if !Matches(s, t) {
        NextMinuteCounts(t);
        ScanFindsTheSame(s, NextMinute(t), next, tries - 1);
      }
    }
  }

  lemma {:induction false} ScanFindsNothing(s: Schedule, t: Moment, tries: nat)
    requires ValidMoment(t) && NoMatchBetween(s, Minutes(t) - 1, Minutes(t) + tries)
    ensures Scan(s, t, tries) == NotFound
    decreases tries
  {
    if tries == 0 {
    } else {
      NextMinuteCounts(t);
      ScanFindsNothing(s, NextMinute(t), tries - 1);
    }
  }

  /** A search from `from` and a scan from the minute after it agree. */
  lemma SearchEqualsScan(s: Schedule, from: Moment, next: Moment, tries: nat)
    requires ValidMoment(from) && IsNext(s, Minutes(from), next)
    ensures ValidMoment(NextMinute(from))
    ensures Scan(s, NextMinute(from), tries)
            == if Minutes(next) - Minutes(from) <= tries then Found(next) else NotFound
  {
    NextMinuteCounts(from);
    ScanFindsTheSame(s, NextMinute(from), next, tries);
  }

  ghost predicate AllValid(runs: seq<Moment>) {
    forall i :: 0 <= i < |runs| ==> ValidMoment(runs[i])
  }

  // The minute the i-th search started from.
  function SearchedFrom(from: Moment, runs: seq<Moment>, i: int): int
    requires ValidMoment(from) && AllValid(runs) && 0 <= i < |runs|
  {
    if i == 0 then Minutes(from) else Minutes(runs[i - 1])
  }

  // `runs` is what feeding each answer back into the search produces.
  ghost predicate Iterated(s: Schedule, from: Moment, runs: seq<Moment>)
    requires ValidMoment(from)
  {
    AllValid(runs)
    && forall i {:trigger runs[i]} :: 0 <= i < |runs| ==> IsNext(s, SearchedFrom(from, runs, i), runs[i])
  }

  lemma {:induction false} RunsIncrease(s: Schedule, from: Moment, runs: seq<Moment>, i: int, j: int)
    requires ValidMoment(from) && Iterated(s, from, runs) && 0 <= i < j < |runs|
    ensures Minutes(from) < Minutes(runs[i]) < Minutes(runs[j])
    decreases i + j
  {
    hide Minutes, Matches, NoMatchBetween;
    assert IsNext(s, SearchedFrom(from, runs, j), runs[j]);
    assert IsNext(s, SearchedFrom(from, runs, i), runs[i]);
    if i + 1 < j {
      RunsIncrease(s, from, runs, i, j - 1);
    } else if 0 < i {
      RunsIncrease(s, from, runs, i - 1, i);
    }
  }

  /** There is only one next run. */
  lemma NextIsUnique(s: Schedule, after: int, next: Moment, e: Moment)
    requires IsNext(s, after, next)
    requires ValidMoment(e) && Matches(s, e) && after < Minutes(e) <= Minutes(next)
    ensures e == next
  {
    MomentOrder(e, next);
  }

  lemma ListedMatches(s: Schedule, from: Moment, runs: seq<Moment>, e: Moment)
    requires ValidMoment(from) && Iterated(s, from, runs) && e in runs
    ensures Matches(s, e)
  {
    var i :| 0 <= i < |runs| && runs[i] == e;
    assert IsNext(s, SearchedFrom(from, runs, i), runs[i]);
  }

  lemma {:induction false} MatchIsListed(s: Schedule, from: Moment, runs: seq<Moment>, n: int, e: Moment)
    requires ValidMoment(from) && Iterated(s, from, runs) && 0 <= n < |runs|
    requires ValidMoment(e) && Matches(s, e) && Minutes(from) < Minutes(e) <= Minutes(runs[n])
    ensures e in runs
    decreases n
  {
    hide Minutes, Matches, IsNext;
    assert IsNext(s, SearchedFrom(from, runs, n), runs[n]);
    if n > 0 && Minutes(e) <= Minutes(runs[n - 1]) {
      MatchIsListed(s, from, runs, n - 1, e);
    } else {
      NextIsUnique(s, SearchedFrom(from, runs, n), runs[n], e);
    }
  }

  /** Iterating the search lists every matching minute up to the last one listed, each exactly
      once and in increasing order. */
  lemma IterationListsEveryRun(s: Schedule, from: Moment, runs: seq<Moment>)
    requires ValidMoment(from) && Iterated(s, from, runs) && |runs| > 0
    ensures forall i, j :: 0 <= i < j < |runs| ==> Minutes(runs[i]) < Minutes(runs[j])
    ensures forall e :: ValidMoment(e) && Minutes(from) < Minutes(e) <= Minutes(runs[|runs| - 1]) ==>
                          (Matches(s, e) <==> e in runs)
  {
    hide Minutes, Matches, NoMatchBetween;
    forall i, j | 0 <= i < j < |runs|
      ensures Minutes(runs[i]) < Minutes(runs[j])
    {
      RunsIncrease(s, from, runs, i, j);
    }
    forall e | ValidMoment(e) && Minutes(from) < Minutes(e) <= Minutes(runs[|runs| - 1])
      ensures Matches(s, e) <==> e in runs
    {
      if Matches(s, e) {
        MatchIsListed(s, from, runs, |runs| - 1, e);
      }
      if e in runs {
        ListedMatches(s, from, runs, e);
      }
    }
  }
}
