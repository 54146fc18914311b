// `rfc3339_ms` of src/migrate.rs, from the numbers it has cut out of a timestamp to epoch
// milliseconds, against the Gregorian calendar of RFC 3339 (section 5.7 and Appendix C).
module Civil {
  datatype Date = Date(y: int, m: int, d: int)
  datatype Stamp = Stamp(date: Date, h: int, mi: int, se: int)

  // ---- The closed form ----

  // Days from 1970-01-01. The divisions are of numbers that are not negative here, so truncation
  // and flooring agree.
  function Days(c: Date): int
    requires c.y >= 1970 && c.m >= 1 && c.d >= 1
  {
    var y2 := if c.m <= 2 then c.y - 1 else c.y;
    var era := (if y2 >= 0 then y2 else y2 - 399) / 400;
    var yoe := y2 - era * 400;
    var doy := (153 * (if c.m > 2 then c.m - 3 else c.m + 9) + 2) / 5 + c.d - 1;
    var doe := yoe * 365 + yoe / 4 - yoe / 100 + doy;
    era * 146097 + doe - 719468
  }

  // No upper limit is checked, and a field that did not parse arrives as -1.
  function EpochMs(s: Stamp): int {
    if s.date.y < 1970 || s.date.m < 1 || s.date.d < 1 then 0
    else (((Days(s.date) * 24 + s.h) * 60 + s.mi) * 60 + s.se) * 1000
  }

  // ---- The calendar ----

  predicate Leap(y: int) {
    y % 4 == 0 && (y % 100 != 0 || y % 400 == 0)
  }

  function MonthLength(y: int, m: int): int
    requires 1 <= m <= 12
  {
    if m == 2 then (if Leap(y) then 29 else 28)
    else if m in {4, 6, 9, 11} then 30
    else 31
  }

  function YearLength(y: int): int {
    if Leap(y) then 366 else 365
  }

  function BeforeYear(y: int): int
    requires y >= 1970
    decreases y
  {
    if y == 1970 then 0 else BeforeYear(y - 1) + YearLength(y - 1)
  }

  function BeforeMonth(y: int, m: int): int
    requires 1 <= m <= 12
    decreases m
  {
    if m == 1 then 0 else BeforeMonth(y, m - 1) + MonthLength(y, m - 1)
  }

  // Years, then months, then days.
  function DayNumber(c: Date): int
    requires c.y >= 1970 && 1 <= c.m <= 12
  {
    BeforeYear(c.y) + BeforeMonth(c.y, c.m) + c.d - 1
  }

  predicate Valid(c: Date) {
    c.y >= 1970 && 1 <= c.m <= 12 && 1 <= c.d <= MonthLength(c.y, c.m)
  }

  // The day after, as one turns the leaves of a calendar.
  function Tomorrow(c: Date): Date
    requires Valid(c)
  {
    if c.d < MonthLength(c.y, c.m) then Date(c.y, c.m, c.d + 1)
    else if c.m < 12 then Date(c.y, c.m + 1, 1)
    else Date(c.y + 1, 1, 1)
  }

  function Calendar(n: nat): (c: Date)
    ensures Valid(c)
  {
    if n == 0 then Date(1970, 1, 1) else Tomorrow(Calendar(n - 1))
  }

  // ---- The closed form counts the calendar's days ----

  // The days before 1 March of year `y`, up to a constant.
  function ToMarch(y: int): int {
    365 * y + y / 4 - y / 100 + y / 400 - 719468
  }

  lemma ErasFold(y: int)
    requires y >= 0
    ensures var era, yoe := y / 400, y - y / 400 * 400;
      era * 146097 + yoe * 365 + yoe / 4 - yoe / 100 - 719468 == ToMarch(y)
  {
    var era, yoe := y / 400, y - y / 400 * 400;
    assert y / 4 == era * 100 + yoe / 4;
    assert y / 100 == era * 4 + yoe / 100;
  }

  lemma NextMarch(y: int)
    requires y >= 0
    ensures ToMarch(y + 1) == ToMarch(y) + YearLength(y + 1)
  {
    assert (y + 1) / 4 == y / 4 + (if (y + 1) % 4 == 0 then 1 else 0);
    assert (y + 1) / 100 == y / 100 + (if (y + 1) % 100 == 0 then 1 else 0);
    assert (y + 1) / 400 == y / 400 + (if (y + 1) % 400 == 0 then 1 else 0);
  }

  lemma {:induction false} MarchOfYear(y: int)
    requires y >= 1970
    ensures ToMarch(y - 1) + 306 == BeforeYear(y)
    decreases y
  {
    if y > 1970 {
      MarchOfYear(y - 1);
      NextMarch(y - 2);
    }
  }

  lemma MonthStarts(y: int, m: int)
    requires 1 <= m <= 12
    ensures var start := (153 * (if m > 2 then m - 3 else m + 9) + 2) / 5;
      BeforeMonth(y, m) == if m <= 2 then start - 306 else start + 59 + (if Leap(y) then 1 else 0)
  {
    if m > 1 {
      MonthStarts(y, m - 1);
    }
  }

  // For every year from 1970 and every month, and also for a day number past the month's end.
  lemma DaysCountsCalendar(c: Date)
    requires c.y >= 1970 && 1 <= c.m <= 12 && c.d >= 1
    ensures Days(c) == DayNumber(c)
  {
    ErasFold(if c.m <= 2 then c.y - 1 else c.y);
    NextMarch(c.y - 1);
    MarchOfYear(c.y);
    MonthStarts(c.y, c.m);
  }

  lemma YearIsItsMonths(y: int)
    ensures BeforeMonth(y, 12) + MonthLength(y, 12) == YearLength(y)
  {
    MonthStarts(y, 12);
  }

  lemma TomorrowIsOneMore(c: Date)
    requires Valid(c)
    ensures Valid(Tomorrow(c)) && DayNumber(Tomorrow(c)) == DayNumber(c) + 1
  {
    YearIsItsMonths(c.y);
  }

  lemma {:induction false} NumberOfCalendar(n: nat)
    ensures DayNumber(Calendar(n)) == n
  {
    if n > 0 {
      NumberOfCalendar(n - 1);
      TomorrowIsOneMore(Calendar(n - 1));
    }
  }

  lemma DaysOfCalendar(n: nat)
    ensures Days(Calendar(n)) == n
  {
    NumberOfCalendar(n);
    DaysCountsCalendar(Calendar(n));
  }

  // ---- Order ----

  predicate Earlier(a: Date, b: Date) {
    a.y < b.y || (a.y == b.y && (a.m < b.m || (a.m == b.m && a.d < b.d)))
  }

  lemma {:induction false} MonthsInOrder(y: int, m: int, n: int)
    requires 1 <= m < n <= 12
    ensures BeforeMonth(y, m) + MonthLength(y, m) <= BeforeMonth(y, n)
    decreases n
  {
    if m < n - 1 {
      MonthsInOrder(y, m, n - 1);
    }
  }

  lemma {:induction false} YearsInOrder(x: int, y: int)
    requires 1970 <= x < y
    ensures BeforeYear(x) + YearLength(x) <= BeforeYear(y)
    decreases y
  {
    if x < y - 1 {
      YearsInOrder(x, y - 1);
    }
  }

  lemma {:induction false} MonthsFromStart(y: int, m: int)
    requires 1 <= m <= 12
    ensures BeforeMonth(y, m) >= 0
    decreases m
  {
    if m > 1 {
      MonthsFromStart(y, m - 1);
    }
  }

  lemma DaysInOrder(a: Date, b: Date)
    requires Valid(a) && Valid(b) && Earlier(a, b)
    ensures Days(a) < Days(b)
  {
    DaysCountsCalendar(a);
    DaysCountsCalendar(b);
    if a.y < b.y {
      YearsInOrder(a.y, b.y);
      YearIsItsMonths(a.y);
      MonthsFromStart(b.y, b.m);
      if a.m < 12 {
        MonthsInOrder(a.y, a.m, 12);
      }
    } else if a.m < b.m {
      MonthsInOrder(a.y, a.m, b.m);
    }
  }

  // Counting the days to a date and turning that many leaves leads back to the date.
  lemma CalendarOfDays(c: Date)
    requires Valid(c)
    ensures Days(c) >= 0 && Calendar(Days(c)) == c
  {
    DaysOfCalendar(0);
    if Earlier(Date(1970, 1, 1), c) {
      DaysInOrder(Date(1970, 1, 1), c);
    }
    var back := Calendar(Days(c));
    DaysOfCalendar(Days(c));
    if Earlier(back, c) {
      DaysInOrder(back, c);
    } else if Earlier(c, back) {
      DaysInOrder(c, back);
    }
  }

  // RFC 3339 allows second 60, a leap second.
  predicate InRange(s: Stamp) {
    Valid(s.date) && 0 <= s.h <= 23 && 0 <= s.mi <= 59 && 0 <= s.se <= 60
  }

  predicate Before(a: Stamp, b: Stamp) {
    || Earlier(a.date, b.date)
    || (a.date == b.date && (a.h < b.h || (a.h == b.h && (a.mi < b.mi || (a.mi == b.mi && a.se < b.se)))))
  }

  function Minute(s: Stamp): int
    requires InRange(s)
  {
    (Days(s.date) * 24 + s.h) * 60 + s.mi
  }

  // The order of timestamps is kept. Two different ones meet only where the first is a leap
  // second and the other the start of the next minute; with seconds 0 to 59 the order is strict.
  lemma OrderKept(a: Stamp, b: Stamp)
    requires InRange(a) && InRange(b) && Before(a, b)
    ensures EpochMs(a) <= EpochMs(b)
    ensures EpochMs(a) == EpochMs(b) <==> a.se == 60 && b.se == 0 && Minute(b) == Minute(a) + 1
    ensures a.se < 60 ==> EpochMs(a) < EpochMs(b)
  {
    if Earlier(a.date, b.date) {
      DaysInOrder(a.date, b.date);
    }
  }

  lemma LeapSecondCollides(s: Stamp)
    requires InRange(s) && s.se == 60 && s.mi < 59
    ensures s != s.(mi := s.mi + 1, se := 0) && EpochMs(s) == EpochMs(s.(mi := s.mi + 1, se := 0))
  {
  }

  // A stamp read as its parts: the instant determines date and time.
  lemma StampOfInstant(a: Stamp, b: Stamp)
    requires InRange(a) && InRange(b) && a.se < 60 && b.se < 60
    ensures EpochMs(a) == EpochMs(b) <==> a == b
  {
    if Before(a, b) {
      OrderKept(a, b);
    } else if Before(b, a) {
      OrderKept(b, a);
    }
  }

  // A day number past the end of its month is not refused: it is read as the valid date that many
  // leaves after the month's last.
  lemma PastMonthEndRollsOver(y: int, m: int, over: nat) returns (other: Date)
    requires y >= 1970 && 1 <= m <= 12 && over > 0
    ensures var stated := Date(y, m, MonthLength(y, m) + over);
      && Valid(other) && other != stated && Days(other) == Days(stated)
      && Days(other) == Days(Date(y, m, MonthLength(y, m))) + over
  {
    var last, stated := Date(y, m, MonthLength(y, m)), Date(y, m, MonthLength(y, m) + over);
    DaysCountsCalendar(last);
    DaysCountsCalendar(stated);
    CalendarOfDays(last);
    var count: nat := Days(last) + over;
    other := Calendar(count);
    DaysOfCalendar(count);
  }

  // A month above 12 carried into the years after.
  function Carried(c: Date): Date
    requires c.m >= 1
  {
    Date(c.y + (c.m - 1) / 12, (c.m - 1) % 12 + 1, c.d)
  }

  lemma DaysFromMarch(c: Date, y2: int, k: int)
    requires c.y >= 1970 && c.m >= 1 && c.d >= 1
    requires if c.m > 2 then y2 == c.y && k == c.m - 3 else y2 == c.y - 1 && k == c.m + 9
    ensures Days(c) == ToMarch(y2) + (153 * k + 2) / 5 + c.d - 1
  {
    ErasFold(y2);
  }

  lemma {:induction false} MarchesApart(y: int, a: nat)
    requires y >= 0
    ensures ToMarch(y + a) <= ToMarch(y) + 366 * a
  {
    if a > 0 {
      MarchesApart(y, a - 1);
      NextMarch(y + a - 1);
    }
  }

  // Twelve months of the closed form are longer than a year.
  lemma FormOvershoots(a: nat, b: nat)
    ensures (153 * (12 * a + b) + 2) / 5 >= (153 * b + 2) / 5 + 367 * a
  {
  }

  lemma CarriedParts(c: Date) returns (a: nat, b: nat)
    requires c.y >= 1970 && c.m > 12 && c.d >= 1
    ensures c.m - 3 == 12 * a + b && b < 12 && (a == 0 <==> c.m <= 14)
    ensures Days(Carried(c)) == ToMarch(c.y + a) + (153 * b + 2) / 5 + c.d - 1
  {
    var q, r := (c.m - 1) / 12, (c.m - 1) % 12;
    a, b := if r >= 2 then q else q - 1, if r >= 2 then r - 2 else r + 10;
    DaysFromMarch(Carried(c), c.y + a, b);
  }

  // Months above 12 are not refused. Of them exactly 13 and 14 are read as the January and
  // February that follow; from 15 on the closed form runs ahead of the calendar.
  lemma MonthsPastDecember(c: Date)
    requires c.y >= 1970 && c.m >= 1 && c.d >= 1
    ensures Days(c) == Days(Carried(c)) <==> c.m <= 14
  {
    if c.m > 12 {
      var a, b := CarriedParts(c);
      DaysFromMarch(c, c.y, 12 * a + b);
      MarchesApart(c.y, a);
      FormOvershoots(a, b);
    }
  }
}
