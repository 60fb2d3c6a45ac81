/** The Gregorian calendar, with days counted from 1 January 1970 and weekdays from Sunday. */
module Calendar {

  datatype Date = Date(year: int, month: int, day: int)

  predicate IsLeap(y: int) { y % 4 == 0 && (y % 100 != 0 || y % 400 == 0) }

  function DaysInMonth(y: int, m: int): (n: int)
    ensures 28 <= n <= 31
  {
    if m == 2 then if IsLeap(y) then 29 else 28
    else if m == 4 || m == 6 || m == 9 || m == 11 then 30
    else 31
  }

  predicate IsDate(d: Date) { 1 <= d.month <= 12 && 1 <= d.day <= DaysInMonth(d.year, d.month) }

  function Tomorrow(d: Date): Date {
    if d.day < DaysInMonth(d.year, d.month) then d.(day := d.day + 1)
    else if d.month < 12 then Date(d.year, d.month + 1, 1)
    else Date(d.year + 1, 1, 1)
  }

  function Yesterday(d: Date): Date {
    if d.day > 1 then d.(day := d.day - 1)
    else if d.month > 1 then Date(d.year, d.month - 1, DaysInMonth(d.year, d.month - 1))
    else Date(d.year - 1, 12, 31)
  }

  /** Day by day from the epoch. */
  function DateOf(n: int): (d: Date)
    ensures IsDate(d)
    decreases if n < 0 then -n else n
  {
    if n == 0 then Date(1970, 1, 1) else if n > 0 then Tomorrow(DateOf(n - 1)) else Yesterday(DateOf(n + 1))
  }

  function Weekday(n: int): (w: int)
    ensures 0 <= w <= 6
  {
    (n + 4) % 7
  }

  // ---- counting days ----

  /** Days from the epoch to 1 January of a year. */
  function YearStart(y: int): int { 365 * (y - 1970) + (y - 1) / 4 - (y - 1) / 100 + (y - 1) / 400 - 477 }

  /** Days in the months before m. */
  function MonthStart(y: int, m: int): int {
    if m <= 1 then 0 else MonthStart(y, m - 1) + DaysInMonth(y, m - 1)
  }

  function DayNumber(d: Date): int { YearStart(d.year) + MonthStart(d.year, d.month) + d.day - 1 }

  function YearLength(y: int): int { if IsLeap(y) then 366 else 365 }

  lemma YearGrows(y: int)
    ensures YearStart(y + 1) == YearStart(y) + YearLength(y)
  {
    QuotientGrows(y, 4);
    QuotientGrows(y, 100);
    QuotientGrows(y, 400);
    MultiplesNest(y);
    LeapCounts(y);
  }

  lemma LeapCounts(y: int)
    requires (y % 400 == 0 ==> y % 100 == 0) && (y % 100 == 0 ==> y % 4 == 0)
    ensures YearLength(y) ==
            365 + (if y % 4 == 0 then 1 else 0) - (if y % 100 == 0 then 1 else 0) + if y % 400 == 0 then 1 else 0
  {
  }

  lemma MultiplesNest(y: int)
    ensures y % 400 == 0 ==> y % 100 == 0
    ensures y % 100 == 0 ==> y % 4 == 0
  {
    if y % 400 == 0 { MultipleOfHundred(4 * (y / 400)); }
    if y % 100 == 0 { MultipleOfFour(25 * (y / 100)); }
  }

  lemma MultipleOfHundred(k: int)
    ensures (100 * k) % 100 == 0
  {
  }

  lemma MultipleOfFour(k: int)
    ensures (4 * k) % 4 == 0
  {
  }

  lemma QuotientGrows(y: int, k: int)
    requires k == 4 || k == 100 || k == 400
    ensures y / k == (y - 1) / k + if y % k == 0 then 1 else 0
  {
  }

  lemma NextMonth(y: int, m: int)
    requires 1 <= m
    ensures MonthStart(y, m + 1) == MonthStart(y, m) + DaysInMonth(y, m)
  {
  }

  lemma TwelveMonths(y: int)
    ensures MonthStart(y, 1) == 0 && MonthStart(y, 2) == 31
    ensures MonthStart(y, 13) == YearLength(y)
    ensures MonthStart(y, 12) + 31 == YearLength(y)
  {
    NextMonth(y, 1);
    NextMonth(y, 2);
    NextMonth(y, 3);
    NextMonth(y, 4);
    NextMonth(y, 5);
    NextMonth(y, 6);
    NextMonth(y, 7);
    NextMonth(y, 8);
    NextMonth(y, 9);
    NextMonth(y, 10);
    NextMonth(y, 11);
    NextMonth(y, 12);
  }

  lemma {:induction false} MonthsGrow(y: int, a: int, b: int)
    requires 1 <= a <= b
    ensures MonthStart(y, a) + 28 * (b - a) <= MonthStart(y, b)
    decreases b
  {
    if a < b { MonthsGrow(y, a, b - 1); }
  }

  /** A date lies within its year. */
  lemma WithinYear(d: Date)
    requires IsDate(d)
    ensures YearStart(d.year) <= DayNumber(d) < YearStart(d.year + 1)
  {
    MonthsGrow(d.year, 1, d.month);
    MonthsGrow(d.year, d.month + 1, 13);
    TwelveMonths(d.year);
    YearGrows(d.year);
  }

  lemma {:induction false} YearsGrow(a: int, b: int)
    requires a <= b
    ensures YearStart(a) + 365 * (b - a) <= YearStart(b) <= YearStart(a) + 366 * (b - a)
    decreases b - a
  {
    if a < b {
      YearsGrow(a, b - 1);
      YearGrows(b - 1);
    }
  }

  lemma TomorrowCounts(d: Date)
    requires IsDate(d)
    ensures IsDate(Tomorrow(d)) && DayNumber(Tomorrow(d)) == DayNumber(d) + 1
  {
    hide YearStart, IsLeap;
    TwelveMonths(d.year);
    YearGrows(d.year);
    assert MonthStart(d.year + 1, 1) == 0;
    if d.day == DaysInMonth(d.year, d.month) && d.month < 12 { NextMonth(d.year, d.month); }
  }

  lemma YesterdayCounts(d: Date)
    requires IsDate(d)
    ensures IsDate(Yesterday(d)) && DayNumber(Yesterday(d)) == DayNumber(d) - 1
  {
    hide YearStart, IsLeap;
    if d.day == 1 && d.month == 1 {
      TwelveMonths(d.year - 1);
      YearGrows(d.year - 1);
      assert MonthStart(d.year, 1) == 0;
    } else if d.day == 1 {
      NextMonth(d.year, d.month - 1);
    }
  }

  /** Counting the days of the date reached after n days gives n. */
  lemma {:induction false} NumberOfDate(n: int)
    ensures DayNumber(DateOf(n)) == n
    decreases if n < 0 then -n else n
  {
    hide Tomorrow, Yesterday;
    if n == 0 {
      assert MonthStart(1970, 1) == 0;
    } else if n > 0 {
      hide DayNumber;
      NumberOfDate(n - 1);
      TomorrowCounts(DateOf(n - 1));
    } else {
      NumberOfDate(n + 1);
      YesterdayCounts(DateOf(n + 1));
    }
  }

  lemma EarlierDate(a: Date, b: Date)
    requires IsDate(a) && IsDate(b)
    requires a.year < b.year || (a.year == b.year && (a.month < b.month || (a.month == b.month && a.day < b.day)))
    ensures DayNumber(a) < DayNumber(b)
  {
    if a.year < b.year {
      WithinYear(a);
      WithinYear(b);
      YearsGrow(a.year + 1, b.year);
    } else if a.month < b.month {
      MonthsGrow(a.year, a.month + 1, b.month);
    }
  }

  /** Dates and day numbers correspond one to one. */
  lemma DateOfNumber(d: Date)
    requires IsDate(d)
    ensures DateOf(DayNumber(d)) == d
  {
    var e := DateOf(DayNumber(d));
    NumberOfDate(DayNumber(d));
    if e != d {
      if e.year < d.year || (e.year == d.year && (e.month < d.month || (e.month == d.month && e.day < d.day))) {
        EarlierDate(e, d);
      } else {
        EarlierDate(d, e);
      }
    }
  }

  // ---- weekdays ----

  /** The first day is a Thursday, and each weekday follows the one before. */
  lemma WeekdaysGoRound(n: int)
    ensures DateOf(0) == Date(1970, 1, 1) && Weekday(0) == 4
    ensures DateOf(n + 1) == Tomorrow(DateOf(n)) && Weekday(n + 1) == (Weekday(n) + 1) % 7
  {
    assert DateOf(0) == Date(1970, 1, 1);
    OneMore(n + 4);
    hide *;
    NextDate(n);
  }

  lemma NextDate(n: int)
    ensures DateOf(n + 1) == Tomorrow(DateOf(n))
  {
    hide *;
    NumberOfDate(n);
    TomorrowCounts(DateOf(n));
    DateOfNumber(Tomorrow(DateOf(n)));
  }

  lemma OneMore(n: int)
    ensures (n + 1) % 7 == (n % 7 + 1) % 7
  {
  }

  /** What the months before put a weekday forward; January and February count to the year before. */
  const SHIFT: seq<int> := [0, 3, 2, 5, 0, 3, 5, 1, 4, 6, 2, 4]

  function Leaps(y: int): int { y / 4 - y / 100 + y / 400 }

  function CountedYear(d: Date): int { if d.month <= 2 then d.year - 1 else d.year }

  /** The weekday of a date by its year, month and day. */
  function WeekdayOf(d: Date): int
    requires 1 <= d.month <= 12
  {
    (CountedYear(d) + Leaps(CountedYear(d)) + SHIFT[d.month - 1] + d.day) % 7
  }

  /** The days before each month of a year without a leap day. */
  const BEFORE: seq<int> := [0, 31, 59, 90, 120, 151, 181, 212, 243, 273, 304, 334]

  lemma {:induction false} MonthStarts(y: int, m: int)
    requires 1 <= m <= 12
    ensures MonthStart(y, m) == BEFORE[m - 1] + if m > 2 && IsLeap(y) then 1 else 0
  {
    hide IsLeap;
    if m > 1 { MonthStarts(y, m - 1); }
  }

  lemma ShiftFits(m: int) returns (k: int)
    requires 1 <= m <= 12
    ensures (if m <= 2 then 1 else 0) + BEFORE[m - 1] - SHIFT[m - 1] == 7 * k + 1
  {
    k := [0, 4, 8, 12, 17, 21, 25, 30, 34, 38, 43, 47][m - 1];
  }

  lemma SevenFold(a: int, b: int, k: int)
    requires a == b + 7 * k
    ensures a % 7 == b % 7
  {
  }

  lemma LeapIsOne(y: int)
    ensures Leaps(y) == Leaps(y - 1) + if IsLeap(y) then 1 else 0
  {
    QuotientGrows(y, 4);
    QuotientGrows(y, 100);
    QuotientGrows(y, 400);
    MultiplesNest(y);
  }

  lemma CountedDays(d: Date)
    requires 1 <= d.month <= 12
    ensures DayNumber(d) == 365 * (d.year - 1970) + Leaps(CountedYear(d)) - 478 + BEFORE[d.month - 1] + d.day
  {
    MonthStarts(d.year, d.month);
    LeapIsOne(d.year);
    hide IsLeap, MonthStart;
  }

  /** Counted from the epoch or read off the date, the weekday is the same. */
  lemma WeekdayOfDate(d: Date)
    requires IsDate(d)
    ensures Weekday(DayNumber(d)) == WeekdayOf(d)
  {
    CountedDays(d);
    var k := ShiftFits(d.month);
    var y := CountedYear(d);
    hide IsDate, DayNumber, Leaps;
    SevenFold(DayNumber(d) + 4, y + Leaps(y) + SHIFT[d.month - 1] + d.day, 52 * (d.year - 1970) + k - 349);
  }

  // ---- what comes round again ----

  /** A day of the year that every year has. */
  predicate EveryYear(m: int, d: int) { 1 <= m <= 12 && 1 <= d <= if m == 2 then 28 else DaysInMonth(1970, m) }

  lemma EveryYearIsDate(y: int, m: int, d: int)
    ensures EveryYear(m, d) ==> IsDate(Date(y, m, d))
    ensures IsDate(Date(y, m, d)) && !(m == 2 && d == 29) ==> EveryYear(m, d)
  {
  }

  /** Every year has the day within the next two years. */
  lemma DayComesRound(n: int, m: int, d: int) returns (k: int)
    requires EveryYear(m, d)
    ensures n < k <= n + 731 && DateOf(k).month == m && DateOf(k).day == d
  {
    var y := DateOf(n).year;
    EveryYearIsDate(y + 1, m, d);
    var next := Date(y + 1, m, d);
    k := DayNumber(next);
    NumberOfDate(n);
    WithinYear(DateOf(n));
    WithinYear(next);
    YearsGrow(y, y + 2);
    DateOfNumber(next);
  }

  /** Every weekday of every month comes within the next two years, and not on a leap day. */
  lemma WeekdayComesRound(n: int, m: int, w: int) returns (k: int)
    requires 1 <= m <= 12 && 0 <= w <= 6
    ensures n < k <= n + 740 && DateOf(k).month == m && DateOf(k).day <= 7 && Weekday(k) == w
  {
    var first := DayComesRound(n, m, 1);
    var shift := (w - Weekday(first)) % 7;
    k := first + shift;
    var d := DateOf(first);
    NumberOfDate(first);
    DateOfNumber(d.(day := 1 + shift));
    assert DayNumber(d.(day := 1 + shift)) == k;
    WeekdayShifts(first, w);
  }

  lemma WeekdayShifts(n: int, w: int)
    requires 0 <= w <= 6
    ensures Weekday(n + (w - Weekday(n)) % 7) == w
  {
  }

  lemma Centuries(k: int)
    requires 1900 <= k <= 2099
    ensures k / 100 - k / 400 == 15
  {
    assert k / 400 == if k < 2000 then 4 else 5;
    assert k / 100 == if k < 2000 then 19 else 20;
  }

  lemma FourYears(y: int)
    requires 1901 <= y <= 2096
    ensures YearStart(y + 4) == YearStart(y) + 1461
  {
    Centuries(y - 1);
    Centuries(y + 3);
    assert (y + 3) / 4 == (y - 1) / 4 + 1;
  }

  lemma LeapDayNumber(y: int)
    requires 1901 <= y <= 2099 && y % 4 == 0
    ensures IsDate(Date(y, 2, 29)) && DayNumber(Date(y, 2, 29)) == YearStart(y) + 59
  {
    LeapInCentury(y);
    TwelveMonths(y);
  }

  /** Between 1901 and 2099 a leap day comes within 1461 days. */
  lemma LeapDayComesRound(n: int) returns (k: int)
    requires YearStart(1901) <= n && n + 1461 < YearStart(2100)
    ensures n < k <= n + 1461 && DateOf(k).month == 2 && DateOf(k).day == 29
  {
    hide YearStart, DateOf, MonthStart, IsDate, IsLeap;
    var y := DateOf(n).year;
    NumberOfDate(n);
    WithinYear(DateOf(n));
    YearBounds(n, y);
    FourYears(y);
    hide DayNumber;
    var leap := y + (-y) % 4;
    assert leap % 4 == 0 && y <= leap <= y + 3;
    LeapDayNumber(leap);
    YearsGrow(y, leap);
    YearsGrow(leap, y + 4);
    YearsGrow(y + 1, y + 4);
    if y < leap { YearsGrow(y + 1, leap); }
    if YearStart(leap) + 59 <= n {
      assert leap == y;
      leap := leap + 4;
      LeapDayNumber(leap);
    }
    DateOfNumber(Date(leap, 2, 29));
    k := DayNumber(Date(leap, 2, 29));
  }

  lemma YearBounds(n: int, y: int)
    requires YearStart(y) <= n < YearStart(y + 1) && YearStart(1901) <= n && n + 1461 < YearStart(2100)
    ensures 1901 <= y <= 2095
  {
    if y < 1901 { YearsGrow(y + 1, 1901); }
    FourYears(2096);
    if y > 2095 { YearsGrow(2096, y); }
  }

  lemma LeapInCentury(y: int)
    requires 1901 <= y <= 2099 && y % 4 == 0
    ensures IsLeap(y)
  {
  }
}
