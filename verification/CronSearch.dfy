/** Minutes a cron schedule matches, the search for the next one, and when its bound is enough.

    A time is a number of minutes since the epoch, in UTC; a clock reading is in milliseconds. */
module CronSearch {
  import opened Options
  import opened Texts
  import opened Calendar
  import opened Cron

  const BOUND := 4 * 366 * 24 * 60
  const DAY := 1440

  function DayOf(t: int): int { t / DAY }
  function HourOf(t: int): int { t % DAY / 60 }
  function MinuteOf(t: int): int { t % DAY % 60 }

  /** The fields that depend on the time of day. */
  predicate TimeMatches(s: Schedule, t: int) { MinuteOf(t) in s.minutes && HourOf(t) in s.hours }

  /** The fields that depend on the date; a star in one day field leaves the choice to the other. */
  predicate DayMatches(s: Schedule, n: int) {
    var d := DateOf(n);
    var domMatch, dowMatch := d.day in s.dom, Weekday(n) in s.dow;
    d.month in s.months && if !s.domStar && !s.dowStar then domMatch || dowMatch else domMatch && dowMatch
  }

  predicate Matches(s: Schedule, t: int) { TimeMatches(s, t) && DayMatches(s, DayOf(t)) }

  /** At a minute of a date a schedule matches exactly if its fields have the minute, the hour and the month, and
      the day: the day of the month or the weekday if both are restricted, and otherwise both. */
  lemma MatchesExactlyAt(s: Schedule, d: Date, hour: int, minute: int)
    requires IsDate(d) && 0 <= hour < 24 && 0 <= minute < 60
    ensures Matches(s, 1440 * DayNumber(d) + 60 * hour + minute) <==>
            && minute in s.minutes && hour in s.hours && d.month in s.months
            && (d.day in s.dom || (WeekdayOf(d) in s.dow && !s.domStar && !s.dowStar))
            && (WeekdayOf(d) in s.dow || (d.day in s.dom && !s.domStar && !s.dowStar))
  {
    var t := 1440 * DayNumber(d) + 60 * hour + minute;
    assert DayOf(t) == DayNumber(d) && HourOf(t) == hour && MinuteOf(t) == minute;
    DateOfNumber(d);
    WeekdayOfDate(d);
    hide DateOf, DayNumber, WeekdayOf, Weekday;
  }

  /** What every parsed schedule is like: no field is empty or out of range, and a star is everything. */
  predicate Parsed(s: Schedule) {
    && s.minutes != {} && (forall v :: v in s.minutes ==> 0 <= v <= 59)
    && s.hours != {} && (forall v :: v in s.hours ==> 0 <= v <= 23)
    && s.dom != {} && (forall v :: v in s.dom ==> 1 <= v <= 31)
    && s.months != {} && (forall v :: v in s.months ==> 1 <= v <= 12)
    && s.dow != {} && (forall v :: v in s.dow ==> 0 <= v <= 6)
    && (s.domStar ==> forall v :: 1 <= v <= 31 ==> v in s.dom)
    && (s.dowStar ==> forall v :: 0 <= v <= 6 ==> v in s.dow)
  }

  lemma PartInRange(part: string, lo: int, hi: int)
    requires lo <= hi && ParsePart(part, lo, hi).Some?
    ensures var sp := ParsePart(part, lo, hi).value; lo <= sp.start <= sp.end <= hi && sp.step >= 1
  {
  }

  lemma {:induction false} PartsInRange(parts: seq<string>, lo: int, hi: int)
    requires lo <= hi && ParseParts(parts, lo, hi).Some?
    ensures var spans := ParseParts(parts, lo, hi).value;
            |spans| == |parts| &&
            forall i :: 0 <= i < |spans| ==> lo <= spans[i].start <= spans[i].end <= hi && spans[i].step >= 1
  {
    hide ParsePart;
    if |parts| > 0 {
      PartsInRange(parts[..|parts| - 1], lo, hi);
      PartInRange(parts[|parts| - 1], lo, hi);
    }
  }

  lemma FieldInRange(field: string, lo: int, hi: int, foldSeven: bool)
    requires lo <= hi && ParseField(field, lo, hi, foldSeven).Some? && (foldSeven ==> lo == 0)
    ensures var bits := ParseField(field, lo, hi, foldSeven).value;
            bits != {} && forall v :: v in bits ==> lo <= v <= hi && (foldSeven ==> v != 7)
  {
    hide Bits, Split, ParseParts;
    var spans := ParseParts(Split(field, ','), lo, hi).value;
    var bits := Bits(spans, foldSeven);
    PartsInRange(Split(field, ','), lo, hi);
    BitIsCovered(spans, foldSeven, Fold(foldSeven, spans[0].start));
    assert Covers(spans[0], spans[0].start);
    assert Fold(foldSeven, spans[0].start) in bits;
    forall v | v in bits
      ensures lo <= v <= hi && (foldSeven ==> v != 7)
    {
      BitIsCovered(spans, foldSeven, v);
    }
  }

  lemma StarIsAll(lo: int, hi: int, foldSeven: bool)
    requires lo <= hi && (foldSeven ==> lo == 0 && hi == 7)
    ensures ParseField("*", lo, hi, foldSeven).Some?
    ensures forall v :: lo <= v <= hi && (foldSeven ==> v != 7) ==> v in ParseField("*", lo, hi, foldSeven).value
  {
    var sp := Span(lo, hi, 1);
    CutJoined("*", '/', "");
    CutJoined("*", ',', "");
    assert Split("*", ',') == ["*"];
    assert ["*"][..0] == [];
    assert ParsePart("*", lo, hi) == Some(sp);
    assert ParseParts([], lo, hi) == Some([]) && [] + [sp] == [sp];
    assert ParseParts(["*"], lo, hi) == Some([sp]);
    forall v | lo <= v <= hi && (foldSeven ==> v != 7)
      ensures v in Bits([sp], foldSeven)
    {
      BitIsCovered([sp], foldSeven, v);
      assert Covers([sp][0], v) && Fold(foldSeven, v) == v;
    }
  }

  lemma ParsedIs(expr: string)
    requires Parse(expr).Some?
    ensures Parsed(Parse(expr).value)
  {
    hide ParseField, Fields;
    var fs := Fields(expr);
    FieldInRange(fs[0], 0, 59, false);
    FieldInRange(fs[1], 0, 23, false);
    FieldInRange(fs[2], 1, 31, false);
    FieldInRange(fs[3], 1, 12, false);
    FieldInRange(fs[4], 0, 7, true);
    StarIsAll(1, 31, false);
    StarIsAll(0, 7, true);
  }

  // ---- the search ----

  /** The minute after a clock reading. */
  function MinuteAfter(after: int): int { after / 60000 + 1 }

  function Search(s: Schedule, from: int, n: nat): Option<int>
    decreases n
  {
    if n == 0 then None else if Matches(s, from) then Some(from) else Search(s, from + 1, n - 1)
  }

  /** The search returns the least matching minute of its window, and nothing only if there is none. */
  lemma {:induction false} SearchIsLeast(s: Schedule, from: int, n: nat)
    ensures match Search(s, from, n)
            case Some(t) => from <= t < from + n && Matches(s, t) && forall u :: from <= u < t ==> !Matches(s, u)
            case None => forall u :: from <= u < from + n ==> !Matches(s, u)
    decreases n
  {
    hide Matches;
    if n > 0 && !Matches(s, from) { SearchIsLeast(s, from + 1, n - 1); }
  }

  method Next(s: Schedule, after: int) returns (r: Option<int>)
    ensures r == Search(s, MinuteAfter(after), BOUND)
    ensures r.Some? ==> after < 60000 * r.value && Matches(s, r.value)
    ensures r.Some? ==> forall u :: after < 60000 * u && u < r.value ==> !Matches(s, u)
    ensures r.None? ==> forall u :: MinuteAfter(after) <= u < MinuteAfter(after) + BOUND ==> !Matches(s, u)
  {
    hide Matches;
    var cur, i := MinuteAfter(after), 0;
    SearchIsLeast(s, cur, BOUND);
    while i < BOUND
      invariant 0 <= i <= BOUND && cur == MinuteAfter(after) + i
      invariant Search(s, MinuteAfter(after), BOUND) == Search(s, cur, BOUND - i)
    {
      if Matches(s, cur) { return Some(cur); }
      cur := cur + 1;
      i := i + 1;
    }
    r := None;
  }

  // ---- when the bound is enough ----

  predicate OnLeapDay(t: int) { DateOf(DayOf(t)).month == 2 && DateOf(DayOf(t)).day == 29 }

  ghost predicate Satisfiable(s: Schedule) { exists t :: Matches(s, t) }

  /** The schedule matches on leap days and on no other day. */
  ghost predicate MatchesLeapDaysOnly(s: Schedule) { Satisfiable(s) && forall t :: Matches(s, t) ==> OnLeapDay(t) }

  ghost predicate Finds(s: Schedule, from: int) { exists t :: from <= t < from + BOUND && Matches(s, t) }

  /** The time of day on another day. */
  function OnDay(n: int, t: int): int { n * DAY + t % DAY }

  lemma OnDayIs(n: int, t: int)
    ensures DayOf(OnDay(n, t)) == n && OnDay(n, t) % DAY == t % DAY
  {
  }

  lemma SameTime(s: Schedule, n: int, t: int)
    ensures TimeMatches(s, OnDay(n, t)) == TimeMatches(s, t)
  {
    OnDayIs(n, t);
  }

  lemma InWindow(from: int, n: int, t: int)
    requires DayOf(from) < n <= DayOf(from) + 1463
    ensures from <= OnDay(n, t) < from + BOUND
  {
  }

  /** A day of the month, if any is fixed, or else a weekday, picks the days of a schedule. */
  predicate ByDay(s: Schedule, n: int) {
    DateOf(n).month in s.months && DateOf(n).day in s.dom && (s.dowStar || !s.domStar)
  }
  predicate ByWeekday(s: Schedule, n: int) {
    DateOf(n).month in s.months && Weekday(n) in s.dow && (s.domStar || !s.dowStar)
  }

  lemma PickedBy(s: Schedule, n: int)
    requires Parsed(s)
    ensures DayMatches(s, n) <==> ByDay(s, n) || ByWeekday(s, n)
  {
    var d := DateOf(n);
    assert 1 <= d.day <= 31;
  }

  lemma WeekdayIsFound(s: Schedule, from: int, t: int)
    requires Parsed(s) && Matches(s, t) && ByWeekday(s, DayOf(t))
    ensures Finds(s, from) && !MatchesLeapDaysOnly(s)
  {
    hide DateOf;
    var d := DateOf(DayOf(t));
    var k := WeekdayComesRound(DayOf(from), d.month, Weekday(DayOf(t)));
    PickedBy(s, k);
    SameTime(s, k, t);
    OnDayIs(k, t);
    InWindow(from, k, t);
    assert Matches(s, OnDay(k, t)) && !OnLeapDay(OnDay(k, t));
  }

  lemma DayIsFound(s: Schedule, from: int, t: int)
    requires Parsed(s) && Matches(s, t) && ByDay(s, DayOf(t)) && !OnLeapDay(t)
    ensures Finds(s, from)
  {
    hide DateOf;
    var d := DateOf(DayOf(t));
    EveryYearIsDate(d.year, d.month, d.day);
    var k := DayComesRound(DayOf(from), d.month, d.day);
    PickedBy(s, k);
    SameTime(s, k, t);
    OnDayIs(k, t);
    InWindow(from, k, t);
    assert Matches(s, OnDay(k, t));
  }

  /** A schedule that some day other than a leap day satisfies is found in every window. */
  lemma OrdinaryIsFound(s: Schedule, from: int)
    requires Parsed(s) && Satisfiable(s) && !MatchesLeapDaysOnly(s)
    ensures Finds(s, from)
  {
    hide Matches, OnLeapDay;
    var t :| Matches(s, t) && !OnLeapDay(t);
    PickedBy(s, DayOf(t));
    assert DayMatches(s, DayOf(t)) by { MatchesDay(s, t); }
    if ByWeekday(s, DayOf(t)) { WeekdayIsFound(s, from, t); } else { DayIsFound(s, from, t); }
  }

  lemma MatchesDay(s: Schedule, t: int)
    requires Matches(s, t)
    ensures DayMatches(s, DayOf(t)) && TimeMatches(s, t)
  {
  }

  /** Leap days at a time the schedule matches. */
  predicate LeapMoment(s: Schedule, t: int) { OnLeapDay(t) && TimeMatches(s, t) }

  lemma LeapMomentMatches(s: Schedule, t: int)
    requires Parsed(s) && MatchesLeapDaysOnly(s) && LeapMoment(s, t)
    ensures Matches(s, t)
  {
    hide DateOf;
    var u :| Matches(s, u);
    PickedBy(s, DayOf(u));
    if ByWeekday(s, DayOf(u)) {
      WeekdayIsFound(s, 0, u);
    } else {
      PickedBy(s, DayOf(t));
    }
  }

  // ---- reading that off the fields ----

  /** Weekdays pick days of the schedule. */
  predicate WeekdayCounts(s: Schedule) { s.domStar || !s.dowStar }

  function LongestMonth(m: int): int { if m == 2 then 29 else DaysInMonth(1970, m) }

  /** Some date fits the day fields: any weekday does, and a day of a month that has so many days. */
  predicate HasDay(s: Schedule) {
    WeekdayCounts(s) || exists m, d :: m in s.months && d in s.dom && 1 <= m <= 12 && d <= LongestMonth(m)
  }

  /** The fields allow the 29th of February only. */
  predicate LeapOnly(s: Schedule) {
    !WeekdayCounts(s) && s.months == {2} && 29 in s.dom && forall d :: d in s.dom ==> d >= 29
  }

  lemma Member<T>(xs: set<T>) returns (x: T)
    requires xs != {}
    ensures x in xs
  {
    x :| x in xs;
  }

  /** A time of day that the fields allow, on any day. */
  lemma SomeTime(s: Schedule) returns (t: int)
    requires Parsed(s)
    ensures TimeMatches(s, t)
  {
    var h := Member(s.hours);
    var m := Member(s.minutes);
    t := 60 * h + m;
    assert t % DAY == t && t / 60 == h && t % 60 == m;
  }

  /** A day that the date fields pick is matched at some time. */
  lemma DayGivesMatch(s: Schedule, n: int) returns (t: int)
    requires Parsed(s) && DayMatches(s, n)
    ensures Matches(s, t) && DayOf(t) == n
  {
    hide DateOf, DayMatches;
    var u := SomeTime(s);
    t := OnDay(n, u);
    SameTime(s, n, u);
    OnDayIs(n, u);
  }

  lemma WeekdayGivesMatch(s: Schedule) returns (t: int)
    requires Parsed(s) && WeekdayCounts(s)
    ensures Matches(s, t) && ByWeekday(s, DayOf(t))
  {
    hide DateOf, Matches;
    var m := Member(s.months);
    var w := Member(s.dow);
    var n := WeekdayComesRound(0, m, w);
    PickedBy(s, n);
    t := DayGivesMatch(s, n);
  }

  lemma DateGivesMatch(s: Schedule, m: int, d: int) returns (t: int)
    requires Parsed(s) && !WeekdayCounts(s) && m in s.months && d in s.dom && d <= LongestMonth(m)
    ensures Matches(s, t) && DateOf(DayOf(t)).month == m && DateOf(DayOf(t)).day == d
  {
    hide DateOf, Matches, YearStart, MonthStart, DayNumber;
    var n;
    if m == 2 && d == 29 {
      assert IsDate(Date(2104, 2, 29));
      DateOfNumber(Date(2104, 2, 29));
      n := DayNumber(Date(2104, 2, 29));
    } else {
      n := DayComesRound(0, m, d);
    }
    PickedBy(s, n);
    t := DayGivesMatch(s, n);
  }

  /** The day fields tell whether the schedule matches at all. */
  lemma HasDayTells(s: Schedule)
    requires Parsed(s)
    ensures Satisfiable(s) <==> HasDay(s)
  {
    hide DateOf;
    if t :| Matches(s, t) {
      PickedBy(s, DayOf(t));
      DayIsInMonth(DayOf(t));
    }
    if WeekdayCounts(s) {
      var t := WeekdayGivesMatch(s);
    } else if HasDay(s) {
      var m, d :| m in s.months && d in s.dom && 1 <= m <= 12 && d <= LongestMonth(m);
      var t := DateGivesMatch(s, m, d);
    }
  }

  lemma DayIsInMonth(n: int)
    ensures var d := DateOf(n); 1 <= d.month <= 12 && 1 <= d.day <= LongestMonth(d.month)
  {
    NumberOfDate(n);
  }

  /** The day fields tell whether the schedule matches leap days only. */
  lemma LeapOnlyTells(s: Schedule)
    requires Parsed(s)
    ensures MatchesLeapDaysOnly(s) <==> LeapOnly(s)
  {
    hide DateOf, Matches;
    if LeapOnly(s) { LeapOnlyMatches(s); }
    if MatchesLeapDaysOnly(s) { OnlyLeapsFields(s); }
  }

  lemma LeapOnlyMatches(s: Schedule)
    requires Parsed(s) && LeapOnly(s)
    ensures MatchesLeapDaysOnly(s)
  {
    hide DateOf, Matches;
    var t := DateGivesMatch(s, 2, 29);
    forall u | Matches(s, u)
      ensures OnLeapDay(u)
    {
      MatchesDay(s, u);
      PickedBy(s, DayOf(u));
      DayIsInMonth(DayOf(u));
    }
  }

  lemma OnlyLeapsFields(s: Schedule)
    requires Parsed(s) && MatchesLeapDaysOnly(s)
    ensures LeapOnly(s)
  {
    hide DateOf, Matches;
    if WeekdayCounts(s) {
      var t := WeekdayGivesMatch(s);
      MatchesDay(s, t);
      WeekdayIsFound(s, 0, t);
    } else {
      var t :| Matches(s, t);
      MatchesDay(s, t);
      PickedBy(s, DayOf(t));
      assert 2 in s.months && 29 in s.dom;
      forall m | m in s.months
        ensures m == 2
      {
        var u := DateGivesMatch(s, m, 29);
        assert OnLeapDay(u);
      }
      forall d | d in s.dom
        ensures d >= 29
      {
        if d < 29 {
          var u := DateGivesMatch(s, 2, d);
          assert OnLeapDay(u);
        }
      }
    }
  }

  /** Exactly when the search finds a match: some date must fit the day fields, and if they allow leap days
      only, a leap day at a matching time must lie in the window. */
  lemma FindsExactlyWhen(s: Schedule, from: int)
    requires Parsed(s)
    ensures Search(s, from, BOUND).Some? <==>
            HasDay(s) && (LeapOnly(s) ==> exists t :: from <= t < from + BOUND && LeapMoment(s, t))
  {
    hide Matches, OnLeapDay, HasDay, LeapOnly;
    HasDayTells(s);
    LeapOnlyTells(s);
    SearchIsLeast(s, from, BOUND);
    if Search(s, from, BOUND).Some? {
      var t := Search(s, from, BOUND).value;
      MatchesDay(s, t);
      assert MatchesLeapDaysOnly(s) ==> LeapMoment(s, t);
    }
    if Satisfiable(s) && !MatchesLeapDaysOnly(s) { OrdinaryIsFound(s, from); }
    if t :| from <= t < from + BOUND && LeapMoment(s, t) {
      if MatchesLeapDaysOnly(s) { LeapMomentMatches(s, t); }
    }
  }

  /** Inside 1901-2099 the bound always suffices for a schedule that matches at all. */
  lemma BoundSuffices(s: Schedule, after: int)
    requires Parsed(s) && HasDay(s)
    requires YearStart(1901) <= DayOf(MinuteAfter(after)) && DayOf(MinuteAfter(after)) + 1464 < YearStart(2100)
    ensures Search(s, MinuteAfter(after), BOUND).Some?
  {
    hide Matches, DateOf, YearStart, HasDay, LeapOnly;
    var from := MinuteAfter(after);
    FindsExactlyWhen(s, from);
    if LeapOnly(s) {
      var t := SomeTime(s);
      var k := LeapDayComesRound(DayOf(from));
      SameTime(s, k, t);
      OnDayIs(k, t);
      InWindow(from, k, t);
      assert LeapMoment(s, OnDay(k, t));
    }
  }

  // ---- a search that ends too soon ----

  const LEAP_MIDNIGHT := Schedule({0}, {0}, {29}, {2}, {0, 1, 2, 3, 4, 5, 6}, false, true)

  lemma NoLeapDayIn(n: int)
    requires YearStart(2096) + 60 <= n < YearStart(2100) + 366
    ensures !(DateOf(n).month == 2 && DateOf(n).day == 29)
  {
    hide DateOf, Weekday;
    var d := DateOf(n);
    NumberOfDate(n);
    WithinYear(d);
    if d.year < 2096 { YearsGrow(d.year + 1, 2096); }
    if d.year > 2100 { YearsGrow(2101, d.year); }
    assert YearStart(2101) == YearStart(2100) + 365 by { YearGrows(2100); }
    assert 2096 <= d.year <= 2101;
    assert IsLeap(d.year) ==> d.year == 2096;
    if d.year == 2096 { LeapDayNumber(2096); }
  }

  lemma LeapMidnightIsParsed()
    ensures Parsed(LEAP_MIDNIGHT)
  {
    var s := LEAP_MIDNIGHT;
    assert 0 in s.minutes && 0 in s.hours && 29 in s.dom && 2 in s.months && 0 in s.dow;
  }

  lemma LeapMidnightMatches()
    ensures Satisfiable(LEAP_MIDNIGHT)
  {
    hide DateOf, YearStart, MonthStart, DayNumber, Matches;
    var d := Date(2104, 2, 29);
    assert IsDate(d);
    DateOfNumber(d);
    LeapMidnight(DayNumber(d));
  }

  lemma NoMatchThere(t: int)
    requires DAY * (YearStart(2096) + 60) <= t < DAY * (YearStart(2096) + 60) + BOUND
    ensures !Matches(LEAP_MIDNIGHT, t)
  {
    hide DateOf, YearStart;
    CenturyWindow(t, DAY * (YearStart(2096) + 60));
    NoLeapDayIn(DayOf(t));
  }

  /** The schedule "0 0 29 2 *" matches in 2104, but the search from March 2096 gives up before. */
  lemma BoundCanFail()
    ensures Parsed(LEAP_MIDNIGHT) && Satisfiable(LEAP_MIDNIGHT)
    ensures Search(LEAP_MIDNIGHT, DAY * (YearStart(2096) + 60), BOUND).None?
  {
    hide Matches, YearStart, Parsed;
    var from := DAY * (YearStart(2096) + 60);
    LeapMidnightIsParsed();
    LeapMidnightMatches();
    SearchIsLeast(LEAP_MIDNIGHT, from, BOUND);
    forall t | from <= t < from + BOUND
      ensures !Matches(LEAP_MIDNIGHT, t)
    {
      NoMatchThere(t);
    }
  }

  lemma CenturyWindow(t: int, from: int)
    requires from == DAY * (YearStart(2096) + 60) && from <= t < from + BOUND
    ensures YearStart(2096) + 60 <= DayOf(t) < YearStart(2100) + 366
  {
    assert YearStart(2100) == YearStart(2096) + 1461;
  }

  lemma LeapMidnight(day: int)
    requires DateOf(day).month == 2 && DateOf(day).day == 29
    ensures Matches(LEAP_MIDNIGHT, DAY * day)
  {
    assert DayOf(DAY * day) == day && (DAY * day) % DAY == 0;
    assert 0 <= Weekday(day) <= 6;
  }
}
