/**
  The weekly budget window, computed as the service computes it: break an instant into its
  UTC+8 calendar date, rebuild midnight from that date, and step back to Monday.
  The calendar functions follow ECMA-262, section 21.4.1.
 */
module Calendar {

  const DAY := 86_400_000
  const WEEK := 7 * DAY
  const SHANGHAI_OFFSET := 8 * 60 * 60 * 1000

  // ---------------------------------------------------------------- the proleptic Gregorian calendar

  predicate Leap(y: int) { y % 4 == 0 && (y % 100 != 0 || y % 400 == 0) }

  function DaysInYear(y: int): int { if Leap(y) then 366 else 365 }

  /** The number of the first day of year y, counted from 1 January 1970. */
  function DayFromYear(y: int): int {
    365 * (y - 1970) + (y - 1969) / 4 - (y - 1901) / 100 + (y - 1601) / 400
  }

  lemma YearLength(y: int)
    ensures DayFromYear(y + 1) == DayFromYear(y) + DaysInYear(y)
  {
    NextQuotient(y - 1969, 4);
    NextQuotient(y - 1901, 100);
    NextQuotient(y - 1601, 400);
  }

  lemma NextQuotient(n: int, d: int)
    requires d > 0
    ensures (n + 1) / d == n / d + if (n + 1) % d == 0 then 1 else 0
  {
    var q, r := n / d, n % d;
    assert n == q * d + r;
    if r == d - 1 {
      assert n + 1 == (q + 1) * d;
      QuotientIs(n + 1, d, q + 1, 0);
    } else {
      QuotientIs(n + 1, d, q, r + 1);
    }
  }

  lemma MultipleIsFar(k: int, d: int)
    requires d > 0
    ensures k >= 1 ==> k * d >= d
    ensures k <= -1 ==> k * d <= -d
  {
  }

  lemma QuotientIs(n: int, d: int, q: int, r: int)
    requires 0 <= r < d && n == q * d + r
    ensures n / d == q && n % d == r
  {
    var k := n / d - q;
    assert n == (n / d) * d + n % d;
    assert k * d == r - n % d;
    MultipleIsFar(k, d);
  }

  function YearFrom(y: int, day: int): (r: int)
    requires DayFromYear(y) <= day
    ensures DayFromYear(r) <= day < DayFromYear(r + 1)
    decreases day - DayFromYear(y)
  {
    YearLength(y);
    if day < DayFromYear(y + 1) then y else YearFrom(y + 1, day)
  }

  function YearBefore(y: int, day: int): (r: int)
    requires day < DayFromYear(y)
    ensures DayFromYear(r) <= day < DayFromYear(r + 1)
    decreases DayFromYear(y) - day
  {
    YearLength(y - 1);
    if DayFromYear(y - 1) <= day then y - 1 else YearBefore(y - 1, day)
  }

  /** The calendar year of a day. */
  function YearOf(day: int): (r: int)
    ensures DayFromYear(r) <= day < DayFromYear(r + 1)
  {
    if DayFromYear(1970) <= day then YearFrom(1970, day) else YearBefore(1970, day)
  }

  /** Days of the year before month m, counting months from 0. */
  function MonthStart(m: nat, leap: bool): int
    requires m <= 12
  {
    var february := if leap then 29 else 28;
    match m
    case 0 => 0
    case 1 => 31
    case _ => 31 + february + [0, 31, 61, 92, 122, 153, 184, 214, 245, 275, 306][m - 2]
  }

  /** The position of a day in its year, from 0. */
  function DayOfYear(day: int): (d: int)
    ensures 0 <= d < DaysInYear(YearOf(day))
  {
    YearLength(YearOf(day));
    day - DayFromYear(YearOf(day))
  }

  function MonthFrom(m: nat, d: int, leap: bool): (r: nat)
    requires m <= 11 && MonthStart(m, leap) <= d < MonthStart(12, leap)
    ensures r <= 11 && MonthStart(r, leap) <= d < MonthStart(r + 1, leap)
    decreases 12 - m
  {
    if d < MonthStart(m + 1, leap) then m else MonthFrom(m + 1, d, leap)
  }

  function MonthOf(day: int): (m: nat)
    ensures m <= 11
  {
    MonthFrom(0, DayOfYear(day), Leap(YearOf(day)))
  }

  function DateOf(day: int): int {
    DayOfYear(day) - MonthStart(MonthOf(day), Leap(YearOf(day))) + 1
  }

  /** Date.UTC reads a year from 0 to 99 as one of the twentieth century. */
  function FullYear(y: int): int { if 0 <= y <= 99 then 1900 + y else y }

  /** The instant that Date.UTC returns for a calendar date. */
  function DateUtc(y: int, m: nat, date: int): int
    requires m <= 11
  {
    (DayFromYear(FullYear(y)) + MonthStart(m, Leap(FullYear(y))) + date - 1) * DAY
  }

  // ---------------------------------------------------------------- the window

  datatype Window = Window(start: int, end: int) {
    predicate Contains(t: int) { start <= t < end }
  }

  function LocalDay(t: int): int { (t + SHANGHAI_OFFSET) / DAY }

  /** The calendar computation of the service. Day 0 was a Thursday. */
  function WeeklyBudgetWindow(t: int): Window {
    var day := LocalDay(t);
    var midnight := DateUtc(YearOf(day), MonthOf(day), DateOf(day));
    var weekday := (day + 4) % 7;
    var daysSinceMonday := (weekday + 6) % 7;
    var start := midnight - daysSinceMonday * DAY - SHANGHAI_OFFSET;
    Window(start, start + WEEK)
  }

  /** The local year is one that Date.UTC misreads. */
  predicate Misread(t: int) { 0 <= YearOf(LocalDay(t)) <= 99 }

  /** Outside those years, taking a date apart and putting it together again is the identity. */
  lemma DateRoundTrip(day: int)
    requires !(0 <= YearOf(day) <= 99)
    ensures DateUtc(YearOf(day), MonthOf(day), DateOf(day)) == day * DAY
  {
  }

  // ---------------------------------------------------------------- closed form

  /** The Monday 00:00 UTC+8 at or before t, by floor division alone. Day -3 was a Monday. */
  function WeekStart(t: int): int {
    (t + SHANGHAI_OFFSET + 3 * DAY) / WEEK * WEEK - SHANGHAI_OFFSET - 3 * DAY
  }

  lemma FloorOfFloor(n: int)
    ensures n / DAY / 7 == n / WEEK
    ensures n / DAY * DAY <= n < n / DAY * DAY + DAY
  {
    var q := n / WEEK;
    var r := n % WEEK;
    assert n == q * WEEK + r;
    assert n / DAY == q * 7 + r / DAY by {
      QuotientIs(n, DAY, q * 7 + r / DAY, r % DAY);
    }
    assert 0 <= r / DAY < 7;
    QuotientIs(n / DAY, 7, q, r / DAY);
  }

  lemma MondayOf(day: int)
    ensures day - ((day + 4) % 7 + 6) % 7 == (day + 3) / 7 * 7 - 3
  {
    assert ((day + 4) % 7 + 6) % 7 == (day + 3) % 7;
  }

  /** Where Date.UTC reads the year, the calendar computation is the closed form. */
  lemma WindowIsClosedForm(t: int)
    requires !Misread(t)
    ensures WeeklyBudgetWindow(t) == Window(WeekStart(t), WeekStart(t) + WEEK)
  {
    hide DayFromYear, DayOfYear, DateOf, MonthStart, MonthOf;
    var day := LocalDay(t);
    DateRoundTrip(day);
    MondayOf(day);
    var n := t + SHANGHAI_OFFSET + 3 * DAY;
    FloorOfFloor(n);
    assert n / DAY == day + 3 by {
      FloorOfFloor(t + SHANGHAI_OFFSET);
      QuotientIs(n, DAY, day + 3, (t + SHANGHAI_OFFSET) % DAY);
    }
  }

  lemma WeekContains(t: int)
    ensures WeekStart(t) <= t < WeekStart(t) + WEEK
  {
    var n := t + SHANGHAI_OFFSET + 3 * DAY;
    assert n == n / WEEK * WEEK + n % WEEK;
  }

  /** A misread year moves the window more than eighteen centuries ahead of its instant. */
  lemma MisreadIsFarAhead(t: int)
    requires Misread(t)
    ensures t < WeeklyBudgetWindow(t).start
  {
    var day := LocalDay(t);
    var y := YearOf(day);
    CenturiesAhead(y);
    FloorOfFloor(t + SHANGHAI_OFFSET);
    assert MonthStart(MonthOf(day), Leap(FullYear(y))) >= MonthStart(MonthOf(day), Leap(y)) - 1;
  }

  lemma CenturiesAhead(y: int)
    requires 0 <= y <= 99
    ensures DayFromYear(1900 + y) >= DayFromYear(y) + 365 * 1900
  {
  }

  /** The window of an instant contains it exactly when Date.UTC reads its local year as written. */
  lemma WindowContainsItsInstant(t: int)
    ensures WeeklyBudgetWindow(t).Contains(t) <==> !Misread(t)
  {
    if Misread(t) {
      MisreadIsFarAhead(t);
    } else {
      WindowIsClosedForm(t);
      WeekContains(t);
    }
  }

  /** Closed-form weeks partition time: an instant lies in the week of t exactly when its own week is that one. */
  lemma WeeksPartitionTime(t: int, u: int)
    ensures WeekStart(t) <= u < WeekStart(t) + WEEK <==> WeekStart(u) == WeekStart(t)
  {
    WeekContains(t);
    WeekContains(u);
    var a, b := (t + SHANGHAI_OFFSET + 3 * DAY) / WEEK, (u + SHANGHAI_OFFSET + 3 * DAY) / WEEK;
    assert WeekStart(t) - WeekStart(u) == (a - b) * WEEK;
    if a > b { assert (a - b) * WEEK >= WEEK; }
    if b > a { assert (b - a) * WEEK >= WEEK; }
  }

  /** A week starts on Monday, 00:00 at UTC+8: days are counted from Thursday 1 January 1970, so day 4 is a Monday. */
  lemma WeekStartsOnMonday(t: int)
    ensures (WeekStart(t) + 8 * 3_600_000) % 86_400_000 == 0
    ensures ((WeekStart(t) + 8 * 3_600_000) / 86_400_000 - 4) % 7 == 0
    ensures (WeekStart(t) + SHANGHAI_OFFSET) % DAY == 0 && (LocalDay(WeekStart(t)) + 4) % 7 == 1
  {
    var q := (t + SHANGHAI_OFFSET + 3 * DAY) / WEEK;
    assert WeekStart(t) + SHANGHAI_OFFSET == (q * 7 - 3) * DAY;
    QuotientIs(WeekStart(t) + SHANGHAI_OFFSET, DAY, q * 7 - 3, 0);
    QuotientIs(q * 7 - 3 + 4, 7, q, 1);
    QuotientIs(q * 7 - 3 - 4, 7, q - 1, 0);
  }

  /** Instants since 1970 are never misread. */
  lemma ModernTimesAreRead(t: int)
    requires t >= 0
    ensures !Misread(t) && WeeklyBudgetWindow(t) == Window(WeekStart(t), WeekStart(t) + WEEK)
  {
    var day := LocalDay(t);
    YearFromIsLater(1970, day);
    WindowIsClosedForm(t);
  }

  lemma {:induction false} YearFromIsLater(y: int, day: int)
    requires DayFromYear(y) <= day
    ensures YearFrom(y, day) >= y
    decreases day - DayFromYear(y)
  {
    YearLength(y);
    if DayFromYear(y + 1) <= day { YearFromIsLater(y + 1, day); }
  }
}
