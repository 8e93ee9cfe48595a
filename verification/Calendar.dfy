/** The proleptic Gregorian calendar in UTC, over whole Unix seconds.

    A time is an `int` number of seconds since 1970-01-01T00:00:00Z. Days are
    numbered from 0001-01-01, which is day 0 and a Monday. Dafny's `/` and `%`
    round down for a positive divisor, so every definition holds for times
    before the epoch as well. */
module Calendar {

  const DAY := 86400
  const HOUR := 3600
  const MINUTE := 60
  const EPOCH_DAY := 719162  // 1970-01-01

  predicate Leap(y: int) {
    y % 4 == 0 && (y % 100 != 0 || y % 400 == 0)
  }

  function DaysBeforeYear(y: int): int {
    365 * (y - 1) + (y - 1) / 4 - (y - 1) / 100 + (y - 1) / 400
  }

  function DaysBeforeMonth(leap: bool, m: int): int
    requires 1 <= m <= 13
  {
    var extra := if leap then 1 else 0;
    match m
    case 1 => 0
    case 2 => 31
    case 3 => 59 + extra
    case 4 => 90 + extra
    case 5 => 120 + extra
    case 6 => 151 + extra
    case 7 => 181 + extra
    case 8 => 212 + extra
    case 9 => 243 + extra
    case 10 => 273 + extra
    case 11 => 304 + extra
    case 12 => 334 + extra
    case _ => 365 + extra
  }

  function DaysInMonth(y: int, m: int): int
    requires 1 <= m <= 12
  {
    DaysBeforeMonth(Leap(y), m + 1) - DaysBeforeMonth(Leap(y), m)
  }

  function DayNumber(y: int, m: int, d: int): int
    requires 1 <= m <= 12
  {
    DaysBeforeYear(y) + DaysBeforeMonth(Leap(y), m) + d - 1
  }

  /** A first guess at the year of day `n`, at most one year off. */
  function YearGuess(n: int): int {
    n * 400 / 146097 + 1
  }

  function YearOfDay(n: int): int {
    var y := YearGuess(n);
    if n < DaysBeforeYear(y) then y - 1
    else if DaysBeforeYear(y + 1) <= n then y + 1
    else y
  }

  function MonthOfDay(n: int): (m: int)
    ensures 1 <= m <= 12
  {
    var leap := Leap(YearOfDay(n));
    var k := n - DaysBeforeYear(YearOfDay(n));
    if k < DaysBeforeMonth(leap, 2) then 1
    else if k < DaysBeforeMonth(leap, 3) then 2
    else if k < DaysBeforeMonth(leap, 4) then 3
    else if k < DaysBeforeMonth(leap, 5) then 4
    else if k < DaysBeforeMonth(leap, 6) then 5
    else if k < DaysBeforeMonth(leap, 7) then 6
    else if k < DaysBeforeMonth(leap, 8) then 7
    else if k < DaysBeforeMonth(leap, 9) then 8
    else if k < DaysBeforeMonth(leap, 10) then 9
    else if k < DaysBeforeMonth(leap, 11) then 10
    else if k < DaysBeforeMonth(leap, 12) then 11
    else 12
  }

  /** The first day of the month that holds day `n`. */
  function MonthStart(n: int): int {
    DayNumber(YearOfDay(n), MonthOfDay(n), 1)
  }

  function DayNumberOf(t: int): int { t / DAY + EPOCH_DAY }
  function Year(t: int): int { YearOfDay(DayNumberOf(t)) }
  function Month(t: int): int { MonthOfDay(DayNumberOf(t)) }
  function Day(t: int): int { DayNumberOf(t) - MonthStart(DayNumberOf(t)) + 1 }
  /** Sunday is 0, as in Go's `time.Weekday`. */
  function Weekday(t: int): int { (DayNumberOf(t) + 1) % 7 }
  function Hour(t: int): int { t % DAY / HOUR }
  function Minute(t: int): int { t % HOUR / MINUTE }
  function Second(t: int): int { t % MINUTE }

  /** Go's `time.Date` in UTC for a month of 1..13: month 13 is January of the
      next year, and a day past the end of the month runs into the next one. */
  function Date(y: int, m: int, d: int, h: int, mi: int, s: int): int
    requires 1 <= m <= 13
  {
    var n := if m == 13 then DayNumber(y + 1, 1, d) else DayNumber(y, m, d);
    (n - EPOCH_DAY) * DAY + h * HOUR + mi * MINUTE + s
  }

  lemma Tick4(y: int)
    ensures y / 4 == (y - 1) / 4 + (if y % 4 == 0 then 1 else 0)
  {
  }

  lemma Tick100(y: int)
    ensures y / 100 == (y - 1) / 100 + (if y % 100 == 0 then 1 else 0)
    ensures y % 100 == 0 ==> y % 4 == 0
  {
    if y % 100 == 0 {
      assert y == 4 * (25 * (y / 100));
    }
  }

  lemma Tick400(y: int)
    ensures y / 400 == (y - 1) / 400 + (if y % 400 == 0 then 1 else 0)
    ensures y % 400 == 0 ==> y % 100 == 0
  {
    if y % 400 == 0 {
      assert y == 100 * (4 * (y / 400));
    }
  }

  lemma YearLength(y: int)
    ensures DaysBeforeYear(y + 1) == DaysBeforeYear(y) + (if Leap(y) then 366 else 365)
  {
    Tick4(y);
    Tick100(y);
    Tick400(y);
    LeapDays(y / 4, y / 100, y / 400, (y - 1) / 4, (y - 1) / 100, (y - 1) / 400, y);
  }

  lemma LeapDays(a: int, b: int, c: int, a': int, b': int, c': int, y: int)
    requires a == a' + (if y % 4 == 0 then 1 else 0)
    requires b == b' + (if y % 100 == 0 then 1 else 0)
    requires c == c' + (if y % 400 == 0 then 1 else 0)
    requires y % 100 == 0 ==> y % 4 == 0
    requires y % 400 == 0 ==> y % 100 == 0
    ensures a - b + c == a' - b' + c' + (if Leap(y) then 1 else 0)
  {
  }

  lemma YearGuessIsClose(n: int)
    ensures DaysBeforeYear(YearGuess(n) - 1) <= n < DaysBeforeYear(YearGuess(n) + 2)
  {
  }

  lemma {:induction false} YearsAreOrdered(y: int, z: int)
    requires y < z
    ensures DaysBeforeYear(y) < DaysBeforeYear(z)
    decreases z - y
  {
    YearLength(y);
    if y + 1 < z {
      YearsAreOrdered(y + 1, z);
    }
  }

  /** `YearOfDay` is the one year whose days enclose `n`. */
  lemma YearOfDayIsExact(n: int, y: int)
    ensures y == YearOfDay(n) <==> DaysBeforeYear(y) <= n < DaysBeforeYear(y + 1)
  {
    YearGuessIsClose(n);
    var z := YearOfDay(n);
    if y < z && y + 1 < z {
      YearsAreOrdered(y + 1, z);
    } else if z < y && z + 1 < y {
      YearsAreOrdered(z + 1, y);
    }
  }

  /** Month and day number are inverse: day `d` of a month is in that month of
      that year, and a day number splits into exactly those parts. */
  lemma CivilRoundTrip(y: int, m: int, d: int)
    requires 1 <= m <= 12 && 1 <= d <= DaysInMonth(y, m)
    ensures var n := DayNumber(y, m, d);
            YearOfDay(n) == y && MonthOfDay(n) == m && n - MonthStart(n) + 1 == d
  {
    hide YearOfDay, DaysBeforeYear, Leap;
    YearLength(y);
    var n := DayNumber(y, m, d);
    YearOfDayIsExact(n, y);
  }

  lemma DayRoundTrip(n: int)
    ensures 1 <= n - MonthStart(n) + 1 <= DaysInMonth(YearOfDay(n), MonthOfDay(n))
    ensures DayNumber(YearOfDay(n), MonthOfDay(n), n - MonthStart(n) + 1) == n
  {
    hide YearOfDay, DaysBeforeYear, Leap;
    var y := YearOfDay(n);
    YearOfDayIsExact(n, y);
    YearLength(y);
  }

  // ---------- The calendar as one knows it ----------

  /** The first second of the epoch is midnight of Thursday, the first of January
      1970. */
  lemma EpochIsThursday(t: int)
    requires 0 <= t < 86400
    ensures Year(t) == 1970 && Month(t) == 1 && Day(t) == 1 && Weekday(t) == 4
  {
    assert DayNumberOf(t) == 719162;
    YearOfDayIsExact(719162, 1970);
  }

  /** Thirty days have April, June, September and November; February has
      twenty-eight, or twenty-nine in a year that four divides, a hundred does not or
      four hundred does; all others have thirty-one. */
  lemma MonthLengths(y: int, m: int)
    requires 1 <= m <= 12
    ensures DaysInMonth(y, m) == 30 <==> m == 4 || m == 6 || m == 9 || m == 11
    ensures m == 2 ==> DaysInMonth(y, m) == if y % 4 == 0 && (y % 100 != 0 || y % 400 == 0) then 29 else 28
    ensures m != 2 && DaysInMonth(y, m) != 30 ==> DaysInMonth(y, m) == 31
  {
  }

  /** A day later the weekday is the next one, and the date is the next day of the
      month, the first of the next month after the last day, or the first of January
      after the last of December. */
  lemma DayAfter(t: int)
    ensures Weekday(t + 86400) == (Weekday(t) + 1) % 7
    ensures var y, m, d := Year(t), Month(t), Day(t);
            var y', m', d' := Year(t + 86400), Month(t + 86400), Day(t + 86400);
            && 1 <= d <= DaysInMonth(y, m)
            && if d < DaysInMonth(y, m) then y' == y && m' == m && d' == d + 1
               else if m < 12 then y' == y && m' == m + 1 && d' == 1
               else y' == y + 1 && m' == 1 && d' == 1
  {
    hide YearOfDay, MonthOfDay, MonthStart, DaysInMonth;
    var n := DayNumberOf(t);
    NextDayNumber(t);
    WeekTurns(n);
    DateAfter(n);
  }

  lemma NextDayNumber(t: int)
    ensures DayNumberOf(t + 86400) == DayNumberOf(t) + 1
  {
  }

  lemma WeekTurns(n: int)
    ensures (n + 2) % 7 == ((n + 1) % 7 + 1) % 7
  {
  }

  lemma DateAfter(n: int)
    ensures var y, m, d := YearOfDay(n), MonthOfDay(n), n - MonthStart(n) + 1;
            var y', m', d' := YearOfDay(n + 1), MonthOfDay(n + 1), n + 1 - MonthStart(n + 1) + 1;
            && 1 <= d <= DaysInMonth(y, m)
            && if d < DaysInMonth(y, m) then y' == y && m' == m && d' == d + 1
               else if m < 12 then y' == y && m' == m + 1 && d' == 1
               else y' == y + 1 && m' == 1 && d' == 1
  {
    var y, m, d := YearOfDay(n), MonthOfDay(n), n - MonthStart(n) + 1;
    DayRoundTrip(n);
    hide YearOfDay, MonthOfDay, DaysBeforeYear, Leap, MonthStart;
    YearLength(y);
    if d < DaysInMonth(y, m) {
      CivilRoundTrip(y, m, d + 1);
    } else if m < 12 {
      FirstDayExists(y, m + 1);
      CivilRoundTrip(y, m + 1, 1);
    } else {
      FirstDayExists(y + 1, 1);
      CivilRoundTrip(y + 1, 1, 1);
    }
  }

  lemma FirstDayExists(y: int, m: int)
    requires 1 <= m <= 12
    ensures 1 <= DaysInMonth(y, m)
  {
    MonthLengths(y, m);
  }

  /** Hour, minute and second are what has passed since midnight of the same day. */
  lemma ClockReads(t: int)
    ensures 0 <= Hour(t) < 24 && 0 <= Minute(t) < 60 && 0 <= Second(t) < 60
    ensures var midnight := t - (Hour(t) * 3600 + Minute(t) * 60 + Second(t));
            && midnight % 86400 == 0 && midnight <= t < midnight + 86400
            && DayNumberOf(midnight) == DayNumberOf(t)
  {
    var r := t % DAY;
    ClockParts(t);
    assert t == t / DAY * DAY + r;
    var midnight := t / DAY * DAY;
    assert r == Hour(t) * 3600 + Minute(t) * 60 + Second(t);
    Midnights(t / DAY);
  }

  lemma Midnights(n: int)
    ensures n * DAY % DAY == 0 && n * DAY / DAY == n
  {
  }

  lemma ClockParts(t: int)
    ensures t % DAY == t % DAY / HOUR * 3600 + t % HOUR / MINUTE * 60 + t % MINUTE
    ensures 0 <= t % DAY / HOUR < 24 && 0 <= t % HOUR / MINUTE < 60 && 0 <= t % MINUTE < 60
  {
    var q, sec := t / 60, t % 60;
    var p, min := q / 60, q % 60;
    var n, hour := p / 24, p % 24;
    assert t == 60 * q + sec && q == 60 * p + min && p == 24 * n + hour;
    HourOf(t, p, 60 * min + sec);
    DayOf(t, n, 3600 * hour + 60 * min + sec);
    MinuteOfHour(min, sec);
    HourOfDay(hour, 60 * min + sec);
  }

  lemma HourOf(t: int, p: int, r: int)
    requires t == 3600 * p + r && 0 <= r < 3600
    ensures t % HOUR == r
  {
  }

  lemma DayOf(t: int, n: int, r: int)
    requires t == 86400 * n + r && 0 <= r < 86400
    ensures t % DAY == r
  {
  }

  lemma MinuteOfHour(min: int, sec: int)
    requires 0 <= sec < 60
    ensures (60 * min + sec) / MINUTE == min
  {
  }

  lemma HourOfDay(hour: int, r: int)
    requires 0 <= r < 3600
    ensures (3600 * hour + r) / HOUR == hour
  {
  }
}
