/** The next-fire search of a parsed cron pattern, in UTC. A field is the set of
    values it admits; the value 63 stands for the star bit. */
module CronSearch {
  import opened Calendar

  const STAR := 63
  const NANOS := 1_000_000_000
  const YEARS_AHEAD := 5

  datatype Schedule = Schedule(second: set<int>, minute: set<int>, hour: set<int>,
                               dayOfMonth: set<int>, month: set<int>, dayOfWeek: set<int>)

  datatype Fire = At(seconds: int) | ExceedsRange

  predicate MonthOk(s: Schedule, t: int) { Month(t) in s.month }
  predicate HourOk(s: Schedule, t: int) { Hour(t) in s.hour }
  predicate MinuteOk(s: Schedule, t: int) { Minute(t) in s.minute }
  predicate SecondOk(s: Schedule, t: int) { Second(t) in s.second }

  /** The day rule: both day fields must match when either holds a star,
      otherwise one of them is enough. */
  predicate DayMatches(s: Schedule, t: int) {
    var dom := Day(t) in s.dayOfMonth;
    var dow := Weekday(t) in s.dayOfWeek;
    if STAR in s.dayOfMonth || STAR in s.dayOfWeek then dom && dow else dom || dow
  }

  predicate Matches(s: Schedule, t: int) {
    MonthOk(s, t) && DayMatches(s, t) && HourOk(s, t) && MinuteOk(s, t) && SecondOk(s, t)
  }

  /** The upcoming whole second after a nanosecond timestamp. */
  function FirstCandidate(ts: int): int { ts / NANOS + 1 }

  ghost predicate NoMatch(s: Schedule, from: int, to: int) {
    forall t {:trigger Matches(s, t)} :: from <= t < to ==> !Matches(s, t)
  }

  // Start of the enclosing minute, hour, day and month.
  function MinuteBegin(t: int): int { t - t % MINUTE }
  function HourBegin(t: int): int { t - t % HOUR }
  function DayBegin(t: int): int { t - t % DAY }
  function MonthBegin(t: int): int { Date(Year(t), Month(t), 1, 0, 0, 0) }

  /** Go's `AddDate(0, 1, 0)`. */
  function AddMonth(t: int): int {
    Date(Year(t), Month(t) + 1, Day(t), Hour(t), Minute(t), Second(t))
  }

  /** Go's `AddDate(0, 0, 1)`. */
  function AddDay(t: int): int {
    Date(Year(t), Month(t), Day(t) + 1, Hour(t), Minute(t), Second(t))
  }

  /** A field that does not match has every finer field at its minimum. */
  predicate Aligned(s: Schedule, t: int) {
    && (!MonthOk(s, t) ==> t == MonthBegin(t))
    && (!DayMatches(s, t) ==> t == DayBegin(t))
    && (!HourOk(s, t) ==> t == HourBegin(t))
    && (!MinuteOk(s, t) ==> t == MinuteBegin(t))
  }

  /** What every pass through the search keeps. */
  ghost predicate Searching(s: Schedule, start: int, next: int, truncated: bool) {
    && start <= next
    && NoMatch(s, start, next)
    && (truncated ==> Aligned(s, next))
  }

  lemma SameDay(t: int, u: int)
    requires DayBegin(t) <= u < DayBegin(t) + DAY
    ensures DayNumberOf(u) == DayNumberOf(t)
  {
    assert DayBegin(t) == t / DAY * DAY;
  }

  lemma HourParts(t: int)
    ensures t % DAY / HOUR == t / HOUR % 24 && t / DAY == t / HOUR / 24
  {
  }

  lemma MinuteParts(t: int)
    ensures t % HOUR / MINUTE == t / MINUTE % 60 && t / HOUR == t / MINUTE / 60
  {
  }

  lemma SameHour(t: int, u: int)
    requires HourBegin(t) <= u < HourBegin(t) + HOUR
    ensures DayNumberOf(u) == DayNumberOf(t) && Hour(u) == Hour(t)
  {
    assert u / HOUR == t / HOUR;
    HourParts(t);
    HourParts(u);
  }

  lemma SameMinute(t: int, u: int)
    requires MinuteBegin(t) <= u < MinuteBegin(t) + MINUTE
    ensures DayNumberOf(u) == DayNumberOf(t) && Hour(u) == Hour(t) && Minute(u) == Minute(t)
  {
    assert u / MINUTE == t / MINUTE;
    MinuteParts(t);
    MinuteParts(u);
    HourParts(t);
    HourParts(u);
  }

  lemma SameMonth(t: int, u: int)
    requires MonthBegin(t) <= u < AddMonth(MonthBegin(t))
    ensures Year(u) == Year(t) && Month(u) == Month(t)
  {
    hide YearOfDay, MonthOfDay, Leap;
    MonthBounds(t);
    var y, m := Year(t), Month(t);
    var first := DayNumber(y, m, 1);
    assert MonthBegin(t) == (first - EPOCH_DAY) * DAY;
    var d := DayNumberOf(u) - first + 1;
    assert 1 <= d <= DaysInMonth(y, m);
    CivilRoundTrip(y, m, d);
    assert DayNumber(y, m, d) == DayNumberOf(u);
  }

  /** Midnight of day number `n`. */
  lemma Midnight(n: int)
    ensures var t := (n - EPOCH_DAY) * DAY;
            && DayNumberOf(t) == n && Hour(t) == 0 && Minute(t) == 0 && Second(t) == 0
            && t == DayBegin(t) == HourBegin(t) == MinuteBegin(t)
  {
    var k := n - EPOCH_DAY;
    var t := k * DAY;
    assert t == k * 24 * HOUR == k * 1440 * MINUTE;
    assert t % DAY == 0 && t / DAY == k;
    assert t % HOUR == 0;
    assert t % MINUTE == 0;
  }

  lemma DayHolds(t: int)
    ensures DayBegin(t) == (DayNumberOf(t) - EPOCH_DAY) * DAY
    ensures DayBegin(t) <= t < DayBegin(t) + DAY
  {
  }

  /** A month begins on its day 1 at midnight and lasts until the next one. */
  lemma MonthBounds(t: int)
    ensures MonthBegin(t) <= DayBegin(t) <= t
    ensures var b := MonthBegin(t);
            Year(b) == Year(t) && Month(b) == Month(t) && Day(b) == 1
            && Hour(b) == 0 && Minute(b) == 0 && Second(b) == 0
            && b == DayBegin(b) == HourBegin(b) == MinuteBegin(b)
    ensures AddMonth(MonthBegin(t)) == MonthBegin(t) + DaysInMonth(Year(t), Month(t)) * DAY
    ensures t < AddMonth(MonthBegin(t))
  {
    hide YearOfDay, MonthOfDay, Leap;
    var y, m := Year(t), Month(t);
    var n := DayNumberOf(t);
    DayRoundTrip(n);
    CivilRoundTrip(y, m, 1);
    var first := DayNumber(y, m, 1);
    Midnight(first);
    DayHolds(t);
    YearLength(y);
    MonthArithmetic(first, n, DaysInMonth(y, m));
  }

  lemma MonthArithmetic(first: int, n: int, len: int)
    requires first <= n < first + len
    ensures (first - EPOCH_DAY) * DAY <= (n - EPOCH_DAY) * DAY
    ensures (n - EPOCH_DAY) * DAY + DAY <= (first + len - EPOCH_DAY) * DAY
    ensures (first + len - EPOCH_DAY) * DAY == (first - EPOCH_DAY) * DAY + len * DAY
  {
  }

  /** The month after is January exactly when the year changes. */
  lemma NextMonth(t: int)
    ensures var u := AddMonth(MonthBegin(t));
            && t < u
            && u == MonthBegin(u)
            && (Month(u) == 1 <==> Month(t) == 12)
            && Year(u) == (if Month(t) == 12 then Year(t) + 1 else Year(t))
  {
    hide YearOfDay, MonthOfDay, Leap;
    MonthBounds(t);
    var y, m := Year(t), Month(t);
    var b := MonthBegin(t);
    var u := AddMonth(b);
    assert u == Date(y, m + 1, 1, 0, 0, 0);
    var y', m' := if m == 12 then y + 1 else y, if m == 12 then 1 else m + 1;
    CivilRoundTrip(y', m', 1);
    assert DayNumberOf(u) == DayNumber(y', m', 1);
  }

  lemma MonthStep(s: Schedule, start: int, t: int, truncated: bool)
    requires Searching(s, start, t, truncated) && !MonthOk(s, t)
    ensures var b := if truncated then t else MonthBegin(t);
            var u := AddMonth(b);
            && t < u && Searching(s, start, u, true)
            && Year(u) == (if Month(u) == 1 then Year(t) + 1 else Year(t))
  {
    hide YearOfDay, MonthOfDay, MonthStart, Date;
    var u := AddMonth(MonthBegin(t));
    NextMonth(t);
    MonthBounds(u);
    forall v {:trigger Matches(s, v)} | t <= v < u ensures !Matches(s, v) {
      MonthBounds(t);
      SameMonth(t, v);
    }
  }

  /** The six parts of a time name it exactly. */
  lemma Recompose(t: int)
    ensures t == Date(Year(t), Month(t), Day(t), Hour(t), Minute(t), Second(t))
  {
    DayHolds(t);
    HourParts(t);
    MinuteParts(t);
    assert DayNumber(Year(t), Month(t), Day(t)) == DayNumberOf(t);
    assert t % DAY == t % DAY / HOUR * HOUR + t % DAY % HOUR;
    assert t % DAY % HOUR == t % HOUR;
    assert t % HOUR == t % HOUR / MINUTE * MINUTE + t % HOUR % MINUTE;
    assert t % HOUR % MINUTE == t % MINUTE;
  }

  // What a carry out of a field does to the coarser fields.

  lemma NextDay(t: int)
    ensures var u := DayBegin(t) + DAY;
            && DayNumberOf(u) == DayNumberOf(t) + 1
            && u == DayBegin(u) == HourBegin(u) == MinuteBegin(u)
            && AddDay(DayBegin(t)) == u
  {
    var b, n := DayBegin(t), DayNumberOf(t);
    DayHolds(t);
    Midnight(n);
    Midnight(n + 1);
    Recompose(b);
  }

  lemma DayCarry(t: int)
    ensures var u := DayBegin(t) + DAY;
            && u == DayBegin(u) == HourBegin(u) == MinuteBegin(u)
            && AddDay(DayBegin(t)) == u
            && (if Day(u) == 1 then u == MonthBegin(u) else Year(u) == Year(t) && Month(u) == Month(t))
  {
    hide Date, YearOfDay, MonthOfDay, AddDay;
    var u := DayBegin(t) + DAY;
    NextDay(t);
    MonthBounds(t);
    MonthBounds(u);
    DayHolds(t);
    NextMonth(t);
    if u < AddMonth(MonthBegin(t)) {
      SameMonth(t, u);
      DayRoundTrip(DayNumberOf(t));
      assert Day(u) == Day(t) + 1;
    } else {
      assert AddMonth(MonthBegin(t)) - MonthBegin(t) == DaysInMonth(Year(t), Month(t)) * DAY;
      SameMidnight(t, u, MonthBegin(t), DaysInMonth(Year(t), Month(t)));
    }
  }

  lemma SameMidnight(t: int, u: int, b: int, len: int)
    requires u == DayBegin(t) + DAY && b == DayBegin(b) && t < b + len * DAY <= u
    ensures u == b + len * DAY
  {
    assert DayBegin(t) == t / DAY * DAY && b == b / DAY * DAY;
    assert t / DAY + 1 >= b / DAY + len;
    assert t / DAY < b / DAY + len;
  }

  lemma HourCarry(t: int)
    ensures var u := HourBegin(t) + HOUR;
            && u == HourBegin(u) == MinuteBegin(u)
            && (if Hour(u) == 0 then u == DayBegin(t) + DAY else DayNumberOf(u) == DayNumberOf(t))
  {
    var q := t / HOUR;
    var u := (q + 1) * HOUR;
    assert HourBegin(t) == q * HOUR;
    assert u / HOUR == q + 1 && u % HOUR == 0 && u % MINUTE == 0;
    HourParts(t);
    HourParts(u);
    assert t / DAY == q / 24 && u / DAY == (q + 1) / 24;
    assert DayBegin(t) == q / 24 * DAY;
    assert Hour(u) == (q + 1) % 24;
  }

  lemma MinuteCarry(t: int)
    ensures var u := MinuteBegin(t) + MINUTE;
            && u == MinuteBegin(u)
            && (if Minute(u) == 0 then u == HourBegin(t) + HOUR
                else DayNumberOf(u) == DayNumberOf(t) && Hour(u) == Hour(t))
  {
    var u := MinuteBegin(t) + MINUTE;
    MinuteParts(t);
    MinuteParts(u);
    assert u / MINUTE == t / MINUTE + 1 && u % MINUTE == 0;
    HourParts(t);
    HourParts(u);
  }

  lemma SecondCarry(t: int)
    ensures if Second(t + 1) == 0 then t + 1 == MinuteBegin(t) + MINUTE
            else DayNumberOf(t + 1) == DayNumberOf(t) && Hour(t + 1) == Hour(t) && Minute(t + 1) == Minute(t)
  {
    if Second(t + 1) != 0 {
      SameMinute(t, t + 1);
    }
  }

  lemma DayStep(s: Schedule, start: int, t: int, truncated: bool)
    requires Searching(s, start, t, truncated) && MonthOk(s, t) && !DayMatches(s, t)
    ensures var b := if truncated then t else DayBegin(t);
            var u := AddDay(b);
            && t < u && Searching(s, start, u, true)
            && (Day(u) != 1 ==> Year(u) == Year(t) && MonthOk(s, u))
  {
    hide YearOfDay, MonthOfDay, MonthStart, Date;
    var u := DayBegin(t) + DAY;
    DayCarry(t);
    DayHolds(t);
    forall v {:trigger Matches(s, v)} | t <= v < u ensures !Matches(s, v) {
      SameDay(t, v);
    }
  }

  lemma HourStep(s: Schedule, start: int, t: int, truncated: bool)
    requires Searching(s, start, t, truncated) && MonthOk(s, t) && DayMatches(s, t) && !HourOk(s, t)
    ensures var b := if truncated then t else HourBegin(t);
            var u := b + HOUR;
            && t < u && Searching(s, start, u, true)
            && (Hour(u) != 0 ==> Year(u) == Year(t) && MonthOk(s, u) && DayMatches(s, u))
  {
    hide YearOfDay, MonthOfDay, MonthStart, Date;
    var u := HourBegin(t) + HOUR;
    HourCarry(t);
    DayCarry(t);
    forall v {:trigger Matches(s, v)} | t <= v < u ensures !Matches(s, v) {
      SameHour(t, v);
    }
  }

  lemma MinuteStep(s: Schedule, start: int, t: int, truncated: bool)
    requires Searching(s, start, t, truncated)
    requires MonthOk(s, t) && DayMatches(s, t) && HourOk(s, t) && !MinuteOk(s, t)
    ensures var b := if truncated then t else MinuteBegin(t);
            var u := b + MINUTE;
            && t < u && Searching(s, start, u, true)
            && (Minute(u) != 0 ==> Year(u) == Year(t) && MonthOk(s, u) && DayMatches(s, u) && HourOk(s, u))
  {
    hide YearOfDay, MonthOfDay, MonthStart, Date;
    var u := MinuteBegin(t) + MINUTE;
    MinuteCarry(t);
    HourCarry(t);
    DayCarry(t);
    forall v {:trigger Matches(s, v)} | t <= v < u ensures !Matches(s, v) {
      SameMinute(t, v);
    }
  }

  lemma SecondStep(s: Schedule, start: int, t: int, truncated: bool)
    requires Searching(s, start, t, truncated)
    requires MonthOk(s, t) && DayMatches(s, t) && HourOk(s, t) && MinuteOk(s, t) && !SecondOk(s, t)
    ensures var u := t + 1;
            && Searching(s, start, u, true)
            && (Second(u) != 0 ==> Year(u) == Year(t) && MonthOk(s, u) && DayMatches(s, u) && HourOk(s, u) && MinuteOk(s, u))
  {
    hide YearOfDay, MonthOfDay, MonthStart, Date;
    SecondCarry(t);
    MinuteCarry(t);
    HourCarry(t);
    DayCarry(t);
  }

  /** Later times have later years. */
  lemma YearIsMonotone(t: int, u: int)
    requires t <= u
    ensures Year(t) <= Year(u)
  {
    hide YearOfDay, DaysBeforeYear, Leap, MonthOfDay;
    var n, k := DayNumberOf(t), DayNumberOf(u);
    assert n <= k;
    YearOfDayIsExact(n, YearOfDay(n));
    YearOfDayIsExact(k, YearOfDay(k));
    if YearOfDay(k) + 1 < YearOfDay(n) {
      YearsAreOrdered(YearOfDay(k) + 1, YearOfDay(n));
    }
  }

  /** The first second of a year. */
  function YearBegin(y: int): int { Date(y, 1, 1, 0, 0, 0) }

  lemma YearBeginBounds(t: int, y: int)
    ensures t < YearBegin(y) <==> Year(t) < y
  {
    hide YearOfDay, DaysBeforeYear, Leap, MonthOfDay;
    Midnight(DayNumber(y, 1, 1));
    CivilRoundTrip(y, 1, 1);
    if t < YearBegin(y) {
      DayHolds(t);
      var n := DayNumberOf(t);
      assert n < DaysBeforeYear(y);
      YearOfDayIsExact(n, YearOfDay(n));
      if YearOfDay(n) > y { YearsAreOrdered(y, YearOfDay(n)); }
    } else {
      YearIsMonotone(YearBegin(y), t);
    }
  }

  /** The search: the least whole second after `ts` that the schedule admits,
      or the range error exactly when none is admitted up to the end of the
      fifth year after the year of the first candidate. */
  method NextFire(s: Schedule, ts: int) returns (fire: Fire)
    ensures fire.At? ==>
              && ts < fire.seconds * 1_000_000_000
              && Matches(s, fire.seconds)
              && (forall t {:trigger Matches(s, t)} :: ts < t * 1_000_000_000 && t < fire.seconds ==> !Matches(s, t))
              && Year(fire.seconds) <= Year(ts / 1_000_000_000 + 1) + 5
    ensures fire.ExceedsRange? <==>
              forall t {:trigger Matches(s, t)} ::
                ts < t * 1_000_000_000 && Year(t) <= Year(ts / 1_000_000_000 + 1) + 5 ==> !Matches(s, t)
  {
    hide DayMatches, MonthOk, HourOk, MinuteOk, SecondOk, Aligned;
    hide Year, Month, Day, Hour, Minute, Second, MonthBegin, Date;
    var next := FirstCandidate(ts);
    ghost var start := next;
    assert forall t :: ts < t * NANOS <==> start <= t;
    var truncated := false;
    var yearLimit := Year(next) + YEARS_AHEAD;
    ghost var end := YearBegin(yearLimit + 1);
    label WRAP:
    while true
      invariant Searching(s, start, next, truncated)
      decreases !truncated, end - next
    {
      if Year(next) > yearLimit {
        forall t {:trigger Matches(s, t)} | start <= t && Year(t) <= yearLimit ensures !Matches(s, t) {
          if next <= t { YearIsMonotone(next, t); }
        }
        return ExceedsRange;
      }
      YearBeginBounds(next, yearLimit + 1);
      ghost var entry, entryTruncated := next, truncated;
      while !MonthOk(s, next)
        invariant Searching(s, start, next, truncated)
        invariant Year(next) <= yearLimit
        invariant (entryTruncated ==> truncated) && (truncated == entryTruncated ==> entry <= next)
        decreases !truncated, end - next
      {
        MonthStep(s, start, next, truncated);
        YearBeginBounds(next, yearLimit + 1);
        if !truncated {
          truncated := true;
          next := MonthBegin(next);
        }
        next := AddMonth(next);
        if Month(next) == 1 { continue WRAP; }
      }
      while !DayMatches(s, next)
        invariant Searching(s, start, next, truncated)
        invariant Year(next) <= yearLimit && MonthOk(s, next)
        invariant (entryTruncated ==> truncated) && (truncated == entryTruncated ==> entry <= next)
        decreases !truncated, end - next
      {
        DayStep(s, start, next, truncated);
        YearBeginBounds(next, yearLimit + 1);
        if !truncated {
          truncated := true;
          next := DayBegin(next);
        }
        next := AddDay(next);
        if Day(next) == 1 { continue WRAP; }
      }
      while !HourOk(s, next)
        invariant Searching(s, start, next, truncated)
        invariant Year(next) <= yearLimit && MonthOk(s, next) && DayMatches(s, next)
        invariant (entryTruncated ==> truncated) && (truncated == entryTruncated ==> entry <= next)
        decreases !truncated, end - next
      {
        HourStep(s, start, next, truncated);
        YearBeginBounds(next, yearLimit + 1);
        if !truncated {
          truncated := true;
          next := HourBegin(next);
        }
        next := next + HOUR;
        if Hour(next) == 0 { continue WRAP; }
      }
      while !MinuteOk(s, next)
        invariant Searching(s, start, next, truncated)
        invariant Year(next) <= yearLimit && MonthOk(s, next) && DayMatches(s, next) && HourOk(s, next)
        invariant (entryTruncated ==> truncated) && (truncated == entryTruncated ==> entry <= next)
        decreases !truncated, end - next
      {
        MinuteStep(s, start, next, truncated);
        YearBeginBounds(next, yearLimit + 1);
        if !truncated {
          truncated := true;
          next := MinuteBegin(next);
        }
        next := next + MINUTE;
        if Minute(next) == 0 { continue WRAP; }
      }
      while !SecondOk(s, next)
        invariant Searching(s, start, next, truncated)
        invariant Year(next) <= yearLimit
        invariant MonthOk(s, next) && DayMatches(s, next) && HourOk(s, next) && MinuteOk(s, next)
        invariant (entryTruncated ==> truncated) && (truncated == entryTruncated ==> entry <= next)
        decreases !truncated, end - next
      {
        SecondStep(s, start, next, truncated);
        YearBeginBounds(next, yearLimit + 1);
        truncated := true;
        next := next + 1;
        if Second(next) == 0 { continue WRAP; }
      }
      return At(next);
    }
  }
}
