/** Go's `time.Time` restricted to what the core uses: an instant in Unix
    seconds carried together with a fixed UTC offset, the proleptic
    Gregorian calendar behind `Year()`, `Month()`, `Day()` and
    `Weekday()`, `time.Date(...)` with month normalisation, and the
    `DatesInMonth` enumerator of traq.go and evaluation.go. */
module Calendar {

  const SecondsPerDay: int := 86400

  /** An instant (`Unix()`) together with the fixed offset of its zone. */
  datatype Timestamp = Timestamp(unix: int, offset: int)

  /** A calendar date: year, month 1..12, day of month. */
  datatype Civil = Civil(year: int, month: int, day: int)

  /** Go's zero `time.Time`: January 1, year 1, 00:00:00 UTC. */
  const ZeroTime: Timestamp := Timestamp(-62135596800, 0)

  const Sunday: int := 0
  const Monday: int := 1
  const Tuesday: int := 2
  const Friday: int := 5
  const Saturday: int := 6

  predicate IsLeap(y: int) {
    y % 4 == 0 && (y % 100 != 0 || y % 400 == 0)
  }

  function YearLength(y: int): int {
    if IsLeap(y) then 366 else 365
  }

  function DaysInMonth(y: int, m: int): int
    requires 1 <= m <= 12
  {
    if m == 2 then (if IsLeap(y) then 29 else 28)
    else if m == 4 || m == 6 || m == 9 || m == 11 then 30
    else 31
  }

  /** Days of year `y` before the first of month `m`; month 13 stands for
      the first of January of the following year. */
  function DaysBeforeMonth(y: int, m: int): int
    requires 1 <= m <= 13
  {
    var leap := if IsLeap(y) && m > 2 then 1 else 0;
    leap + (
      if m == 1 then 0 else if m == 2 then 31 else if m == 3 then 59
      else if m == 4 then 90 else if m == 5 then 120 else if m == 6 then 151
      else if m == 7 then 181 else if m == 8 then 212 else if m == 9 then 243
      else if m == 10 then 273 else if m == 11 then 304 else if m == 12 then 334
      else 365)
  }

  predicate ValidCivil(c: Civil) {
    1 <= c.month <= 12 && 1 <= c.day <= DaysInMonth(c.year, c.month)
  }

  /** Leap years among the years before `y` (counted from year 1, and
      extended to earlier years so that differences stay exact). */
  function LeapsBefore(y: int): int {
    (y - 1) / 4 - (y - 1) / 100 + (y - 1) / 400
  }

  /** Days from 1970-01-01 to January 1 of year `y`. */
  function DaysBeforeYear(y: int): int {
    365 * (y - 1970) + LeapsBefore(y) - LeapsBefore(1970)
  }

  /** Days from 1970-01-01 to the given date (negative before 1970). */
  function DaysFromCivil(c: Civil): int
    requires 1 <= c.month <= 12
  {
    DaysBeforeYear(c.year) + DaysBeforeMonth(c.year, c.month) + c.day - 1
  }

  /** Stepping from year `y - 1` to `y` crosses a multiple of 4, 100 or
      400 exactly when `y` is one. */
  lemma DivSteps(y: int)
    ensures y / 4 - (y - 1) / 4 == (if y % 4 == 0 then 1 else 0)
    ensures y / 100 - (y - 1) / 100 == (if y % 100 == 0 then 1 else 0)
    ensures y / 400 - (y - 1) / 400 == (if y % 400 == 0 then 1 else 0)
  {
  }

  lemma LeapDivisors(y: int)
    ensures y % 100 == 0 ==> y % 4 == 0
    ensures y % 400 == 0 ==> y % 100 == 0
  {
    if y % 100 == 0 {
      var q := y / 100;
      assert y == 4 * (25 * q);
    }
    if y % 400 == 0 {
      var q := y / 400;
      assert y == 100 * (4 * q);
    }
  }

  /** One year further on is exactly one year length later. */
  lemma YearStep(y: int)
    ensures DaysBeforeYear(y + 1) == DaysBeforeYear(y) + YearLength(y)
  {
    DivSteps(y);
    LeapDivisors(y);
  }

  lemma {:induction false} YearsIncrease(a: int, b: int)
    requires a < b
    ensures DaysBeforeYear(a + 1) <= DaysBeforeYear(b)
    decreases b - a
  {
    YearStep(a);
    if a + 1 < b {
      YearsIncrease(a + 1, b);
      YearStep(a + 1);
    }
  }

  lemma MonthsIncrease(y: int, a: int, b: int)
    requires 1 <= a < b <= 13
    ensures DaysBeforeMonth(y, a) < DaysBeforeMonth(y, b)
    ensures a <= 12 ==> DaysBeforeMonth(y, a) + DaysInMonth(y, a) <= DaysBeforeMonth(y, b)
  {
  }

  lemma MonthStep(y: int, m: int)
    requires 1 <= m <= 12
    ensures DaysBeforeMonth(y, m + 1) == DaysBeforeMonth(y, m) + DaysInMonth(y, m)
    ensures DaysBeforeMonth(y, 13) == YearLength(y)
  {
  }

  /** The year whose days contain day number `n`, searched from `y`. */
  function FindYear(n: int, y: int): (r: int)
    ensures DaysBeforeYear(r) <= n < DaysBeforeYear(r + 1)
    decreases (if DaysBeforeYear(y) > n then DaysBeforeYear(y) - n else 0),
              (if DaysBeforeYear(y + 1) <= n then n - DaysBeforeYear(y) else 0)
  {
    var lo, hi := DaysBeforeYear(y), DaysBeforeYear(y + 1);
    YearStep(y);
    assert lo < hi;
    if lo > n then
      YearStep(y - 1);
      assert DaysBeforeYear(y - 1) < lo;
      FindYear(n, y - 1)
    else if hi <= n then
      YearStep(y + 1);
      assert hi < DaysBeforeYear(y + 2);
      FindYear(n, y + 1)
    else y
  }

  /** The month whose days contain day-of-year `doy`, searched from `m`. */
  function FindMonth(y: int, doy: int, m: int): (r: int)
    requires 1 <= m <= 12
    requires DaysBeforeMonth(y, m) <= doy < YearLength(y)
    ensures m <= r <= 12
    ensures DaysBeforeMonth(y, r) <= doy < DaysBeforeMonth(y, r + 1)
    decreases 12 - m
  {
    if m == 12 || doy < DaysBeforeMonth(y, m + 1) then m
    else FindMonth(y, doy, m + 1)
  }

  /** The calendar date of day number `n` (days since 1970-01-01). */
  function CivilFromDays(n: int): (c: Civil)
    ensures ValidCivil(c)
    ensures DaysFromCivil(c) == n
  {
    var y := FindYear(n, 1970 + n * 400 / 146097);
    YearStep(y);
    var doy := n - DaysBeforeYear(y);
    var m := FindMonth(y, doy, 1);
    MonthStep(y, m);
    Civil(y, m, doy - DaysBeforeMonth(y, m) + 1)
  }

  lemma DaysFromCivilBounds(c: Civil)
    requires ValidCivil(c)
    ensures DaysBeforeYear(c.year) <= DaysFromCivil(c) < DaysBeforeYear(c.year + 1)
  {
    YearStep(c.year);
    MonthStep(c.year, c.month);
    if c.month < 12 {
      MonthsIncrease(c.year, c.month + 1, 13);
    }
  }

  /** Distinct valid dates have distinct day numbers. */
  lemma DaysFromCivilInjective(c1: Civil, c2: Civil)
    requires ValidCivil(c1) && ValidCivil(c2)
    requires DaysFromCivil(c1) == DaysFromCivil(c2)
    ensures c1 == c2
  {
    DaysFromCivilBounds(c1);
    DaysFromCivilBounds(c2);
    if c1.year < c2.year {
      YearsIncrease(c1.year, c2.year);
    } else if c2.year < c1.year {
      YearsIncrease(c2.year, c1.year);
    }
    assert c1.year == c2.year;
    if c1.month < c2.month {
      MonthsIncrease(c1.year, c1.month, c2.month);
    } else if c2.month < c1.month {
      MonthsIncrease(c1.year, c2.month, c1.month);
    }
  }

  /** Converting a valid date to its day number and back is the identity. */
  lemma CivilRoundTrip(c: Civil)
    requires ValidCivil(c)
    ensures CivilFromDays(DaysFromCivil(c)) == c
  {
    DaysFromCivilInjective(CivilFromDays(DaysFromCivil(c)), c);
  }

  lemma DayDivision(d: int, r: int)
    requires 0 <= r < SecondsPerDay
    ensures (d * SecondsPerDay + r) / SecondsPerDay == d
    ensures (d * SecondsPerDay + r) % SecondsPerDay == r
  {
  }

  /** The number of the local day (since 1970-01-01) an instant falls on. */
  function LocalDay(t: Timestamp): int {
    (t.unix + t.offset) / SecondsPerDay
  }

  /** `t.Year()`, `t.Month()`, `t.Day()` in the instant's own zone. */
  function CivilOf(t: Timestamp): Civil {
    CivilFromDays(LocalDay(t))
  }

  /** `t.Weekday()`: 0 is Sunday; 1970-01-01 was a Thursday. */
  function Weekday(t: Timestamp): int {
    (LocalDay(t) + 4) % 7
  }

  /** `time.Date(y, m, d, h, mi, s, 0, zone)` for a valid date in a zone
      with fixed offset `offset`. */
  function DateAt(c: Civil, h: int, mi: int, s: int, offset: int): Timestamp
    requires 1 <= c.month <= 12
  {
    Timestamp(DaysFromCivil(c) * SecondsPerDay + h * 3600 + mi * 60 + s - offset, offset)
  }

  /** `time.Date(year, time.Month(month), 1, 0, 0, 0, 0, time.UTC)`'s date:
      Go normalises a month outside 1..12 into a neighbouring year. */
  function FirstOfMonth(year: int, month: int): (c: Civil)
    ensures ValidCivil(c)
    ensures 1 <= month <= 12 ==> c == Civil(year, month, 1)
  {
    Civil(year + (month - 1) / 12, (month - 1) % 12 + 1, 1)
  }

  /** 23:59:59 of the instant's own day, in its own zone: the closing time
      evaluation.go gives a tag still open at the end of the log. Stated
      arithmetically here; `EndOfDayIsClockTime` shows it is the wall-clock
      time 23:59:59 on the instant's civil date. */
  function EndOfDay(t: Timestamp): (r: Timestamp)
    ensures r.offset == t.offset
    ensures LocalDay(r) == LocalDay(t)
    ensures 0 <= r.unix - t.unix < SecondsPerDay
    ensures LocalDay(Timestamp(r.unix + 1, r.offset)) == LocalDay(t) + 1
  {
    var d := LocalDay(t);
    DayDivision(d, (t.unix + t.offset) % SecondsPerDay);
    DayDivision(d, SecondsPerDay - 1);
    DayDivision(d + 1, 0);
    Timestamp(t.unix - (t.unix + t.offset) % SecondsPerDay + SecondsPerDay - 1, t.offset)
  }

  /** `time.Date(t.Year(), t.Month(), t.Day(), 23, 59, 59, 0, t.Location())`
      is `EndOfDay(t)`. */
  lemma EndOfDayIsClockTime(t: Timestamp)
    ensures EndOfDay(t) == DateAt(CivilOf(t), 23, 59, 59, t.offset)
  {
    var d := LocalDay(t);
    DayDivision(d, (t.unix + t.offset) % SecondsPerDay);
    assert DaysFromCivil(CivilOf(t)) == d;
  }

  /** The instant `c` at `h:mi:s` in a zone `offset` seconds east of UTC
      lies on the local day of `c`. */
  lemma DateAtDay(c: Civil, h: int, mi: int, s: int, offset: int)
    requires ValidCivil(c)
    requires 0 <= h < 24 && 0 <= mi < 60 && 0 <= s < 60
    ensures CivilOf(DateAt(c, h, mi, s, offset)) == c
    ensures EndOfDay(DateAt(c, h, mi, s, offset)).unix - DateAt(c, h, mi, s, offset).unix
            == SecondsPerDay - 1 - (h * 3600 + mi * 60 + s)
  {
    var n, r := DaysFromCivil(c), h * 3600 + mi * 60 + s;
    var t := DateAt(c, h, mi, s, offset);
    assert t.unix + t.offset == n * SecondsPerDay + r;
    DayDivision(n, r);
    assert LocalDay(t) == n;
    assert (t.unix + t.offset) % SecondsPerDay == r;
    CivilRoundTrip(c);
  }

  /** The day after the last day of a month is the first of the next one. */
  lemma NextMonthStart(y: int, m: int)
    requires 1 <= m <= 12
    ensures DaysFromCivil(FirstOfMonth(y, m + 1)) == DaysFromCivil(Civil(y, m, 1)) + DaysInMonth(y, m)
  {
    MonthStep(y, m);
    if m == 12 {
      YearStep(y);
    }
  }

  /** UTC midnight of day number `n`. */
  function Midnight(n: int): Timestamp {
    Timestamp(n * SecondsPerDay, 0)
  }

  lemma MidnightDay(n: int)
    ensures LocalDay(Midnight(n)) == n
  {
    DayDivision(n, 0);
  }

  /** The calendar date of UTC midnight of a valid date is that date. */
  lemma MidnightCivil(c: Civil)
    requires ValidCivil(c)
    ensures CivilOf(Midnight(DaysFromCivil(c))) == c
  {
    MidnightDay(DaysFromCivil(c));
    CivilRoundTrip(c);
  }

  /** The following calendar date: what adding 24 hours to a UTC midnight
      does to its `Year()`, `Month()` and `Day()`. */
  function NextDay(c: Civil): (r: Civil)
    requires ValidCivil(c)
    ensures ValidCivil(r)
    ensures DaysFromCivil(r) == DaysFromCivil(c) + 1
  {
    MonthStep(c.year, c.month);
    YearStep(c.year);
    if c.day < DaysInMonth(c.year, c.month) then Civil(c.year, c.month, c.day + 1)
    else if c.month < 12 then Civil(c.year, c.month + 1, 1)
    else Civil(c.year + 1, 1, 1)
  }

  /** Walking day by day through a month. */
  lemma StepThroughMonth(y: int, m: int, k: int)
    requires 1 <= m <= 12 && 0 <= k < DaysInMonth(y, m)
    ensures k + 1 < DaysInMonth(y, m) ==> NextDay(Civil(y, m, k + 1)) == Civil(y, m, k + 2)
    ensures k + 1 == DaysInMonth(y, m) ==> NextDay(Civil(y, m, k + 1)) == FirstOfMonth(y, m + 1)
  {
  }

  /** traq.go `DatesInMonth`: starting at midnight UTC on the first of the
      (normalised) month, collect dates 24 hours apart while the month of
      the next one is still `month`. The loop keeps the calendar date `c`
      of `date` beside it (see `MidnightCivil`), which is what `Month()`
      reads. */
  method DatesInMonth(year: int, month: int) returns (dates: seq<Timestamp>)
    ensures |dates| >= 1
    ensures dates[0] == Midnight(DaysFromCivil(FirstOfMonth(year, month)))
    ensures forall i :: 0 < i < |dates| ==> dates[i] == Timestamp(dates[i - 1].unix + SecondsPerDay, 0)
    ensures 1 <= month <= 12 ==> |dates| == DaysInMonth(year, month)
    ensures 1 <= month <= 12 ==> forall i :: 0 <= i < |dates| ==> dates[i] == Midnight(DaysFromCivil(Civil(year, month, i + 1)))
    ensures !(1 <= month <= 12) ==> |dates| == 1
  {
    var first := FirstOfMonth(year, month);
    var y, m := first.year, first.month;
    var start := DaysFromCivil(first);
    var c := first;
    var date := Midnight(start);
    dates := [date];
    StepThroughMonth(y, m, 0);
    c := NextDay(c);
    date := Timestamp(date.unix + SecondsPerDay, 0);
    while c.month == month
      invariant 1 <= |dates| <= DaysInMonth(y, m)
      invariant date == Midnight(start + |dates|)
      invariant forall i :: 0 <= i < |dates| ==> dates[i] == Midnight(start + i)
      invariant |dates| < DaysInMonth(y, m) ==> c == Civil(y, m, |dates| + 1)
      invariant |dates| == DaysInMonth(y, m) ==> c == FirstOfMonth(y, m + 1)
      invariant |dates| > 1 ==> m == month
      decreases DaysInMonth(y, m) - |dates|
    {
      StepThroughMonth(y, m, |dates|);
      dates := dates + [date];
      c := NextDay(c);
      date := Timestamp(date.unix + SecondsPerDay, 0);
    }
  }

  /** September 1986 has 30 days, from a Monday to a Tuesday. */
  lemma September1986()
    ensures DaysInMonth(1986, 9) == 30
    ensures Weekday(Midnight(DaysFromCivil(Civil(1986, 9, 1)))) == Monday
    ensures Weekday(Midnight(DaysFromCivil(Civil(1986, 9, 30)))) == Tuesday
  {
    MidnightDay(DaysFromCivil(Civil(1986, 9, 1)));
    MidnightDay(DaysFromCivil(Civil(1986, 9, 30)));
  }
}
