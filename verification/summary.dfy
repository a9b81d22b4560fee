/** The monthly work-time summary of cmd/traq-summary: the leave lists,
    the expected work time of a range of days (nine hours for every
    Monday to Friday that is no holiday, vacation or sick day), and the
    tracked total (`Totals.SumValues`). Reading the leave file, the JSON
    decoding and the command line are left to the caller. */
module Summary {
  import opened Calendar

  /** The leave file's three lists of dates. */
  datatype Leave = Leave(holidays: seq<Timestamp>, vacation: seq<Timestamp>, sick: seq<Timestamp>)

  /** Expected seconds of work on a working day: `8*60*60 + 60*60`. */
  const WorkDaySeconds: int := 8 * 60 * 60 + 60 * 60

  /** `time.Time.Equal`: the same instant, whatever the zone. */
  predicate SameInstant(a: Timestamp, b: Timestamp)
  {
    a.unix == b.unix
  }

  /** `date` equals some date of the list. */
  predicate Listed(dates: seq<Timestamp>, date: Timestamp)
  {
    exists i :: 0 <= i < |dates| && SameInstant(dates[i], date)
  }

  /** The loop shared by `isHoliday`, `isVacation` and `isSickDay`: look
      for an equal date, stopping at the first. */
  method Find(dates: seq<Timestamp>, date: Timestamp) returns (found: bool)
    ensures found <==> Listed(dates, date)
  {
    var i := 0;
    while i < |dates|
      invariant 0 <= i <= |dates|
      invariant forall j :: 0 <= j < i ==> !SameInstant(dates[j], date)
    {
      if SameInstant(dates[i], date) {
        return true;
      }
      i := i + 1;
    }
    return false;
  }

  method IsHoliday(leave: Leave, date: Timestamp) returns (r: bool)
    ensures r <==> exists i :: 0 <= i < |leave.holidays| && leave.holidays[i].unix == date.unix
  {
    r := Find(leave.holidays, date);
  }

  method IsVacation(leave: Leave, date: Timestamp) returns (r: bool)
    ensures r <==> exists i :: 0 <= i < |leave.vacation| && leave.vacation[i].unix == date.unix
  {
    r := Find(leave.vacation, date);
  }

  method IsSickDay(leave: Leave, date: Timestamp) returns (r: bool)
    ensures r <==> exists i :: 0 <= i < |leave.sick| && leave.sick[i].unix == date.unix
  {
    r := Find(leave.sick, date);
  }

  /** The date is on one of the three lists. */
  predicate OnLeave(leave: Leave, date: Timestamp)
  {
    Listed(leave.holidays, date) || Listed(leave.vacation, date) || Listed(leave.sick, date)
  }

  /** A day that counts: Monday to Friday in its own zone, and not on
      leave. */
  predicate Due(leave: Leave, date: Timestamp)
  {
    Monday <= Weekday(date) <= Friday && !OnLeave(leave, date)
  }

  /** `start` plus `k` times 24 hours. */
  function Shift(start: Timestamp, k: int): Timestamp
  {
    Timestamp(start.unix + k * SecondsPerDay, start.offset)
  }

  /** How many of `start`, `start + 24h`, ... lie before `end`. */
  function Steps(start: Timestamp, end: Timestamp): (n: nat)
    ensures forall k :: 0 <= k ==> (k < n <==> Shift(start, k).unix < end.unix)
  {
    if start.unix >= end.unix then 0 else (end.unix - start.unix - 1) / SecondsPerDay + 1
  }

  /** The reference count: nine hours for each of the first `n` days
      from `start` that is due. */
  function ExpectedUpTo(leave: Leave, start: Timestamp, n: nat): int
    decreases n
  {
    if n == 0 then 0
    else ExpectedUpTo(leave, start, n - 1) + (if Due(leave, Shift(start, n - 1)) then WorkDaySeconds else 0)
  }

  /** cmd/traq-summary `expectedWorkTime`: walk from `start` in steps of
      24 hours while before `end`, adding nine hours for each day due. */
  method ExpectedWorkTime(leave: Leave, start: Timestamp, end: Timestamp) returns (expected: int)
    ensures expected == ExpectedUpTo(leave, start, Steps(start, end))
  {
    expected := 0;
    var date := start;
    var k := 0;
    while date.unix < end.unix
      invariant 0 <= k <= Steps(start, end)
      invariant date == Shift(start, k)
      invariant expected == ExpectedUpTo(leave, start, k)
      decreases end.unix - date.unix
    {
      var wd := Weekday(date);
      if Monday <= wd <= Friday {
        var off := IsHoliday(leave, date);
        if !off {
          off := IsVacation(leave, date);
        }
        if !off {
          off := IsSickDay(leave, date);
        }
        if !off {
          expected := expected + 8 * 60 * 60 + 60 * 60;
        }
      }
      date := Timestamp(date.unix + SecondsPerDay, date.offset);
      k := k + 1;
    }
  }

  /** An empty range expects nothing. */
  lemma EmptyRangeExpectsNothing(leave: Leave, start: Timestamp, end: Timestamp)
    requires start.unix >= end.unix
    ensures ExpectedUpTo(leave, start, Steps(start, end)) == 0
  {
  }

  /** How many of the first `n` days from `start` are due. */
  function DueDays(leave: Leave, start: Timestamp, n: nat): (count: nat)
    ensures count <= n
    decreases n
  {
    if n == 0 then 0
    else DueDays(leave, start, n - 1) + (if Due(leave, Shift(start, n - 1)) then 1 else 0)
  }

  /** The expected time is a whole number of working days, one for each
      day that is due, so at most one per day of the range. */
  lemma {:induction false} WholeWorkDays(leave: Leave, start: Timestamp, n: nat)
    ensures ExpectedUpTo(leave, start, n) == DueDays(leave, start, n) * WorkDaySeconds
    ensures 0 <= ExpectedUpTo(leave, start, n) <= n * WorkDaySeconds
    decreases n
  {
    if n > 0 {
      WholeWorkDays(leave, start, n - 1);
      var c := DueDays(leave, start, n - 1);
      assert (c + 1) * WorkDaySeconds == c * WorkDaySeconds + WorkDaySeconds;
    }
    ScaleDays(DueDays(leave, start, n), n);
  }

  lemma ScaleDays(c: int, n: int)
    requires 0 <= c <= n
    ensures 0 <= c * WorkDaySeconds <= n * WorkDaySeconds
  {
    assert n * WorkDaySeconds - c * WorkDaySeconds == (n - c) * WorkDaySeconds;
  }

  /** Saturdays and Sundays add nothing. */
  lemma WeekendAddsNothing(leave: Leave, start: Timestamp, n: nat)
    requires Weekday(Shift(start, n)) == Saturday || Weekday(Shift(start, n)) == Sunday
    ensures ExpectedUpTo(leave, start, n + 1) == ExpectedUpTo(leave, start, n)
  {
  }

  /** A day that is on leave adds nothing; a weekday that is not adds
      exactly nine hours. */
  lemma OneMoreDay(leave: Leave, start: Timestamp, n: nat)
    ensures OnLeave(leave, Shift(start, n)) ==> ExpectedUpTo(leave, start, n + 1) == ExpectedUpTo(leave, start, n)
    ensures Monday <= Weekday(Shift(start, n)) <= Friday && !OnLeave(leave, Shift(start, n)) ==>
              ExpectedUpTo(leave, start, n + 1) == ExpectedUpTo(leave, start, n) + WorkDaySeconds
  {
  }

  /** More leave never expects more work: if every date on leave under
      `less` is on leave under `more`, then `more` expects at most as
      much as `less`. */
  lemma {:induction false} MoreLeaveLessWork(less: Leave, more: Leave, start: Timestamp, n: nat)
    requires forall d :: OnLeave(less, d) ==> OnLeave(more, d)
    ensures ExpectedUpTo(more, start, n) <= ExpectedUpTo(less, start, n)
    decreases n
  {
    if n > 0 {
      MoreLeaveLessWork(less, more, start, n - 1);
    }
  }

  /** Adding a date to the holidays never increases the expected time;
      the same holds for the other two lists. */
  lemma AddingHolidayNeverIncreases(leave: Leave, extra: Timestamp, start: Timestamp, end: Timestamp)
    ensures ExpectedUpTo(leave.(holidays := leave.holidays + [extra]), start, Steps(start, end))
            <= ExpectedUpTo(leave, start, Steps(start, end))
  {
    var more := leave.(holidays := leave.holidays + [extra]);
    forall d | OnLeave(leave, d)
      ensures OnLeave(more, d)
    {
      if Listed(leave.holidays, d) {
        var i :| 0 <= i < |leave.holidays| && SameInstant(leave.holidays[i], d);
        assert more.holidays[i] == leave.holidays[i];
      }
    }
    MoreLeaveLessWork(leave, more, start, Steps(start, end));
  }

  lemma AddingVacationNeverIncreases(leave: Leave, extra: Timestamp, start: Timestamp, end: Timestamp)
    ensures ExpectedUpTo(leave.(vacation := leave.vacation + [extra]), start, Steps(start, end))
            <= ExpectedUpTo(leave, start, Steps(start, end))
  {
    var more := leave.(vacation := leave.vacation + [extra]);
    forall d | OnLeave(leave, d)
      ensures OnLeave(more, d)
    {
      if Listed(leave.vacation, d) {
        var i :| 0 <= i < |leave.vacation| && SameInstant(leave.vacation[i], d);
        assert more.vacation[i] == leave.vacation[i];
      }
    }
    MoreLeaveLessWork(leave, more, start, Steps(start, end));
  }

  lemma AddingSickDayNeverIncreases(leave: Leave, extra: Timestamp, start: Timestamp, end: Timestamp)
    ensures ExpectedUpTo(leave.(sick := leave.sick + [extra]), start, Steps(start, end))
            <= ExpectedUpTo(leave, start, Steps(start, end))
  {
    var more := leave.(sick := leave.sick + [extra]);
    forall d | OnLeave(leave, d)
      ensures OnLeave(more, d)
    {
      if Listed(leave.sick, d) {
        var i :| 0 <= i < |leave.sick| && SameInstant(leave.sick[i], d);
        assert more.sick[i] == leave.sick[i];
      }
    }
    MoreLeaveLessWork(leave, more, start, Steps(start, end));
  }

  /** Each 24-hour step moves to the next weekday. */
  lemma WeekdayShift(start: Timestamp, k: int)
    ensures LocalDay(Shift(start, k)) == LocalDay(start) + k
    ensures Weekday(Shift(start, k)) == (Weekday(start) + k) % 7
  {
    var r := (start.unix + start.offset) % SecondsPerDay;
    assert start.unix + start.offset == LocalDay(start) * SecondsPerDay + r;
    assert Shift(start, k).unix + start.offset == (LocalDay(start) + k) * SecondsPerDay + r;
    DayDivision(LocalDay(start) + k, r);
  }

  /** Without leave, a week from a Monday expects five working days. */
  lemma FullWeek(start: Timestamp)
    requires Weekday(start) == Monday
    ensures ExpectedUpTo(Leave([], [], []), start, 7) == 5 * WorkDaySeconds
  {
    var none := Leave([], [], []);
    forall k | 0 <= k < 7
      ensures !OnLeave(none, Shift(start, k))
      ensures Weekday(Shift(start, k)) == (Monday + k) % 7
    {
      WeekdayShift(start, k);
    }
    OneMoreDay(none, start, 0);
    OneMoreDay(none, start, 1);
    OneMoreDay(none, start, 2);
    OneMoreDay(none, start, 3);
    OneMoreDay(none, start, 4);
    WeekendAddsNothing(none, start, 5);
    WeekendAddsNothing(none, start, 6);
  }
}
