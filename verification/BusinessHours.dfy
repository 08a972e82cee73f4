/**
 * The inbound-freshness clock (salesforce/inbound_gap.py): business time between two instants,
 * computed day by day, against a count of the individual business ticks. Local wall time is an
 * integer number of microseconds since a Monday midnight; zone conversion happens before this.
 */
module BusinessHours {
  import opened Common

  const HOUR: int := 3_600_000_000
  const DAY: int := 24 * HOUR
  const WEEK: int := 7 * DAY

  /** The date of an instant, as a number of days; day 0 is a Monday. */
  function DayOf(t: int): int { t / DAY }

  predicate Workday(day: int) { day % 7 < 5 }

  predicate ValidHours(startHour: int, endHour: int) { 0 <= startHour <= 23 && 0 <= endHour <= 23 }

  /** Does this one tick of wall time fall Monday to Friday inside the window? */
  predicate BusinessTick(t: int, startHour: int, endHour: int) {
    Workday(DayOf(t)) && startHour * HOUR <= t % DAY < endHour * HOUR
  }

  /** The number of business ticks in [a, b). */
  function BusinessTicks(a: int, b: int, startHour: int, endHour: int): nat
    decreases b - a
  {
    if b <= a then 0
    else BusinessTicks(a, b - 1, startHour, endHour) + (if BusinessTick(b - 1, startHour, endHour) then 1 else 0)
  }

  // --- facts about the count ----------------------------------------------------

  lemma {:induction false} TicksSplit(a: int, b: int, c: int, startHour: int, endHour: int)
    requires a <= b <= c
    ensures BusinessTicks(a, c, startHour, endHour)
         == BusinessTicks(a, b, startHour, endHour) + BusinessTicks(b, c, startHour, endHour)
    decreases c - b
  {
    if b == c {
    } else {
      TicksSplit(a, b, c - 1, startHour, endHour);
    }
  }

  lemma {:induction false} AllTicks(a: int, b: int, startHour: int, endHour: int)
    requires a <= b && forall t :: a <= t < b ==> BusinessTick(t, startHour, endHour)
    ensures BusinessTicks(a, b, startHour, endHour) == b - a
    decreases b - a
  {
    if a == b {
    } else {
      AllTicks(a, b - 1, startHour, endHour);
    }
  }

  lemma {:induction false} NoTicks(a: int, b: int, startHour: int, endHour: int)
    requires forall t :: a <= t < b ==> !BusinessTick(t, startHour, endHour)
    ensures BusinessTicks(a, b, startHour, endHour) == 0
    decreases b - a
  {
    if a >= b {
    } else {
      NoTicks(a, b - 1, startHour, endHour);
    }
  }

  lemma TickWithinDay(t: int, day: int, startHour: int, endHour: int)
    requires day * DAY <= t < (day + 1) * DAY
    ensures DayOf(t) == day
    ensures BusinessTick(t, startHour, endHour) <==>
            Workday(day) && day * DAY + startHour * HOUR <= t < day * DAY + endHour * HOUR
  {
    assert DayOf(t) == day && t % DAY == t - day * DAY;
  }

  /** What one turn of the loop adds: the overlap of [a, b) with the day's window. */
  function DayOverlap(day: int, a: int, b: int, startHour: int, endHour: int): nat {
    if Workday(day) then
      Max(0, Min(b, day * DAY + endHour * HOUR) - Max(a, day * DAY + startHour * HOUR))
    else 0
  }

  lemma DayTicks(day: int, a: int, b: int, startHour: int, endHour: int)
    requires ValidHours(startHour, endHour)
    requires day * DAY <= a <= b <= (day + 1) * DAY
    ensures BusinessTicks(a, b, startHour, endHour) == DayOverlap(day, a, b, startHour, endHour)
  {
    forall t | a <= t < b
      ensures BusinessTick(t, startHour, endHour) <==>
              Workday(day) && day * DAY + startHour * HOUR <= t < day * DAY + endHour * HOUR
    {
      TickWithinDay(t, day, startHour, endHour);
    }
    var low := Max(a, day * DAY + startHour * HOUR);
    var high := Min(b, day * DAY + endHour * HOUR);
    if Workday(day) && low < high {
      TicksSplit(a, low, b, startHour, endHour);
      TicksSplit(low, high, b, startHour, endHour);
      NoTicks(a, low, startHour, endHour);
      AllTicks(low, high, startHour, endHour);
      NoTicks(high, b, startHour, endHour);
    } else {
      NoTicks(a, b, startHour, endHour);
    }
  }

  /** Clipping to the day first changes nothing: the window lies inside the day. */
  lemma OverlapIsTicks(day: int, a: int, b: int, startHour: int, endHour: int)
    requires ValidHours(startHour, endHour) && a < b
    requires DayOf(a) <= day <= DayOf(b)
    ensures DayOverlap(day, a, b, startHour, endHour)
         == BusinessTicks(Max(a, day * DAY), Min(b, (day + 1) * DAY), startHour, endHour)
  {
    DayTicks(day, Max(a, day * DAY), Min(b, (day + 1) * DAY), startHour, endHour);
  }

  lemma DayStep(day: int, start: int, end: int, startHour: int, endHour: int)
    requires ValidHours(startHour, endHour) && start < end && DayOf(start) <= day <= DayOf(end)
    ensures BusinessTicks(start, Max(start, Min(end, (day + 1) * DAY)), startHour, endHour)
         == BusinessTicks(start, Max(start, Min(end, day * DAY)), startHour, endHour)
          + DayOverlap(day, start, end, startHour, endHour)
  {
    OverlapIsTicks(day, start, end, startHour, endHour);
    TicksSplit(start, Max(start, day * DAY), Min(end, (day + 1) * DAY), startHour, endHour);
  }

  // --- the loop -----------------------------------------------------------------------

  /** The day-by-day loop counts exactly the business ticks of [start, end). */
  method BusinessTime(start: int, end: int, startHour: int, endHour: int) returns (total: int)
    requires ValidHours(startHour, endHour)
    ensures total == BusinessTicks(start, end, startHour, endHour)
  {
    if end <= start {
      return 0;
    }
    total := 0;
    var day := DayOf(start);
    while day <= DayOf(end)
      invariant DayOf(start) <= day <= DayOf(end) + 1
      invariant total == BusinessTicks(start, Max(start, Min(end, day * DAY)), startHour, endHour)
      decreases DayOf(end) - day
    {
      DayStep(day, start, end, startHour, endHour);
      if day % 7 < 5 {
        var opens := day * DAY + startHour * HOUR;
        var closes := day * DAY + endHour * HOUR;
        var low := Max(start, opens);
        var high := Min(end, closes);
        if high > low {
          total := total + (high - low);
        }
      }
      day := day + 1;
    }
  }

  // --- what the alarm relies on ---------------------------------------------------------

  /** Never more than the wall time elapsed, and never lower for a later check. */
  lemma {:induction false} BoundedAndMonotone(a: int, b: int, c: int, startHour: int, endHour: int)
    requires a <= b <= c
    ensures BusinessTicks(a, b, startHour, endHour) <= b - a
    ensures BusinessTicks(a, b, startHour, endHour) <= BusinessTicks(a, c, startHour, endHour)
    ensures BusinessTicks(a, c, startHour, endHour) <= BusinessTicks(a, b, startHour, endHour) + (c - b)
    decreases c - a
  {
    TicksSplit(a, b, c, startHour, endHour);
    if a == b {
    } else {
      BoundedAndMonotone(a, a, b - 1, startHour, endHour);
    }
    if b < c {
      BoundedAndMonotone(b, b, c - 1, startHour, endHour);
    }
  }

  /** Across a quiet stretch, a night or a whole weekend, the measured gap stands still. */
  lemma QuietStretchAddsNothing(start: int, a: int, b: int, startHour: int, endHour: int)
    requires start <= a <= b
    requires forall t :: a <= t < b ==> !BusinessTick(t, startHour, endHour)
    ensures BusinessTicks(start, b, startHour, endHour) == BusinessTicks(start, a, startHour, endHour)
  {
    TicksSplit(start, a, b, startHour, endHour);
    NoTicks(a, b, startHour, endHour);
  }

  /** From closing time on Friday to opening time on Monday nothing is counted. */
  lemma WeekendAddsNothing(start: int, week: int, startHour: int, endHour: int)
    requires ValidHours(startHour, endHour)
    requires start <= week * WEEK + 4 * DAY + endHour * HOUR
    ensures BusinessTicks(start, (week + 1) * WEEK + startHour * HOUR, startHour, endHour)
         == BusinessTicks(start, week * WEEK + 4 * DAY + endHour * HOUR, startHour, endHour)
  {
    var closed, opens := week * WEEK + 4 * DAY + endHour * HOUR, (week + 1) * WEEK + startHour * HOUR;
    forall t | closed <= t < opens ensures !BusinessTick(t, startHour, endHour) {
      var day := DayOf(t);
      TickWithinDay(t, day, startHour, endHour);
      assert 7 * week + 4 <= day <= 7 * week + 7;
    }
    QuietStretchAddsNothing(start, closed, opens, startHour, endHour);
  }

  lemma TickRepeatsWeekly(t: int, startHour: int, endHour: int)
    ensures BusinessTick(t + WEEK, startHour, endHour) <==> BusinessTick(t, startHour, endHour)
  {
    var day := DayOf(t);
    TickWithinDay(t, day, startHour, endHour);
    TickWithinDay(t + WEEK, day + 7, startHour, endHour);
  }

  lemma {:induction false} TicksRepeatWeekly(a: int, b: int, startHour: int, endHour: int)
    ensures BusinessTicks(a + WEEK, b + WEEK, startHour, endHour) == BusinessTicks(a, b, startHour, endHour)
    decreases b - a
  {
    if a >= b {
    } else {
      TicksRepeatWeekly(a, b - 1, startHour, endHour);
      TickRepeatsWeekly(b - 1, startHour, endHour);
      assert b + WEEK - 1 == b - 1 + WEEK;
    }
  }

  /** Any window one week long holds what the week starting at the origin holds. */
  lemma {:induction false} AnyWeekIsTheSame(start: int, week: int, startHour: int, endHour: int)
    requires week * WEEK <= start < (week + 1) * WEEK
    ensures BusinessTicks(start, start + WEEK, startHour, endHour)
         == BusinessTicks(week * WEEK, (week + 1) * WEEK, startHour, endHour)
  {
    var monday := week * WEEK;
    TicksSplit(monday, start, monday + WEEK, startHour, endHour);
    TicksSplit(start, monday + WEEK, start + WEEK, startHour, endHour);
    TicksRepeatWeekly(monday, start, startHour, endHour);
  }

  lemma DayHoldsOneWindow(day: int, startHour: int, endHour: int)
    requires ValidHours(startHour, endHour)
    ensures BusinessTicks(day * DAY, (day + 1) * DAY, startHour, endHour)
         == if Workday(day) then Max(0, (endHour - startHour) * HOUR) else 0
  {
    DayTicks(day, day * DAY, (day + 1) * DAY, startHour, endHour);
  }

  /** The windows opened in the first days of a week. */
  function Windows(days: nat, window: int): int {
    if days == 0 then 0 else Windows(days - 1, window) + (if days <= 5 then window else 0)
  }

  lemma FirstFiveAreWorkdays(week: int, k: nat)
    requires k < 7
    ensures Workday(7 * week + k) <==> k < 5
  {
    assert (7 * week + k) % 7 == k;
  }

  lemma {:induction false} DaysFromMonday(week: int, monday: int, days: nat, startHour: int, endHour: int)
    requires ValidHours(startHour, endHour) && monday == 7 * week && days <= 7
    ensures BusinessTicks(monday * DAY, (monday + days) * DAY, startHour, endHour)
         == Windows(days, Max(0, (endHour - startHour) * HOUR))
  {
    if days == 0 {
    } else {
      DaysFromMonday(week, monday, days - 1, startHour, endHour);
      AppendDay(monday * DAY, monday + days - 1, startHour, endHour);
      FirstFiveAreWorkdays(week, days - 1);
    }
  }

  lemma AppendDay(start: int, day: int, startHour: int, endHour: int)
    requires ValidHours(startHour, endHour) && start <= day * DAY
    ensures BusinessTicks(start, (day + 1) * DAY, startHour, endHour)
         == BusinessTicks(start, day * DAY, startHour, endHour)
          + if Workday(day) then Max(0, (endHour - startHour) * HOUR) else 0
  {
    var midnight, next := day * DAY, (day + 1) * DAY;
    DayHoldsOneWindow(day, startHour, endHour);
    TicksSplit(start, midnight, next, startHour, endHour);
  }

  lemma WeekFromMonday(week: int, startHour: int, endHour: int)
    requires ValidHours(startHour, endHour)
    ensures BusinessTicks(week * WEEK, (week + 1) * WEEK, startHour, endHour)
         == 5 * Max(0, (endHour - startHour) * HOUR)
  {
    DaysFromMonday(week, 7 * week, 7, startHour, endHour);
    FiveWindows(Max(0, (endHour - startHour) * HOUR));
    assert 7 * week * DAY == week * WEEK && (7 * week + 7) * DAY == (week + 1) * WEEK;
  }

  lemma FiveWindows(window: int)
    ensures Windows(7, window) == 5 * window
  {
    assert Windows(1, window) == window;
    assert Windows(2, window) == 2 * window;
    assert Windows(3, window) == 3 * window;
    assert Windows(4, window) == 4 * window;
    assert Windows(5, window) == 5 * window;
    assert Windows(6, window) == 5 * window;
  }

  lemma OneMore(n: int, size: int)
    ensures n * size == (n - 1) * size + size
  {
  }

  /** A whole week from any start adds five windows, whatever the hour of the start. */
  lemma WeekAddsFiveWindows(start: int, end: int, startHour: int, endHour: int)
    requires ValidHours(startHour, endHour) && start <= end
    ensures BusinessTicks(start, end + WEEK, startHour, endHour)
         == BusinessTicks(start, end, startHour, endHour) + 5 * Max(0, (endHour - startHour) * HOUR)
  {
    var week := end / WEEK;
    TicksSplit(start, end, end + WEEK, startHour, endHour);
    AnyWeekIsTheSame(end, week, startHour, endHour);
    WeekFromMonday(week, startHour, endHour);
  }

  lemma {:induction false} WholeWeeks(start: int, weeks: nat, startHour: int, endHour: int)
    requires ValidHours(startHour, endHour)
    ensures BusinessTicks(start, start + weeks * WEEK, startHour, endHour)
         == weeks * (5 * Max(0, (endHour - startHour) * HOUR))
  {
    if weeks == 0 {
    } else {
      WholeWeeks(start, weeks - 1, startHour, endHour);
      OneMore(weeks, 5 * Max(0, (endHour - startHour) * HOUR));
      WeekAddsFiveWindows(start, start + (weeks - 1) * WEEK, startHour, endHour);
      assert start + (weeks - 1) * WEEK + WEEK == start + weeks * WEEK;
    }
  }
}
