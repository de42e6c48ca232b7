/**
  * Calendar arithmetic on day numbers. A day is the number of days since
  * 1970-01-01 in the proleptic Gregorian calendar; an instant is a local
  * wall-clock time in seconds, `day * 86400 + seconds into the day`.
  * `w2date` (index.js) turns a year, an ISO week number and a day index
  * (0 = Monday .. 6 = Sunday) into a day.
  */
module Calendar {

  const SecondsPerDay: int := 86400

  /** `Date#getDay()`: 0 = Sunday .. 6 = Saturday; day 0 (1970-01-01) was a Thursday. */
  function Weekday(day: int): (w: int)
    ensures 0 <= w < 7
  {
    (day + 4) % 7
  }

  const Sunday: int := 0
  const Monday: int := 1
  const Thursday: int := 4
  const Saturday: int := 6

  /** Each day is one weekday after the one before it, and 1970-01-01 was a Thursday. */
  lemma WeekdayCycle(day: int)
    ensures Weekday(day + 1) == (Weekday(day) + 1) % 7
    ensures Weekday(DayNumber(1970, 1, 1)) == Thursday
  {
    assert JanFirst(1970) == 0;
  }

  predicate IsLeapYear(y: int) {
    y % 4 == 0 && (y % 100 != 0 || y % 400 == 0)
  }

  /** Leap days in the years before `y` (counted from year 1), floor division throughout. */
  function LeapDaysBefore(y: int): int {
    (y - 1) / 4 - (y - 1) / 100 + (y - 1) / 400
  }

  /** The day number of January 1st of year `y`. */
  function JanFirst(y: int): int {
    365 * (y - 1970) + LeapDaysBefore(y) - LeapDaysBefore(1970)
  }

  /** Stepping from `y - 1` to `y` adds one to a floor quotient exactly when `y` is a multiple. */
  lemma QuotientSteps(y: int)
    ensures y / 4 == (y - 1) / 4 + (if y % 4 == 0 then 1 else 0)
    ensures y / 100 == (y - 1) / 100 + (if y % 100 == 0 then 1 else 0)
    ensures y / 400 == (y - 1) / 400 + (if y % 400 == 0 then 1 else 0)
  {
  }

  /** A multiple of 400 is a multiple of 100, and a multiple of 100 is a multiple of 4. */
  lemma MultipleSteps(y: int)
    ensures y % 400 == 0 ==> y % 100 == 0
    ensures y % 100 == 0 ==> y % 4 == 0
  {
    if y % 400 == 0 {
      var q := y / 400;
      assert y == 100 * (4 * q);
    }
    if y % 100 == 0 {
      var q := y / 100;
      assert y == 4 * (25 * q);
    }
  }

  /** One more year adds one leap day exactly when the year it steps over is a leap year. */
  lemma LeapDaysStep(y: int)
    ensures LeapDaysBefore(y + 1) == LeapDaysBefore(y) + (if IsLeapYear(y) then 1 else 0)
  {
    QuotientSteps(y);
    MultipleSteps(y);
    var b4, b100, b400 := y % 4 == 0, y % 100 == 0, y % 400 == 0;
    assert LeapDaysBefore(y + 1) - LeapDaysBefore(y)
      == (if b4 then 1 else 0) - (if b100 then 1 else 0) + (if b400 then 1 else 0);
    assert IsLeapYear(y) == (b4 && (!b100 || b400));
  }

  /** One year after another starts 365 days later, or 366 after a leap year. */
  lemma NextJanFirst(y: int)
    ensures JanFirst(y + 1) == JanFirst(y) + (if IsLeapYear(y) then 366 else 365)
  {
    LeapDaysStep(y);
  }

  function DaysInMonth(y: int, m: int): (n: int)
    requires 1 <= m <= 12
    ensures 28 <= n <= 31
  {
    if m == 2 then (if IsLeapYear(y) then 29 else 28)
    else if m == 4 || m == 6 || m == 9 || m == 11 then 30
    else 31
  }

  /** Days of year `y` before the first of month `m`. */
  function DaysBeforeMonth(y: int, m: int): int
    requires 1 <= m <= 12
    decreases m
  {
    if m == 1 then 0 else DaysBeforeMonth(y, m - 1) + DaysInMonth(y, m - 1)
  }

  /** The day number of the calendar date y-m-d. */
  function DayNumber(y: int, m: int, d: int): int
    requires 1 <= m <= 12
  {
    JanFirst(y) + DaysBeforeMonth(y, m) + d - 1
  }

  /** `new Date(year, month, ...)` reads the years 0..99 as 1900..1999. */
  function FullYear(year: int): (y: int)
    ensures 0 <= year <= 99 ==> y == 1900 + year
    ensures (year < 0 || year > 99) ==> y == year
  {
    if 0 <= year <= 99 then 1900 + year else year
  }

  /**
    * `mon1` of w2date: January 4th minus the `getDay()` of January 10th. It is
    * a Monday at most six days before January 4th.
    */
  function FirstMonday(year: int): (m: int)
    ensures Weekday(m) == Monday
    ensures DayNumber(FullYear(year), 1, 4) - 6 <= m <= DayNumber(FullYear(year), 1, 4)
  {
    var y := FullYear(year);
    assert DayNumber(y, 1, 10) == DayNumber(y, 1, 4) + 6;
    MondayOfWeek(DayNumber(y, 1, 4));
    DayNumber(y, 1, 4) - Weekday(DayNumber(y, 1, 10))
  }

  /**
    * `w2date(year, wn, dayNb)`: `mon1` plus `(wn - 1) * 7 + dayNb` days. For a
    * day index 0..6 it falls `dayNb` days after a Monday, on weekday
    * `dayNb + 1` (mod 7).
    */
  function W2Date(year: int, wn: int, dayNb: int): (d: int)
    ensures 0 <= dayNb <= 6 ==> Weekday(d - dayNb) == Monday && Weekday(d) == (dayNb + 1) % 7
  {
    var m := FirstMonday(year);
    var monday := m + (wn - 1) * 7;
    WeekdayShift(m, wn - 1);
    assert monday == m + 7 * (wn - 1);
    if 0 <= dayNb <= 6 then
      DaysAfterMonday(monday, 0, dayNb);
      monday + dayNb
    else monday + dayNb
  }

  /** `new Date(year, ...)` reads a two-digit year as 1900 + year, so w2date does too. */
  lemma TwoDigitYear(year: int, wn: int, dayNb: int)
    requires 0 <= year <= 99
    ensures FirstMonday(year) == FirstMonday(1900 + year)
    ensures W2Date(year, wn, dayNb) == W2Date(1900 + year, wn, dayNb)
  {
  }

  /** Weekdays repeat every seven days. */
  lemma WeekdayShift(day: int, k: int)
    ensures Weekday(day + 7 * k) == Weekday(day)
  {
  }

  /** The first day on or after `day` whose `getDay()` is `w`. */
  function OnOrAfter(day: int, w: int): (r: int)
    requires 0 <= w < 7
    ensures day <= r <= day + 6
    ensures Weekday(r) == w
  {
    var r := day + (w - Weekday(day) + 7) % 7;
    assert day + 4 == 7 * ((day + 4) / 7) + Weekday(day);
    r
  }

  /** The first Thursday of year `y`: the Thursday among January 1st..7th. */
  function FirstThursday(y: int): int {
    OnOrAfter(JanFirst(y), Thursday)
  }

  /** Two days of the same weekday less than a week apart are the same day. */
  lemma SameWeekdayNear(a: int, b: int)
    requires Weekday(a) == Weekday(b)
    requires a <= b <= a + 6
    ensures a == b
  {
  }

  /** Subtracting the `getDay()` of the day six days later steps back to a Monday at most six days earlier. */
  lemma {:induction false} MondayOfWeek(day: int)
    ensures day - 6 <= day - Weekday(day + 6) <= day
    ensures Weekday(day - Weekday(day + 6)) == Monday
  {
    var r := Weekday(day + 6);
    var q := (day + 10) / 7;
    assert day + 10 == 7 * q + r;
    assert day - r + 4 == 7 * (q - 1) + 1;
  }

  /**
    * Subtracting January 10th's `getDay()` from January 4th lands on the Monday
    * of the week (Monday..Sunday) that contains January 4th, which is ISO 8601
    * week 1; and that Monday is the only one whose week contains January 4th.
    */
  lemma {:induction false} FirstMondayIsIsoWeekOne(year: int, m: int)
    ensures Weekday(FirstMonday(year)) == Monday
    ensures DayNumber(FullYear(year), 1, 4) - 6 <= FirstMonday(year) <= DayNumber(FullYear(year), 1, 4)
    ensures Weekday(m) == Monday && m <= DayNumber(FullYear(year), 1, 4) <= m + 6 ==> m == FirstMonday(year)
  {
    var jan4 := DayNumber(FullYear(year), 1, 4);
    assert DayNumber(FullYear(year), 1, 10) == jan4 + 6;
    MondayOfWeek(jan4);
    if Weekday(m) == Monday && m <= jan4 <= m + 6 {
      if m <= FirstMonday(year) {
        SameWeekdayNear(m, FirstMonday(year));
      } else {
        SameWeekdayNear(FirstMonday(year), m);
      }
    }
  }

  /** Three days before a Thursday is a Monday. */
  lemma ThursdayMinusThree(t: int)
    requires Weekday(t) == Thursday
    ensures Weekday(t - 3) == Monday
  {
  }

  /** The same Monday, seen as three days before the year's first Thursday (ISO 8601). */
  lemma {:induction false} FirstMondayBeforeFirstThursday(year: int)
    ensures FirstMonday(year) == FirstThursday(FullYear(year)) - 3
  {
    var y := FullYear(year);
    var t := FirstThursday(y);
    ThursdayMinusThree(t);
    assert DayNumber(y, 1, 4) == JanFirst(y) + 3;
    FirstMondayIsIsoWeekOne(year, t - 3);
  }

  /**
    * The seven day indices 0..6 of a week give seven consecutive days,
    * Monday .. Sunday, and week `wn` starts `7 * (wn - 1)` days after the
    * Monday three days before the first Thursday.
    */
  lemma {:induction false} W2DateIsoWeekday(year: int, wn: int, dayNb: int)
    requires 0 <= dayNb <= 6
    ensures W2Date(year, wn, dayNb) == FirstThursday(FullYear(year)) - 3 + 7 * (wn - 1) + dayNb
    ensures Weekday(W2Date(year, wn, dayNb)) == (dayNb + 1) % 7
    ensures W2Date(year, wn, dayNb) == W2Date(year, wn, 0) + dayNb
  {
    FirstMondayIsIsoWeekOne(year, 0);
    FirstMondayBeforeFirstThursday(year);
    DaysAfterMonday(FirstMonday(year), wn - 1, dayNb);
  }

  /** Counting whole weeks and then `dayNb` days from a Monday lands on weekday `dayNb + 1` (mod 7). */
  lemma DaysAfterMonday(m: int, weeks: int, dayNb: int)
    requires Weekday(m) == Monday
    requires 0 <= dayNb <= 6
    ensures Weekday(m + weeks * 7 + dayNb) == (dayNb + 1) % 7
  {
    WeekdayShift(m + dayNb, weeks);
    assert m + weeks * 7 + dayNb == m + dayNb + 7 * weeks;
  }

  /** Midnight (00:00:00) of a day. */
  function DayStart(day: int): int {
    day * SecondsPerDay
  }

  /** 23:59:59 of a day. */
  function DayEnd(day: int): int {
    day * SecondsPerDay + SecondsPerDay - 1
  }

  /** Midnight is second 0 of its day and 23:59:59 is the last second of the same day. */
  lemma MidnightAndLastSecond(day: int)
    ensures DayStart(day) % SecondsPerDay == 0
    ensures DayEnd(day) % SecondsPerDay == SecondsPerDay - 1
    ensures DayStart(day) < DayEnd(day)
    ensures DayOf(DayStart(day)) == day
  {
  }

  /** The day an instant falls on. */
  function DayOf(t: int): int {
    t / SecondsPerDay
  }

  /** `.hour(0).minute(0).second(0)`: the midnight that starts the instant's day. */
  function FloorToMidnight(t: int): (m: int)
    ensures m <= t < m + SecondsPerDay
    ensures m == DayStart(DayOf(t))
  {
    DayStart(DayOf(t))
  }

  /** A midnight lies between the midnight of day `a` and 23:59:59 of day `b` exactly when its day does. */
  lemma MidnightWithin(day: int, a: int, b: int)
    ensures DayStart(a) <= DayStart(day) <= DayEnd(b) <==> a <= day <= b
  {
  }
}
