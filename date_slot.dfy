/**
  * The date-slot resolver of index.js: `getDateFromSlot`, `getWeekData` and
  * `getWeekendData` turn the raw `movie.date` slot into an inclusive window of
  * local instants, from 00:00:00 of its first day to 23:59:59 of its last.
  */
module DateSlot {
  import opened Wrappers
  import opened Text
  import opened Calendar

  /**
    * What `getDateFromSlot` is given: the spoken slot, or, when no date was
    * spoken, the current time as `moment().tz(timeZone).format()` renders it,
    * which always parses (its instant is `now`, whole seconds).
    */
  datatype RawDate = Spoken(slot: string) | Clock(now: int)

  /**
    * The `eventDate` record `getDateFromSlot` fills in. `InvalidWindow` stands
    * for the invalid moments that a `NaN` year or week number produces: every
    * comparison with them is false. `OutOfRange` is the branch that assigns
    * `eventDate.error` (index.js:175).
    */
  datatype EventDate =
    | Window(startDate: int, endDate: int)
    | InvalidWindow
    | OutOfRange

  /**
    * What `Date.parse` makes of a slot: not a date (`NaN`), a calendar day,
    * or a YYYY-MM-DD whose day of month (01..31) runs past the end of its
    * month. `Date.parse` rolls such a day over into the next month, so the
    * slot takes the parsed branch, but `moment.tz` rejects it and gives an
    * invalid moment.
    */
  datatype ParsedDate = NotParsed | OnDay(day: int) | Overflow

  /**
    * `Date.parse` on the ISO 8601 date-only forms YYYY, YYYY-MM and YYYY-MM-DD
    * (a missing month or day is the first). Every string it accepts consists
    * of digits and dashes only, and a day past the month's end is an overflow.
    */
  function ParseIsoDate(s: string): (r: ParsedDate)
    ensures !r.NotParsed? ==> forall i :: 0 <= i < |s| ==> IsDigit(s[i]) || s[i] == '-'
    ensures r.Overflow? ==>
      (|s| == 10 && AllDigits(s[..4]) && AllDigits(s[5..7]) && AllDigits(s[8..])
       && 1 <= DigitsValue(s[5..7]) <= 12
       && DaysInMonth(DigitsValue(s[..4]), DigitsValue(s[5..7])) < DigitsValue(s[8..]) <= 31)
  {
    if |s| == 4 && AllDigits(s) then
      OnDay(DayNumber(DigitsValue(s), 1, 1))
    else if |s| == 7 && s[4] == '-' && AllDigits(s[..4]) && AllDigits(s[5..]) then
      var y, m := DigitsValue(s[..4]), DigitsValue(s[5..]);
      if 1 <= m <= 12 then
        assert forall i :: 0 <= i < 4 ==> s[i] == s[..4][i];
        assert forall i :: 5 <= i < 7 ==> s[i] == s[5..][i - 5];
        OnDay(DayNumber(y, m, 1))
      else NotParsed
    else if |s| == 10 && s[4] == '-' && s[7] == '-'
            && AllDigits(s[..4]) && AllDigits(s[5..7]) && AllDigits(s[8..]) then
      var y, m, d := DigitsValue(s[..4]), DigitsValue(s[5..7]), DigitsValue(s[8..]);
      if 1 <= m <= 12 && 1 <= d <= 31 then
        assert forall i :: 0 <= i < 4 ==> s[i] == s[..4][i];
        assert forall i :: 5 <= i < 7 ==> s[i] == s[5..7][i - 5];
        assert forall i :: 8 <= i < 10 ==> s[i] == s[8..][i - 8];
        if d <= DaysInMonth(y, m) then OnDay(DayNumber(y, m, d)) else Overflow
      else NotParsed
    else NotParsed
  }

  /** `res[1].substring(1)`: the week number text after the 'W' (empty stays empty). */
  function WeekNumberText(seg: string): string {
    if |seg| >= 1 then seg[1..] else ""
  }

  /**
    * `getWeekData`: Monday (index 0) to Sunday (index 6) of week
    * `res[1].substring(1)` of year `res[0]`; `None` when either is `NaN`.
    */
  function GetWeekData(res: seq<string>): (r: Option<(int, int)>)
    requires |res| == 2
    ensures r.Some? <==> JsNumber(res[0]).Some? && JsNumber(WeekNumberText(res[1])).Some?
  {
    var year, wn := JsNumber(res[0]), JsNumber(WeekNumberText(res[1]));
    if year.Some? && wn.Some? then
      Some((W2Date(year.value, wn.value, 0), W2Date(year.value, wn.value, 6)))
    else None
  }

  /**
    * `getWeekendData`: Saturday (index 5) and Sunday (index 6) of week
    * `res[1].substring(1)` of year `res[0]`; the third segment is not read.
    */
  function GetWeekendData(res: seq<string>): (r: Option<(int, int)>)
    requires |res| == 3
    ensures r.Some? <==> JsNumber(res[0]).Some? && JsNumber(WeekNumberText(res[1])).Some?
  {
    var year, wn := JsNumber(res[0]), JsNumber(WeekNumberText(res[1]));
    if year.Some? && wn.Some? then
      Some((W2Date(year.value, wn.value, 5), W2Date(year.value, wn.value, 6)))
    else None
  }

  /** A week runs from a Monday to the Sunday six days later. */
  lemma WeekDataDays(res: seq<string>)
    requires |res| == 2
    ensures var r := GetWeekData(res);
      r.Some? ==> Weekday(r.value.0) == Monday && r.value.1 == r.value.0 + 6 && Weekday(r.value.1) == Sunday
  {
    var r := GetWeekData(res);
    if r.Some? {
      var y, w := JsNumber(res[0]).value, JsNumber(WeekNumberText(res[1])).value;
      assert r.value == (W2Date(y, w, 0), W2Date(y, w, 6));
      WeekSpan(y, w, 0, 6);
    }
  }

  /** A weekend runs from a Saturday to the Sunday one day later. */
  lemma WeekendDataDays(res: seq<string>)
    requires |res| == 3
    ensures var r := GetWeekendData(res);
      r.Some? ==> Weekday(r.value.0) == Saturday && r.value.1 == r.value.0 + 1 && Weekday(r.value.1) == Sunday
  {
    var r := GetWeekendData(res);
    if r.Some? {
      var y, w := JsNumber(res[0]).value, JsNumber(WeekNumberText(res[1])).value;
      assert r.value == (W2Date(y, w, 5), W2Date(y, w, 6));
      WeekSpan(y, w, 5, 6);
    }
  }

  /** Two day indices of one week: their weekdays, and how many days apart they are. */
  lemma WeekSpan(year: int, wn: int, i: int, j: int)
    requires 0 <= i <= j <= 6
    ensures Weekday(W2Date(year, wn, i)) == (i + 1) % 7
    ensures Weekday(W2Date(year, wn, j)) == (j + 1) % 7
    ensures W2Date(year, wn, j) == W2Date(year, wn, i) + (j - i)
  {
    W2DateIsoWeekday(year, wn, i);
    W2DateIsoWeekday(year, wn, j);
  }

  /** Lines 182-183: the start floored to 00:00:00 of its day, the end set to 23:59:59 of its day. */
  function Normalise(start: int, end: int): (e: EventDate)
    ensures e.Window? && e.startDate == DayStart(DayOf(start)) && e.endDate == DayEnd(DayOf(end))
    ensures e.startDate % SecondsPerDay == 0 && e.endDate % SecondsPerDay == SecondsPerDay - 1
    ensures DayOf(start) <= DayOf(end) ==> e.startDate < e.endDate
  {
    MidnightAndLastSecond(DayOf(start));
    MidnightAndLastSecond(DayOf(end));
    assert DayOf(start) <= DayOf(end) ==> DayStart(DayOf(start)) < DayEnd(DayOf(end));
    Window(FloorToMidnight(start), FloorToMidnight(end) + SecondsPerDay - 1)
  }

  /** `moment.tz` of the two formatted days: their midnights, or invalid moments. */
  function FromDays(days: Option<(int, int)>): EventDate {
    match days
    case Some((first, last)) =>
      MidnightAndLastSecond(first);
      MidnightAndLastSecond(last);
      Normalise(DayStart(first), DayStart(last))
    case None => InvalidWindow
  }

  /**
    * `getDateFromSlot`: a slot that parses as a date covers that one day (or
    * is the invalid window when its day runs past the month's end); an
    * unparsed slot is split on '-': two segments whose second holds a 'W' are
    * an ISO week, three segments are a weekend, anything else is out of range.
    * Every window it builds starts at a midnight and ends at a 23:59:59 not
    * before it.
    */
  function GetDateFromSlot(raw: RawDate): (e: EventDate)
    ensures e.Window? ==> e.startDate % SecondsPerDay == 0
    ensures e.Window? ==> e.endDate % SecondsPerDay == SecondsPerDay - 1
    ensures e.Window? ==> e.startDate < e.endDate
  {
    match raw
    case Clock(now) => Normalise(now, now)
    case Spoken(s) =>
      match ParseIsoDate(s)
      case OnDay(day) => Normalise(DayStart(day), DayStart(day))
      case Overflow => InvalidWindow
      case NotParsed =>
        var res := Split(s, '-');
        if |res| == 2 && 'W' in res[1] then
          WeekDataDays(res);
          FromDays(GetWeekData(res))
        else if |res| == 3 then
          WeekendDataDays(res);
          FromDays(GetWeekendData(res))
        else OutOfRange
  }

  /**
    * `getDateFromSlot` step by step: the branches fill in `startDate` and
    * `endDate` (`None` while a field is unset or holds an invalid moment, as
    * after an overflowing day of month) or
    * mark the error, then the start is moved to 00:00:00 and the end to
    * 23:59:59 of their days. It computes exactly `GetDateFromSlot`.
    */
  method ResolveSlot(raw: RawDate) returns (eventDate: EventDate)
    ensures eventDate == GetDateFromSlot(raw)
  {
    var startDate: Option<int> := None;
    var endDate: Option<int> := None;
    var error := false;
    match raw {
      case Clock(now) =>
        startDate, endDate := Some(now), Some(now);
      case Spoken(s) =>
        var date := ParseIsoDate(s);
        if date.NotParsed? {
          var res := Split(s, '-');
          if |res| == 2 && 'W' in res[1] {
            var dates := GetWeekData(res);
            if dates.Some? {
              startDate, endDate := Some(DayStart(dates.value.0)), Some(DayStart(dates.value.1));
            }
          } else if |res| == 3 {
            var dates := GetWeekendData(res);
            if dates.Some? {
              startDate, endDate := Some(DayStart(dates.value.0)), Some(DayStart(dates.value.1));
            }
          } else {
            error := true;
          }
        } else if date.OnDay? {
          startDate, endDate := Some(DayStart(date.day)), Some(DayStart(date.day));
        }
    }
    if error {
      return OutOfRange;
    }
    if startDate.None? || endDate.None? {
      return InvalidWindow;
    }
    var start := FloorToMidnight(startDate.value);
    var end := FloorToMidnight(endDate.value) + SecondsPerDay - 1;
    eventDate := Window(start, end);
  }
}

/** What `getDateFromSlot` resolves each shape of slot to. */
module DateSlotFacts {
  import opened Wrappers
  import opened Text
  import opened Calendar
  import opened DateSlot

  /** A slot that parses as a date covers that one day, 00:00:00 to 23:59:59. */
  lemma ParsedSlotIsOneDay(s: string)
    requires ParseIsoDate(s).OnDay?
    ensures GetDateFromSlot(Spoken(s)) == Window(DayStart(ParseIsoDate(s).day), DayEnd(ParseIsoDate(s).day))
  {
    MidnightAndLastSecond(ParseIsoDate(s).day);
  }

  /**
    * A day past the end of its month ("2017-02-30") is parsed by `Date.parse`
    * but is an invalid moment: the window admits no date, and the slot never
    * reaches the week or weekend branches.
    */
  lemma OverflowSlotAdmitsNothing(s: string)
    requires ParseIsoDate(s).Overflow?
    ensures GetDateFromSlot(Spoken(s)) == InvalidWindow
  {
  }

  /** With no date spoken, the window is the current day, 00:00:00 to 23:59:59, and it holds `now`. */
  lemma ClockSlotIsToday(now: int)
    ensures GetDateFromSlot(Clock(now)) == Window(DayStart(DayOf(now)), DayEnd(DayOf(now)))
    ensures DayStart(DayOf(now)) <= now <= DayEnd(DayOf(now))
  {
  }

  /** A string holding a 'W' never parses as a date. */
  lemma WeekMarkerNotParsed(s: string)
    requires 'W' in s
    ensures ParseIsoDate(s).NotParsed?
  {
    var i :| 0 <= i < |s| && s[i] == 'W';
  }

  /** `year-week` is split into exactly the two segments it was written from. */
  lemma SplitTwo(a: string, b: string)
    requires '-' !in a && '-' !in b
    ensures Split(a + "-" + b, '-') == [a, b]
  {
    assert Join([a, b], "-") == a + "-" + Join([b], "-");
    SplitJoin([a, b], '-');
  }

  /** `year-week-day` is split into exactly the three segments it was written from. */
  lemma SplitThree(a: string, b: string, c: string)
    requires '-' !in a && '-' !in b && '-' !in c
    ensures Split(a + "-" + b + "-" + c, '-') == [a, b, c]
  {
    assert [a, b, c][1..] == [b, c];
    assert [b, c][1..] == [c];
    assert Join([b, c], "-") == b + "-" + c;
    assert Join([a, b, c], "-") == a + "-" + (b + "-" + c);
    assert a + "-" + (b + "-" + c) == a + "-" + b + "-" + c;
    SplitJoin([a, b, c], '-');
  }

  /**
    * ISO week `year-Wnn`: Monday 00:00:00 to Sunday 23:59:59 of the week
    * `w2date` gives for the week number after the 'W' (the invalid window
    * when the year or the week number is not a number).
    */
  lemma {:induction false} WeekSlot(year: string, week: string)
    requires '-' !in year && '-' !in week && 'W' in week
    ensures var e := GetDateFromSlot(Spoken(year + "-" + week));
      match (JsNumber(year), JsNumber(WeekNumberText(week)))
      case (Some(y), Some(wn)) =>
        e == Window(DayStart(W2Date(y, wn, 0)), DayEnd(W2Date(y, wn, 6)))
        && Weekday(W2Date(y, wn, 0)) == Monday && Weekday(W2Date(y, wn, 6)) == Sunday
        && W2Date(y, wn, 6) == W2Date(y, wn, 0) + 6
      case _ => e == InvalidWindow
  {
    var s := year + "-" + week;
    assert 'W' in s by {
      var i :| 0 <= i < |week| && week[i] == 'W';
      assert s[|year| + 1 + i] == 'W';
    }
    WeekMarkerNotParsed(s);
    SplitTwo(year, week);
    WeekDataDays([year, week]);
    match (JsNumber(year), JsNumber(WeekNumberText(week)))
    case (Some(y), Some(wn)) =>
      MidnightAndLastSecond(W2Date(y, wn, 0));
      MidnightAndLastSecond(W2Date(y, wn, 6));
    case _ =>
  }

  /**
    * Three segments that do not parse as a date: Saturday 00:00:00 to Sunday
    * 23:59:59 of week "second segment without its first character" of the
    * year in the first segment. Nothing checks for a 'W' and the third
    * segment is never read.
    */
  lemma {:induction false} WeekendSlot(year: string, week: string, rest: string)
    requires '-' !in year && '-' !in week && '-' !in rest
    requires ParseIsoDate(year + "-" + week + "-" + rest).NotParsed?
    ensures var e := GetDateFromSlot(Spoken(year + "-" + week + "-" + rest));
      match (JsNumber(year), JsNumber(WeekNumberText(week)))
      case (Some(y), Some(wn)) =>
        e == Window(DayStart(W2Date(y, wn, 5)), DayEnd(W2Date(y, wn, 6)))
        && Weekday(W2Date(y, wn, 5)) == Saturday && Weekday(W2Date(y, wn, 6)) == Sunday
        && W2Date(y, wn, 6) == W2Date(y, wn, 5) + 1
      case _ => e == InvalidWindow
  {
    SplitThree(year, week, rest);
    WeekendDataDays([year, week, rest]);
    match (JsNumber(year), JsNumber(WeekNumberText(week)))
    case (Some(y), Some(wn)) =>
      MidnightAndLastSecond(W2Date(y, wn, 5));
      MidnightAndLastSecond(W2Date(y, wn, 6));
    case _ =>
  }

  /**
    * The error branch: an unparsed slot with no dash or with three or more
    * dashes is out of range, and so is one with a single dash unless a 'W'
    * follows it (in the last segment). Nothing else is.
    */
  lemma {:induction false} OutOfRangeSlot(s: string)
    ensures GetDateFromSlot(Spoken(s)).OutOfRange? <==>
      ParseIsoDate(s).NotParsed? &&
      (Occurrences(s, '-') == 0 || Occurrences(s, '-') >= 3 ||
       (Occurrences(s, '-') == 1 && 'W' !in Split(s, '-')[|Split(s, '-')| - 1]))
  {
    SplitSize(s, '-');
  }

  /** "2017" reads as 2017, whose ISO week 1 starts on Monday 2 January (day 17168). */
  lemma Year2017()
    ensures JsNumber("2017") == Some(2017)
    ensures FirstMonday(2017) == 17168
  {
    NumberOfNatToString(2017);
    assert NatToString(2017) == "2017";
    assert JanFirst(2017) == 17167;
    assert DayNumber(2017, 1, 4) == 17170;
    assert Weekday(17176) == 2;
  }

  /** "W20" names week 20. */
  lemma Week20()
    ensures JsNumber(WeekNumberText("W20")) == Some(20)
  {
    assert WeekNumberText("W20") == "20";
    NumberOfNatToString(20);
    assert NatToString(20) == "20";
  }

  /** "2017-W20" is Monday 15 May 2017 00:00:00 to Sunday 21 May 2017 23:59:59. */
  lemma Week20Of2017()
    ensures GetDateFromSlot(Spoken("2017-W20")) == Window(DayStart(DayNumber(2017, 5, 15)), DayEnd(DayNumber(2017, 5, 21)))
  {
    assert "2017-W20" == "2017" + "-" + "W20";
    Year2017();
    Week20();
    WeekSlot("2017", "W20");
    May2017();
  }

  /** "2017-W20-WE" is Saturday 20 May 2017 00:00:00 to Sunday 21 May 2017 23:59:59. */
  lemma Weekend20Of2017()
    ensures GetDateFromSlot(Spoken("2017-W20-WE")) == Window(DayStart(DayNumber(2017, 5, 20)), DayEnd(DayNumber(2017, 5, 21)))
  {
    assert "2017-W20-WE" == "2017" + "-" + "W20" + "-" + "WE";
    WeekMarkerNotParsed("2017-W20-WE");
    Year2017();
    Week20();
    WeekendSlot("2017", "W20", "WE");
    May2017();
  }

  lemma May2017()
    ensures DayNumber(2017, 5, 15) == 17301 && DayNumber(2017, 5, 20) == 17306 && DayNumber(2017, 5, 21) == 17307
  {
    assert JanFirst(2017) == 17167;
    assert DaysBeforeMonth(2017, 5) == 120;
  }

  // The three ISO 8601 date-only forms, written with zero-padded fields.

  /** `YYYY` is 1 January of that year. */
  lemma IsoYearForm(y: nat)
    requires y <= 9999
    ensures ParseIsoDate(PadDigits(y, 4)) == OnDay(DayNumber(y, 1, 1))
  {
    PadDigitsValue(y, 4);
  }

  /** `YYYY-MM` is the first of that month when the month is 01 to 12, and not a date otherwise. */
  lemma IsoMonthForm(y: nat, m: nat)
    requires y <= 9999 && m <= 99
    ensures ParseIsoDate(PadDigits(y, 4) + "-" + PadDigits(m, 2))
      == if 1 <= m <= 12 then OnDay(DayNumber(y, m, 1)) else NotParsed
  {
    var s := PadDigits(y, 4) + "-" + PadDigits(m, 2);
    assert s[..4] == PadDigits(y, 4) && s[5..] == PadDigits(m, 2) && s[4] == '-';
    PadDigitsValue(y, 4);
    PadDigitsValue(m, 2);
  }

  /**
    * `YYYY-MM-DD` with a month from 01 to 12 and a day from 01 to 31 is that
    * day, or an overflow when the day is past the month's end; any other
    * month or day is not a date.
    */
  lemma IsoDateForm(y: nat, m: nat, d: nat)
    requires y <= 9999 && m <= 99 && d <= 99
    ensures ParseIsoDate(PadDigits(y, 4) + "-" + PadDigits(m, 2) + "-" + PadDigits(d, 2))
      == if !(1 <= m <= 12 && 1 <= d <= 31) then NotParsed
         else if d <= DaysInMonth(y, m) then OnDay(DayNumber(y, m, d))
         else Overflow
  {
    var s := PadDigits(y, 4) + "-" + PadDigits(m, 2) + "-" + PadDigits(d, 2);
    assert s[..4] == PadDigits(y, 4) && s[5..7] == PadDigits(m, 2) && s[8..] == PadDigits(d, 2);
    assert s[4] == '-' && s[7] == '-';
    PadDigitsValue(y, 4);
    PadDigitsValue(m, 2);
    PadDigitsValue(d, 2);
  }

  /** A spoken calendar date is that one day, 00:00:00 to 23:59:59. */
  lemma IsoDateSlot(y: nat, m: nat, d: nat)
    requires y <= 9999 && 1 <= m <= 12 && 1 <= d <= DaysInMonth(y, m)
    ensures GetDateFromSlot(Spoken(PadDigits(y, 4) + "-" + PadDigits(m, 2) + "-" + PadDigits(d, 2)))
      == Window(DayStart(DayNumber(y, m, d)), DayEnd(DayNumber(y, m, d)))
  {
    IsoDateForm(y, m, d);
    ParsedSlotIsOneDay(PadDigits(y, 4) + "-" + PadDigits(m, 2) + "-" + PadDigits(d, 2));
  }

  /** "2017-05-14" is Sunday 14 May 2017, 00:00:00 to 23:59:59. */
  lemma May14Of2017()
    ensures GetDateFromSlot(Spoken("2017-05-14")) == Window(DayStart(DayNumber(2017, 5, 14)), DayEnd(DayNumber(2017, 5, 14)))
  {
    var s := "2017-05-14";
    assert s == "2017" + "-" + "05" + "-" + "14";
    assert s[..4] == "2017" && s[5..7] == "05" && s[8..] == "14" && s[4] == '-' && s[7] == '-';
    Year2017();
    NumberOfNatToString(5);
    assert NatToString(5) == "5";
    LeadingZero("5");
    assert "0" + "5" == "05";
    NumberOfNatToString(14);
    assert NatToString(14) == "14";
    assert DaysInMonth(2017, 5) == 31;
    assert ParseIsoDate(s) == OnDay(DayNumber(2017, 5, 14));
    ParsedSlotIsOneDay(s);
  }

  /** "2017-02-30" is read by `Date.parse` but names no day: the window admits nothing. */
  lemma February30()
    ensures ParseIsoDate("2017-02-30") == Overflow
    ensures GetDateFromSlot(Spoken("2017-02-30")) == InvalidWindow
  {
    var s := "2017-02-30";
    assert s == "2017" + "-" + "02" + "-" + "30";
    assert s[..4] == "2017" && s[5..7] == "02" && s[8..] == "30" && s[4] == '-' && s[7] == '-';
    Year2017();
    NumberOfNatToString(2);
    assert NatToString(2) == "2";
    LeadingZero("2");
    assert "0" + "2" == "02";
    NumberOfNatToString(30);
    assert NatToString(30) == "30";
    assert !IsLeapYear(2017);
    assert DaysInMonth(2017, 2) == 28;
  }

  /**
    * A two-digit year names the same week as that year in the 1900s:
    * "17-W20" resolves like "1917-W20".
    */
  lemma {:induction false} TwoDigitYearWeek(year: string, century: string, week: string)
    requires '-' !in year && '-' !in century && '-' !in week && 'W' in week
    requires JsNumber(year).Some? && JsNumber(year).value <= 99
    requires JsNumber(century) == Some(1900 + JsNumber(year).value)
    ensures GetDateFromSlot(Spoken(year + "-" + week)) == GetDateFromSlot(Spoken(century + "-" + week))
  {
    var y := JsNumber(year).value;
    var wt := JsNumber(WeekNumberText(week));
    WeekSlot(year, week);
    WeekSlot(century, week);
    if wt.Some? {
      var wn := wt.value;
      assert GetDateFromSlot(Spoken(year + "-" + week)) == Window(DayStart(W2Date(y, wn, 0)), DayEnd(W2Date(y, wn, 6)));
      assert GetDateFromSlot(Spoken(century + "-" + week))
        == Window(DayStart(W2Date(1900 + y, wn, 0)), DayEnd(W2Date(1900 + y, wn, 6)));
      TwoDigitYear(y, wn, 0);
      TwoDigitYear(y, wn, 6);
    } else {
      assert GetDateFromSlot(Spoken(year + "-" + week)) == InvalidWindow;
      assert GetDateFromSlot(Spoken(century + "-" + week)) == InvalidWindow;
    }
  }
}
