/**
  * `filterShowtimes` (index.js): prunes the feed in cascade (date window,
  * theater name, film name, session time, minimum seats) and counts the
  * surviving sessions in a running counter. The pure functions below are
  * the specification; the methods are the nested loops with the counter,
  * proved to compute exactly what the functions describe.
  */
module ShowtimeFilter {
  import opened Wrappers
  import opened Calendar
  import opened DateSlot
  import opened NameMatch
  import opened Feed

  /** The slot values handed to the filter; `None` is an absent slot. */
  datatype Query = Query(
    movieName: Option<string>,
    movieDate: Option<string>,
    movieTheater: Option<string>,
    movieShowtime: Option<string>,
    seatsAvailable: Option<int>)

  /**
    * Why the filter produces no result: the feed has no first cinema to read
    * `CinemaTimeZoneATE` from, or the date slot has none of the known shapes.
    */
  datatype FilterError = MissingTimeZone | DateOutOfRange

  /** JavaScript truthiness of an optional string: present and not empty. */
  predicate Given(v: Option<string>) {
    v.Some? && v.value != ""
  }

  /** A name term as the filter uses it: `None` when the test is skipped. */
  function Term(v: Option<string>): (r: Option<string>)
    ensures r.Some? <==> Given(v)
    ensures r.Some? ==> r == v
  {
    if Given(v) then v else None
  }

  /** The theater term after `'all theaters'` has been replaced by `null`. */
  function TheaterTerm(v: Option<string>): (r: Option<string>)
    ensures r.Some? <==> Given(v) && v.value != "all theaters"
    ensures r.Some? ==> r == v
  {
    if v == Some("all theaters") then None else Term(v)
  }

  /** `seatsAvailable ? parseInt(seatsAvailable) : null`, then used only when non-zero. */
  function SeatFilter(seats: Option<int>): (r: Option<int>)
    ensures r.Some? <==> seats.Some? && seats.value != 0
    ensures r.Some? ==> r == seats
  {
    if seats.Some? && seats.value != 0 then seats else None
  }

  /** Everything the nested filters test against. */
  datatype Criteria = Criteria(
    window: EventDate,
    timeZone: string,
    theater: Option<string>,
    movieName: Option<string>,
    showtime: Option<string>,
    seatFilter: Option<int>)

  function CriteriaOf(q: Query, timeZone: string, window: EventDate): Criteria {
    Criteria(window, timeZone, TheaterTerm(q.movieTheater), Term(q.movieName),
             Term(q.movieShowtime), SeatFilter(q.seatsAvailable))
  }

  /** `movieDate || moment().tz(timeZone).format()`. */
  function SlotOf(q: Query, timeZone: string, lib: Moment): RawDate {
    if Given(q.movieDate) then Spoken(q.movieDate.value) else Clock(lib.now(timeZone))
  }

  /** A session survives: the requested time, if any, and at least `seatFilter` seats, if set. */
  predicate SessionKept(c: Criteria, s: Session) {
    (c.showtime.None? || c.showtime.value == s.SessionDateTime)
    && (c.seatFilter.None? || s.SeatsLeft >= c.seatFilter.value)
  }

  predicate FilmAdmitted(c: Criteria, f: Film) {
    c.movieName.None? || RegExpMatches(f.FilmName, c.movieName.value)
  }

  predicate CinemaAdmitted(c: Criteria, cin: Cinema) {
    c.theater.None? || RegExpMatches(cin.CinemaName, c.theater.value)
  }

  /** `moment.tz(d.DateId, timeZone).hour(0).minute(0).second(0)`. */
  function Midnight(c: Criteria, lib: Moment, d: ShowDate): int {
    FloorToMidnight(lib.instantOf(d.DateId, c.timeZone))
  }

  /** `isSameOrAfter(startDate) && isSameOrBefore(endDate)`; an invalid window admits nothing. */
  predicate DateInWindow(c: Criteria, lib: Moment, d: ShowDate) {
    c.window.Window? && c.window.startDate <= Midnight(c, lib, d) <= c.window.endDate
  }

  // The specification: each list is described from its end, one element at a time.

  /** The sessions that pass the time and seat tests: each is one of the film's sessions. */
  function KeptSessions(c: Criteria, ss: seq<Session>): (r: seq<Session>)
    ensures |r| <= |ss|
    ensures forall s :: s in r ==> s in ss && SessionKept(c, s)
  {
    if ss == [] then []
    else KeptSessions(c, ss[..|ss| - 1]) + (if SessionKept(c, ss[|ss| - 1]) then [ss[|ss| - 1]] else [])
  }

  function ShowTimeOf(lib: Moment, s: Session): ShowTime {
    ShowTime(lib.formatTime(s.SessionDateTime), s.SeatsLeft)
  }

  /** The `map` of sessions to `{time, seats}` entries. */
  function ShowTimesOf(lib: Moment, ss: seq<Session>): (r: seq<ShowTime>)
    ensures |r| == |ss|
  {
    if ss == [] then [] else ShowTimesOf(lib, ss[..|ss| - 1]) + [ShowTimeOf(lib, ss[|ss| - 1])]
  }

  /** A film with its `ShowTimes` recomputed from its sessions. */
  function PrunedFilm(c: Criteria, lib: Moment, f: Film): Film {
    f.(ShowTimes := ShowTimesOf(lib, KeptSessions(c, f.Sessions)))
  }

  predicate FilmKept(c: Criteria, lib: Moment, f: Film) {
    FilmAdmitted(c, f) && |PrunedFilm(c, lib, f).ShowTimes| > 0
  }

  /** The films `c.Films.filter(...)` keeps: each passes the name test and has a showtime. */
  function KeptFilms(c: Criteria, lib: Moment, fs: seq<Film>): (r: seq<Film>)
    ensures |r| <= |fs|
    ensures forall g :: g in r ==> FilmAdmitted(c, g) && |g.ShowTimes| > 0
  {
    if fs == [] then []
    else
      var f := fs[|fs| - 1];
      KeptFilms(c, lib, fs[..|fs| - 1]) + (if FilmKept(c, lib, f) then [PrunedFilm(c, lib, f)] else [])
  }

  function PrunedCinema(c: Criteria, lib: Moment, cin: Cinema): Cinema {
    cin.(Films := KeptFilms(c, lib, cin.Films))
  }

  predicate CinemaKept(c: Criteria, lib: Moment, cin: Cinema) {
    CinemaAdmitted(c, cin) && |PrunedCinema(c, lib, cin).Films| > 0
  }

  /** The cinemas `d.Cinemas.filter(...)` keeps: each passes the theater test and has a film. */
  function KeptCinemas(c: Criteria, lib: Moment, cs: seq<Cinema>): (r: seq<Cinema>)
    ensures |r| <= |cs|
    ensures forall g :: g in r ==> CinemaAdmitted(c, g) && |g.Films| > 0
  {
    if cs == [] then []
    else
      var cin := cs[|cs| - 1];
      KeptCinemas(c, lib, cs[..|cs| - 1]) + (if CinemaKept(c, lib, cin) then [PrunedCinema(c, lib, cin)] else [])
  }

  function PrunedDate(c: Criteria, lib: Moment, d: ShowDate): ShowDate {
    d.(FormattedDate := lib.formatDay(Midnight(c, lib, d)), Cinemas := KeptCinemas(c, lib, d.Cinemas))
  }

  predicate DateKept(c: Criteria, lib: Moment, d: ShowDate) {
    DateInWindow(c, lib, d) && |PrunedDate(c, lib, d).Cinemas| > 0
  }

  /** The dates the outer `filter` keeps: each lies in the window and has a cinema. */
  function KeptDates(c: Criteria, lib: Moment, ds: seq<ShowDate>): (r: seq<ShowDate>)
    ensures |r| <= |ds|
    ensures forall g :: g in r ==> DateInWindow(c, lib, g) && |g.Cinemas| > 0
  {
    if ds == [] then []
    else
      var d := ds[|ds| - 1];
      KeptDates(c, lib, ds[..|ds| - 1]) + (if DateKept(c, lib, d) then [PrunedDate(c, lib, d)] else [])
  }

  // The increments of `showtimeCount`: one per surviving session of every film
  // the name test let through, in every cinema and date the outer tests let through.

  /** The sessions counted for the films that pass the name test. */
  function FilmsCount(c: Criteria, fs: seq<Film>): (n: nat)
  {
    if fs == [] then 0
    else
      var f := fs[|fs| - 1];
      FilmsCount(c, fs[..|fs| - 1]) + (if FilmAdmitted(c, f) then |KeptSessions(c, f.Sessions)| else 0)
  }

  /** The sessions counted for the cinemas that pass the theater test. */
  function CinemasCount(c: Criteria, cs: seq<Cinema>): (n: nat)
  {
    if cs == [] then 0
    else
      var cin := cs[|cs| - 1];
      CinemasCount(c, cs[..|cs| - 1]) + (if CinemaAdmitted(c, cin) then FilmsCount(c, cin.Films) else 0)
  }

  /** The sessions counted for the dates inside the window. */
  function DatesCount(c: Criteria, lib: Moment, ds: seq<ShowDate>): (n: nat)
  {
    if ds == [] then 0
    else
      var d := ds[|ds| - 1];
      DatesCount(c, lib, ds[..|ds| - 1]) + (if DateInWindow(c, lib, d) then CinemasCount(c, d.Cinemas) else 0)
  }

  /** What `filterShowtimes` returns for a feed, the slot values and the clock. */
  function FilterSpec(feed: Market, q: Query, lib: Moment): (r: Result<FilterResult, FilterError>)
    ensures r == Failure(MissingTimeZone) <==> |feed.Dates| == 0 || |feed.Dates[0].Cinemas| == 0
    ensures r == Failure(DateOutOfRange) <==>
      |feed.Dates| > 0 && |feed.Dates[0].Cinemas| > 0
      && GetDateFromSlot(SlotOf(q, feed.Dates[0].Cinemas[0].CinemaTimeZoneATE, lib)).OutOfRange?
  {
    if |feed.Dates| == 0 || |feed.Dates[0].Cinemas| == 0 then Failure(MissingTimeZone)
    else
      var tz := feed.Dates[0].Cinemas[0].CinemaTimeZoneATE;
      var window := GetDateFromSlot(SlotOf(q, tz, lib));
      if window.OutOfRange? then Failure(DateOutOfRange)
      else
        var c := CriteriaOf(q, tz, window);
        Success(FilterResult(KeptDates(c, lib, feed.Dates), DatesCount(c, lib, feed.Dates)))
  }

  // The filter itself: nested loops with a running counter.

  /** The session `map(...).filter(Boolean)` of one film, counting each survivor. */
  method MapSessions(c: Criteria, lib: Moment, ss: seq<Session>, count: nat)
    returns (showTimes: seq<ShowTime>, count': nat)
    ensures showTimes == ShowTimesOf(lib, KeptSessions(c, ss))
    ensures count' == count + |KeptSessions(c, ss)|
  {
    showTimes, count' := [], count;
    var i := 0;
    while i < |ss|
      invariant 0 <= i <= |ss|
      invariant showTimes == ShowTimesOf(lib, KeptSessions(c, ss[..i]))
      invariant count' == count + |KeptSessions(c, ss[..i])|
    {
      var st := ss[i];
      assert ss[..i + 1][..i] == ss[..i];
      var keep := true;
      if c.showtime.Some? && c.showtime.value != st.SessionDateTime {
        keep := false;
      } else if c.seatFilter.Some? && st.SeatsLeft < c.seatFilter.value {
        keep := false;
      }
      assert keep == SessionKept(c, st);
      assert ss[..i + 1][i] == st;
      assert KeptSessions(c, ss[..i + 1]) == KeptSessions(c, ss[..i]) + (if keep then [st] else []);
      if keep {
        count' := count' + 1;
        ShowTimesSnoc(lib, KeptSessions(c, ss[..i]), st);
        showTimes := showTimes + [ShowTime(lib.formatTime(st.SessionDateTime), st.SeatsLeft)];
      } else {
        assert KeptSessions(c, ss[..i]) + [] == KeptSessions(c, ss[..i]);
      }
      i := i + 1;
    }
    assert ss[..i] == ss;
  }

  lemma ShowTimesSnoc(lib: Moment, ss: seq<Session>, s: Session)
    ensures ShowTimesOf(lib, ss + [s]) == ShowTimesOf(lib, ss) + [ShowTimeOf(lib, s)]
  {
    assert (ss + [s])[..|ss|] == ss;
  }

  /** The film filter of one cinema: name test, then sessions, dropping films left without any. */
  method FilterFilms(c: Criteria, lib: Moment, films: seq<Film>, count: nat)
    returns (kept: seq<Film>, count': nat)
    ensures kept == KeptFilms(c, lib, films)
    ensures count' == count + FilmsCount(c, films)
  {
    kept, count' := [], count;
    var i := 0;
    while i < |films|
      invariant 0 <= i <= |films|
      invariant kept == KeptFilms(c, lib, films[..i])
      invariant count' == count + FilmsCount(c, films[..i])
    {
      var f := films[i];
      FilmsStep(c, lib, films, i);
      if c.movieName.None? || RegExpMatches(f.FilmName, c.movieName.value) {
        var showTimes;
        showTimes, count' := MapSessions(c, lib, f.Sessions, count');
        var f' := f.(ShowTimes := showTimes);
        if |showTimes| > 0 {
          kept := kept + [f'];
        }
      }
      i := i + 1;
    }
    assert films[..i] == films;
  }

  /** One more film extends the kept films and the count by that film's share. */
  lemma FilmsStep(c: Criteria, lib: Moment, films: seq<Film>, i: int)
    requires 0 <= i < |films|
    ensures KeptFilms(c, lib, films[..i + 1])
      == KeptFilms(c, lib, films[..i]) + (if FilmKept(c, lib, films[i]) then [PrunedFilm(c, lib, films[i])] else [])
    ensures FilmsCount(c, films[..i + 1])
      == FilmsCount(c, films[..i]) + (if FilmAdmitted(c, films[i]) then |KeptSessions(c, films[i].Sessions)| else 0)
  {
    assert films[..i + 1][..i] == films[..i];
  }

  /** The theater filter of one date: name test, then films, dropping cinemas left without any. */
  method FilterCinemas(c: Criteria, lib: Moment, cinemas: seq<Cinema>, count: nat)
    returns (kept: seq<Cinema>, count': nat)
    ensures kept == KeptCinemas(c, lib, cinemas)
    ensures count' == count + CinemasCount(c, cinemas)
  {
    kept, count' := [], count;
    var i := 0;
    while i < |cinemas|
      invariant 0 <= i <= |cinemas|
      invariant kept == KeptCinemas(c, lib, cinemas[..i])
      invariant count' == count + CinemasCount(c, cinemas[..i])
    {
      var cin := cinemas[i];
      CinemasStep(c, lib, cinemas, i);
      if c.theater.None? || RegExpMatches(cin.CinemaName, c.theater.value) {
        var films;
        films, count' := FilterFilms(c, lib, cin.Films, count');
        var cin' := cin.(Films := films);
        if |films| > 0 {
          kept := kept + [cin'];
        }
      }
      i := i + 1;
    }
    assert cinemas[..i] == cinemas;
  }

  /** One more cinema extends the kept cinemas and the count by that cinema's share. */
  lemma CinemasStep(c: Criteria, lib: Moment, cinemas: seq<Cinema>, i: int)
    requires 0 <= i < |cinemas|
    ensures KeptCinemas(c, lib, cinemas[..i + 1])
      == KeptCinemas(c, lib, cinemas[..i]) + (if CinemaKept(c, lib, cinemas[i]) then [PrunedCinema(c, lib, cinemas[i])] else [])
    ensures CinemasCount(c, cinemas[..i + 1])
      == CinemasCount(c, cinemas[..i]) + (if CinemaAdmitted(c, cinemas[i]) then FilmsCount(c, cinemas[i].Films) else 0)
  {
    assert cinemas[..i + 1][..i] == cinemas[..i];
  }

  /** The date filter: window test, then cinemas, dropping dates left without any. */
  method FilterDates(c: Criteria, lib: Moment, dates: seq<ShowDate>, count: nat)
    returns (kept: seq<ShowDate>, count': nat)
    ensures kept == KeptDates(c, lib, dates)
    ensures count' == count + DatesCount(c, lib, dates)
  {
    kept, count' := [], count;
    var i := 0;
    while i < |dates|
      invariant 0 <= i <= |dates|
      invariant kept == KeptDates(c, lib, dates[..i])
      invariant count' == count + DatesCount(c, lib, dates[..i])
    {
      var d := dates[i];
      DatesStep(c, lib, dates, i);
      var mDate := FloorToMidnight(lib.instantOf(d.DateId, c.timeZone));
      var dateMatch := c.window.Window? && c.window.startDate <= mDate && mDate <= c.window.endDate;
      if dateMatch {
        var cinemas;
        cinemas, count' := FilterCinemas(c, lib, d.Cinemas, count');
        var d' := d.(FormattedDate := lib.formatDay(mDate), Cinemas := cinemas);
        if |cinemas| > 0 {
          kept := kept + [d'];
        }
      }
      i := i + 1;
    }
    assert dates[..i] == dates;
  }

  /** One more date extends the kept dates and the count by that date's share. */
  lemma DatesStep(c: Criteria, lib: Moment, dates: seq<ShowDate>, i: int)
    requires 0 <= i < |dates|
    ensures KeptDates(c, lib, dates[..i + 1])
      == KeptDates(c, lib, dates[..i]) + (if DateKept(c, lib, dates[i]) then [PrunedDate(c, lib, dates[i])] else [])
    ensures DatesCount(c, lib, dates[..i + 1])
      == DatesCount(c, lib, dates[..i]) + (if DateInWindow(c, lib, dates[i]) then CinemasCount(c, dates[i].Cinemas) else 0)
  {
    assert dates[..i + 1][..i] == dates[..i];
  }

  /** `filterShowtimes(showtimeData, movieName, movieDate, movieTheater, movieShowtime, seatsAvailable)`. */
  method FilterShowtimes(feed: Market, q: Query, lib: Moment) returns (r: Result<FilterResult, FilterError>)
    ensures r == FilterSpec(feed, q, lib)
  {
    if |feed.Dates| == 0 || |feed.Dates[0].Cinemas| == 0 {
      return Failure(MissingTimeZone);
    }
    var timeZone := feed.Dates[0].Cinemas[0].CinemaTimeZoneATE;
    var window := ResolveSlot(SlotOf(q, timeZone, lib));
    if window.OutOfRange? {
      return Failure(DateOutOfRange);
    }
    var c := CriteriaOf(q, timeZone, window);
    var data, showtimeCount := FilterDates(c, lib, feed.Dates, 0);
    r := Success(FilterResult(data, showtimeCount));
    assert r == FilterSpec(feed, q, lib);
  }
}
