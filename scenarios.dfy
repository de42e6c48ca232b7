/**
  * A worked case of the whole pipeline: one date, one cinema, one film with
  * two sessions that have 12 and 3 seats left, filtered with no seat minimum
  * and with a minimum of 10, and the sentences spoken about the result.
  */
module Scenarios {
  import opened Wrappers
  import opened Text
  import opened Feed
  import opened ShowtimeFilter
  import opened FilterFacts
  import opened Render

  function TwoSessionDate(dateId: string, cinema: string, tz: string, film: string, t1: string, t2: string): ShowDate {
    ShowDate(dateId, "", [Cinema(cinema, tz, [Film(film, [Session(t1, 12), Session(t2, 3)], [])])])
  }

  /** The showtimes of the one film once the date has been filtered. */
  function FirstFilmShowTimes(ds: seq<ShowDate>): seq<ShowTime> {
    if |ds| > 0 && |ds[0].Cinemas| > 0 && |ds[0].Cinemas[0].Films| > 0 then ds[0].Cinemas[0].Films[0].ShowTimes else []
  }

  /** A date with one cinema with one film, all passing: the count and the showtimes are those of the film's sessions. */
  lemma SingleFilmDate(c: Criteria, lib: Moment, d: ShowDate)
    requires |d.Cinemas| == 1 && |d.Cinemas[0].Films| == 1
    requires DateInWindow(c, lib, d) && CinemaAdmitted(c, d.Cinemas[0]) && FilmAdmitted(c, d.Cinemas[0].Films[0])
    ensures var kept := KeptSessions(c, d.Cinemas[0].Films[0].Sessions);
      && DatesCount(c, lib, [d]) == |kept|
      && (|kept| > 0 ==> FirstFilmShowTimes(KeptDates(c, lib, [d])) == ShowTimesOf(lib, kept))
  {
    var cin := d.Cinemas[0];
    var f := cin.Films[0];
    assert [d][..0] == [] && d.Cinemas[..0] == [] && cin.Films[..0] == [];
    assert FilmsCount(c, cin.Films) == |KeptSessions(c, f.Sessions)|;
    assert CinemasCount(c, d.Cinemas) == FilmsCount(c, cin.Films);
    assert DatesCount(c, lib, [d]) == CinemasCount(c, d.Cinemas);
    if |KeptSessions(c, f.Sessions)| > 0 {
      assert FilmKept(c, lib, f);
      assert KeptFilms(c, lib, cin.Films) == [PrunedFilm(c, lib, f)];
      assert CinemaKept(c, lib, cin);
      assert KeptCinemas(c, lib, d.Cinemas) == [PrunedCinema(c, lib, cin)];
      assert DateKept(c, lib, d);
      assert KeptDates(c, lib, [d]) == [PrunedDate(c, lib, d)];
      var g := PrunedDate(c, lib, d);
      assert g.Cinemas[0] == PrunedCinema(c, lib, cin);
      assert g.Cinemas[0].Films[0] == PrunedFilm(c, lib, f);
      assert |g.Cinemas| == 1 && |g.Cinemas[0].Films| == 1;
      assert FirstFilmShowTimes([g]) == g.Cinemas[0].Films[0].ShowTimes;
    }
  }

  /** The query answer for a 12-seat and a 3-seat showtime. */
  lemma TwoSeatItems(x: string, y: string)
    ensures Join(SeatItems([ShowTime(x, 12), ShowTime(y, 3)]), ", ") == "12 seats at " + x + ", 3 seats at " + y
  {
    var sts := [ShowTime(x, 12), ShowTime(y, 3)];
    assert IntToString(12) == "12" && IntToString(3) == "3";
    assert SeatItem(sts[0]) == "12" + " " + "seats" + " at " + x;
    assert "12" + " " + "seats" + " at " + x == "12 seats at " + x;
    assert SeatItem(sts[1]) == "3" + " " + "seats" + " at " + y;
    assert "3" + " " + "seats" + " at " + y == "3 seats at " + y;
    assert SeatItems(sts) == ["12 seats at " + x, "3 seats at " + y];
    assert Join(SeatItems(sts), ", ") == "12 seats at " + x + ", " + "3 seats at " + y;
  }

  /**
    * With every name test passing, no time given and no seat minimum, both
    * sessions survive, the count is 2 and the query answer lists
    * "12 seats at" and "3 seats at" joined by a comma.
    */
  lemma NoMinimumScenario(c: Criteria, lib: Moment, dateId: string, cinema: string, tz: string, film: string, t1: string, t2: string)
    requires var d := TwoSessionDate(dateId, cinema, tz, film, t1, t2);
      DateInWindow(c, lib, d) && CinemaAdmitted(c, d.Cinemas[0]) && FilmAdmitted(c, d.Cinemas[0].Films[0])
    requires c.showtime.None? && c.seatFilter.None?
    ensures var ds := [TwoSessionDate(dateId, cinema, tz, film, t1, t2)];
      var sts := FirstFilmShowTimes(KeptDates(c, lib, ds));
      && DatesCount(c, lib, ds) == 2
      && sts == [ShowTime(lib.formatTime(t1), 12), ShowTime(lib.formatTime(t2), 3)]
      && Join(SeatItems(sts), ", ") == "12 seats at " + lib.formatTime(t1) + ", 3 seats at " + lib.formatTime(t2)
  {
    var d := TwoSessionDate(dateId, cinema, tz, film, t1, t2);
    var s1, s2 := Session(t1, 12), Session(t2, 3);
    var ss := [s1, s2];
    assert ss[..1] == [s1] && [s1][..0] == [];
    assert KeptSessions(c, [s1]) == [s1];
    assert KeptSessions(c, ss) == [s1, s2];
    assert ShowTimesOf(lib, ss) == [ShowTimeOf(lib, s1), ShowTimeOf(lib, s2)];
    SingleFilmDate(c, lib, d);
    TwoSeatItems(lib.formatTime(t1), lib.formatTime(t2));
  }

  /**
    * The same date with a minimum of 10 seats: only the 12-seat session
    * survives, the count is 1 and the find answer uses the singular "showtime".
    */
  lemma MinimumTenScenario(c: Criteria, lib: Moment, dateId: string, cinema: string, tz: string, film: string, t1: string, t2: string)
    requires var d := TwoSessionDate(dateId, cinema, tz, film, t1, t2);
      DateInWindow(c, lib, d) && CinemaAdmitted(c, d.Cinemas[0]) && FilmAdmitted(c, d.Cinemas[0].Films[0])
    requires c.showtime.None? && c.seatFilter == Some(10)
    ensures var ds := [TwoSessionDate(dateId, cinema, tz, film, t1, t2)];
      var sts := FirstFilmShowTimes(KeptDates(c, lib, ds));
      && DatesCount(c, lib, ds) == 1
      && sts == [ShowTime(lib.formatTime(t1), 12)]
      && TimeList(sts) + ShowtimeWord(sts) == lib.formatTime(t1) + " showtime"
  {
    var d := TwoSessionDate(dateId, cinema, tz, film, t1, t2);
    var s1, s2 := Session(t1, 12), Session(t2, 3);
    var ss := [s1, s2];
    assert ss[..1] == [s1] && [s1][..0] == [];
    assert KeptSessions(c, [s1]) == [s1];
    assert KeptSessions(c, ss) == [s1];
    assert ShowTimesOf(lib, [s1]) == [ShowTimeOf(lib, s1)];
    SingleFilmDate(c, lib, d);
    var sts := [ShowTime(lib.formatTime(t1), 12)];
    assert TimeItems(sts) == [lib.formatTime(t1)];
  }
}
