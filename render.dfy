/**
  * `outputFindResults` and `outputQueryResults` (index.js): the spoken
  * sentences built from a filter result by nested `map`/`join`.
  */
module Render {
  import opened Wrappers
  import opened Text
  import opened Feed

  // The fixed sentences are written as "There" plus the rest so that their
  // first word is visible to the verifier (long literals are not unfolded).
  const NoSeatsText: string := "There" + " are no seats available that meet that criteria."
  const NoShowtimesText: string := "There" + " are no available showtimes meeting that criteria."

  // outputFindResults

  /** The `i`-th item of a film's time list: the last of several gets "and " in front. */
  function TimeItem(sts: seq<ShowTime>, i: int): string
    requires 0 <= i < |sts|
  {
    if |sts| > 1 && i == |sts| - 1 then "and " + sts[i].time else sts[i].time
  }

  function TimeItems(sts: seq<ShowTime>): (r: seq<string>)
    ensures |r| == |sts|
  {
    seq(|sts|, i requires 0 <= i < |sts| => TimeItem(sts, i))
  }

  /** The times alone, as they are spoken before the last one. */
  function Times(sts: seq<ShowTime>): (r: seq<string>)
    ensures |r| == |sts|
  {
    seq(|sts|, i requires 0 <= i < |sts| => sts[i].time)
  }

  function TimeList(sts: seq<ShowTime>): string {
    Join(TimeItems(sts), ", ")
  }

  function ShowtimeWord(sts: seq<ShowTime>): string {
    if |sts| > 1 then " showtimes" else " showtime"
  }

  function FindFilm(f: Film): string {
    "showing of " + f.FilmName + " has seats available for the " + TimeList(f.ShowTimes) + ShowtimeWord(f.ShowTimes)
  }

  function FindFilms(fs: seq<Film>): (r: seq<string>)
    ensures |r| == |fs|
  {
    seq(|fs|, i requires 0 <= i < |fs| => FindFilm(fs[i]))
  }

  function FindCinema(c: Cinema): string {
    "the " + c.CinemaName + " cinema " + Join(FindFilms(c.Films), ". ")
  }

  function FindCinemas(cs: seq<Cinema>): (r: seq<string>)
    ensures |r| == |cs|
  {
    seq(|cs|, i requires 0 <= i < |cs| => FindCinema(cs[i]))
  }

  function FindDate(d: ShowDate): string {
    "For " + d.FormattedDate + ", " + Join(FindCinemas(d.Cinemas), ". ")
  }

  function FindDates(ds: seq<ShowDate>): (r: seq<string>)
    ensures |r| == |ds|
  {
    seq(|ds|, i requires 0 <= i < |ds| => FindDate(ds[i]))
  }

  /** `outputFindResults(results)`. */
  function OutputFindResults(results: FilterResult): (s: string)
    ensures results.showtimeCount == 0 ==> s == NoSeatsText
    ensures results.showtimeCount != 0 && |results.data| > 0 ==> "For " <= s
  {
    if results.showtimeCount == 0 then NoSeatsText
    else
      var items := FindDates(results.data);
      if |items| > 0 then
        JoinHead(items, ". ");
        assert "For " <= items[0];
        Join(items, ". ")
      else Join(items, ". ")
  }

  /**
    * A film's times are spoken as a list whose last item, when there are
    * several, is preceded by ", and "; one time is spoken alone.
    */
  lemma TimeListForm(sts: seq<ShowTime>)
    ensures |sts| == 0 ==> TimeList(sts) == ""
    ensures |sts| == 1 ==> TimeList(sts) == sts[0].time
    ensures |sts| >= 2 ==>
      TimeList(sts) == Join(Times(sts[..|sts| - 1]), ", ") + ", and " + sts[|sts| - 1].time
  {
    if |sts| >= 2 {
      var n := |sts|;
      var items := TimeItems(sts);
      assert items == Times(sts[..n - 1]) + ["and " + sts[n - 1].time];
      JoinSnoc(Times(sts[..n - 1]), "and " + sts[n - 1].time, ", ");
      assert ", " + ("and " + sts[n - 1].time) == ", and " + sts[n - 1].time;
    }
  }

  /** The sentence for a film ends in "showtimes" exactly when it has more than one showtime. */
  lemma ShowtimePlural(f: Film)
    ensures FindFilm(f)[|FindFilm(f)| - 1] == 's' <==> |f.ShowTimes| > 1
  {
  }

  // How the answer grows: each further film, cinema or date adds ". " and its own clause.

  /** One film alone is spoken as its own clause after the cinema's name. */
  lemma FindCinemaOne(c: Cinema)
    requires |c.Films| == 1
    ensures FindCinema(c) == "the " + c.CinemaName + " cinema " + FindFilm(c.Films[0])
  {
  }

  /** A further film of a cinema adds ". " and that film's clause. */
  lemma FindCinemaSnoc(c: Cinema, f: Film)
    requires |c.Films| > 0
    ensures FindCinema(c.(Films := c.Films + [f])) == FindCinema(c) + ". " + FindFilm(f)
  {
    assert FindFilms(c.Films + [f]) == FindFilms(c.Films) + [FindFilm(f)];
    JoinSnoc(FindFilms(c.Films), FindFilm(f), ". ");
  }

  /** One cinema alone is spoken as its own clause after the date. */
  lemma FindDateOne(d: ShowDate)
    requires |d.Cinemas| == 1
    ensures FindDate(d) == "For " + d.FormattedDate + ", " + FindCinema(d.Cinemas[0])
  {
  }

  /** A further cinema of a date adds ". " and that cinema's clause. */
  lemma FindDateSnoc(d: ShowDate, c: Cinema)
    requires |d.Cinemas| > 0
    ensures FindDate(d.(Cinemas := d.Cinemas + [c])) == FindDate(d) + ". " + FindCinema(c)
  {
    assert FindCinemas(d.Cinemas + [c]) == FindCinemas(d.Cinemas) + [FindCinema(c)];
    JoinSnoc(FindCinemas(d.Cinemas), FindCinema(c), ". ");
  }

  /** With showtimes counted, one date alone is the whole answer. */
  lemma FindResultsOne(d: ShowDate, count: nat)
    requires count != 0
    ensures OutputFindResults(FilterResult([d], count)) == FindDate(d)
  {
  }

  /** With showtimes counted, a further date adds ". " and that date's clause. */
  lemma FindResultsSnoc(res: FilterResult, d: ShowDate)
    requires res.showtimeCount != 0 && |res.data| > 0
    ensures OutputFindResults(res.(data := res.data + [d])) == OutputFindResults(res) + ". " + FindDate(d)
  {
    assert FindDates(res.data + [d]) == FindDates(res.data) + [FindDate(d)];
    JoinSnoc(FindDates(res.data), FindDate(d), ". ");
  }

  // outputQueryResults

  function SeatWord(seats: int): string {
    if seats == 1 then "seat" else "seats"
  }

  /** One showtime of the query answer: the seat count, "seat" or "seats", and the time. */
  function SeatItem(st: ShowTime): string {
    IntToString(st.seats) + " " + SeatWord(st.seats) + " at " + st.time
  }

  function SeatItems(sts: seq<ShowTime>): (r: seq<string>)
    ensures |r| == |sts|
  {
    seq(|sts|, i requires 0 <= i < |sts| => SeatItem(sts[i]))
  }

  function QueryFilm(f: Film): string {
    "showing of " + f.FilmName + " has " + Join(SeatItems(f.ShowTimes), ", ")
  }

  function QueryFilms(fs: seq<Film>): (r: seq<string>)
    ensures |r| == |fs|
  {
    seq(|fs|, i requires 0 <= i < |fs| => QueryFilm(fs[i]))
  }

  function QueryCinema(c: Cinema): string {
    "the " + c.CinemaName + " cinema " + Join(QueryFilms(c.Films), ". ")
  }

  function QueryCinemas(cs: seq<Cinema>): (r: seq<string>)
    ensures |r| == |cs|
  {
    seq(|cs|, i requires 0 <= i < |cs| => QueryCinema(cs[i]))
  }

  function QueryDate(d: ShowDate): string {
    "For " + d.FormattedDate + ", " + Join(QueryCinemas(d.Cinemas), ". ")
  }

  function QueryDates(ds: seq<ShowDate>): (r: seq<string>)
    ensures |r| == |ds|
  {
    seq(|ds|, i requires 0 <= i < |ds| => QueryDate(ds[i]))
  }

  /** `outputQueryResults(results)`. */
  function OutputQueryResults(results: FilterResult): (s: string)
    ensures results.showtimeCount == 0 ==> s == NoShowtimesText
    ensures results.showtimeCount != 0 && |results.data| > 0 ==> "For " <= s
  {
    if results.showtimeCount == 0 then NoShowtimesText
    else
      var items := QueryDates(results.data);
      if |items| > 0 then
        JoinHead(items, ". ");
        assert "For " <= items[0];
        Join(items, ". ")
      else Join(items, ". ")
  }

  /** "seat" is written exactly when the count is one; a non-negative count reads back as itself. */
  lemma SeatItemForm(st: ShowTime)
    ensures SeatItem(st) == IntToString(st.seats) + " seat at " + st.time <==> st.seats == 1
    ensures st.seats >= 0 ==> JsNumber(SeatItem(st)[..|IntToString(st.seats)|]) == Some(st.seats)
  {
    var n := IntToString(st.seats);
    if st.seats != 1 {
      var a, b := SeatItem(st), n + " seat at " + st.time;
      assert a[|n| + 5] == 's';
      assert |b| > |n| + 5 ==> b[|n| + 5] == ' ';
    }
    if st.seats >= 0 {
      assert SeatItem(st)[..|n|] == n;
      NumberOfNatToString(st.seats);
    }
  }

  /** The query answer lists a film's showtimes with ", " only: no "and" before the last. */
  lemma SeatListForm(sts: seq<ShowTime>)
    requires |sts| >= 2
    ensures Join(SeatItems(sts), ", ") == Join(SeatItems(sts[..|sts| - 1]), ", ") + ", " + SeatItem(sts[|sts| - 1])
  {
    var n := |sts|;
    assert SeatItems(sts) == SeatItems(sts[..n - 1]) + [SeatItem(sts[n - 1])];
    JoinSnoc(SeatItems(sts[..n - 1]), SeatItem(sts[n - 1]), ", ");
  }

  // How the answer grows, as for `outputFindResults`.

  /** One film alone is spoken as its own clause after the cinema's name. */
  lemma QueryCinemaOne(c: Cinema)
    requires |c.Films| == 1
    ensures QueryCinema(c) == "the " + c.CinemaName + " cinema " + QueryFilm(c.Films[0])
  {
  }

  /** A further film of a cinema adds ". " and that film's clause. */
  lemma QueryCinemaSnoc(c: Cinema, f: Film)
    requires |c.Films| > 0
    ensures QueryCinema(c.(Films := c.Films + [f])) == QueryCinema(c) + ". " + QueryFilm(f)
  {
    assert QueryFilms(c.Films + [f]) == QueryFilms(c.Films) + [QueryFilm(f)];
    JoinSnoc(QueryFilms(c.Films), QueryFilm(f), ". ");
  }

  /** One cinema alone is spoken as its own clause after the date. */
  lemma QueryDateOne(d: ShowDate)
    requires |d.Cinemas| == 1
    ensures QueryDate(d) == "For " + d.FormattedDate + ", " + QueryCinema(d.Cinemas[0])
  {
  }

  /** A further cinema of a date adds ". " and that cinema's clause. */
  lemma QueryDateSnoc(d: ShowDate, c: Cinema)
    requires |d.Cinemas| > 0
    ensures QueryDate(d.(Cinemas := d.Cinemas + [c])) == QueryDate(d) + ". " + QueryCinema(c)
  {
    assert QueryCinemas(d.Cinemas + [c]) == QueryCinemas(d.Cinemas) + [QueryCinema(c)];
    JoinSnoc(QueryCinemas(d.Cinemas), QueryCinema(c), ". ");
  }

  /** With showtimes counted, one date alone is the whole answer. */
  lemma QueryResultsOne(d: ShowDate, count: nat)
    requires count != 0
    ensures OutputQueryResults(FilterResult([d], count)) == QueryDate(d)
  {
  }

  /** With showtimes counted, a further date adds ". " and that date's clause. */
  lemma QueryResultsSnoc(res: FilterResult, d: ShowDate)
    requires res.showtimeCount != 0 && |res.data| > 0
    ensures OutputQueryResults(res.(data := res.data + [d])) == OutputQueryResults(res) + ". " + QueryDate(d)
  {
    assert QueryDates(res.data + [d]) == QueryDates(res.data) + [QueryDate(d)];
    JoinSnoc(QueryDates(res.data), QueryDate(d), ". ");
  }

  /** Joining starts with the first item. */
  lemma JoinHead(xs: seq<string>, sep: string)
    requires |xs| > 0
    ensures xs[0] <= Join(xs, sep)
  {
    if |xs| > 1 {
      assert Join(xs, sep) == xs[0] + (sep + Join(xs[1..], sep));
    }
  }

  /**
    * When results with showtimes also hold dates, each renderer says its
    * fixed "no ..." sentence exactly when the count is zero.
    */
  lemma NoResultsIffZero(res: FilterResult)
    requires res.showtimeCount != 0 ==> res.data != []
    ensures OutputFindResults(res) == NoSeatsText <==> res.showtimeCount == 0
    ensures OutputQueryResults(res) == NoShowtimesText <==> res.showtimeCount == 0
  {
    if res.showtimeCount != 0 {
      var find, query := OutputFindResults(res), OutputQueryResults(res);
      assert find[0] == "For "[0] && query[0] == "For "[0];
    }
  }
}
