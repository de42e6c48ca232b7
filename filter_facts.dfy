/**
  * What `filterShowtimes` (index.js) guarantees about the data it returns:
  * which entries survive and in what order, that no empty container
  * survives, that `showtimeCount` is the number of surviving showtimes, and
  * that filtering a filtered feed again with the same criteria changes nothing.
  */
module FilterFacts {
  import opened Wrappers
  import opened Calendar
  import opened DateSlot
  import opened NameMatch
  import opened Feed
  import opened ShowtimeFilter

  /** `a` is `b` with some elements left out, the rest in their original order. */
  predicate Subsequence<T(==)>(a: seq<T>, b: seq<T>)
    decreases |b|
  {
    if b == [] then a == []
    else Subsequence(a, b[..|b| - 1])
         || (a != [] && a[|a| - 1] == b[|b| - 1] && Subsequence(a[..|a| - 1], b[..|b| - 1]))
  }

  /** Appending the same element to both keeps it; appending only to the longer one skips it. */
  lemma SubsequenceSnoc<T>(a: seq<T>, b: seq<T>, x: T)
    requires Subsequence(a, b)
    ensures Subsequence(a + [x], b + [x])
    ensures Subsequence(a, b + [x])
  {
    assert (b + [x])[..|b|] == b;
    assert (a + [x])[..|a|] == a;
  }

  // Membership and order, level by level.

  /** A session survives exactly when it is one of the film's sessions and passes the time and seat tests. */
  lemma {:induction false} KeptSessionsMembers(c: Criteria, ss: seq<Session>)
    ensures forall s :: s in KeptSessions(c, ss) <==> s in ss && SessionKept(c, s)
  {
    if ss != [] {
      var init, s := ss[..|ss| - 1], ss[|ss| - 1];
      KeptSessionsMembers(c, init);
      assert ss == init + [s];
    }
  }

  /** The surviving sessions keep their order. */
  lemma {:induction false} KeptSessionsOrder(c: Criteria, ss: seq<Session>)
    ensures Subsequence(KeptSessions(c, ss), ss)
  {
    if ss != [] {
      var init, s := ss[..|ss| - 1], ss[|ss| - 1];
      KeptSessionsOrder(c, init);
      SubsequenceSnoc(KeptSessions(c, init), init, s);
      assert ss == init + [s];
      if !SessionKept(c, s) {
        assert KeptSessions(c, init) + [] == KeptSessions(c, init);
      }
    }
  }

  /** Every showtime is the `{time, seats}` entry of one of the sessions, in the sessions' order. */
  lemma {:induction false} ShowTimesOfMembers(lib: Moment, ss: seq<Session>)
    ensures forall k :: 0 <= k < |ss| ==> ShowTimesOf(lib, ss)[k] == ShowTimeOf(lib, ss[k])
  {
    if ss != [] {
      ShowTimesOfMembers(lib, ss[..|ss| - 1]);
    }
  }

  /** `f.ShowTimes` is exactly the entries of the sessions that pass, in session order. */
  lemma PrunedFilmShowTimes(c: Criteria, lib: Moment, f: Film)
    ensures var kept := KeptSessions(c, f.Sessions);
      && |PrunedFilm(c, lib, f).ShowTimes| == |kept|
      && (forall k :: 0 <= k < |kept| ==> PrunedFilm(c, lib, f).ShowTimes[k] == ShowTimeOf(lib, kept[k]))
      && (forall s :: s in kept <==> s in f.Sessions && SessionKept(c, s))
      && Subsequence(kept, f.Sessions)
  {
    KeptSessionsMembers(c, f.Sessions);
    KeptSessionsOrder(c, f.Sessions);
    ShowTimesOfMembers(lib, KeptSessions(c, f.Sessions));
  }

  function PrunedFilms(c: Criteria, lib: Moment, fs: seq<Film>): (r: seq<Film>)
    ensures |r| == |fs|
  {
    if fs == [] then [] else PrunedFilms(c, lib, fs[..|fs| - 1]) + [PrunedFilm(c, lib, fs[|fs| - 1])]
  }

  /**
    * A film survives exactly when it is one of the cinema's films, its name
    * passes, and at least one session passes; it survives with its showtimes
    * recomputed.
    */
  lemma {:induction false} KeptFilmsMembers(c: Criteria, lib: Moment, fs: seq<Film>)
    ensures forall g :: g in KeptFilms(c, lib, fs) <==>
      exists f :: f in fs && FilmKept(c, lib, f) && g == PrunedFilm(c, lib, f)
  {
    if fs != [] {
      var init, f := fs[..|fs| - 1], fs[|fs| - 1];
      KeptFilmsMembers(c, lib, init);
      assert fs == init + [f];
    }
  }

  /** The surviving films keep their order. */
  lemma {:induction false} KeptFilmsOrder(c: Criteria, lib: Moment, fs: seq<Film>)
    ensures Subsequence(KeptFilms(c, lib, fs), PrunedFilms(c, lib, fs))
  {
    if fs != [] {
      var init, f := fs[..|fs| - 1], fs[|fs| - 1];
      KeptFilmsOrder(c, lib, init);
      SubsequenceSnoc(KeptFilms(c, lib, init), PrunedFilms(c, lib, init), PrunedFilm(c, lib, f));
      if !FilmKept(c, lib, f) {
        assert KeptFilms(c, lib, init) + [] == KeptFilms(c, lib, init);
      }
    }
  }

  function PrunedCinemas(c: Criteria, lib: Moment, cs: seq<Cinema>): (r: seq<Cinema>)
    ensures |r| == |cs|
  {
    if cs == [] then [] else PrunedCinemas(c, lib, cs[..|cs| - 1]) + [PrunedCinema(c, lib, cs[|cs| - 1])]
  }

  /** A cinema survives exactly when its name passes and at least one of its films survives. */
  lemma {:induction false} KeptCinemasMembers(c: Criteria, lib: Moment, cs: seq<Cinema>)
    ensures forall g :: g in KeptCinemas(c, lib, cs) <==>
      exists cin :: cin in cs && CinemaKept(c, lib, cin) && g == PrunedCinema(c, lib, cin)
  {
    if cs != [] {
      var init, cin := cs[..|cs| - 1], cs[|cs| - 1];
      KeptCinemasMembers(c, lib, init);
      assert cs == init + [cin];
    }
  }

  /** The surviving cinemas keep their order. */
  lemma {:induction false} KeptCinemasOrder(c: Criteria, lib: Moment, cs: seq<Cinema>)
    ensures Subsequence(KeptCinemas(c, lib, cs), PrunedCinemas(c, lib, cs))
  {
    if cs != [] {
      var init, cin := cs[..|cs| - 1], cs[|cs| - 1];
      KeptCinemasOrder(c, lib, init);
      SubsequenceSnoc(KeptCinemas(c, lib, init), PrunedCinemas(c, lib, init), PrunedCinema(c, lib, cin));
      if !CinemaKept(c, lib, cin) {
        assert KeptCinemas(c, lib, init) + [] == KeptCinemas(c, lib, init);
      }
    }
  }

  function PrunedDates(c: Criteria, lib: Moment, ds: seq<ShowDate>): (r: seq<ShowDate>)
    ensures |r| == |ds|
  {
    if ds == [] then [] else PrunedDates(c, lib, ds[..|ds| - 1]) + [PrunedDate(c, lib, ds[|ds| - 1])]
  }

  /** A date survives exactly when its midnight is in the window and at least one cinema survives. */
  lemma {:induction false} KeptDatesMembers(c: Criteria, lib: Moment, ds: seq<ShowDate>)
    ensures forall g :: g in KeptDates(c, lib, ds) <==>
      exists d :: d in ds && DateKept(c, lib, d) && g == PrunedDate(c, lib, d)
  {
    if ds != [] {
      var init, d := ds[..|ds| - 1], ds[|ds| - 1];
      KeptDatesMembers(c, lib, init);
      assert ds == init + [d];
    }
  }

  /** The surviving dates keep their order. */
  lemma {:induction false} KeptDatesOrder(c: Criteria, lib: Moment, ds: seq<ShowDate>)
    ensures Subsequence(KeptDates(c, lib, ds), PrunedDates(c, lib, ds))
  {
    if ds != [] {
      var init, d := ds[..|ds| - 1], ds[|ds| - 1];
      KeptDatesOrder(c, lib, init);
      SubsequenceSnoc(KeptDates(c, lib, init), PrunedDates(c, lib, init), PrunedDate(c, lib, d));
      if !DateKept(c, lib, d) {
        assert KeptDates(c, lib, init) + [] == KeptDates(c, lib, init);
      }
    }
  }

  // No empty container survives.

  predicate FilmsNonEmpty(fs: seq<Film>) {
    forall f :: f in fs ==> |f.ShowTimes| > 0
  }

  predicate CinemasNonEmpty(cs: seq<Cinema>) {
    forall cin :: cin in cs ==> |cin.Films| > 0 && FilmsNonEmpty(cin.Films)
  }

  predicate DatesNonEmpty(ds: seq<ShowDate>) {
    forall d :: d in ds ==> |d.Cinemas| > 0 && CinemasNonEmpty(d.Cinemas)
  }

  lemma {:induction false} KeptFilmsNonEmpty(c: Criteria, lib: Moment, fs: seq<Film>)
    ensures FilmsNonEmpty(KeptFilms(c, lib, fs))
  {
    if fs != [] {
      KeptFilmsNonEmpty(c, lib, fs[..|fs| - 1]);
    }
  }

  lemma {:induction false} KeptCinemasNonEmpty(c: Criteria, lib: Moment, cs: seq<Cinema>)
    ensures CinemasNonEmpty(KeptCinemas(c, lib, cs))
  {
    if cs != [] {
      KeptCinemasNonEmpty(c, lib, cs[..|cs| - 1]);
      KeptFilmsNonEmpty(c, lib, cs[|cs| - 1].Films);
    }
  }

  /** Every surviving date has a cinema, every surviving cinema a film, every surviving film a showtime. */
  lemma {:induction false} KeptDatesNonEmpty(c: Criteria, lib: Moment, ds: seq<ShowDate>)
    ensures DatesNonEmpty(KeptDates(c, lib, ds))
  {
    if ds != [] {
      KeptDatesNonEmpty(c, lib, ds[..|ds| - 1]);
      KeptCinemasNonEmpty(c, lib, ds[|ds| - 1].Cinemas);
    }
  }

  // The counter is the number of surviving showtimes.

  function FilmsTotal(fs: seq<Film>): nat {
    if fs == [] then 0 else FilmsTotal(fs[..|fs| - 1]) + |fs[|fs| - 1].ShowTimes|
  }

  function CinemasTotal(cs: seq<Cinema>): nat {
    if cs == [] then 0 else CinemasTotal(cs[..|cs| - 1]) + FilmsTotal(cs[|cs| - 1].Films)
  }

  /** The number of `ShowTimes` entries across all films of all cinemas of all dates. */
  function DatesTotal(ds: seq<ShowDate>): nat {
    if ds == [] then 0 else DatesTotal(ds[..|ds| - 1]) + CinemasTotal(ds[|ds| - 1].Cinemas)
  }

  lemma {:induction false} FilmsCountIsTotal(c: Criteria, lib: Moment, fs: seq<Film>)
    ensures FilmsCount(c, fs) == FilmsTotal(KeptFilms(c, lib, fs))
  {
    if fs != [] {
      var init, f := fs[..|fs| - 1], fs[|fs| - 1];
      FilmsCountIsTotal(c, lib, init);
      var k := KeptFilms(c, lib, init);
      if FilmKept(c, lib, f) {
        assert (k + [PrunedFilm(c, lib, f)])[..|k|] == k;
      } else {
        assert k + [] == k;
      }
    }
  }

  lemma {:induction false} CinemasCountIsTotal(c: Criteria, lib: Moment, cs: seq<Cinema>)
    ensures CinemasCount(c, cs) == CinemasTotal(KeptCinemas(c, lib, cs))
  {
    if cs != [] {
      var init, cin := cs[..|cs| - 1], cs[|cs| - 1];
      CinemasCountIsTotal(c, lib, init);
      FilmsCountIsTotal(c, lib, cin.Films);
      var k := KeptCinemas(c, lib, init);
      if CinemaKept(c, lib, cin) {
        assert (k + [PrunedCinema(c, lib, cin)])[..|k|] == k;
      } else {
        assert k + [] == k;
        if CinemaAdmitted(c, cin) {
          assert FilmsTotal([]) == 0;
        }
      }
    }
  }

  /** The running counter ends at the number of `ShowTimes` entries in the returned data. */
  lemma {:induction false} DatesCountIsTotal(c: Criteria, lib: Moment, ds: seq<ShowDate>)
    ensures DatesCount(c, lib, ds) == DatesTotal(KeptDates(c, lib, ds))
  {
    if ds != [] {
      var init, d := ds[..|ds| - 1], ds[|ds| - 1];
      DatesCountIsTotal(c, lib, init);
      CinemasCountIsTotal(c, lib, d.Cinemas);
      var k := KeptDates(c, lib, init);
      if DateKept(c, lib, d) {
        assert (k + [PrunedDate(c, lib, d)])[..|k|] == k;
      } else {
        assert k + [] == k;
        if DateInWindow(c, lib, d) {
          assert CinemasTotal([]) == 0;
        }
      }
    }
  }

  /** The films' count is zero exactly when no film that passes the name test keeps a session. */
  lemma {:induction false} FilmsCountZero(c: Criteria, fs: seq<Film>)
    ensures FilmsCount(c, fs) == 0 <==> forall f :: f in fs && FilmAdmitted(c, f) ==> KeptSessions(c, f.Sessions) == []
  {
    if fs != [] {
      var init, f := fs[..|fs| - 1], fs[|fs| - 1];
      FilmsCountZero(c, init);
      assert fs == init + [f];
    }
  }

  /** The cinemas' count is zero exactly when no cinema that passes the theater test counts a session. */
  lemma {:induction false} CinemasCountZero(c: Criteria, cs: seq<Cinema>)
    ensures CinemasCount(c, cs) == 0 <==> forall cin :: cin in cs && CinemaAdmitted(c, cin) ==> FilmsCount(c, cin.Films) == 0
  {
    if cs != [] {
      var init, cin := cs[..|cs| - 1], cs[|cs| - 1];
      CinemasCountZero(c, init);
      assert cs == init + [cin];
    }
  }

  /** The dates' count is zero exactly when no date inside the window counts a session. */
  lemma {:induction false} DatesCountZero(c: Criteria, lib: Moment, ds: seq<ShowDate>)
    ensures DatesCount(c, lib, ds) == 0 <==> forall d :: d in ds && DateInWindow(c, lib, d) ==> CinemasCount(c, d.Cinemas) == 0
  {
    if ds != [] {
      var init, d := ds[..|ds| - 1], ds[|ds| - 1];
      DatesCountZero(c, lib, init);
      assert ds == init + [d];
    }
  }

  lemma {:induction false} FilmsTotalPositive(fs: seq<Film>)
    requires FilmsNonEmpty(fs)
    ensures FilmsTotal(fs) == 0 <==> fs == []
  {
    if fs != [] {
      assert fs[|fs| - 1] in fs;
    }
  }

  lemma {:induction false} CinemasTotalPositive(cs: seq<Cinema>)
    requires CinemasNonEmpty(cs)
    ensures CinemasTotal(cs) == 0 <==> cs == []
  {
    if cs != [] {
      var cin := cs[|cs| - 1];
      assert cin in cs;
      FilmsTotalPositive(cin.Films);
    }
  }

  /** When no container is empty, there are no showtimes exactly when there are no dates. */
  lemma {:induction false} DatesTotalPositive(ds: seq<ShowDate>)
    requires DatesNonEmpty(ds)
    ensures DatesTotal(ds) == 0 <==> ds == []
  {
    if ds != [] {
      var d := ds[|ds| - 1];
      assert d in ds;
      CinemasTotalPositive(d.Cinemas);
    }
  }

  // Filtering again with the same criteria changes nothing.

  /** A pruned film is kept again and pruning it again changes nothing. */
  lemma PrunedFilmTwice(c: Criteria, lib: Moment, f: Film)
    requires FilmKept(c, lib, f)
    ensures FilmKept(c, lib, PrunedFilm(c, lib, f)) && PrunedFilm(c, lib, PrunedFilm(c, lib, f)) == PrunedFilm(c, lib, f)
  {
  }

  lemma {:induction false} KeptFilmsTwice(c: Criteria, lib: Moment, fs: seq<Film>)
    ensures KeptFilms(c, lib, KeptFilms(c, lib, fs)) == KeptFilms(c, lib, fs)
  {
    if fs != [] {
      var init, f := fs[..|fs| - 1], fs[|fs| - 1];
      KeptFilmsTwice(c, lib, init);
      var k := KeptFilms(c, lib, init);
      if FilmKept(c, lib, f) {
        var g := PrunedFilm(c, lib, f);
        PrunedFilmTwice(c, lib, f);
        var kg := k + [g];
        assert kg[..|kg| - 1] == k && kg[|kg| - 1] == g;
        assert KeptFilms(c, lib, kg) == KeptFilms(c, lib, k) + [g];
      } else {
        assert k + [] == k;
      }
    }
  }

  /** A pruned cinema is kept again and pruning it again changes nothing. */
  lemma PrunedCinemaTwice(c: Criteria, lib: Moment, cin: Cinema)
    requires CinemaKept(c, lib, cin)
    ensures CinemaKept(c, lib, PrunedCinema(c, lib, cin)) && PrunedCinema(c, lib, PrunedCinema(c, lib, cin)) == PrunedCinema(c, lib, cin)
  {
    KeptFilmsTwice(c, lib, cin.Films);
  }

  lemma {:induction false} KeptCinemasTwice(c: Criteria, lib: Moment, cs: seq<Cinema>)
    ensures KeptCinemas(c, lib, KeptCinemas(c, lib, cs)) == KeptCinemas(c, lib, cs)
  {
    if cs != [] {
      var init, cin := cs[..|cs| - 1], cs[|cs| - 1];
      KeptCinemasTwice(c, lib, init);
      var k := KeptCinemas(c, lib, init);
      if CinemaKept(c, lib, cin) {
        var g := PrunedCinema(c, lib, cin);
        PrunedCinemaTwice(c, lib, cin);
        var kg := k + [g];
        assert kg[..|kg| - 1] == k && kg[|kg| - 1] == g;
        assert KeptCinemas(c, lib, kg) == KeptCinemas(c, lib, k) + [g];
      } else {
        assert k + [] == k;
      }
    }
  }

  /** A pruned date is kept again and pruning it again changes nothing. */
  lemma PrunedDateTwice(c: Criteria, lib: Moment, d: ShowDate)
    requires DateKept(c, lib, d)
    ensures DateKept(c, lib, PrunedDate(c, lib, d)) && PrunedDate(c, lib, PrunedDate(c, lib, d)) == PrunedDate(c, lib, d)
  {
    KeptCinemasTwice(c, lib, d.Cinemas);
  }

  /** Filtering the surviving dates again with the same criteria gives them back unchanged. */
  lemma {:induction false} KeptDatesTwice(c: Criteria, lib: Moment, ds: seq<ShowDate>)
    ensures KeptDates(c, lib, KeptDates(c, lib, ds)) == KeptDates(c, lib, ds)
  {
    if ds != [] {
      var init, d := ds[..|ds| - 1], ds[|ds| - 1];
      KeptDatesTwice(c, lib, init);
      var k := KeptDates(c, lib, init);
      if DateKept(c, lib, d) {
        var g := PrunedDate(c, lib, d);
        PrunedDateTwice(c, lib, d);
        var kg := k + [g];
        assert kg[..|kg| - 1] == k && kg[|kg| - 1] == g;
        assert KeptDates(c, lib, kg) == KeptDates(c, lib, k) + [g];
      } else {
        assert k + [] == k;
      }
    }
  }

  // Multiplicity: a repeated entry survives once for each of its occurrences that passes.

  /** The positions of `xs` whose entry satisfies `p`. */
  function Positions<T>(xs: seq<T>, p: T -> bool): set<int> {
    set k | 0 <= k < |xs| && p(xs[k])
  }

  /** One more entry adds its position exactly when it satisfies `p`. */
  lemma PositionsSnoc<T>(xs: seq<T>, p: T -> bool)
    requires |xs| > 0
    ensures |Positions(xs, p)| == |Positions(xs[..|xs| - 1], p)| + (if p(xs[|xs| - 1]) then 1 else 0)
  {
    var n := |xs| - 1;
    var before := Positions(xs[..n], p);
    assert forall k :: k in before ==> k < n;
    if p(xs[n]) {
      assert Positions(xs, p) == before + {n};
    } else {
      assert Positions(xs, p) == before;
    }
  }

  /** As many sessions survive as there are positions whose session passes. */
  lemma {:induction false} KeptSessionsMultiplicity(c: Criteria, ss: seq<Session>)
    ensures |KeptSessions(c, ss)| == |set k | 0 <= k < |ss| && SessionKept(c, ss[k])|
  {
    var p := (x: Session) => SessionKept(c, x);
    assert Positions(ss, p) == set k | 0 <= k < |ss| && SessionKept(c, ss[k]);
    if ss != [] {
      var n := |ss| - 1;
      var init := ss[..n];
      KeptSessionsMultiplicity(c, init);
      assert Positions(init, p) == set k | 0 <= k < n && SessionKept(c, init[k]);
      PositionsSnoc(ss, p);
    }
  }

  /** As many films survive as there are positions whose film is kept. */
  lemma {:induction false} KeptFilmsMultiplicity(c: Criteria, lib: Moment, fs: seq<Film>)
    ensures |KeptFilms(c, lib, fs)| == |set k | 0 <= k < |fs| && FilmKept(c, lib, fs[k])|
  {
    var p := (x: Film) => FilmKept(c, lib, x);
    assert Positions(fs, p) == set k | 0 <= k < |fs| && FilmKept(c, lib, fs[k]);
    if fs != [] {
      var n := |fs| - 1;
      var init := fs[..n];
      KeptFilmsMultiplicity(c, lib, init);
      assert Positions(init, p) == set k | 0 <= k < n && FilmKept(c, lib, init[k]);
      PositionsSnoc(fs, p);
    }
  }

  /** As many cinemas survive as there are positions whose cinema is kept. */
  lemma {:induction false} KeptCinemasMultiplicity(c: Criteria, lib: Moment, cs: seq<Cinema>)
    ensures |KeptCinemas(c, lib, cs)| == |set k | 0 <= k < |cs| && CinemaKept(c, lib, cs[k])|
  {
    var p := (x: Cinema) => CinemaKept(c, lib, x);
    assert Positions(cs, p) == set k | 0 <= k < |cs| && CinemaKept(c, lib, cs[k]);
    if cs != [] {
      var n := |cs| - 1;
      var init := cs[..n];
      KeptCinemasMultiplicity(c, lib, init);
      assert Positions(init, p) == set k | 0 <= k < n && CinemaKept(c, lib, init[k]);
      PositionsSnoc(cs, p);
    }
  }

  /** As many dates survive as there are positions whose date is kept. */
  lemma {:induction false} KeptDatesMultiplicity(c: Criteria, lib: Moment, ds: seq<ShowDate>)
    ensures |KeptDates(c, lib, ds)| == |set k | 0 <= k < |ds| && DateKept(c, lib, ds[k])|
  {
    var p := (x: ShowDate) => DateKept(c, lib, x);
    assert Positions(ds, p) == set k | 0 <= k < |ds| && DateKept(c, lib, ds[k]);
    if ds != [] {
      var n := |ds| - 1;
      var init := ds[..n];
      KeptDatesMultiplicity(c, lib, init);
      assert Positions(init, p) == set k | 0 <= k < n && DateKept(c, lib, init[k]);
      PositionsSnoc(ds, p);
    }
  }

  /** Filtering the surviving dates again counts the same number of showtimes. */
  lemma CountTwice(c: Criteria, lib: Moment, ds: seq<ShowDate>)
    ensures DatesCount(c, lib, KeptDates(c, lib, ds)) == DatesCount(c, lib, ds)
  {
    DatesCountIsTotal(c, lib, ds);
    DatesCountIsTotal(c, lib, KeptDates(c, lib, ds));
    KeptDatesTwice(c, lib, ds);
  }

  // The tests themselves.

  /** With the day window of a resolved slot, a date passes exactly when its day lies in the window's days. */
  lemma DateInWindowDays(c: Criteria, lib: Moment, d: ShowDate)
    requires c.window.Window?
    requires c.window.startDate % SecondsPerDay == 0
    requires c.window.endDate % SecondsPerDay == SecondsPerDay - 1
    ensures DateInWindow(c, lib, d) <==>
      DayOf(c.window.startDate) <= DayOf(lib.instantOf(d.DateId, c.timeZone)) <= DayOf(c.window.endDate)
  {
    var a, b := DayOf(c.window.startDate), DayOf(c.window.endDate);
    assert c.window.startDate == DayStart(a);
    assert c.window.endDate == DayEnd(b);
    MidnightWithin(DayOf(lib.instantOf(d.DateId, c.timeZone)), a, b);
  }

  /** `'all theaters'` switches the theater test off; any other given term is the name test. */
  lemma TheaterCriterion(q: Query, timeZone: string, window: EventDate, cin: Cinema)
    ensures q.movieTheater == Some("all theaters") ==> CinemaAdmitted(CriteriaOf(q, timeZone, window), cin)
    ensures Given(q.movieTheater) && q.movieTheater.value != "all theaters" ==>
      (CinemaAdmitted(CriteriaOf(q, timeZone, window), cin) <==>
       Occurs(cin.CinemaName, ToPattern(q.movieTheater.value)))
    ensures !Given(q.movieTheater) ==> CinemaAdmitted(CriteriaOf(q, timeZone, window), cin)
  {
  }

  /** A given film name is the same name test; an absent or empty one lets every film through. */
  lemma FilmCriterion(q: Query, timeZone: string, window: EventDate, f: Film)
    ensures Given(q.movieName) ==>
      (FilmAdmitted(CriteriaOf(q, timeZone, window), f) <==> Occurs(f.FilmName, ToPattern(q.movieName.value)))
    ensures !Given(q.movieName) ==> FilmAdmitted(CriteriaOf(q, timeZone, window), f)
  {
  }

  /** A session passes exactly when it is at the requested time (if any) and has enough seats (if a non-zero count was asked). */
  lemma SessionCriterion(q: Query, timeZone: string, window: EventDate, s: Session)
    ensures SessionKept(CriteriaOf(q, timeZone, window), s) <==>
      (!Given(q.movieShowtime) || q.movieShowtime.value == s.SessionDateTime)
      && (q.seatsAvailable.None? || q.seatsAvailable.value == 0 || s.SeatsLeft >= q.seatsAvailable.value)
  {
  }

  // The result as a whole.

  /** Everything in the data passes the tests it was filtered by. */
  predicate FilmsPass(c: Criteria, lib: Moment, fs: seq<Film>) {
    forall f :: f in fs ==> FilmAdmitted(c, f) && f == PrunedFilm(c, lib, f)
  }

  predicate CinemasPass(c: Criteria, lib: Moment, cs: seq<Cinema>) {
    forall cin :: cin in cs ==> CinemaAdmitted(c, cin) && FilmsPass(c, lib, cin.Films)
  }

  predicate DatesPass(c: Criteria, lib: Moment, ds: seq<ShowDate>) {
    forall d :: d in ds ==> DateInWindow(c, lib, d) && CinemasPass(c, lib, d.Cinemas)
  }

  lemma {:induction false} KeptFilmsPass(c: Criteria, lib: Moment, fs: seq<Film>)
    ensures FilmsPass(c, lib, KeptFilms(c, lib, fs))
  {
    if fs != [] {
      KeptFilmsPass(c, lib, fs[..|fs| - 1]);
    }
  }

  lemma {:induction false} KeptCinemasPass(c: Criteria, lib: Moment, cs: seq<Cinema>)
    ensures CinemasPass(c, lib, KeptCinemas(c, lib, cs))
  {
    if cs != [] {
      KeptCinemasPass(c, lib, cs[..|cs| - 1]);
      KeptFilmsPass(c, lib, cs[|cs| - 1].Films);
    }
  }

  lemma {:induction false} KeptDatesPass(c: Criteria, lib: Moment, ds: seq<ShowDate>)
    ensures DatesPass(c, lib, KeptDates(c, lib, ds))
  {
    if ds != [] {
      KeptDatesPass(c, lib, ds[..|ds| - 1]);
      KeptCinemasPass(c, lib, ds[|ds| - 1].Cinemas);
    }
  }

  /**
    * A successful filter returns data in which every date lies in the window,
    * every cinema and film passes its name test, every film's showtimes are
    * exactly those of its passing sessions, no container is empty, and
    * `showtimeCount` is the number of showtimes, zero exactly when no date survives.
    */
  lemma FilterResultFacts(feed: Market, q: Query, lib: Moment)
    requires FilterSpec(feed, q, lib).Success?
    ensures var tz := feed.Dates[0].Cinemas[0].CinemaTimeZoneATE;
      var c := CriteriaOf(q, tz, GetDateFromSlot(SlotOf(q, tz, lib)));
      var res := FilterSpec(feed, q, lib).value;
      && res.data == KeptDates(c, lib, feed.Dates)
      && DatesPass(c, lib, res.data)
      && DatesNonEmpty(res.data)
      && res.showtimeCount == DatesTotal(res.data)
      && (res.showtimeCount == 0 <==> res.data == [])
  {
    var tz := feed.Dates[0].Cinemas[0].CinemaTimeZoneATE;
    var c := CriteriaOf(q, tz, GetDateFromSlot(SlotOf(q, tz, lib)));
    KeptDatesPass(c, lib, feed.Dates);
    KeptDatesNonEmpty(c, lib, feed.Dates);
    DatesCountIsTotal(c, lib, feed.Dates);
    DatesTotalPositive(KeptDates(c, lib, feed.Dates));
  }
}
