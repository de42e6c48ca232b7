/**
  * The filter and the two renderers together, as `findSeats` and
  * `querySeats` (index.js) chain them.
  */
module Replies {
  import opened Wrappers
  import opened Feed
  import opened ShowtimeFilter
  import opened FilterFacts
  import opened Render

  /**
    * After a successful filter, each renderer says its fixed "no ..."
    * sentence exactly when no showtime survived; otherwise it speaks about
    * the dates, starting with "For ".
    */
  lemma NoResultsSentence(feed: Market, q: Query, lib: Moment)
    requires FilterSpec(feed, q, lib).Success?
    ensures var res := FilterSpec(feed, q, lib).value;
      && (OutputFindResults(res) == NoSeatsText <==> res.showtimeCount == 0)
      && (OutputQueryResults(res) == NoShowtimesText <==> res.showtimeCount == 0)
      && (res.showtimeCount != 0 ==> "For " <= OutputFindResults(res) && "For " <= OutputQueryResults(res))
  {
    FilterResultFacts(feed, q, lib);
    NoResultsIffZero(FilterSpec(feed, q, lib).value);
  }
}
