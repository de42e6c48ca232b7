/**
  * The showtime feed of one market, the shape `filterShowtimes` (index.js)
  * reads and rewrites: dates, each with cinemas, each with films, each with
  * sessions. Only the fields the skill reads or writes are kept.
  */
module Feed {

  /** One entry of a film's `Series[0].Formats[0].Sessions`. */
  datatype Session = Session(SessionDateTime: string, SeatsLeft: int)

  /** One entry of the `ShowTimes` list the filter attaches to a film. */
  datatype ShowTime = ShowTime(time: string, seats: int)

  /**
    * A film of a cinema on a date. `Sessions` stands for
    * `Series[0].Formats[0].Sessions`; `ShowTimes` is the field the filter
    * overwrites.
    */
  datatype Film = Film(FilmName: string, Sessions: seq<Session>, ShowTimes: seq<ShowTime>)

  datatype Cinema = Cinema(CinemaName: string, CinemaTimeZoneATE: string, Films: seq<Film>)

  /** A date of the feed; `FormattedDate` is the field the filter writes. */
  datatype ShowDate = ShowDate(DateId: string, FormattedDate: string, Cinemas: seq<Cinema>)

  /** `showtimeData.Market`. */
  datatype Market = Market(Dates: seq<ShowDate>)

  /** The value `filterShowtimes` returns. */
  datatype FilterResult = FilterResult(data: seq<ShowDate>, showtimeCount: nat)

  /**
    * The moment-timezone calls the filter makes, as functions the model
    * does not look into:
    *   `now(tz)`            `moment().tz(tz)`, the local wall-clock instant now;
    *   `instantOf(id, tz)`  `moment.tz(id, tz)`, a date id as a local instant;
    *   `formatDay(t)`       `format('dddd MMMM Do')` of a local instant;
    *   `formatTime(s)`      `moment(s).format('LT')` of a session time.
    */
  datatype Moment = Moment(
    now: string -> int,
    instantOf: (string, string) -> int,
    formatDay: int -> string,
    formatTime: string -> string)
}
