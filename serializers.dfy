/** The derived fields of the showing and booking serializers: the end time computed on a
    write, the display names added to a showing's output, and the showing details attached
    to a booking, with the fallbacks used when a related row cannot be read. */
module Serializers {
  import opened Common
  import opened Models

  const UnknownMovie := "Unknown Movie"
  const UnknownTheater := "Unknown Theater"
  const Unknown := "Unknown"

  /** The validated data of a showing write. Each field is present only when the write
      carries it (a partial update carries some); `endTime` may be present and null. */
  datatype ShowingWrite = ShowingWrite(movie: Option<Movie>, theater: Option<Theater>,
                                       startTime: Option<int>, endTime: Option<Option<int>>,
                                       price: Option<int>)

  /** `validate`: when the write carries both the movie and the start time, the end time is
      the start plus the movie's duration in minutes; otherwise the data is returned as it
      came, end time included. No other field is touched. */
  function Validate(data: ShowingWrite): (r: ShowingWrite)
    ensures data.movie.Some? && data.startTime.Some? ==>
              r.endTime == Some(Some(data.startTime.value + data.movie.value.duration))
    ensures data.movie.None? || data.startTime.None? ==> r == data
    ensures r.movie == data.movie && r.theater == data.theater
    ensures r.startTime == data.startTime && r.price == data.price
  {
    if data.movie.Some? && data.startTime.Some? then
      data.(endTime := Some(Some(data.startTime.value + data.movie.value.duration)))
    else
      data
  }

  /** How a saved write changes the row: every field the validated data carries is set,
      the others keep their stored value. */
  function Save(s: Showing, data: ShowingWrite): (r: Showing)
    ensures r.id == s.id
    ensures r.movie == (if data.movie.Some? then data.movie.value.id else s.movie)
    ensures r.theater == (if data.theater.Some? then data.theater.value.id else s.theater)
    ensures r.startTime == data.startTime.GetOr(s.startTime)
    ensures r.endTime == data.endTime.GetOr(s.endTime)
    ensures r.price == data.price.GetOr(s.price)
  {
    s.(movie := if data.movie.Some? then data.movie.value.id else s.movie,
       theater := if data.theater.Some? then data.theater.value.id else s.theater,
       startTime := data.startTime.GetOr(s.startTime),
       endTime := data.endTime.GetOr(s.endTime),
       price := data.price.GetOr(s.price))
  }

  /** A showing whose end time is its start plus its movie's duration. */
  predicate EndTimeMatches(s: Showing, m: Movie) {
    s.endTime == Some(s.startTime + m.duration)
  }

  /** A write that carries the movie and the start time leaves the row with the derived end
      time, whatever it held before. */
  lemma WriteWithMovieAndStartFixesEndTime(s: Showing, data: ShowingWrite)
    requires data.movie.Some? && data.startTime.Some?
    ensures EndTimeMatches(Save(s, Validate(data)), data.movie.value)
    ensures Save(s, Validate(data)).movie == data.movie.value.id
  {
  }

  /** Validating twice is validating once. */
  lemma ValidateIdempotent(data: ShowingWrite)
    ensures Validate(Validate(data)) == Validate(data)
  {
  }

  /** The staleness hazard: a write that moves only the start time keeps the old end time,
      so a row whose end time matched its movie no longer does. */
  lemma StartOnlyWriteLeavesEndTimeStale(s: Showing, m: Movie, t: int)
    requires EndTimeMatches(s, m) && t != s.startTime
    ensures !EndTimeMatches(Save(s, Validate(ShowingWrite(None, None, Some(t), None, None))), m)
  {
  }

  /** One showing as serialized: the model fields and the two display fields. */
  datatype ShowingData = ShowingData(id: Id, movie: Id, theater: Id, startTime: int,
                                     endTime: Option<int>, price: int,
                                     movieTitle: Option<string>, theaterName: Option<string>)

  /** `get_movie_title`: the title of the showing's movie, null when there is none. */
  function GetMovieTitle(movie: Option<Movie>): (r: Option<string>)
    ensures r.Some? <==> movie.Some?
    ensures movie.Some? ==> r.value == movie.value.title
  {
    if movie.Some? then Some(movie.value.title) else None
  }

  /** `get_theater_name`: the name of the showing's theater, null when there is none. */
  function GetTheaterName(theater: Option<Theater>): (r: Option<string>)
    ensures r.Some? <==> theater.Some?
    ensures theater.Some? ==> r.value == theater.value.name
  {
    if theater.Some? then Some(theater.value.name) else None
  }

  /** The framework's field-by-field serialization of a showing. */
  function BaseRepresentation(s: Showing, movie: Option<Movie>, theater: Option<Theater>): ShowingData {
    ShowingData(s.id, s.movie, s.theater, s.startTime, s.endTime, s.price,
                GetMovieTitle(movie), GetTheaterName(theater))
  }

  /** `to_representation`: a missing display field is filled in from the related row, or
      with a fixed fallback when there is no related row. */
  function ToRepresentation(s: Showing, movie: Option<Movie>, theater: Option<Theater>): (r: ShowingData)
    ensures r.movieTitle == Some(if movie.Some? then movie.value.title else UnknownMovie)
    ensures r.theaterName == Some(if theater.Some? then theater.value.name else UnknownTheater)
    ensures r == BaseRepresentation(s, movie, theater).(movieTitle := r.movieTitle, theaterName := r.theaterName)
  {
    var data := BaseRepresentation(s, movie, theater);
    var data := if data.movieTitle.None? then
                  data.(movieTitle := Some(TitleOrUnknown(movie)))
                else data;
    if data.theaterName.None? then
      data.(theaterName := Some(NameOrUnknown(theater)))
    else data
  }

  /** The related movie's title, or the movie fallback when there is no related movie. */
  function TitleOrUnknown(movie: Option<Movie>): string {
    if movie.Some? then movie.value.title else UnknownMovie
  }

  /** The related theater's name, or the theater fallback when there is no related theater. */
  function NameOrUnknown(theater: Option<Theater>): string {
    if theater.Some? then theater.value.name else UnknownTheater
  }

  /** A stored showing serialized against the tables it references. */
  function RepresentShowing(db: Db, s: Showing): (r: ShowingData)
    ensures r.id == s.id && r.movie == s.movie && r.theater == s.theater
    ensures r.startTime == s.startTime && r.endTime == s.endTime && r.price == s.price
    ensures r.movieTitle.Some? && r.theaterName.Some?
  {
    ToRepresentation(s, MovieById(db, s.movie), TheaterById(db, s.theater))
  }

  /** In a consistent store the fallbacks never apply: a stored showing is shown with the
      title and name of the rows its keys name. */
  lemma RepresentationOfStoredShowing(db: Db, s: Showing)
    requires Integrity(db) && s in db.showings
    ensures exists m :: m in db.movies && m.id == s.movie &&
                        RepresentShowing(db, s).movieTitle == Some(m.title)
    ensures exists t :: t in db.theaters && t.id == s.theater &&
                        RepresentShowing(db, s).theaterName == Some(t.name)
  {
    var m := MovieById(db, s.movie);
    var t := TheaterById(db, s.theater);
    assert m.Some? && t.Some?;
  }

  /** The showing details of a booking; `price` stays in cents (the source casts it to a
      float on this path). */
  datatype ShowingDetails = ShowingDetails(movieTitle: string, theaterName: string,
                                           startTime: string, endTime: Option<string>, price: int)

  /** What the details fall back to: every text field "Unknown" and price zero. */
  const Placeholder := ShowingDetails(Unknown, Unknown, Unknown, Some(Unknown), 0)

  /** `get_showing_details`: the booking's showing with its movie's title, its theater's
      name and its times formatted by `format`; the end time stays null when the showing's
      is. If any related row cannot be read, the placeholder instead of an error. */
  function GetShowingDetails(db: Db, b: Booking, format: int -> string): (r: ShowingDetails)
    ensures ShowingById(db, b.showing).None? ==> r == Placeholder
    ensures ShowingById(db, b.showing).Some? ==>
              var s := ShowingById(db, b.showing).value;
              if MovieById(db, s.movie).Some? && TheaterById(db, s.theater).Some? then
                && r.movieTitle == MovieById(db, s.movie).value.title
                && r.theaterName == TheaterById(db, s.theater).value.name
                && r.startTime == format(s.startTime)
                && (r.endTime.None? <==> s.endTime.None?)
                && (s.endTime.Some? ==> r.endTime == Some(format(s.endTime.value)))
                && r.price == s.price
              else r == Placeholder
  {
    match ShowingById(db, b.showing)
    case None => Placeholder
    case Some(s) =>
      match (MovieById(db, s.movie), TheaterById(db, s.theater))
      case (Some(m), Some(t)) =>
        ShowingDetails(m.title, t.name, format(s.startTime),
                       if s.endTime.Some? then Some(format(s.endTime.value)) else None,
                       s.price)
      case _ => Placeholder
  }

  /** In a consistent store the details of a stored booking take the success branch: they
      describe the booking's own showing, its movie and its theater. */
  lemma DetailsOfStoredBooking(db: Db, b: Booking, format: int -> string)
    requires Integrity(db) && b in db.bookings
    ensures exists s, m, t ::
              && s in db.showings && s.id == b.showing
              && m in db.movies && m.id == s.movie
              && t in db.theaters && t.id == s.theater
              && GetShowingDetails(db, b, format).movieTitle == m.title
              && GetShowingDetails(db, b, format).theaterName == t.name
              && GetShowingDetails(db, b, format).startTime == format(s.startTime)
              && GetShowingDetails(db, b, format).price == s.price
              && (GetShowingDetails(db, b, format).endTime.None? <==> s.endTime.None?)
  {
    var s := ShowingById(db, b.showing).value;
    var m := MovieById(db, s.movie).value;
    var t := TheaterById(db, s.theater).value;
    var d := GetShowingDetails(db, b, format);
    assert d.movieTitle == m.title && d.theaterName == t.name;
  }

  /** One booking as serialized. */
  datatype BookingData = BookingData(id: Id, seats: nat, showing: Id, showingDetails: ShowingDetails, createdAt: int)

  function RepresentBooking(db: Db, b: Booking, format: int -> string): (r: BookingData)
    ensures r.id == b.id && r.seats == b.seats && r.showing == b.showing && r.createdAt == b.createdAt
    ensures r.showingDetails == GetShowingDetails(db, b, format)
  {
    BookingData(b.id, b.seats, b.showing, GetShowingDetails(db, b, format), b.createdAt)
  }
}
