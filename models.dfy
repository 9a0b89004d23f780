/** The booking schema: one record type per table, the entity store as a value, its
    referential integrity, and what a delete takes with it (every foreign key of the schema
    is declared `on_delete=CASCADE`). */
module Models {
  import opened Common

  /** Primary keys are the database's auto-increment integers. */
  type Id = nat

  /** Times are whole minutes since an epoch; a calendar day is 1440 of them. */
  const MinutesPerDay := 1440

  /** `DecimalField(max_digits=6, decimal_places=2)`: at most 9999.99, held as cents. */
  const MaxPriceCents := 999999

  /** `PositiveIntegerField` on PostgreSQL: an `integer` column with a `>= 0` check. */
  const MaxSeats := 2147483647

  /** The framework user model's `username` column: `varchar(150)`. */
  const MaxUsernameLength := 150

  /** The framework user model's `email` column: `varchar(254)`. */
  const MaxEmailLength := 254

  datatype Movie = Movie(id: Id, title: string, description: string, duration: int, posterUrl: Option<string>)

  datatype Theater = Theater(id: Id, name: string, capacity: int)

  /** `endTime` is nullable; `startTime` is required. */
  datatype Showing = Showing(id: Id, movie: Id, theater: Id, startTime: int, endTime: Option<int>, price: int)

  /** `createdAt` is stamped once, when the row is inserted. */
  datatype Booking = Booking(id: Id, user: Id, showing: Id, seats: nat, createdAt: int)

  /** The custom user: the framework's `isStaff`/`isSuperuser` flags beside the
      application's own `isStaffMember`. `password` is the stored credential (`None` for an
      unusable password); hashing is abstracted into the verifier that checks it. */
  datatype User = User(id: Id, username: string, email: string, password: Option<string>,
                       isStaffMember: bool, isStaff: bool, isSuperuser: bool)

  /** The calendar day a time falls on. Dafny's division floors, as dates do. */
  function Day(t: int): (r: int)
    ensures r * MinutesPerDay <= t < (r + 1) * MinutesPerDay
  {
    t / MinutesPerDay
  }

  predicate ValidPrice(cents: int) {
    -MaxPriceCents <= cents <= MaxPriceCents
  }

  predicate StorableSeats(n: int) {
    0 <= n <= MaxSeats
  }

  /** The entity store: the five tables of the core and the token table (user id to key). */
  datatype Db = Db(movies: seq<Movie>, theaters: seq<Theater>, showings: seq<Showing>,
                   bookings: seq<Booking>, users: seq<User>, tokens: map<Id, string>)

  function MovieKey(m: Movie): Id { m.id }
  function TheaterKey(t: Theater): Id { t.id }
  function ShowingKey(s: Showing): Id { s.id }
  function BookingKey(b: Booking): Id { b.id }
  function UserKey(u: User): Id { u.id }
  function UserName(u: User): string { u.username }

  function MovieIds(db: Db): set<Id> { set m | m in db.movies :: m.id }
  function TheaterIds(db: Db): set<Id> { set t | t in db.theaters :: t.id }
  function ShowingIds(db: Db): set<Id> { set s | s in db.showings :: s.id }
  function UserIds(db: Db): set<Id> { set u | u in db.users :: u.id }

  /** Primary keys are unique in every table, and so are usernames. */
  predicate UniqueKeys(db: Db) {
    && DistinctBy(db.movies, MovieKey)
    && DistinctBy(db.theaters, TheaterKey)
    && DistinctBy(db.showings, ShowingKey)
    && DistinctBy(db.bookings, BookingKey)
    && DistinctBy(db.users, UserKey)
    && DistinctBy(db.users, UserName)
  }

  /** Every showing names an existing movie and theater, and its price fits the column. */
  predicate ShowingsResolve(db: Db) {
    forall s :: s in db.showings ==>
      s.movie in MovieIds(db) && s.theater in TheaterIds(db) && ValidPrice(s.price)
  }

  /** Every booking names an existing user and showing, and its seat count fits the column. */
  predicate BookingsResolve(db: Db) {
    forall b :: b in db.bookings ==>
      b.user in UserIds(db) && b.showing in ShowingIds(db) && b.seats <= MaxSeats
  }

  /** A user's username and email fit their `varchar` columns. */
  predicate UserFits(u: User) {
    |u.username| <= MaxUsernameLength && |u.email| <= MaxEmailLength
  }

  predicate UsersFit(db: Db) {
    forall u :: u in db.users ==> UserFits(u)
  }

  /** What the database guarantees: unique keys, no foreign key names a missing row, and
      prices, seat counts, usernames and emails fit their columns. */
  predicate Integrity(db: Db) {
    && UniqueKeys(db) && ShowingsResolve(db) && BookingsResolve(db) && UsersFit(db)
    && db.tokens.Keys <= UserIds(db)
  }

  function MovieById(db: Db, id: Id): (r: Option<Movie>)
    ensures r.Some? ==> r.value in db.movies && r.value.id == id
    ensures r.None? <==> id !in MovieIds(db)
  {
    Find(db.movies, MovieHasId(id))
  }

  function TheaterById(db: Db, id: Id): (r: Option<Theater>)
    ensures r.Some? ==> r.value in db.theaters && r.value.id == id
    ensures r.None? <==> id !in TheaterIds(db)
  {
    Find(db.theaters, TheaterHasId(id))
  }

  function ShowingById(db: Db, id: Id): (r: Option<Showing>)
    ensures r.Some? ==> r.value in db.showings && r.value.id == id
    ensures r.None? <==> id !in ShowingIds(db)
  {
    Find(db.showings, ShowingHasId(id))
  }

  function MovieHasId(id: Id): Movie -> bool { (m: Movie) => m.id == id }
  function TheaterHasId(id: Id): Theater -> bool { (t: Theater) => t.id == id }
  function ShowingHasId(id: Id): Showing -> bool { (s: Showing) => s.id == id }

  function OfMovie(id: Id): Showing -> bool { (s: Showing) => s.movie == id }
  function InTheater(id: Id): Showing -> bool { (s: Showing) => s.theater == id }
  function NotOfMovie(id: Id): Movie -> bool { (m: Movie) => m.id != id }
  function NotTheater(id: Id): Theater -> bool { (t: Theater) => t.id != id }
  function NotUser(id: Id): User -> bool { (u: User) => u.id != id }
  function Spares(doomed: Showing -> bool): Showing -> bool { (s: Showing) => !doomed(s) }
  function BookingSpared(gone: set<Id>): Booking -> bool { (b: Booking) => b.showing !in gone }
  function BookingNotBy(id: Id): Booking -> bool { (b: Booking) => b.user != id }

  /** The ids of the showings a predicate selects. */
  function SelectedShowingIds(db: Db, doomed: Showing -> bool): set<Id> {
    set s | s in db.showings && doomed(s) :: s.id
  }

  /** Deletes the showings `doomed` selects, and the bookings of those showings with them
      (`Booking.showing` cascades). */
  function DeleteShowingsWhere(db: Db, doomed: Showing -> bool): (r: Db)
    ensures r.movies == db.movies && r.theaters == db.theaters
    ensures r.users == db.users && r.tokens == db.tokens
    ensures forall s :: s in r.showings <==> s in db.showings && !doomed(s)
    ensures forall b :: b in r.bookings <==>
              b in db.bookings && b.showing !in SelectedShowingIds(db, doomed)
  {
    db.(showings := Filter(db.showings, Spares(doomed)),
        bookings := Filter(db.bookings, BookingSpared(SelectedShowingIds(db, doomed))))
  }

  /** Deletes a movie, its showings (`Showing.movie` cascades) and their bookings. */
  function DeleteMovie(db: Db, id: Id): (r: Db)
    ensures r.theaters == db.theaters && r.users == db.users && r.tokens == db.tokens
    ensures forall m :: m in r.movies <==> m in db.movies && m.id != id
    ensures forall s :: s in r.showings <==> s in db.showings && s.movie != id
    ensures forall b :: b in r.bookings <==>
              b in db.bookings && b.showing !in SelectedShowingIds(db, OfMovie(id))
  {
    var r := DeleteShowingsWhere(db, OfMovie(id));
    r.(movies := Filter(r.movies, NotOfMovie(id)))
  }

  /** Deletes a theater, its showings (`Showing.theater` cascades) and their bookings. */
  function DeleteTheater(db: Db, id: Id): (r: Db)
    ensures r.movies == db.movies && r.users == db.users && r.tokens == db.tokens
    ensures forall t :: t in r.theaters <==> t in db.theaters && t.id != id
    ensures forall s :: s in r.showings <==> s in db.showings && s.theater != id
    ensures forall b :: b in r.bookings <==>
              b in db.bookings && b.showing !in SelectedShowingIds(db, InTheater(id))
  {
    var r := DeleteShowingsWhere(db, InTheater(id));
    r.(theaters := Filter(r.theaters, NotTheater(id)))
  }

  /** Deletes one showing and its bookings. */
  function DeleteShowing(db: Db, id: Id): (r: Db)
    ensures r.movies == db.movies && r.theaters == db.theaters
    ensures r.users == db.users && r.tokens == db.tokens
    ensures forall s :: s in r.showings <==> s in db.showings && s.id != id
    ensures forall b :: b in r.bookings <==>
              b in db.bookings && !(b.showing == id && id in ShowingIds(db))
  {
    var r := DeleteShowingsWhere(db, ShowingHasId(id));
    assert forall b :: b in db.bookings && b.showing == id && id in ShowingIds(db) ==>
                       b.showing in SelectedShowingIds(db, ShowingHasId(id)) by {
      forall b | b in db.bookings && b.showing == id && id in ShowingIds(db)
        ensures b.showing in SelectedShowingIds(db, ShowingHasId(id))
      {
        var s :| s in db.showings && s.id == id;
        assert ShowingHasId(id)(s);
      }
    }
    r
  }

  /** Deletes a user, their bookings (`Booking.user` cascades) and their token. */
  function DeleteUser(db: Db, id: Id): (r: Db)
    ensures r.movies == db.movies && r.theaters == db.theaters && r.showings == db.showings
    ensures forall u :: u in r.users <==> u in db.users && u.id != id
    ensures forall b :: b in r.bookings <==> b in db.bookings && b.user != id
    ensures r.tokens == db.tokens - {id}
  {
    db.(users := Filter(db.users, NotUser(id)),
        bookings := Filter(db.bookings, BookingNotBy(id)),
        tokens := db.tokens - {id})
  }

  /** A cascade delete of showings leaves no dangling reference behind. */
  lemma DeleteShowingsKeepsIntegrity(db: Db, doomed: Showing -> bool)
    requires Integrity(db)
    ensures Integrity(DeleteShowingsWhere(db, doomed))
  {
    var r := DeleteShowingsWhere(db, doomed);
    var gone := SelectedShowingIds(db, doomed);
    FilterKeepsDistinct(db.showings, Spares(doomed), ShowingKey);
    FilterKeepsDistinct(db.bookings, BookingSpared(gone), BookingKey);
    assert UniqueKeys(r);
    assert ShowingsResolve(r) by {
      assert MovieIds(r) == MovieIds(db) && TheaterIds(r) == TheaterIds(db);
    }
    assert BookingsResolve(r) by {
      forall b | b in r.bookings ensures b.showing in ShowingIds(r) {
        var s :| s in db.showings && s.id == b.showing;
        assert doomed(s) ==> s.id in gone;
        assert s in r.showings;
      }
    }
  }

  lemma DeleteMovieKeepsIntegrity(db: Db, id: Id)
    requires Integrity(db)
    ensures Integrity(DeleteMovie(db, id))
  {
    DeleteShowingsKeepsIntegrity(db, OfMovie(id));
    var r := DeleteShowingsWhere(db, OfMovie(id));
    var r' := r.(movies := Filter(r.movies, NotOfMovie(id)));
    FilterKeepsDistinct(r.movies, NotOfMovie(id), MovieKey);
    assert UniqueKeys(r');
    assert ShowingsResolve(r') by {
      assert TheaterIds(r') == TheaterIds(r);
      forall s | s in r'.showings ensures s.movie in MovieIds(r') {
        var m :| m in db.movies && m.id == s.movie;
        assert m in r'.movies;
      }
    }
    assert BookingsResolve(r') by {
      assert ShowingIds(r') == ShowingIds(r) && UserIds(r') == UserIds(r);
    }
  }

  lemma DeleteTheaterKeepsIntegrity(db: Db, id: Id)
    requires Integrity(db)
    ensures Integrity(DeleteTheater(db, id))
  {
    DeleteShowingsKeepsIntegrity(db, InTheater(id));
    var r := DeleteShowingsWhere(db, InTheater(id));
    var r' := r.(theaters := Filter(r.theaters, NotTheater(id)));
    FilterKeepsDistinct(r.theaters, NotTheater(id), TheaterKey);
    assert UniqueKeys(r');
    assert ShowingsResolve(r') by {
      assert MovieIds(r') == MovieIds(r);
      forall s | s in r'.showings ensures s.theater in TheaterIds(r') {
        var t :| t in db.theaters && t.id == s.theater;
        assert t in r'.theaters;
      }
    }
    assert BookingsResolve(r') by {
      assert ShowingIds(r') == ShowingIds(r) && UserIds(r') == UserIds(r);
    }
  }

  lemma DeleteUserKeepsIntegrity(db: Db, id: Id)
    requires Integrity(db)
    ensures Integrity(DeleteUser(db, id))
  {
    var r := DeleteUser(db, id);
    FilterKeepsDistinct(db.users, NotUser(id), UserKey);
    FilterKeepsDistinct(db.users, NotUser(id), UserName);
    FilterKeepsDistinct(db.bookings, BookingNotBy(id), BookingKey);
    forall b | b in r.bookings ensures b.user in UserIds(r) {
      var u :| u in db.users && u.id == b.user;
      assert u in r.users;
    }
    forall k | k in r.tokens ensures k in UserIds(r) {
      var u :| u in db.users && u.id == k;
      assert u in r.users;
    }
  }

  /** Deleting a movie also removes every booking of every showing of that movie. */
  lemma DeleteMovieRemovesItsBookings(db: Db, id: Id, s: Showing, b: Booking)
    requires s in db.showings && s.movie == id && b.showing == s.id
    ensures b !in DeleteMovie(db, id).bookings
  {
    assert OfMovie(id)(s);
  }

  /** Emptying the bookings table and then the showings table, the order the bulk
      maintenance delete uses, ends where a cascade delete of every showing would. */
  lemma ClearingMatchesCascade(db: Db)
    requires Integrity(db)
    ensures DeleteShowingsWhere(db, EveryShowing()) == db.(bookings := [], showings := [])
  {
    var gone := SelectedShowingIds(db, EveryShowing());
    forall b | b in db.bookings ensures !BookingSpared(gone)(b) {
      var s :| s in db.showings && s.id == b.showing;
      assert EveryShowing()(s);
    }
  }

  function EveryShowing(): Showing -> bool { (s: Showing) => true }

  /** What a consistent store promises row by row: every booking's showing and every
      showing's movie and theater can be looked up, seat counts and prices fit their
      columns, and a username picks out one user. */
  lemma IntegrityMeansWellFormedRows(db: Db)
    requires Integrity(db)
    ensures forall b :: b in db.bookings ==> StorableSeats(b.seats) && ShowingById(db, b.showing).Some?
    ensures forall s :: s in db.showings ==>
              && ValidPrice(s.price)
              && MovieById(db, s.movie).Some? && TheaterById(db, s.theater).Some?
    ensures forall u, v :: u in db.users && v in db.users && u.username == v.username ==> u == v
  {
    forall u, v | u in db.users && v in db.users && u.username == v.username ensures u == v {
      var i :| 0 <= i < |db.users| && db.users[i] == u;
      var j :| 0 <= j < |db.users| && db.users[j] == v;
      assert UserName(db.users[i]) == UserName(db.users[j]);
    }
  }

  /** Inserting a booking with a fresh key whose user and showing exist keeps integrity. */
  lemma AddBookingKeepsIntegrity(db: Db, b: Booking)
    requires Integrity(db)
    requires forall x :: x in db.bookings ==> x.id != b.id
    requires b.user in UserIds(db) && b.showing in ShowingIds(db) && b.seats <= MaxSeats
    ensures Integrity(db.(bookings := db.bookings + [b]))
  {
    DistinctSnoc(db.bookings, b, BookingKey);
  }

  /** Inserting a user with a fresh key and a username no one has keeps integrity. */
  lemma AddUserKeepsIntegrity(db: Db, u: User)
    requires Integrity(db)
    requires forall x :: x in db.users ==> x.id != u.id && x.username != u.username
    requires UserFits(u)
    ensures Integrity(db.(users := db.users + [u]))
  {
    DistinctSnoc(db.users, u, UserKey);
    DistinctSnoc(db.users, u, UserName);
    var r := db.(users := db.users + [u]);
    assert UserIds(db) <= UserIds(r);
  }

  /** The writable fields of a `BookingSerializer` write. The serializer has no `user`
      field, and `createdAt` (`auto_now_add`) is read-only to it, so a value sent for either
      is ignored. No routed handler performs such a write; this records what one would
      change. */
  datatype BookingPatch = BookingPatch(showing: Option<Id>, seats: Option<nat>, createdAt: Option<int>)

  function UpdateBooking(b: Booking, patch: BookingPatch): (r: Booking)
    ensures r.id == b.id && r.user == b.user && r.createdAt == b.createdAt
    ensures patch.seats.Some? ==> r.seats == patch.seats.value
    ensures patch.showing.Some? ==> r.showing == patch.showing.value
    ensures patch.seats.None? ==> r.seats == b.seats
    ensures patch.showing.None? ==> r.showing == b.showing
  {
    b.(showing := patch.showing.GetOr(b.showing), seats := patch.seats.GetOr(b.seats))
  }
}
