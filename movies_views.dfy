/** The movie-side request handlers: the permissions of the movie, showing and theater view
    sets, the "today's showings" filter, booking a showing, the caller's bookings newest
    first, and the staff-only bulk delete of showings and bookings. */
module MoviesViews {
  import opened Common
  import opened Models
  import opened Access
  import opened Database
  import opened Serializers

  // ---------------------------------------------------------------- view set permissions

  /** Movies: anyone may list and retrieve; every other action needs the `is_staff` flag. */
  function MovieViewSetPermissions(a: Action): (r: seq<PermissionClass>)
    ensures forall c :: Permits(r, c) <==> IsReadAction(a) || (c.SignedIn? && c.user.isStaff)
  {
    if IsReadAction(a) then [AllowAny] else [IsAdminUser]
  }

  /** Showings: list and retrieve need a signed-in caller; every other action `is_staff`. */
  function ShowingViewSetPermissions(a: Action): (r: seq<PermissionClass>)
    ensures forall c :: Permits(r, c) <==> c.SignedIn? && (IsReadAction(a) || c.user.isStaff)
  {
    if IsReadAction(a) then [IsAuthenticated] else [IsAdminUser]
  }

  /** Theaters: the same rule as showings. */
  function TheaterViewSetPermissions(a: Action): (r: seq<PermissionClass>)
    ensures forall c :: Permits(r, c) <==> c.SignedIn? && (IsReadAction(a) || c.user.isStaff)
  {
    if IsReadAction(a) then [IsAuthenticated] else [IsAdminUser]
  }

  /** The three view sets decide exactly as the reference decision table does. */
  lemma ViewSetsFollowPolicy(a: Action, c: Caller)
    ensures Permits(MovieViewSetPermissions(a), c) <==> Meets(c, Policy(MovieResource, a))
    ensures Permits(ShowingViewSetPermissions(a), c) <==> Meets(c, Policy(ShowingResource, a))
    ensures Permits(TheaterViewSetPermissions(a), c) <==> Meets(c, Policy(TheaterResource, a))
  {
  }

  /** A signed-in caller without `is_staff` may list theaters but not create one. */
  lemma NonStaffListsButCannotCreateTheaters(u: User)
    requires !u.isStaff
    ensures Permits(TheaterViewSetPermissions(List), SignedIn(u))
    ensures !Permits(TheaterViewSetPermissions(Create), SignedIn(u))
    ensures DenialStatus(SignedIn(u)) == Forbidden
  {
  }

  // ---------------------------------------------------------------- today's showings

  function StartsOn(day: int): Showing -> bool {
    (s: Showing) => Day(s.startTime) == day
  }

  /** The showings that start on `day`, in store order. */
  function OnDay(all: seq<Showing>, day: int): (r: seq<Showing>)
    ensures forall s :: s in r <==> s in all && Day(s.startTime) == day
  {
    Filter(all, StartsOn(day))
  }

  /** The day filter keeps store order: a table split in two is filtered part by part, and
      a single showing is kept exactly when it starts on the day. */
  lemma OnDayKeepsStoreOrder(a: seq<Showing>, b: seq<Showing>, s: Showing, day: int)
    ensures OnDay(a + b, day) == OnDay(a, day) + OnDay(b, day)
    ensures OnDay([s], day) == if Day(s.startTime) == day then [s] else []
  {
    FilterConcat(a, b, StartsOn(day));
    FilterOne(s, StartsOn(day));
  }

  /** One pass over the showings, keeping those that start on `day`. */
  method CollectOnDay(all: seq<Showing>, day: int) returns (showings: seq<Showing>)
    ensures showings == OnDay(all, day)
  {
    showings := [];
    for i := 0 to |all|
      invariant showings == OnDay(all[..i], day)
    {
      assert all[..i + 1][..i] == all[..i];
      if Day(all[i].startTime) == day {
        showings := showings + [all[i]];
      }
    }
    assert all[..|all|] == all;
  }

  /** `today_showings`: today's showings; if there are none, tomorrow's; if there are none
      of those either, every showing there is. */
  method TodayShowings(all: seq<Showing>, today: int) returns (showings: seq<Showing>)
    ensures OnDay(all, today) != [] ==> showings == OnDay(all, today)
    ensures OnDay(all, today) == [] && OnDay(all, today + 1) != [] ==> showings == OnDay(all, today + 1)
    ensures OnDay(all, today) == [] && OnDay(all, today + 1) == [] ==> showings == all
    ensures showings != [] <==> all != []
    ensures forall s, t :: s in showings && t in showings && Day(s.startTime) == today ==>
              Day(t.startTime) != today + 1
  {
    showings := CollectOnDay(all, today);
    if showings == [] {
      showings := CollectOnDay(all, today + 1);
    }
    if showings == [] && |all| > 0 {
      showings := all;
    }
  }

  // ---------------------------------------------------------------- booking a showing

  const BookShowingPermissions := [IsAuthenticated]

  /** `Showing.objects.get(id=showing_id)`: no id, or an id no showing has, finds nothing. */
  function LookupShowing(db: Db, showingId: Option<int>): (r: Option<Showing>)
    ensures r.Some? ==> r.value in db.showings && showingId == Some(r.value.id)
    ensures r.None? <==> showingId.None? || showingId.value !in ShowingIds(db)
  {
    if showingId.Some? && showingId.value >= 0 then ShowingById(db, showingId.value) else None
  }

  /** A seat count the `seats` column accepts: present, non-negative and in range. */
  predicate AcceptableSeats(seats: Option<int>) {
    seats.Some? && StorableSeats(seats.value)
  }

  /** `book_showing`: a signed-in caller books `seats` seats of a showing. A showing that
      does not exist is NotFound; a seat count the column refuses is BadRequest; otherwise
      exactly one booking is added, owned by the caller and stamped `now`. There is no
      capacity check: the outcome does not depend on the theater or on other bookings. */
  method BookShowing(store: Store, caller: Caller, showingId: Option<int>, seats: Option<int>,
                     now: int, format: int -> string)
    returns (status: Status, booking: Option<BookingData>)
    requires store.Valid()
    requires caller.SignedIn? ==> caller.user in store.db.users
    modifies store
    ensures store.Valid()
    ensures store.nextUserId == old(store.nextUserId)
    ensures status == Ok <==>
              Permits(BookShowingPermissions, caller) &&
              LookupShowing(old(store.db), showingId).Some? && AcceptableSeats(seats)
    ensures !Permits(BookShowingPermissions, caller) ==> status == DenialStatus(caller)
    ensures Permits(BookShowingPermissions, caller) && LookupShowing(old(store.db), showingId).None? ==>
              status == NotFound
    ensures Permits(BookShowingPermissions, caller) && LookupShowing(old(store.db), showingId).Some? &&
            !AcceptableSeats(seats) ==>
              status == BadRequest
    ensures status != Ok ==>
              booking.None? && store.db == old(store.db) && store.nextBookingId == old(store.nextBookingId)
    ensures status == Ok ==>
              var b := Booking(old(store.nextBookingId), caller.user.id,
                               LookupShowing(old(store.db), showingId).value.id, seats.value, now);
              && store.db == old(store.db).(bookings := old(store.db.bookings) + [b])
              && store.nextBookingId == old(store.nextBookingId) + 1
              && booking == Some(RepresentBooking(store.db, b, format))
  {
    PermitsOne(IsAuthenticated, caller);
    if !Permits(BookShowingPermissions, caller) {
      return DenialStatus(caller), None;
    }
    var showing := LookupShowing(store.db, showingId);
    if showing.None? {
      return NotFound, None;
    }
    if !AcceptableSeats(seats) {
      return BadRequest, None;
    }
    var b := Booking(store.nextBookingId, caller.user.id, showing.value.id, seats.value, now);
    InsertBooking(store, b);
    return Ok, Some(RepresentBooking(store.db, b, format));
  }

  /** `Booking.objects.create`: adds a booking under the next key; its user and showing
      must exist and its seat count must fit the column. */
  method InsertBooking(store: Store, b: Booking)
    requires store.Valid()
    requires b.id == store.nextBookingId
    requires b.user in UserIds(store.db) && b.showing in ShowingIds(store.db) && StorableSeats(b.seats)
    modifies store
    ensures store.Valid()
    ensures store.db == old(store.db).(bookings := old(store.db.bookings) + [b])
    ensures store.nextBookingId == old(store.nextBookingId) + 1 && store.nextUserId == old(store.nextUserId)
  {
    AddBookingKeepsIntegrity(store.db, b);
    store.db := store.db.(bookings := store.db.bookings + [b]);
    store.nextBookingId := store.nextBookingId + 1;
  }

  // ---------------------------------------------------------------- the caller's bookings

  /** Non-increasing creation time: newest first. */
  predicate NewestFirst(s: seq<Booking>) {
    forall i, j :: 0 <= i < j < |s| ==> s[i].createdAt >= s[j].createdAt
  }

  /** The head of a newest-first list is at least as new as every later row. */
  lemma HeadIsNewest(s: seq<Booking>)
    requires NewestFirst(s) && s != []
    ensures NewestFirst(s[1..])
    ensures forall x :: x in s[1..] ==> x.createdAt <= s[0].createdAt
  {
    forall x | x in s[1..] ensures x.createdAt <= s[0].createdAt {
      var j :| 0 <= j < |s[1..]| && s[1..][j] == x;
      assert s[j + 1] == x;
    }
  }

  /** A row at least as new as every row of a newest-first list can go in front of it. */
  lemma ConsNewestFirst(h: Booking, s: seq<Booking>)
    requires NewestFirst(s)
    requires forall x :: x in s ==> x.createdAt <= h.createdAt
    ensures NewestFirst([h] + s)
  {
    forall i, j | 0 <= i < j < |[h] + s| ensures ([h] + s)[i].createdAt >= ([h] + s)[j].createdAt {
      if i > 0 {
        assert ([h] + s)[i] == s[i - 1] && ([h] + s)[j] == s[j - 1];
      } else {
        assert ([h] + s)[j] == s[j - 1];
        assert s[j - 1] in s;
      }
    }
  }

  /** A row no older than the head of a newest-first list can go in front of it. */
  lemma NewerHeadNewestFirst(b: Booking, s: seq<Booking>)
    requires NewestFirst(s) && (s == [] || b.createdAt >= s[0].createdAt)
    ensures NewestFirst([b] + s)
  {
    if s != [] {
      HeadIsNewest(s);
      assert s == [s[0]] + s[1..];
    }
    ConsNewestFirst(b, s);
  }

  function InsertNewestFirst(b: Booking, s: seq<Booking>): (r: seq<Booking>)
    requires NewestFirst(s)
    ensures NewestFirst(r)
    ensures multiset(r) == multiset(s) + multiset{b}
    ensures forall x :: x in r ==> x == b || x in s
  {
    if s == [] || b.createdAt >= s[0].createdAt then
      NewerHeadNewestFirst(b, s);
      [b] + s
    else
      HeadIsNewest(s);
      var rest := InsertNewestFirst(b, s[1..]);
      assert s == [s[0]] + s[1..];
      ConsNewestFirst(s[0], rest);
      [s[0]] + rest
  }

  /** `order_by('-created_at')`. Rows with equal creation times may come in any order in the
      database; this ordering is one of the orders it may return. */
  function OrderByNewest(s: seq<Booking>): (r: seq<Booking>)
    ensures NewestFirst(r)
    ensures multiset(r) == multiset(s)
  {
    if s == [] then []
    else
      assert s == [s[0]] + s[1..];
      var rest := OrderByNewest(s[1..]);
      assert multiset(s) == multiset(s[1..]) + multiset{s[0]};
      InsertNewestFirst(s[0], rest)
  }

  lemma SameMultisetSameRows(a: seq<Booking>, b: seq<Booking>)
    requires multiset(a) == multiset(b)
    ensures forall x :: x in a <==> x in b
  {
    forall x ensures x in a <==> x in b {
      assert x in a <==> x in multiset(a);
      assert x in b <==> x in multiset(b);
    }
  }

  function OwnedBy(user: Id): Booking -> bool {
    (b: Booking) => b.user == user
  }

  const UserBookingsPermissions := [IsAuthenticated]

  /** `user_bookings`: every booking of the caller and no other, newest first. */
  function UserBookings(db: Db, caller: Caller): (r: (Status, seq<Booking>))
    ensures !Permits(UserBookingsPermissions, caller) ==> r == (DenialStatus(caller), [])
    ensures caller.SignedIn? ==> r.0 == Ok
    ensures caller.SignedIn? ==>
              forall b :: b in r.1 <==> b in db.bookings && b.user == caller.user.id
    ensures caller.SignedIn? ==>
              multiset(r.1) == multiset(Filter(db.bookings, OwnedBy(caller.user.id)))
    ensures NewestFirst(r.1)
  {
    PermitsOne(IsAuthenticated, caller);
    if !Permits(UserBookingsPermissions, caller) then (DenialStatus(caller), [])
    else
      var mine := Filter(db.bookings, OwnedBy(caller.user.id));
      var sorted := OrderByNewest(mine);
      SameMultisetSameRows(sorted, mine);
      (Ok, sorted)
  }

  // ---------------------------------------------------------------- bulk maintenance delete

  const RemoveTestShowingsPermissions := [IsAuthenticated]

  /** `remove_test_showings`: a caller with neither `is_staff` nor `is_superuser` is refused
      and nothing changes; otherwise every booking and then every showing is deleted, the
      other tables are kept, and the counts reported are the sizes before the delete. */
  method RemoveTestShowings(store: Store, caller: Caller)
    returns (status: Status, removedShowings: nat, removedBookings: nat)
    requires store.Valid()
    modifies store
    ensures store.Valid()
    ensures store.nextBookingId == old(store.nextBookingId) && store.nextUserId == old(store.nextUserId)
    ensures !Permits(RemoveTestShowingsPermissions, caller) ==>
              status == DenialStatus(caller) && store.db == old(store.db)
    ensures caller.SignedIn? && !caller.user.isStaff && !caller.user.isSuperuser ==>
              status == Forbidden && store.db == old(store.db)
    ensures caller.SignedIn? && (caller.user.isStaff || caller.user.isSuperuser) ==>
              && status == Ok
              && removedShowings == |old(store.db.showings)|
              && removedBookings == |old(store.db.bookings)|
              && store.db == old(store.db).(bookings := [], showings := [])
    ensures status != Ok ==> removedShowings == 0 && removedBookings == 0
  {
    PermitsOne(IsAuthenticated, caller);
    if !Permits(RemoveTestShowingsPermissions, caller) {
      return DenialStatus(caller), 0, 0;
    }
    if !caller.user.isStaff && !caller.user.isSuperuser {
      return Forbidden, 0, 0;
    }
    var showingCount := |store.db.showings|;
    var bookingCount := |store.db.bookings|;
    store.db := store.db.(bookings := []);
    store.db := store.db.(showings := []);
    return Ok, showingCount, bookingCount;
  }
}
