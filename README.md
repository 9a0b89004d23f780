# Cinema booking backend: the showing and booking domain in Dafny

This project models the domain logic of a small cinema booking backend (a web service over
movies, theaters, showings, bookings, users and snacks) and proves properties of it. The
model covers:

- the entity schema, its referential integrity and its cascading deletes;
- the derived end time of a showing, and the display fields the serializers add to showings
  and bookings, with their fallbacks;
- the "today's showings" filter and its today, then tomorrow, then everything fallback;
- the handlers that change the store: booking a showing, the staff-only bulk delete of
  showings and bookings, user creation, sign-up and login with a reused per-user token;
- the caller's bookings, newest first;
- the access policy of every view set and handler.

Handlers return a result code (`Ok`, `Created`, `BadRequest`, `Unauthorized`, `Forbidden`,
`NotFound`) in place of an HTTP response.

Modules, one per source file or shared concept:

- `Common` (common.dfy): `Option`, the result codes, and the order-preserving `Filter` and
  the `Find` that stand for the ORM's `filter(...)` and `get(...)`.
- `Models` (models.dfy): one datatype per table and the store as a value `Db`. `Integrity`
  says what the database guarantees: unique keys and usernames, no dangling foreign key,
  and prices, seat counts, usernames and emails that fit their columns. The CASCADE deletes
  are functions on `Db`, proved to keep `Integrity`.
- `Database` (store.dfy): class `Store`, the mutable database the handlers share. It has a
  `db` field that handlers reassign, and the next key of the bookings and users sequences.
- `Access` (access.dfy): the caller, the view-set actions, the permission classes, and the
  framework rule that every declared class must permit a request. It also holds a reference
  decision table that the view sets are proved to follow.
- `Serializers`, `MoviesViews`, `UsersViews`, `InventoryViews`: the code of
  movies/serializers.py, movies/views.py, users/views.py and inventory/views.py.

Conventions:

- Times are integer minutes, and `Day(t) = t / 1440`.
- Prices are integer cents.
- A seat count must fit the PostgreSQL `integer` column behind `PositiveIntegerField`
  (0 to 2147483647).
- Users follow the framework's stock user model (users/models.py is not part of this model).
  A username is at most 150 characters and an email at most 254, the lengths of its
  `varchar` columns on the configured PostgreSQL database. A longer value makes the insert
  fail, which the user handlers answer with 400.
- A refused anonymous request is `Unauthorized` (401). This holds when token authentication
  is the first authentication class, because its `WWW-Authenticate` header turns "not
  authenticated" into 401. settings.py configures no authentication classes. Under the
  framework's default, with session authentication first, the same refusal is 403.
- Inputs the source reads from the outside world are parameters:
  - the current day (`today`) and the current time (`now`);
  - the token key that `get_or_create` would generate (`freshKey`);
  - the password check of the authentication backend (`verify`);
  - the date formatting of `strftime` (`format`).
- Each table is a sequence. Its order stands for the order in which an unordered query
  (`objects.all()`, `filter(...)` without `order_by`) returns rows, which the database does
  not fix. "Store order" and "table order" mean that sequence's order. Inserts append.
- A booking's seat count may be zero: `PositiveIntegerField` accepts 0.
- The today's-showings endpoint declares no permission classes, so it gets the framework
  default (anyone may call it). The model takes no caller for it.

## Model

| member | source | states |
|---|---|---|
| `Models.Day` | movies/views.py:97 | The day of a time is the one whose 1440 minutes contain it, as `start_time.date()` reads. |
| `Models.Integrity` | movies/models.py:20-34 | A consistent store has unique keys and usernames. Every showing names a stored movie and theater and has a price of at most 999999 cents either way. Every booking names a stored user and showing and has a seat count from 0 to 2147483647. Every username and email fits its column. Every token belongs to a stored user. |
| `Models.IntegrityMeansWellFormedRows` | movies/models.py:20-34 | In a consistent store, seat counts and prices fit their columns, and every booking's showing and every showing's movie and theater can be looked up. Two users with one username are the same user. |
| `Models.DeleteShowingsWhere` | movies/models.py:30-32 | Deleting showings also deletes exactly the bookings of those showings. Movies, theaters, users and tokens are unchanged, and every other showing and booking is kept. |
| `Models.DeleteMovie` | movies/models.py:19-32 | Deleting a movie removes that movie, every showing of it, and every booking of those showings. Everything else is kept. |
| `Models.DeleteTheater` | movies/models.py:19-32 | Deleting a theater removes that theater, every showing in it, and every booking of those showings. Everything else is kept. |
| `Models.DeleteShowing` | movies/models.py:30-32 | Deleting a showing removes it and every booking that references it, and nothing else. |
| `Models.DeleteUser` | movies/models.py:30-31 | Deleting a user removes the user, every booking they own, and their token. Movies, theaters and showings are unchanged. |
| `Models.DeleteShowingsKeepsIntegrity` | movies/models.py:30-32 | After a cascade delete of showings, no booking names a missing showing, and keys stay unique. |
| `Models.DeleteMovieKeepsIntegrity` | movies/models.py:19-32 | After deleting a movie, no showing names the missing movie and no booking names a missing showing. |
| `Models.DeleteTheaterKeepsIntegrity` | movies/models.py:19-32 | After deleting a theater, no showing names the missing theater and no booking names a missing showing. |
| `Models.DeleteUserKeepsIntegrity` | movies/models.py:30-31 | After deleting a user, no booking or token names the missing user, and usernames stay unique. |
| `Models.DeleteMovieRemovesItsBookings` | movies/models.py:19-32 | Any booking of any showing of a deleted movie is gone afterwards. |
| `Models.ClearingMatchesCascade` | movies/views.py:215-219 | In a consistent store, emptying the bookings and then the showings table gives the same store as a cascade delete of every showing. |
| `Models.AddBookingKeepsIntegrity` | movies/models.py:30-34 | Inserting a booking with a fresh key, an existing user, an existing showing and a storable seat count keeps the store consistent. |
| `Models.AddUserKeepsIntegrity` | users/views.py:49-62 | Inserting a user with a fresh key, an unused username, and a username and email that fit their columns keeps the store consistent. Keys and usernames stay unique. |
| `Models.UpdateBooking` | movies/serializers.py:59-64 | A `BookingSerializer` write never changes a booking's id, owner or `createdAt`. The serializer has no `user` field and `created_at` is read-only to it, so sent values are ignored. Seats and showing take the sent value or keep the old one. No routed handler performs such a write. |
| `Serializers.Validate` | movies/serializers.py:29-42 | With both movie and start time in the write, the end time is start plus the movie's duration in minutes. Otherwise the data comes back unchanged, stale end time included. No other field ever changes. |
| `Serializers.Save` | movies/serializers.py:19-21 | Saving validated data sets exactly the fields it carries. The row's id and every absent field keep their stored values. |
| `Serializers.WriteWithMovieAndStartFixesEndTime` | movies/serializers.py:33-40 | A saved write that carries movie and start time leaves the row's end time equal to start plus that movie's duration, whatever it held before. |
| `Serializers.ValidateIdempotent` | movies/serializers.py:29-42 | Validating twice gives the same data as validating once. |
| `Serializers.StartOnlyWriteLeavesEndTimeStale` | movies/serializers.py:33-42 | A write that moves only the start time leaves the end time behind. A row that matched its movie's duration no longer does. |
| `Serializers.GetMovieTitle` | movies/serializers.py:23-24 | The title is present exactly when a movie is, and it is that movie's title. |
| `Serializers.GetTheaterName` | movies/serializers.py:26-27 | The name is present exactly when a theater is, and it is that theater's name. |
| `Serializers.ToRepresentation` | movies/serializers.py:44-57 | Showing output always has `movie_title` and `theater_name`. They come from the given related rows, or are "Unknown Movie" / "Unknown Theater" when none is given. Every base field is kept as produced. |
| `Serializers.RepresentShowing` | movies/views.py:123 | A stored showing serializes with its own id, keys, times and price, and always with both display fields. |
| `Serializers.RepresentationOfStoredShowing` | movies/serializers.py:48-57 | In a consistent store, a stored showing is shown with the title and name of the movie and theater its keys name. The fallbacks never apply. |
| `Serializers.GetShowingDetails` | movies/serializers.py:66-83 | When showing, movie and theater are found, the details carry their title, name, formatted start time and price. The end time is null exactly when the showing's is. When any lookup fails, the result is the fixed placeholder ("Unknown" text, price 0) and no error escapes. |
| `Serializers.DetailsOfStoredBooking` | movies/serializers.py:66-74 | In a consistent store, a stored booking's details take the success branch. They carry the title of its showing's movie, the name of its theater, the showing's formatted start and price, and a null end time exactly when the showing's is. |
| `Serializers.RepresentBooking` | movies/serializers.py:59-66 | Booking output keeps the id, seats, showing and creation time, and attaches that booking's showing details. |
| `MoviesViews.MovieViewSetPermissions` | movies/views.py:17-22 | Movie list/retrieve is allowed for anyone. Every other movie action is allowed exactly for signed-in callers with `is_staff`. |
| `MoviesViews.ShowingViewSetPermissions` | movies/views.py:28-33 | Showing list/retrieve is allowed exactly for signed-in callers. Every other showing action also needs `is_staff`. |
| `MoviesViews.TheaterViewSetPermissions` | movies/views.py:73-78 | Theater list/retrieve is allowed exactly for signed-in callers. Every other theater action also needs `is_staff`. |
| `MoviesViews.ViewSetsFollowPolicy` | movies/views.py:17-78 | For every action and caller, the three view sets grant exactly what the reference decision table grants. |
| `MoviesViews.NonStaffListsButCannotCreateTheaters` | movies/views.py:73-78 | A signed-in caller without `is_staff` may list theaters. Creating one is refused with Forbidden. |
| `MoviesViews.OnDay` | movies/views.py:95-100 | The day filter keeps exactly the showings whose start falls on that day. |
| `MoviesViews.OnDayKeepsStoreOrder` | movies/views.py:95-100 | The day filter keeps store order and multiplicity. Filtering a concatenation is the concatenation of the filtered parts, and a single showing is kept exactly when it starts on the day. |
| `Common.FilterConcat` | movies/views.py:95-100 | Filtering distributes over concatenation, so the rows kept appear in their table order. |
| `MoviesViews.CollectOnDay` | movies/views.py:95-111 | One pass over the store keeps exactly that day's showings, in store order. |
| `MoviesViews.TodayShowings` | movies/views.py:80-116 | If any showing starts today, the result is exactly today's showings in store order. Else it is exactly tomorrow's, if any. Else it is every showing. Today's and tomorrow's are never mixed, and the result is non-empty exactly when the store is. |
| `MoviesViews.LookupShowing` | movies/views.py:137-141 | The lookup finds a showing exactly when an id is given and some showing has it. The showing found is stored and has that id. |
| `MoviesViews.BookShowing` | movies/views.py:134-164 | Anonymous callers are refused. A missing or unknown showing id gives NotFound with no new row. A missing, negative or oversized seat count gives BadRequest with no new row. Otherwise exactly one booking is added (caller, that showing, the given seats, stamped `now`) and nothing else changes. Success needs no capacity check, so overbooking is possible. |
| `MoviesViews.InsertBooking` | movies/views.py:144-148 | Creating a booking with an existing user and showing and a seat count the column accepts keeps the store consistent. It appends exactly that row and advances the booking key sequence. |
| `MoviesViews.InsertNewestFirst` | movies/views.py:178 | Inserting into a newest-first list gives a newest-first list with the same rows plus the new one. |
| `MoviesViews.OrderByNewest` | movies/views.py:178 | The ordering is newest first (non-increasing `createdAt`) and a permutation of its input. |
| `MoviesViews.UserBookings` | movies/views.py:166-189 | Anonymous callers are refused. Otherwise the result holds every booking of the caller and no other, as a permutation of the filtered rows, newest first. |
| `MoviesViews.RemoveTestShowings` | movies/views.py:200-227 | Anonymous callers get Unauthorized. A caller with neither `is_staff` nor `is_superuser` gets Forbidden. In both cases the store is unchanged. Otherwise no bookings and no showings remain, the other tables are untouched, and the counts are the sizes before the delete. |
| `UsersViews.Authenticate` | users/views.py:18 | A user is returned only if the username and password are both given, the username is stored, and `verify` accepts the password against the stored credential. With unique usernames, no result means no user with that name accepts the password. |
| `UsersViews.GetOrCreateToken` | users/views.py:23 | Afterwards the user has a token and it is the one returned. An existing token is never replaced, no other user's token changes, and the offered key is used only when the user had none. |
| `UsersViews.RepeatedLoginReusesToken` | users/views.py:23 | Getting the token a second time returns the first token and leaves the table as it was, whatever key is offered. |
| `UsersViews.Login` | users/views.py:12-35 | Credentials that do not authenticate give Unauthorized and change nothing. Otherwise the reply carries the user's username, `is_staff_member` flag and token. A user who already had a token gets that same token, and the store is unchanged. |
| `UsersViews.InsertUser` | users/views.py:57-62 | Adding a user whose username is unused keeps the store consistent. It appends exactly that user and advances the user key sequence. |
| `UsersViews.CreateUser` | users/views.py:37-70 | Only `is_staff` callers get through. A taken, missing, empty or over-150-character username, or an over-254-character email, gives BadRequest and adds nothing. Otherwise exactly one user is added: the given username, email (empty when absent), `is_staff_member` (false when absent), and neither framework staff flag. Usernames stay unique. |
| `UsersViews.AdminOnlyFollowsPolicy` | users/views.py:37-74 | For every action and caller, the admin-only user handlers grant exactly what the reference decision table grants for users. |
| `UsersViews.ListUsers` | users/views.py:72-86 | The request succeeds exactly for signed-in `is_staff` callers, and returns every stored user in table order. Everyone else gets the denial code and nothing. |
| `UsersViews.Signup` | users/views.py:88-118 | A taken, missing, empty or over-150-character username, or an over-254-character email, gives BadRequest and adds nothing. Otherwise one user is added whose `is_staff` equals the requested `is_staff_member` (false when absent), and a new token is issued to them. Usernames stay unique. |
| `Access.HasPermission` | inventory/views.py:8-10 | Each permission class's decision, including the custom `IsStaffMember` (authenticated and flagged). `AllowAny` always permits, and the anonymous caller passes `AllowAny` and nothing else. |
| `InventoryViews.IsStaffMemberDecision` | inventory/views.py:8-10 | The custom permission holds exactly for signed-in callers flagged `is_staff_member`, and never for the anonymous caller. |
| `InventoryViews.SnackItemViewSetPermissions` | inventory/views.py:17-22 | Snack list/retrieve is allowed exactly for signed-in callers. Every other snack action is allowed exactly for signed-in callers with `is_staff_member`. |
| `InventoryViews.SnackViewSetFollowsPolicy` | inventory/views.py:17-22 | For every action and caller, the snack view set grants exactly what the reference decision table grants. |
| `InventoryViews.StaffFlagAloneGrantsNoSnackWrite` | inventory/views.py:8-10 | A caller with `is_staff` but without `is_staff_member` is refused every snack write. |
| `InventoryViews.AnonymousNeverWritesSnacks` | inventory/views.py:8-10 | The anonymous caller is refused every snack write, with Unauthorized. |

## Left out

- HTTP and framework plumbing are not modelled:
  - response bodies and error-message strings;
  - `print` and traceback logging;
  - `select_related`;
  - the overrides of `ShowingViewSet.list`, `create` and `update`, which only log and wrap the framework's own create-read-update-delete in a try block.
- `Serializers.Save`, `Models.UpdateBooking`: the serializer's field validation is not modelled. The source refuses a price beyond `max_digits`, or a seat count outside the column, with 400 before saving. These two functions accept any value.
- The broad `except` branches that answer 500 are not modelled. No exception can arise in the model on those paths.
- `Serializers.ToRepresentation`: the source reads `instance.movie` and `instance.theater` through non-null foreign keys. These never read as null: a dangling key raises, which the handlers answer with 500. So the "Unknown Movie" / "Unknown Theater" fallbacks are dead code. The model takes the related rows as found by key and falls back when a lookup finds nothing. `RepresentationOfStoredShowing` proves that in a consistent store the fallback is never taken.
- `MoviesViews.TodayShowings` and `MoviesViews.UserBookings` return the selected rows. The source returns their serializer output. That output is `Serializers.RepresentShowing` and `Serializers.RepresentBooking` applied row by row.
- `UsersViews.ListUsers` and `UsersViews.CreateUser` return the stored `User` rows, stored credential included. The source returns `UserSerializer` output instead. The user serializer (users/serializers.py) is not part of this model. `BookShowing` returns the serialized booking itself.
- `Serializers.Validate`: adding the duration to the start cannot overflow on unbounded integer minutes. In the source, a result past the datetime range raises `OverflowError`, which the showing `create` override answers with 400.
- The framework's plain create, retrieve and update of movies, theaters, showings and snacks are not modelled, apart from what the schema implies: `Save`, `UpdateBooking` and the cascade deletes.
- `debug_showings` is not modelled. It is a debugging dump.
- The populate_data seeding command is not modelled. It is random data written to standard output.
- settings.py and urls.py are configuration. The sign-up handler is not routed in urls.py, but it is modelled as code.
- inventory/models.py and inventory/serializers.py declare a schema and a serializer with no behaviour. No SnackItem datatype is needed.
- The `__str__` methods of the models are not modelled. They only format text.
- Time zones and `strftime` are parameters. `today` and `now` are inputs, and formatted times are the uninterpreted `format` function.
- The float cast of prices is not modelled. Prices stay integer cents.
- Handler inputs are typed. `showing_id` and `seats` are optional integers, `is_staff_member` an optional boolean. A non-numeric string (a 400 in the source) and an explicit JSON null for `is_staff_member` are not represented.
- Concurrency and transactions are not modelled. Two simultaneous bookings, row locking and sequence gaps left by failed inserts belong to the database.
- Sessions are not modelled. The framework's `login()` call also stamps the user's `last_login`. Neither the session nor that time stamp has any effect in the model.
- Password hashing lives in the `verify` parameter. On a successful login the framework's password check may rewrite the stored hash with a newer algorithm. That write is not modelled, so `UsersViews.Login` leaves the users table unchanged.
- `MoviesViews.UserBookings`: the order among bookings with equal `created_at` is left unspecified, as the database leaves it. The contract promises newest first and a permutation, not one fixed order of ties.
- `UsersViews.Authenticate`: the framework backend's `is_active` check is not modelled. The user model is not part of this model, and no core code reads that flag.
- `UsersViews.CreateUser`: Unicode normalisation of the username and lower-casing of the email domain by the framework's `create_user` are not modelled. Username and email are stored as given.
- `UsersViews.Signup`: like `CreateUser`, no username or email normalisation.
- `UsersViews.Login`: the token key is the given `freshKey`. Uniqueness of keys across users is not modelled; it belongs to the key generator.
- Serializers.Validate: the source updates the validated-data dictionary in place and returns it. The model returns the updated record as a value, which is the same for its only caller.
