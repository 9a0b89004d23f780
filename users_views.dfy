/** The user-side request handlers: login with a per-user token created once and reused,
    the admin-only user creation and listing, and self sign-up. Checking a password is the
    framework's business: it is the `verify` parameter, applied to the stored credential. */
module UsersViews {
  import opened Common
  import opened Models
  import opened Access
  import opened Database

  /** The body of a successful login or sign-up. */
  datatype LoginReply = LoginReply(username: string, isStaffMember: bool, token: string)

  function NamedAs(name: string): User -> bool {
    (u: User) => u.username == name
  }

  /** The authentication backend: no user without both a username and a password; else the
      stored user with that username, if `verify` accepts the password against that user's
      stored credential (an unusable credential accepts nothing). */
  function Authenticate(users: seq<User>, username: Option<string>, password: Option<string>,
                        verify: (string, string) -> bool): (r: Option<User>)
    ensures username.None? || password.None? ==> r.None?
    ensures r.Some? ==>
              && r.value in users && username == Some(r.value.username)
              && r.value.password.Some? && verify(password.value, r.value.password.value)
    ensures DistinctBy(users, UserName) && username.Some? && password.Some? && r.None? ==>
              forall u :: u in users && u.username == username.value ==>
                u.password.None? || !verify(password.value, u.password.value)
  {
    if username.None? || password.None? then None
    else
      match Find(users, NamedAs(username.value))
      case None => None
      case Some(u) =>
        if u.password.Some? && verify(password.value, u.password.value) then Some(u)
        else
          assert DistinctBy(users, UserName) ==>
                   forall v :: v in users && v.username == username.value ==> v == u by {
            if DistinctBy(users, UserName) {
              forall v | v in users && v.username == username.value ensures v == u {
                var i :| 0 <= i < |users| && users[i] == u;
                var j :| 0 <= j < |users| && users[j] == v;
                assert UserName(users[i]) == UserName(users[j]);
              }
            }
          }
          None
  }

  /** `Token.objects.get_or_create(user=...)`: a user who has a token keeps it; a user who
      has none gets `key`. No other user's token changes. */
  function GetOrCreateToken(tokens: map<Id, string>, user: Id, key: string): (r: (map<Id, string>, string))
    ensures r.0.Keys == tokens.Keys + {user}
    ensures user in r.0 && r.1 == r.0[user]
    ensures forall k :: k in tokens ==> r.0[k] == tokens[k]
    ensures user !in tokens ==> r.1 == key
  {
    if user in tokens then (tokens, tokens[user]) else (tokens[user := key], key)
  }

  /** Logging in again returns the token of the first login, whatever key is offered. */
  lemma RepeatedLoginReusesToken(tokens: map<Id, string>, user: Id, first: string, second: string)
    ensures var (after, token) := GetOrCreateToken(tokens, user, first);
            GetOrCreateToken(after, user, second) == (after, token)
  {
  }

  /** `login_view`: credentials that do not authenticate are Unauthorized and change
      nothing; otherwise the user's token (created on first login) is returned with the
      username and the `is_staff_member` flag. */
  method Login(store: Store, username: Option<string>, password: Option<string>,
               verify: (string, string) -> bool, freshKey: string)
    returns (status: Status, reply: Option<LoginReply>)
    requires store.Valid()
    modifies store
    ensures store.Valid()
    ensures store.nextBookingId == old(store.nextBookingId) && store.nextUserId == old(store.nextUserId)
    ensures var u := Authenticate(old(store.db.users), username, password, verify);
            && (u.None? ==> status == Unauthorized && reply.None? && store.db == old(store.db))
            && (u.Some? ==>
                  && status == Ok
                  && store.db == old(store.db).(tokens := GetOrCreateToken(old(store.db.tokens), u.value.id, freshKey).0)
                  && reply == Some(LoginReply(u.value.username, u.value.isStaffMember, store.db.tokens[u.value.id])))
            && (u.Some? && u.value.id in old(store.db.tokens) ==>
                  store.db == old(store.db) && reply.value.token == old(store.db.tokens)[u.value.id])
  {
    var user := Authenticate(store.db.users, username, password, verify);
    if user.None? {
      return Unauthorized, None;
    }
    var (tokens, key) := GetOrCreateToken(store.db.tokens, user.value.id, freshKey);
    assert user.value.id in UserIds(store.db);
    store.db := store.db.(tokens := tokens);
    return Ok, Some(LoginReply(user.value.username, user.value.isStaffMember, key));
  }

  const AdminOnlyPermissions := [IsAdminUser]

  /** Some stored user already has the requested username. */
  predicate UsernameTaken(users: seq<User>, username: Option<string>) {
    username.Some? && exists u :: u in users && u.username == username.value
  }

  /** The framework's `create_user` refuses a missing or empty username, and the column
      refuses one longer than it holds. */
  predicate UsableUsername(username: Option<string>) {
    username.Some? && 0 < |username.value| <= MaxUsernameLength
  }

  /** An absent email is stored empty; a present one must fit the column. */
  predicate UsableEmail(email: Option<string>) {
    email.None? || |email.value| <= MaxEmailLength
  }

  /** The admin-only handlers decide exactly as the reference table does for users. */
  lemma AdminOnlyFollowsPolicy(a: Action, c: Caller)
    ensures Permits(AdminOnlyPermissions, c) <==> Meets(c, Policy(UserResource, a))
  {
    PermitsOne(IsAdminUser, c);
  }

  /** Adds a user under the next key; the store must accept the username. */
  method InsertUser(store: Store, u: User)
    requires store.Valid()
    requires u.id == store.nextUserId
    requires forall x :: x in store.db.users ==> x.username != u.username
    requires UserFits(u)
    modifies store
    ensures store.Valid()
    ensures store.db == old(store.db).(users := old(store.db.users) + [u])
    ensures store.nextUserId == old(store.nextUserId) + 1 && store.nextBookingId == old(store.nextBookingId)
  {
    AddUserKeepsIntegrity(store.db, u);
    store.db := store.db.(users := store.db.users + [u]);
    store.nextUserId := store.nextUserId + 1;
  }

  /** `create_user`: staff only. A taken username, a missing, empty or overlong one, or an
      overlong email is BadRequest and adds nothing; otherwise exactly one user is added with the given
      username, email (empty when absent) and `is_staff_member` (false when absent), and
      without either framework staff flag. */
  method CreateUser(store: Store, caller: Caller, username: Option<string>, email: Option<string>,
                    password: Option<string>, isStaffMember: Option<bool>)
    returns (status: Status, created: Option<User>)
    requires store.Valid()
    modifies store
    ensures store.Valid()
    ensures store.nextBookingId == old(store.nextBookingId)
    ensures !Permits(AdminOnlyPermissions, caller) ==> status == DenialStatus(caller)
    ensures Permits(AdminOnlyPermissions, caller) &&
            (UsernameTaken(old(store.db.users), username) || !UsableUsername(username) ||
             !UsableEmail(email)) ==>
              status == BadRequest
    ensures status == Created <==>
              Permits(AdminOnlyPermissions, caller) &&
              !UsernameTaken(old(store.db.users), username) && UsableUsername(username) &&
              UsableEmail(email)
    ensures status != Created ==>
              created.None? && store.db == old(store.db) && store.nextUserId == old(store.nextUserId)
    ensures status == Created ==>
              var u := User(old(store.nextUserId), username.value, email.GetOr(""), password,
                            isStaffMember.GetOr(false), false, false);
              && store.db == old(store.db).(users := old(store.db.users) + [u])
              && store.nextUserId == old(store.nextUserId) + 1
              && created == Some(u)
  {
    PermitsOne(IsAdminUser, caller);
    if !Permits(AdminOnlyPermissions, caller) {
      return DenialStatus(caller), None;
    }
    var staffMember := isStaffMember.GetOr(false);
    if UsernameTaken(store.db.users, username) {
      return BadRequest, None;
    }
    if !UsableUsername(username) || !UsableEmail(email) {
      return BadRequest, None;
    }
    var u := User(store.nextUserId, username.value, email.GetOr(""), password, staffMember, false, false);
    InsertUser(store, u);
    return Created, Some(u);
  }

  /** `list_users`: staff only; every stored user, in table order. */
  function ListUsers(db: Db, caller: Caller): (r: (Status, seq<User>))
    ensures r.0 == Ok <==> caller.SignedIn? && caller.user.isStaff
    ensures r.0 == Ok ==> r.1 == db.users
    ensures r.0 != Ok ==> r == (DenialStatus(caller), [])
  {
    PermitsOne(IsAdminUser, caller);
    if Permits(AdminOnlyPermissions, caller) then (Ok, db.users) else (DenialStatus(caller), [])
  }

  /** `signup_view`: open to anyone. A taken username, a missing, empty or overlong one, or
      an overlong email is BadRequest and adds nothing; otherwise one user is added whose framework `is_staff`
      flag equals the requested `is_staff_member` (false when absent), and a new token is
      issued for them. */
  method Signup(store: Store, username: Option<string>, email: Option<string>,
                password: Option<string>, isStaffMember: Option<bool>, freshKey: string)
    returns (status: Status, reply: Option<LoginReply>)
    requires store.Valid()
    modifies store
    ensures store.Valid()
    ensures store.nextBookingId == old(store.nextBookingId)
    ensures status == Ok <==>
              !UsernameTaken(old(store.db.users), username) && UsableUsername(username) && UsableEmail(email)
    ensures status != Ok ==>
              status == BadRequest && reply.None? &&
              store.db == old(store.db) && store.nextUserId == old(store.nextUserId)
    ensures status == Ok ==>
              var staff := isStaffMember.GetOr(false);
              var u := User(old(store.nextUserId), username.value, email.GetOr(""), password, staff, staff, false);
              && store.db == old(store.db).(users := old(store.db.users) + [u],
                                            tokens := old(store.db.tokens)[u.id := freshKey])
              && store.nextUserId == old(store.nextUserId) + 1
              && reply == Some(LoginReply(u.username, staff, freshKey))
  {
    var staffMember := isStaffMember.GetOr(false);
    if UsernameTaken(store.db.users, username) {
      return BadRequest, None;
    }
    if !UsableUsername(username) || !UsableEmail(email) {
      return BadRequest, None;
    }
    var u := User(store.nextUserId, username.value, email.GetOr(""), password, staffMember, staffMember, false);
    assert u.id !in store.db.tokens by {
      assert forall k :: k in store.db.tokens ==> k in UserIds(store.db);
    }
    InsertUser(store, u);
    var (tokens, key) := GetOrCreateToken(store.db.tokens, u.id, freshKey);
    assert u in store.db.users;
    store.db := store.db.(tokens := tokens);
    return Ok, Some(LoginReply(u.username, u.isStaffMember, key));
  }
}
