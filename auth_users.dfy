/** The auth service's endpoints over the users table (auth_service/src/main.py):
    register, login, read and update the current user, and the superuser listing.

    The table is a sequence of rows in insertion order; an endpoint that raises before
    db.commit() leaves it unchanged.  The column defaults of a new row (is_active,
    is_superuser) live in auth_service/src/db/models/users.py, which is not part of
    this model: they are the registry's constants.  Form and body fields are str, so a
    password or username is passed on as a PyStr whatever its text. */
module AuthUsers {

  import opened Wrappers
  import opened PyValues
  import opened AuthSecurity

  const EMAIL_TAKEN := HttpError(400, "Email already registered", false)
  const USERNAME_TAKEN := HttpError(400, "Username already taken", false)
  const BAD_LOGIN := HttpError(401, "Incorrect username or password", true)
  const NOT_ENOUGH_PERMISSIONS := HttpError(403, "Not enough permissions", false)
  const TOKEN_TYPE := "bearer"
  const DEFAULT_SKIP := 0
  const DEFAULT_LIMIT := 100

  /** schemas.Token. */
  datatype Token = Token(accessToken: string, tokenType: string)

  /** schemas.UserUpdate: every field optional. */
  datatype UserUpdate = UserUpdate(
    email: Option<string>,
    username: Option<string>,
    password: Option<string>,
    isActive: Option<bool>)

  datatype Registry = Registry(users: seq<User>, nextId: int)

  predicate EmailTaken(users: seq<User>, email: string) {
    exists i :: 0 <= i < |users| && users[i].email == email
  }

  predicate UsernameTaken(users: seq<User>, username: string) {
    exists i :: 0 <= i < |users| && users[i].username == username
  }

  /** No two rows share an id, an email or a username, and every id is below the
      next one to hand out. */
  predicate Consistent(r: Registry) {
    && (forall i, j :: 0 <= i < j < |r.users| ==>
          r.users[i].id != r.users[j].id && r.users[i].email != r.users[j].email
          && r.users[i].username != r.users[j].username)
    && (forall i :: 0 <= i < |r.users| ==> r.users[i].id < r.nextId)
  }

  // ---- register_user ----

  /** register_user: the email is checked first, then the username; otherwise one row
      is added holding the hash of the password, and returned. */
  function RegisterStep(r: Registry, email: string, username: string, password: string,
                        hash: string -> string, active: bool, superuser: bool): (Registry, Result<User, HttpError>)
  {
    if EmailTaken(r.users, email) then (r, Err(EMAIL_TAKEN))
    else if UsernameTaken(r.users, username) then (r, Err(USERNAME_TAKEN))
    else
      var hashed := GetPasswordHash(PyStr(password), hash).value;
      var u := User(r.nextId, email, username, hashed, active, superuser);
      (Registry(r.users + [u], r.nextId + 1), Ok(u))
  }

  /** A taken email fails with 400 "Email already registered" even when the username
      is taken too; a taken username alone fails with "Username already taken"; both
      leave the table as it was.  Otherwise exactly one row is appended, with the
      given email and username and the hash of the password, not the password. */
  lemma RegisterSpec(r: Registry, email: string, username: string, password: string,
                     hash: string -> string, active: bool, superuser: bool)
    ensures var (r', out) := RegisterStep(r, email, username, password, hash, active, superuser);
            && (EmailTaken(r.users, email) ==> r' == r && out == Err(EMAIL_TAKEN))
            && (!EmailTaken(r.users, email) && UsernameTaken(r.users, username) ==> r' == r && out == Err(USERNAME_TAKEN))
            && (out.Ok? <==> !EmailTaken(r.users, email) && !UsernameTaken(r.users, username))
            && (out.Ok? ==> r'.users == r.users + [out.value]
                            && out.value.email == email && out.value.username == username
                            && out.value.hashedPassword == hash(password))
  {
  }

  /** Registration keeps ids, emails and usernames unique. */
  lemma RegisterKeepsConsistent(r: Registry, email: string, username: string, password: string,
                                hash: string -> string, active: bool, superuser: bool)
    requires Consistent(r)
    ensures Consistent(RegisterStep(r, email, username, password, hash, active, superuser).0)
  {
    var (r', out) := RegisterStep(r, email, username, password, hash, active, superuser);
    if out.Ok? {
      var n := |r.users|;
      forall i | 0 <= i < n
        ensures r'.users[i].email != r'.users[n].email && r'.users[i].username != r'.users[n].username
      {
        assert r'.users[i] == r.users[i];
      }
    }
  }

  // ---- login_for_access_token ----

  /** login_for_access_token: the first user with the username must exist and the
      password verify against its hash; the token's only claims are "sub" (the
      username) and "exp", now plus the configured minutes. */
  function LoginStep(users: seq<User>, username: string, password: string,
                     verify: (string, string) -> Option<bool>, encode: Claims -> string,
                     now: int, expireMinutes: int): Result<Token, HttpError>
  {
    match FindByUsername(users, username)
    case None => Err(BAD_LOGIN)
    case Some(i) =>
      if !VerifyPassword(PyStr(password), PyStr(users[i].hashedPassword), verify) then Err(BAD_LOGIN)
      else
        var delta := Some(expireMinutes * ONE_MINUTE);
        Ok(Token(CreateAccessToken(map["sub" := PyStr(users[i].username)], delta, now, encode), TOKEN_TYPE))
  }

  /** An unknown username and a wrong password give the same 401; a login succeeds
      exactly when the user exists and the password verifies, and then the token is
      of type "bearer" with "sub" the username. */
  lemma LoginSpec(users: seq<User>, username: string, password: string,
                  verify: (string, string) -> Option<bool>, encode: Claims -> string,
                  now: int, expireMinutes: int)
    ensures var out := LoginStep(users, username, password, verify, encode, now, expireMinutes);
            var found := FindByUsername(users, username);
            && (out.Err? ==> out.error == BAD_LOGIN)
            && (out.Ok? <==> found.Some? && verify(password, users[found.value].hashedPassword) == Some(true))
            && (out.Ok? ==>
                  && out.value.tokenType == "bearer"
                  && out.value.accessToken
                     == encode(TokenClaims(map["sub" := PyStr(username)], Some(expireMinutes * ONE_MINUTE), now)))
  {
    var found := FindByUsername(users, username);
    if found.Some? {
      VerifyPasswordSpec(PyStr(password), PyStr(users[found.value].hashedPassword), verify);
    }
  }

  /** Whoever registers can log in with the same username and password, as long as
      the hashing library accepts its own hashes. */
  lemma RegisterThenLogin(r: Registry, email: string, username: string, password: string,
                          hash: string -> string, verify: (string, string) -> Option<bool>,
                          active: bool, superuser: bool, encode: Claims -> string, now: int, expireMinutes: int)
    requires verify(password, hash(password)) == Some(true)
    requires RegisterStep(r, email, username, password, hash, active, superuser).1.Ok?
    ensures var r' := RegisterStep(r, email, username, password, hash, active, superuser).0;
            LoginStep(r'.users, username, password, verify, encode, now, expireMinutes).Ok?
  {
    var r' := RegisterStep(r, email, username, password, hash, active, superuser).0;
    var n := |r.users|;
    assert !UsernameTaken(r.users, username);
    forall j | 0 <= j < n ensures r'.users[j].username != username {
      assert r'.users[j] == r.users[j];
    }
    assert |r'.users| == n + 1 && r'.users[n].username == username;
    var found := FindByUsername(r'.users, username);
    assert found == Some(n);
    VerifyPasswordSpec(PyStr(password), PyStr(r'.users[n].hashedPassword), verify);
  }

  // ---- update_user_me ----

  /** A truthy value that differs from the current one. */
  predicate Changes(value: Option<string>, current: string) {
    value.Some? && value.value != "" && value.value != current
  }

  /** The row update_user_me writes for user `u` (when no uniqueness check fails). */
  function Updated(u: User, upd: UserUpdate, hash: string -> string): User
  {
    u.(email := if Changes(upd.email, u.email) then upd.email.value else u.email,
       username := if Changes(upd.username, u.username) then upd.username.value else u.username,
       hashedPassword := if upd.password.Some? && upd.password.value != "" then hash(upd.password.value) else u.hashedPassword,
       isActive := if upd.isActive.Some? then upd.isActive.value else u.isActive)
  }

  /** update_user_me: authenticate the active user, check a changing email and then a
      changing username for uniqueness, then write and commit the row. */
  function UpdateStep(r: Registry, token: string, decode: string -> Option<Claims>,
                      upd: UserUpdate, hash: string -> string): (Registry, Result<User, HttpError>)
  {
    match ActiveUserIndex(token, decode, r.users)
    case Err(e) => (r, Err(e))
    case Ok(i) =>
      var u := r.users[i];
      if Changes(upd.email, u.email) && EmailTaken(r.users, upd.email.value) then (r, Err(EMAIL_TAKEN))
      else if Changes(upd.username, u.username) && UsernameTaken(r.users, upd.username.value) then (r, Err(USERNAME_TAKEN))
      else
        var u' := Updated(u, upd, hash);
        (r.(users := r.users[i := u']), Ok(u'))
  }

  /** What an update changes: only the authenticated user's row; the email or
      username only for a truthy, different value; the password hash only when a
      password is given; is_active whenever a value is given, False included.  The id
      and the superuser flag never change.  Any error leaves the table unchanged. */
  lemma UpdateSpec(r: Registry, token: string, decode: string -> Option<Claims>,
                   upd: UserUpdate, hash: string -> string)
    ensures var (r', out) := UpdateStep(r, token, decode, upd, hash);
            && (out.Err? ==> r' == r)
            && (out.Ok? ==>
                  var i := ActiveUserIndex(token, decode, r.users).value;
                  var u := r.users[i];
                  && |r'.users| == |r.users| && r'.users[i] == out.value
                  && (forall j :: 0 <= j < |r.users| && j != i ==> r'.users[j] == r.users[j])
                  && out.value.id == u.id && out.value.isSuperuser == u.isSuperuser
                  && (upd.email.None? || upd.email.value == "" ==> out.value.email == u.email)
                  && (upd.email.Some? && upd.email.value != "" ==> out.value.email == upd.email.value)
                  && (upd.username.None? || upd.username.value == "" ==> out.value.username == u.username)
                  && (upd.username.Some? && upd.username.value != "" ==> out.value.username == upd.username.value)
                  && (upd.password.Some? && upd.password.value != "" ==> out.value.hashedPassword == hash(upd.password.value))
                  && (upd.password.None? || upd.password.value == "" ==> out.value.hashedPassword == u.hashedPassword)
                  && out.value.isActive == (if upd.isActive.Some? then upd.isActive.value else u.isActive))
  {
  }

  /** A new email or username that another row already holds fails with 400 before
      anything is written. */
  lemma UpdateRejectsTaken(r: Registry, token: string, decode: string -> Option<Claims>,
                           upd: UserUpdate, hash: string -> string)
    requires ActiveUserIndex(token, decode, r.users).Ok?
    ensures var i := ActiveUserIndex(token, decode, r.users).value;
            var (r', out) := UpdateStep(r, token, decode, upd, hash);
            && (Changes(upd.email, r.users[i].email) && EmailTaken(r.users, upd.email.value) ==>
                  r' == r && out == Err(EMAIL_TAKEN))
            && (!(Changes(upd.email, r.users[i].email) && EmailTaken(r.users, upd.email.value))
                && Changes(upd.username, r.users[i].username) && UsernameTaken(r.users, upd.username.value) ==>
                  r' == r && out == Err(USERNAME_TAKEN))
  {
  }

  /** Updates keep ids, emails and usernames unique. */
  lemma UpdateKeepsConsistent(r: Registry, token: string, decode: string -> Option<Claims>,
                              upd: UserUpdate, hash: string -> string)
    requires Consistent(r)
    ensures Consistent(UpdateStep(r, token, decode, upd, hash).0)
  {
    var (r', out) := UpdateStep(r, token, decode, upd, hash);
    if out.Ok? {
      var i := ActiveUserIndex(token, decode, r.users).value;
      var u := r.users[i];
      forall a, b | 0 <= a < b < |r'.users|
        ensures r'.users[a].id != r'.users[b].id && r'.users[a].email != r'.users[b].email
                && r'.users[a].username != r'.users[b].username
      {
        if a == i || b == i {
          var other := if a == i then b else a;
          assert r'.users[other] == r.users[other];
          if Changes(upd.email, u.email) {
            assert !EmailTaken(r.users, upd.email.value);
          }
          if Changes(upd.username, u.username) {
            assert !UsernameTaken(r.users, upd.username.value);
          }
        }
      }
    }
  }

  // ---- read_users ----

  /** users[skip : skip + limit]: OFFSET and LIMIT over the table in its order. */
  function Page(users: seq<User>, skip: nat, limit: nat): (page: seq<User>)
    ensures |page| <= limit
    ensures skip >= |users| ==> page == []
    ensures skip < |users| ==> |page| == if skip + limit <= |users| then limit else |users| - skip
    ensures forall k :: 0 <= k < |page| ==> page[k] == users[skip + k]
  {
    if skip >= |users| then []
    else if skip + limit <= |users| then users[skip..skip + limit]
    else users[skip..]
  }

  /** Consecutive pages make up the larger page that spans both. */
  lemma PagesConcatenate(users: seq<User>, skip: nat, a: nat, b: nat)
    ensures Page(users, skip, a) + Page(users, skip + a, b) == Page(users, skip, a + b)
  {
    var left, right, whole := Page(users, skip, a), Page(users, skip + a, b), Page(users, skip, a + b);
    assert |left + right| == |whole|;
    forall k | 0 <= k < |whole| ensures (left + right)[k] == whole[k] {
      if k >= |left| {
        assert (left + right)[k] == right[k - |left|];
      }
    }
  }

  /** read_users: the active user must be a superuser. */
  function ReadUsersStep(users: seq<User>, token: string, decode: string -> Option<Claims>,
                         skip: nat, limit: nat): Result<seq<User>, HttpError>
  {
    match ActiveUserIndex(token, decode, users)
    case Err(e) => Err(e)
    case Ok(i) => if !users[i].isSuperuser then Err(NOT_ENOUGH_PERMISSIONS) else Ok(Page(users, skip, limit))
  }

  /** A non-superuser gets 403 "Not enough permissions"; a superuser gets the page;
      with the default skip and limit, the first hundred users. */
  lemma ReadUsersSpec(users: seq<User>, token: string, decode: string -> Option<Claims>, skip: nat, limit: nat)
    ensures var out := ReadUsersStep(users, token, decode, skip, limit);
            var me := CurrentActiveUser(token, decode, users);
            && (me.Err? ==> out == Err(me.error))
            && (me.Ok? && !me.value.isSuperuser ==> out == Err(NOT_ENOUGH_PERMISSIONS))
            && (me.Ok? && me.value.isSuperuser ==> out == Ok(Page(users, skip, limit)))
            && (me.Ok? && me.value.isSuperuser && skip == DEFAULT_SKIP && limit == DEFAULT_LIMIT ==>
                  out.value == (if |users| <= 100 then users else users[..100]))
  {
  }

  // ---- the table ----

  class UserRegistry {
    const defaultActive: bool
    const defaultSuperuser: bool
    var users: seq<User>
    var nextId: int

    function State(): Registry
      reads this
    {
      Registry(users, nextId)
    }

    constructor (active: bool, superuser: bool)
      ensures defaultActive == active && defaultSuperuser == superuser
      ensures State() == Registry([], 1)
    {
      defaultActive := active;
      defaultSuperuser := superuser;
      users := [];
      nextId := 1;
    }

    method Register(email: string, username: string, password: string, hash: string -> string)
      returns (out: Result<User, HttpError>)
      modifies this
      ensures (State(), out) == RegisterStep(old(State()), email, username, password, hash, defaultActive, defaultSuperuser)
    {
      if EmailTaken(users, email) {
        return Err(EMAIL_TAKEN);
      }
      if UsernameTaken(users, username) {
        return Err(USERNAME_TAKEN);
      }
      var hashed := GetPasswordHash(PyStr(password), hash);
      var u := User(nextId, email, username, hashed.value, defaultActive, defaultSuperuser);
      users := users + [u];
      nextId := nextId + 1;
      return Ok(u);
    }

    method Login(username: string, password: string, verify: (string, string) -> Option<bool>,
                 encode: Claims -> string, now: int, expireMinutes: int)
      returns (out: Result<Token, HttpError>)
      ensures out == LoginStep(users, username, password, verify, encode, now, expireMinutes)
    {
      var found := FindByUsername(users, username);
      if found.None? || !VerifyPassword(PyStr(password), PyStr(users[found.value].hashedPassword), verify) {
        return Err(BAD_LOGIN);
      }
      var expires := Some(expireMinutes * ONE_MINUTE);
      var token := CreateAccessToken(map["sub" := PyStr(users[found.value].username)], expires, now, encode);
      return Ok(Token(token, TOKEN_TYPE));
    }

    /** read_users_me: the current active user. */
    method ReadMe(token: string, decode: string -> Option<Claims>) returns (out: Result<User, HttpError>)
      ensures out == CurrentActiveUser(token, decode, users)
    {
      var me := ActiveUserIndex(token, decode, users);
      if me.Err? {
        return Err(me.error);
      }
      return Ok(users[me.value]);
    }

    method UpdateMe(token: string, decode: string -> Option<Claims>, upd: UserUpdate, hash: string -> string)
      returns (out: Result<User, HttpError>)
      modifies this
      ensures (State(), out) == UpdateStep(old(State()), token, decode, upd, hash)
    {
      var me := ActiveUserIndex(token, decode, users);
      if me.Err? {
        return Err(me.error);
      }
      var i := me.value;
      var current := users[i];
      if Changes(upd.email, current.email) {
        if EmailTaken(users, upd.email.value) {
          return Err(EMAIL_TAKEN);
        }
        current := current.(email := upd.email.value);
      }
      if Changes(upd.username, current.username) {
        if UsernameTaken(users, upd.username.value) {
          return Err(USERNAME_TAKEN);
        }
        current := current.(username := upd.username.value);
      }
      if upd.password.Some? && upd.password.value != "" {
        var hashed := GetPasswordHash(PyStr(upd.password.value), hash);
        current := current.(hashedPassword := hashed.value);
      }
      if upd.isActive.Some? {
        current := current.(isActive := upd.isActive.value);
      }
      users := users[i := current];
      return Ok(current);
    }

    method ReadUsers(token: string, decode: string -> Option<Claims>, skip: nat, limit: nat)
      returns (out: Result<seq<User>, HttpError>)
      ensures out == ReadUsersStep(users, token, decode, skip, limit)
    {
      var me := ActiveUserIndex(token, decode, users);
      if me.Err? {
        return Err(me.error);
      }
      if !users[me.value].isSuperuser {
        return Err(NOT_ENOUGH_PERMISSIONS);
      }
      return Ok(Page(users, skip, limit));
    }
  }
}
