/** The auth service's security helpers (auth_service/src/security.py): the guards
    around password hashing and verification, the claims of an access token, and the
    checks that turn a token into the current (active) user.

    The libraries are parameters: `hash(p)` is passlib's hash of p; `verify(p, h)` is
    passlib's verdict, or None when it raises; `encode(claims)` is jose's jwt.encode
    with the configured key and algorithm; `decode(token)` is jwt.decode, or None when
    it raises JWTError (bad signature, expired "exp", a "sub" that is not a str).
    Times are integer instants in microseconds.  Every str here (a password, a claim
    such as "sub") is a PyStr, whatever its text, so `.PyStr?` is isinstance(x, str). */
module AuthSecurity {

  import opened Wrappers
  import opened PyValues

  type Claims = map<string, PyValue>

  /** A row of the users table. */
  datatype User = User(
    id: int,
    email: string,
    username: string,
    hashedPassword: string,
    isActive: bool,
    isSuperuser: bool)

  /** An HTTPException: status, detail and whether it carries WWW-Authenticate: Bearer. */
  datatype HttpError = HttpError(status: int, detail: string, bearerChallenge: bool)

  const FIFTEEN_MINUTES := 900_000_000
  const ONE_MINUTE := 60_000_000

  const CREDENTIALS_ERROR := HttpError(401, "Could not validate credentials", true)
  const INACTIVE_ERROR := HttpError(400, "Inactive user", false)

  /** get_password_hash raises TypeError("password must be a str"). */
  datatype HashError = PasswordNotStr

  /** get_password_hash: a str password is hashed; anything else raises TypeError. */
  function GetPasswordHash(password: PyValue, hash: string -> string): (r: Result<string, HashError>)
    ensures r.Ok? <==> password.PyStr?
    ensures r.Ok? ==> r.value == hash(password.s)
    ensures r.Err? ==> r.error == PasswordNotStr
  {
    if !password.PyStr? then Err(PasswordNotStr) else Ok(hash(password.s))
  }

  /** verify_password: False unless both arguments are str and the library answers
      True; a library exception also gives False, so no input makes it raise. */
  function VerifyPassword(plain: PyValue, hashed: PyValue, verify: (string, string) -> Option<bool>): (ok: bool)
  {
    if !plain.PyStr? || !hashed.PyStr? then false
    else match verify(plain.s, hashed.s)
      case None => false
      case Some(answer) => answer
  }

  /** verify_password accepts exactly when both arguments are str and the library
      says True without raising. */
  lemma VerifyPasswordSpec(plain: PyValue, hashed: PyValue, verify: (string, string) -> Option<bool>)
    ensures VerifyPassword(plain, hashed, verify) <==>
            plain.PyStr? && hashed.PyStr? && verify(plain.s, hashed.s) == Some(true)
  {
  }

  /** With a library that accepts its own hashes, a password verifies against the
      hash get_password_hash made of it. */
  lemma HashThenVerify(password: string, hash: string -> string, verify: (string, string) -> Option<bool>)
    requires verify(password, hash(password)) == Some(true)
    ensures var h := GetPasswordHash(PyStr(password), hash);
            h.Ok? && VerifyPassword(PyStr(password), PyStr(h.value), verify)
  {
  }

  /** The expiry: now plus the delta when the delta is truthy (a timedelta is falsy
      only when zero), otherwise now plus fifteen minutes. */
  function Expiry(now: int, delta: Option<int>): (exp: int)
  {
    if delta.Some? && delta.value != 0 then now + delta.value else now + FIFTEEN_MINUTES
  }

  lemma ExpirySpec(now: int, delta: Option<int>)
    ensures delta.Some? && delta.value != 0 ==> Expiry(now, delta) == now + delta.value
    ensures delta.None? || delta.value == 0 ==> Expiry(now, delta) == now + 15 * ONE_MINUTE
  {
  }

  /** The dict create_access_token encodes: a copy of `data` with "exp" set. */
  function TokenClaims(data: Claims, delta: Option<int>, now: int): (claims: Claims)
  {
    data["exp" := PyDateTime(Expiry(now, delta))]
  }

  /** The encoded claims are the caller's data, each key with its value, plus "exp"
      (replacing any "exp" the data had), and nothing else. */
  lemma TokenClaimsSpec(data: Claims, delta: Option<int>, now: int)
    ensures var claims := TokenClaims(data, delta, now);
            && claims.Keys == data.Keys + {"exp"}
            && claims["exp"] == PyDateTime(Expiry(now, delta))
            && (forall k <- data :: k != "exp" ==> claims[k] == data[k])
  {
  }

  /** create_access_token. */
  function CreateAccessToken(data: Claims, delta: Option<int>, now: int, encode: Claims -> string): string
  {
    encode(TokenClaims(data, delta, now))
  }

  /** The index of the first user with this username (result.scalar() / .first()). */
  function FindByUsername(users: seq<User>, name: string): (r: Option<nat>)
    ensures r.Some? ==> r.value < |users| && users[r.value].username == name
    ensures r.Some? ==> forall j :: 0 <= j < r.value ==> users[j].username != name
    ensures r.None? ==> forall j :: 0 <= j < |users| ==> users[j].username != name
  {
    if users == [] then None
    else if users[0].username == name then Some(0)
    else match FindByUsername(users[1..], name)
      case None => None
      case Some(i) => Some(i + 1)
  }

  /** The "sub" claim, when it is a str. */
  function Subject(payload: Claims): Option<string>
  {
    if "sub" in payload && payload["sub"].PyStr? then Some(payload["sub"].s) else None
  }

  /** get_current_user, as the index of the user found. */
  function CurrentUserIndex(token: string, decode: string -> Option<Claims>, users: seq<User>): (r: Result<nat, HttpError>)
    ensures r.Ok? ==> r.value < |users|
  {
    match decode(token)
    case None => Err(CREDENTIALS_ERROR)
    case Some(payload) =>
      match Subject(payload)
      case None => Err(CREDENTIALS_ERROR)
      case Some(name) =>
        match FindByUsername(users, name)
        case None => Err(CREDENTIALS_ERROR)
        case Some(i) => Ok(i)
  }

  function CurrentUser(token: string, decode: string -> Option<Claims>, users: seq<User>): Result<User, HttpError>
  {
    match CurrentUserIndex(token, decode, users)
    case Err(e) => Err(e)
    case Ok(i) => Ok(users[i])
  }

  /** get_current_user succeeds exactly when the token decodes, its "sub" is a str
      and some user has that username; it then returns the first such user. Every
      failure is the same 401 "Could not validate credentials" with the Bearer
      challenge. */
  lemma CurrentUserSpec(token: string, decode: string -> Option<Claims>, users: seq<User>)
    ensures var r := CurrentUser(token, decode, users);
            && (r.Ok? <==> decode(token).Some? && Subject(decode(token).value).Some?
                           && exists j :: 0 <= j < |users| && users[j].username == Subject(decode(token).value).value)
            && (r.Ok? ==> r.value.username == Subject(decode(token).value).value && r.value in users)
            && (r.Err? ==> r.error == CREDENTIALS_ERROR)
  {
    var r := CurrentUser(token, decode, users);
    if decode(token).Some? && Subject(decode(token).value).Some? {
      var name := Subject(decode(token).value).value;
      if exists j :: 0 <= j < |users| && users[j].username == name {
        var j :| 0 <= j < |users| && users[j].username == name;
        assert FindByUsername(users, name).Some?;
      }
    }
  }

  /** get_current_active_user on the result of get_current_user. */
  function ActiveUserIndex(token: string, decode: string -> Option<Claims>, users: seq<User>): (r: Result<nat, HttpError>)
    ensures r.Ok? ==> r.value < |users|
  {
    match CurrentUserIndex(token, decode, users)
    case Err(e) => Err(e)
    case Ok(i) => if !users[i].isActive then Err(INACTIVE_ERROR) else Ok(i)
  }

  function CurrentActiveUser(token: string, decode: string -> Option<Claims>, users: seq<User>): Result<User, HttpError>
  {
    match ActiveUserIndex(token, decode, users)
    case Err(e) => Err(e)
    case Ok(i) => Ok(users[i])
  }

  /** An inactive user is refused with 400 "Inactive user"; an active one is returned
      unchanged; a failure to authenticate stays the 401. */
  lemma CurrentActiveUserSpec(token: string, decode: string -> Option<Claims>, users: seq<User>)
    ensures var u := CurrentUser(token, decode, users);
            var a := CurrentActiveUser(token, decode, users);
            && (u.Err? ==> a == u)
            && (u.Ok? && !u.value.isActive ==> a == Err(INACTIVE_ERROR))
            && (u.Ok? && u.value.isActive ==> a == u)
  {
  }

  /** A token made for a username identifies that username's first user, provided the
      JWT library accepts its own token and reads back the "sub" it wrote.  Only "sub"
      is required to survive: jose hands "exp" back as an int NumericDate, not the
      datetime it was given. */
  lemma TokenIdentifiesUser(name: string, delta: Option<int>, now: int, encode: Claims -> string,
                            decode: string -> Option<Claims>, users: seq<User>, i: nat)
    requires i < |users| && users[i].username == name
    requires forall j :: 0 <= j < i ==> users[j].username != name
    requires var decoded := decode(encode(TokenClaims(map["sub" := PyStr(name)], delta, now)));
             decoded.Some? && "sub" in decoded.value && decoded.value["sub"] == PyStr(name)
    ensures CurrentUser(CreateAccessToken(map["sub" := PyStr(name)], delta, now, encode), decode, users) == Ok(users[i])
  {
    var k := FindByUsername(users, name);
    assert k == Some(i);
  }
}
