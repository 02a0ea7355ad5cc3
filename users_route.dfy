/**
 * The users endpoints: the per-request guard that turns a bearer token into the live account
 * it names, and the admin-only operations on the user collection.
 */
module UsersRoute {
  import opened Wrappers
  import opened Http
  import opened PyStr
  import opened Crypto
  import opened Schemas
  import opened Security
  import opened Constants

  /** The scopes the three admin endpoints declare. */
  const AdminScopes: seq<string> := ["admin:user"]

  const CredentialsDetail: string := "Could not validate credentials"
  const NotEnoughDetail: string := "Not enough permissions"
  const UserDisabled: HttpError := HttpError(Forbidden, "The user is disabled", None)
  const UserExists: HttpError := HttpError(BadRequest, "User already exists", None)
  const UserNotFound: HttpError := HttpError(NotFound, UserNotFoundMsg, None)

  /** The opening of the challenge that names the required scopes. */
  const ScopeChallengePrefix: string := "Bearer scope='"

  /**
   * The `WWW-Authenticate` value of the guard's 401 errors: a plain `Bearer` challenge, or one
   * that names the endpoint's required scopes, space-separated, in quotes.
   */
  function AuthenticateValue(required: seq<string>): (v: string)
    ensures required == [] ==> v == "Bearer"
    ensures required != [] ==> && |v| > |ScopeChallengePrefix|
                               && v[..|ScopeChallengePrefix|] == ScopeChallengePrefix
                               && v[|v| - 1] == '\''
  {
    if required != [] then ScopeChallengePrefix + JoinSpace(required) + "'" else "Bearer"
  }

  /**
   * The quoted part of a scope challenge is `" ".join` of the required scopes, and so lists
   * them, in order.
   */
  lemma ChallengeNamesRequiredScopes(required: seq<string>)
    requires required != []
    requires forall k :: 0 <= k < |required| ==> IsWord(required[k])
    ensures var v := AuthenticateValue(required);
            && |v| == |ScopeChallengePrefix| + |JoinSpace(required)| + 1
            && v[|ScopeChallengePrefix|..|v| - 1] == JoinSpace(required)
            && Split(v[|ScopeChallengePrefix|..|v| - 1]) == required
  {
    var v := AuthenticateValue(required);
    assert v[|ScopeChallengePrefix|..|v| - 1] == JoinSpace(required);
    SplitJoinSpace(required);
  }

  /** The challenge of the admin endpoints. */
  lemma AdminChallenge()
    ensures AuthenticateValue(AdminScopes) == "Bearer scope='admin:user'"
  {
  }

  /** `credentials_exception`. */
  function CredentialsException(required: seq<string>): (e: HttpError)
    ensures e.status == Unauthorized && e.detail == "Could not validate credentials"
    ensures e.authenticate == Some(AuthenticateValue(required))
    ensures e.authenticate.Some? && (e.authenticate.value == "Bearer" <==> required == [])
  {
    HttpError(Unauthorized, CredentialsDetail, Some(AuthenticateValue(required)))
  }

  /** The 401 raised when the token lacks a required scope. */
  function NotEnoughPermissions(required: seq<string>): (e: HttpError)
    ensures e == CredentialsException(required).(detail := "Not enough permissions")
    ensures e != CredentialsException(required)
  {
    HttpError(Unauthorized, NotEnoughDetail, Some(AuthenticateValue(required)))
  }

  /** `payload.get("scopes", [])`: the token's scopes, none when the claim is missing. */
  function TokenScopes(claims: Claims): (s: seq<string>)
    ensures claims.scopes.None? ==> s == []
    ensures claims.scopes.Some? ==> s == claims.scopes.value
  {
    claims.scopes.GetOr([])
  }

  /** The token decodes and names a non-empty subject. */
  predicate HasSubject(settings: Settings, token: Token) {
    var claims := Decode(settings, token);
    claims.Some? && claims.value.sub.Some? && claims.value.sub.value != ""
  }

  /** The subject of a token that has one. */
  function Subject(settings: Settings, token: Token): string
    requires HasSubject(settings, token)
  {
    Decode(settings, token).value.sub.value
  }

  /**
   * `get_current_user`: decode the token, require a subject, re-fetch the live account it
   * names and require every scope the endpoint declares to be among the TOKEN's scopes.
   * Success returns the account as stored now; every failure is a 401 carrying the challenge.
   */
  function GetCurrentUser(settings: Settings, db: UserDb, required: seq<string>, token: Token)
    : (r: Result<Account, HttpError>)
    ensures r.Ok? <==> && HasSubject(settings, token)
                       && Subject(settings, token) in db
                       && forall s :: s in required ==> s in TokenScopes(Decode(settings, token).value)
    ensures r.Ok? ==> r.value == db[Subject(settings, token)]
    ensures r.Err? ==> r.error == CredentialsException(required) || r.error == NotEnoughPermissions(required)
    ensures r.Err? ==> (r.error == CredentialsException(required) <==>
                          !(HasSubject(settings, token) && Subject(settings, token) in db))
  {
    match Decode(settings, token)
    case None => Err(CredentialsException(required))
    case Some(claims) =>
      if claims.sub.None? || claims.sub.value == "" then Err(CredentialsException(required))
      else
        var username := claims.sub.value;
        if username !in db then Err(CredentialsException(required))
        else if FirstMissing(required, TokenScopes(claims)).Some? then Err(NotEnoughPermissions(required))
        else Ok(db[username])
  }

  /**
   * `get_current_active_user`: the guard above, then a 403 for a disabled account. The scope
   * test runs first, so a disabled account whose token lacks a scope gets the guard's 401.
   */
  function GetCurrentActiveUser(settings: Settings, db: UserDb, required: seq<string>, token: Token)
    : (r: Result<Account, HttpError>)
    ensures r.Ok? <==> GetCurrentUser(settings, db, required, token).Ok? && GetCurrentUser(settings, db, required, token).value.active
    ensures r.Ok? ==> r.value == GetCurrentUser(settings, db, required, token).value
    ensures GetCurrentUser(settings, db, required, token).Err? ==> r == Err(GetCurrentUser(settings, db, required, token).error)
    ensures r.Err? && GetCurrentUser(settings, db, required, token).Ok? ==> r.error == UserDisabled
  {
    match GetCurrentUser(settings, db, required, token)
    case Err(e) => Err(e)
    case Ok(user) => if !user.active then Err(UserDisabled) else Ok(user)
  }

  /** A token that does not decode, or has no subject, or an empty one, is a credentials failure. */
  lemma NoSubjectRejected(settings: Settings, db: UserDb, required: seq<string>, token: Token)
    requires !HasSubject(settings, token)
    ensures GetCurrentActiveUser(settings, db, required, token) == Err(CredentialsException(required))
  {
  }

  /**
   * A correctly signed token whose subject names no stored account, for instance one that was
   * deleted after the token was issued, is a credentials failure too.
   */
  lemma UnknownSubjectRejected(settings: Settings, db: UserDb, required: seq<string>, claims: Claims)
    requires claims.sub.Some? && claims.sub.value != "" && claims.sub.value !in db
    ensures GetCurrentActiveUser(settings, db, required, Encode(settings, claims)) == Err(CredentialsException(required))
  {
    DecodeEncode(settings, claims);
  }

  /**
   * The guard reads scopes from the token, never from the account: a token without a required
   * scope is refused even when the account holds it, and one with the scope passes even when
   * the account no longer holds it.
   */
  lemma GuardTrustsTokenScopes(settings: Settings, db: UserDb, required: seq<string>, claims: Claims, accountScopes: seq<string>)
    requires claims.sub.Some? && claims.sub.value in db && claims.sub.value != ""
    ensures var name := claims.sub.value;
            var db' := db[name := db[name].(scopes := accountScopes)];
            GetCurrentUser(settings, db, required, Encode(settings, claims)).Ok?
            <==> GetCurrentUser(settings, db', required, Encode(settings, claims)).Ok?
    ensures (exists s :: s in required && s !in TokenScopes(claims)) ==>
              GetCurrentUser(settings, db, required, Encode(settings, claims)) == Err(NotEnoughPermissions(required))
  {
    DecodeEncode(settings, claims);
  }

  /** A token without a `scopes` claim passes only guards that require no scope. */
  lemma MissingScopesClaim(settings: Settings, db: UserDb, required: seq<string>, claims: Claims)
    requires claims.scopes.None? && claims.sub.Some? && claims.sub.value in db && claims.sub.value != ""
    ensures GetCurrentUser(settings, db, required, Encode(settings, claims)).Ok? <==> required == []
  {
    DecodeEncode(settings, claims);
  }

  /**
   * A disabled account is refused with 403 when its token passes the guard, and with the
   * guard's 401 when it does not: the scope failure wins.
   */
  lemma DisabledAccountOrdering(settings: Settings, db: UserDb, required: seq<string>, token: Token)
    requires HasSubject(settings, token) && Subject(settings, token) in db
    requires !db[Subject(settings, token)].active
    ensures var scopesOk := forall s :: s in required ==> s in TokenScopes(Decode(settings, token).value);
            GetCurrentActiveUser(settings, db, required, token)
            == if scopesOk then Err(UserDisabled) else Err(NotEnoughPermissions(required))
  {
  }

  /** The user record stored for a create request: its password hashed, stamped with its creator. */
  function StoredAccount(user: UserCreate, creator: string, salt: string): (a: Account)
    ensures a.username == user.username && a.createdBy == creator
    ensures a.email == user.email && a.active == user.active && a.scopes == user.scopes
    ensures forall p :: VerifyPassword(p, a.hashedPassword) <==> p == user.password
  {
    Account(user.username, user.email, user.active, user.scopes, creator, HashPassword(salt, user.password))
  }

  /**
   * The user collection the users endpoints work on, filed by username; `GetByName`,
   * `Create` and `RemoveByName` are the collection operations the handlers call.
   */
  class UserCollection {
    var users: UserDb

    ghost predicate Valid()
      reads this
    {
      KeyedByUsername(users)
    }

    constructor (initial: UserDb)
      requires KeyedByUsername(initial)
      ensures Valid() && users == initial
    {
      users := initial;
    }

    /** `get_by_name`: the document filed under `name`, if any. */
    method GetByName(name: string) returns (r: Option<Account>)
      requires Valid()
      ensures r.Some? <==> name in users
      ensures r.Some? ==> r.value == users[name] && r.value.username == name
    {
      r := if name in users then Some(users[name]) else None;
    }

    /** `create`: file a new document under its username. */
    method Create(account: Account)
      requires Valid() && account.username !in users
      modifies this
      ensures Valid()
      ensures users == old(users)[account.username := account]
    {
      users := users[account.username := account];
    }

    /** `remove_by_name`: delete the document filed under `name`, returning how many were deleted. */
    method RemoveByName(name: string) returns (deleted: nat)
      requires Valid()
      modifies this
      ensures Valid()
      ensures users == old(users) - {name}
      ensures deleted == if name in old(users) then 1 else 0
    {
      deleted := if name in users then 1 else 0;
      users := users - {name};
    }

    /** `GET /api/v1/users`: every stored user, for a caller whose token carries the admin scope. */
    method ListUsers(settings: Settings, token: Token) returns (r: Result<set<Account>, HttpError>)
      requires Valid()
      ensures r.Ok? <==> GetCurrentActiveUser(settings, users, AdminScopes, token).Ok?
      ensures r.Ok? ==> r.value == users.Values
      ensures r.Err? ==> r.error == GetCurrentActiveUser(settings, users, AdminScopes, token).error
    {
      match GetCurrentActiveUser(settings, users, AdminScopes, token)
      case Err(e) => r := Err(e);
      case Ok(_) => r := Ok(users.Values);
    }

    /** `GET /api/v1/users/me`: the caller's own active account; no scope is required. */
    method Me(settings: Settings, token: Token) returns (r: Result<Account, HttpError>)
      requires Valid()
      ensures r.Ok? <==> HasSubject(settings, token) && Subject(settings, token) in users && users[Subject(settings, token)].active
      ensures r.Ok? ==> r.value == users[Subject(settings, token)] && r.value.username == Subject(settings, token)
      ensures r.Err? ==> r.error == CredentialsException([]) || r.error == UserDisabled
      ensures r.Err? ==> (r.error == UserDisabled <==> HasSubject(settings, token) && Subject(settings, token) in users)
      ensures r == GetCurrentActiveUser(settings, users, [], token)
    {
      r := GetCurrentActiveUser(settings, users, [], token);
    }

    /**
     * `POST /api/v1/users`: for an active caller whose token carries the admin scope, store a
     * new user under a name not yet taken, its password hashed with `salt` and stamped with the
     * caller's username. On any failure the collection is unchanged.
     */
    method CreateUser(settings: Settings, token: Token, user: UserCreate, salt: string) returns (r: Result<Account, HttpError>)
      requires Valid()
      modifies this
      ensures Valid()
      ensures var guard := GetCurrentActiveUser(settings, old(users), AdminScopes, token);
              && (guard.Err? ==> r == Err(guard.error) && users == old(users))
              && (guard.Ok? && user.username in old(users) ==> r == Err(UserExists) && users == old(users))
              && (guard.Ok? && user.username !in old(users) ==>
                    && r == Ok(StoredAccount(user, guard.value.username, salt))
                    && users == old(users)[user.username := r.value])
    {
      var guard := GetCurrentActiveUser(settings, users, AdminScopes, token);
      if guard.Err? {
        return Err(guard.error);
      }
      var admin := guard.value;
      var oldUser := GetByName(user.username);
      if oldUser.Some? {
        return Err(UserExists);
      }
      var account := StoredAccount(user, admin.username, salt);
      Create(account);
      r := Ok(users[account.username]);
    }

    /**
     * `DELETE /api/v1/users/delete/{username}`: for an active caller whose token carries the
     * admin scope, remove the named user and confirm it; 404 when there was no such user.
     */
    method DeleteUser(settings: Settings, token: Token, username: string) returns (r: Result<string, HttpError>)
      requires Valid()
      modifies this
      ensures Valid()
      ensures var guard := GetCurrentActiveUser(settings, old(users), AdminScopes, token);
              && (guard.Err? ==> r == Err(guard.error) && users == old(users))
              && (guard.Ok? && username !in old(users) ==> r == Err(UserNotFound) && users == old(users))
              && (guard.Ok? && username in old(users) ==>
                    && r == Ok("User " + username + " had been deleted")
                    && users == old(users) - {username})
    {
      var guard := GetCurrentActiveUser(settings, users, AdminScopes, token);
      if guard.Err? {
        return Err(guard.error);
      }
      var deletedCount := RemoveByName(username);
      if deletedCount > 0 {
        DeletedUserMessage(username);
        return Ok(Format(DeletedUserMsg, username).value);
      }
      r := Err(UserNotFound);
    }
  }
}
