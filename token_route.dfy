/**
 * The login endpoint: check a username and password against the stored hash, check that the
 * account holds every scope asked for, and issue a token carrying exactly those scopes.
 */
module TokenRoute {
  import opened Wrappers
  import opened Http
  import opened PyStr
  import opened Crypto
  import opened Schemas
  import opened Security

  const IncorrectCredentials: HttpError := HttpError(BadRequest, "Incorrect username or password", None)
  const ScopeNotGranted: HttpError := HttpError(Unauthorized, "Unauthorized", None)

  /**
   * The OAuth2 password-grant form: a username, a password and the space-separated `scope`
   * field, which the form hands on split into a list.
   */
  datatype LoginForm = LoginForm(username: string, password: string, scope: string) {
    function Scopes(): (r: seq<string>)
      ensures forall k :: 0 <= k < |r| ==> IsWord(r[k])
      ensures r == [] <==> AllSpace(scope)
    {
      Split(scope)
    }
  }

  /** The login response body. */
  datatype TokenResponse = TokenResponse(accessToken: Token, tokenType: string)

  /**
   * `authenticate_user`: the account filed under `username` whose hash verifies `password`
   * and whose scopes include every requested scope. Credentials are checked first, and both
   * credential failures raise one and the same error.
   */
  function AuthenticateUser(db: UserDb, username: string, password: string, scopes: seq<string>)
    : (r: Result<Account, HttpError>)
    ensures r.Ok? <==> && username in db
                       && VerifyPassword(password, db[username].hashedPassword)
                       && forall s :: s in scopes ==> s in db[username].scopes
    ensures r.Ok? ==> r.value == db[username]
    ensures r.Err? ==> (r.error == IncorrectCredentials <==>
                          !(username in db && VerifyPassword(password, db[username].hashedPassword)))
    ensures r.Err? ==> r.error == IncorrectCredentials || r.error == ScopeNotGranted
  {
    if !(username in db && VerifyPassword(password, db[username].hashedPassword)) then
      Err(IncorrectCredentials)
    else if FirstMissing(scopes, db[username].scopes).Some? then
      Err(ScopeNotGranted)
    else
      Ok(db[username])
  }

  /** An unknown username and a wrong password are answered identically, whatever scopes are asked for. */
  lemma CredentialFailuresIndistinguishable(
    db: UserDb, unknown: string, password1: string, scopes1: seq<string>,
    known: string, password2: string, scopes2: seq<string>)
    requires unknown !in db
    requires known in db && !VerifyPassword(password2, db[known].hashedPassword)
    ensures AuthenticateUser(db, unknown, password1, scopes1) == Err(IncorrectCredentials)
    ensures AuthenticateUser(db, unknown, password1, scopes1) == AuthenticateUser(db, known, password2, scopes2)
  {
  }

  /** Bad credentials are reported as such even when the requested scopes are not granted either. */
  lemma CredentialsCheckedBeforeScopes(db: UserDb, username: string, password: string, scopes: seq<string>, s: string)
    requires !(username in db && VerifyPassword(password, db[username].hashedPassword))
    requires s in scopes && (username in db ==> s !in db[username].scopes)
    ensures AuthenticateUser(db, username, password, scopes) == Err(IncorrectCredentials)
  {
  }

  /** With valid credentials, any requested scope the account lacks fails the login with 401. */
  lemma UngrantedScopeRejected(db: UserDb, username: string, password: string, scopes: seq<string>, s: string)
    requires username in db && VerifyPassword(password, db[username].hashedPassword)
    requires s in scopes && s !in db[username].scopes
    ensures AuthenticateUser(db, username, password, scopes) == Err(ScopeNotGranted)
  {
  }

  /** Asking for no scopes succeeds on the credentials alone. */
  lemma NoScopesNeedOnlyCredentials(db: UserDb, username: string, password: string)
    requires username in db && VerifyPassword(password, db[username].hashedPassword)
    ensures AuthenticateUser(db, username, password, []) == Ok(db[username])
  {
  }

  /** `create_access_token`: a token whose claims are exactly `data`. */
  function CreateAccessToken(settings: Settings, data: Claims): (token: Token)
    ensures Decode(settings, token) == Some(data)
  {
    Encode(settings, data)
  }

  /**
   * `login_for_access_token`: authenticate, then issue a bearer token whose subject is the
   * account's username and whose scopes are the requested list, not the account's. Every
   * failure is one `authenticate_user` raises: the 401 "Incorrect username or password" with a
   * Bearer challenge, raised when the authenticated user is falsy, has no counterpart here
   * because an authenticated account is never falsy.
   */
  function LoginForAccessToken(settings: Settings, db: UserDb, form: LoginForm)
    : (r: Result<TokenResponse, HttpError>)
    ensures r.Err? <==> AuthenticateUser(db, form.username, form.password, form.Scopes()).Err?
    ensures r.Err? ==> r.error == AuthenticateUser(db, form.username, form.password, form.Scopes()).error
    ensures r.Err? ==> r.error.authenticate == None
    ensures r.Ok? ==> r.value.tokenType == "bearer"
    ensures r.Ok? ==> && form.username in db
                      && Decode(settings, r.value.accessToken)
                         == Some(Claims(Some(db[form.username].username), Some(form.Scopes())))
  {
    match AuthenticateUser(db, form.username, form.password, form.Scopes())
    case Err(e) => Err(e)
    case Ok(user) =>
      var token := CreateAccessToken(settings, Claims(Some(user.username), Some(form.Scopes())));
      Ok(TokenResponse(token, "bearer"))
  }

  /**
   * Downscoping: a successful login issues a token for the username given whose scopes are
   * exactly the requested ones, all of which the account holds.
   */
  lemma LoginIssuesRequestedScopes(settings: Settings, db: UserDb, form: LoginForm)
    requires KeyedByUsername(db)
    requires LoginForAccessToken(settings, db, form).Ok?
    ensures var claims := Decode(settings, LoginForAccessToken(settings, db, form).value.accessToken);
            && claims == Some(Claims(Some(form.username), Some(form.Scopes())))
            && forall s :: s in claims.value.scopes.value ==> s in db[form.username].scopes
  {
  }

  /**
   * The scopes the form carries are the words of its `scope` field: a list of scope names
   * joined by spaces comes back as that list.
   */
  lemma FormScopesRoundTrip(username: string, password: string, scopes: seq<string>)
    requires forall k :: 0 <= k < |scopes| ==> IsWord(scopes[k])
    ensures LoginForm(username, password, JoinSpace(scopes)).Scopes() == scopes
  {
    SplitJoinSpace(scopes);
  }
}
