/** Properties of the login endpoint and the guard taken together. */
module Scenarios {
  import opened Wrappers
  import opened PyStr
  import opened Crypto
  import opened Schemas
  import opened TokenRoute
  import opened UsersRoute

  /**
   * A token issued by a successful login passes exactly the guards whose required scopes were
   * all requested at login, and yields the account as stored at the time of the request;
   * the active guard additionally needs that account to be active.
   */
  lemma LoginThenGuard(settings: Settings, db: UserDb, form: LoginForm, required: seq<string>)
    requires KeyedByUsername(db) && form.username != ""
    requires LoginForAccessToken(settings, db, form).Ok?
    ensures var token := LoginForAccessToken(settings, db, form).value.accessToken;
            var r := GetCurrentUser(settings, db, required, token);
            && (r.Ok? <==> forall s :: s in required ==> s in form.Scopes())
            && (r.Ok? ==> r.value == db[form.username])
            && (GetCurrentActiveUser(settings, db, required, token).Ok? <==> r.Ok? && db[form.username].active)
  {
    var token := LoginForAccessToken(settings, db, form).value.accessToken;
    assert Decode(settings, token) == Some(Claims(Some(form.username), Some(form.Scopes())));
    assert HasSubject(settings, token) && Subject(settings, token) == form.username;
  }

  /**
   * No token a login issues reaches an endpoint that requires a scope the account did not hold
   * at login: a client can narrow its token but never widen it.
   */
  lemma TokensNeverWiden(settings: Settings, db: UserDb, form: LoginForm, required: seq<string>, s: string)
    requires KeyedByUsername(db)
    requires LoginForAccessToken(settings, db, form).Ok?
    requires s in required && s !in db[form.username].scopes
    ensures GetCurrentUser(settings, db, required, LoginForAccessToken(settings, db, form).value.accessToken).Err?
    ensures form.username != "" ==>
      GetCurrentUser(settings, db, required, LoginForAccessToken(settings, db, form).value.accessToken)
        == Err(NotEnoughPermissions(required))
  {
    var token := LoginForAccessToken(settings, db, form).value.accessToken;
    assert Decode(settings, token) == Some(Claims(Some(form.username), Some(form.Scopes())));
    assert s !in form.Scopes();
  }

  /** A login with an empty username can succeed, but its token passes no guard. */
  lemma EmptyUsernameTokenUseless(settings: Settings, db: UserDb, form: LoginForm, required: seq<string>)
    requires KeyedByUsername(db) && form.username == ""
    requires LoginForAccessToken(settings, db, form).Ok?
    ensures GetCurrentUser(settings, db, required, LoginForAccessToken(settings, db, form).value.accessToken)
            == Err(CredentialsException(required))
  {
  }

  /**
   * A user stored by the create-user endpoint can log in with the password given at creation
   * for exactly the scope lists within the scopes given at creation.
   */
  lemma CreatedUserCanLogin(db: UserDb, user: UserCreate, creator: string, salt: string, scopes: seq<string>)
    ensures var db' := db[user.username := StoredAccount(user, creator, salt)];
            && (AuthenticateUser(db', user.username, user.password, scopes).Ok?
                <==> forall s :: s in scopes ==> s in user.scopes)
            && forall p :: p != user.password ==>
                 AuthenticateUser(db', user.username, p, scopes) == Err(IncorrectCredentials)
  {
    var a := StoredAccount(user, creator, salt);
    assert a.scopes == user.scopes;
  }

  /** Once a user is deleted, every token naming it fails with the credentials error. */
  lemma DeletedUserLockedOut(settings: Settings, db: UserDb, name: string, required: seq<string>, token: Token)
    requires HasSubject(settings, token) && Subject(settings, token) == name
    ensures GetCurrentActiveUser(settings, db - {name}, required, token) == Err(CredentialsException(required))
  {
  }

  /**
   * The worked example: alice holds `task:read` and `task:write`; she logs in asking for
   * `task:read` only; her token then reaches a `task:read` endpoint as alice and is refused by
   * a `task:write` one; a wrong password and an unknown name get the same answer.
   */
  lemma AliceScenario(settings: Settings, salt: string)
    ensures var alice := Account("alice", "alice@example.com", true, ["task:read", "task:write"], "admin",
                                 HashPassword(salt, "Abcdefgh12345678"));
            var db: UserDb := map["alice" := alice];
            var login := LoginForAccessToken(settings, db, LoginForm("alice", "Abcdefgh12345678", "task:read"));
            && login.Ok?
            && GetCurrentActiveUser(settings, db, ["task:write"], login.value.accessToken) == Err(NotEnoughPermissions(["task:write"]))
            && GetCurrentActiveUser(settings, db, ["task:read"], login.value.accessToken) == Ok(alice)
            && LoginForAccessToken(settings, db, LoginForm("alice", "wrong", "task:read")) == Err(IncorrectCredentials)
            && LoginForAccessToken(settings, db, LoginForm("bob", "Abcdefgh12345678", "task:read")) == Err(IncorrectCredentials)
  {
    var alice := Account("alice", "alice@example.com", true, ["task:read", "task:write"], "admin",
                         HashPassword(salt, "Abcdefgh12345678"));
    var db: UserDb := map["alice" := alice];
    var form := LoginForm("alice", "Abcdefgh12345678", "task:read");
    assert IsWord("task:read");
    FormScopesRoundTrip("alice", "Abcdefgh12345678", ["task:read"]);
    assert JoinSpace(["task:read"]) == "task:read";
    assert form.Scopes() == ["task:read"];
    LoginThenGuard(settings, db, form, ["task:write"]);
    LoginThenGuard(settings, db, form, ["task:read"]);
    assert "task:read" != "task:write";
  }
}
