# Task service: authentication and authorization core

A Dafny model of the decision logic that guards the task service's HTTP API:

- **Login** (`POST /api/v1/token`). A username and password are checked against the stored
  sha256_crypt hash. Every scope the client asks for must be held by the account. The service
  then issues a JWT whose claims are `{sub: username, scopes: <the requested list>}`.
- **Per-request guard** (`get_current_user`, `get_current_active_user`). The guard decodes the
  bearer token and requires a non-empty subject. It re-fetches the live account the subject
  names and requires each scope the endpoint declares to be among the *token's* scopes. Only
  after all that does it refuse a disabled account, with 403.
- **Admin operations on the user collection**: list, create (rejects a taken name, hashes the
  password, stamps `created_by`) and delete (404 when nothing was removed). All three require
  `admin:user`. `/me` needs no scope.
- **Schemas and constants**: the `AuthScopeEnum` and `Status` enumerations, the `User` and
  `Tasks` defaults, `validate_title`, the `ALL_SCOPES` catalog and the message templates.

The cryptographic collaborators are modelled symbolically, with bodies and no axioms:

- A password digest is a term `Sha256Digest(salt, password)`. The random salt of
  `sha256_crypt.hash` is a parameter.
- A token signature is a term `Hmac(algorithm, key, claims)`.

So "a hash verifies its own password and no other" and "a token decodes only under the key and
algorithm that signed it, and only with the claims it was signed over" are theorems of the
model. They stand in for the libraries' security guarantees.

The user collection is a `map` from username to stored document, inside a class whose methods
mirror the collection operations the handlers call. Every failure is an `HttpError` value
carrying the status code, the `detail` text and the `WWW-Authenticate` value.

The model follows the code in three places a reader might not expect:

- Requested scopes are checked only against the account's scopes, never against the
  `ALL_SCOPES` catalog.
- No expiry claim is set or checked.
- A stored hash that passlib cannot parse raises an error; it is not a failed verification.
  The model has no malformed hashes at all.

Python built-ins whose exact behaviour the properties depend on are modelled in `PyStr`:

- `str.strip()`, with Python's own set of whitespace characters.
- `str.format` with one positional argument.
- `" ".join`, for the scope string of the challenge.
- `str.split()`, which turns the login form's `scope` field into the list of scopes.

## Model

| member | source | states |
|---|---|---|
| `PyStr.Strip` | src/models/schemas.py:32 | the result has no whitespace at either end and is the part of the input between two all-whitespace ends |
| `PyStr.StripCharacterised` | src/models/schemas.py:32 | stripping `p + m + q` gives exactly `m` for whitespace `p`, `q` and a trimmed `m`, so the result is unique |
| `PyStr.StripIdempotent` | src/models/schemas.py:32 | stripping twice equals stripping once |
| `PyStr.StripEmptyIffAllSpace` | src/models/schemas.py:31-32 | a string strips to "" exactly when it is all whitespace |
| `PyStr.Format` | src/routes/users.py:134 | brace-free text formats to itself, and a template opening with a lone `}` is rejected |
| `PyStr.FormatOneField` | src/constants.py:3-4 | a template with one `{}` between brace-free text formats to that text with the argument, verbatim, in its place |
| `PyStr.Split` | src/routes/token.py:67 | splitting yields only non-empty words without whitespace, and no words exactly when the input is all whitespace |
| `PyStr.SplitSkipsSpace` | src/routes/token.py:67 | leading whitespace of any kind and length does not change the split |
| `PyStr.SplitTakesWord` | src/routes/token.py:67 | a word followed by the end or by whitespace is the first element of the split, and the rest splits on its own |
| `PyStr.SplitSpread` | src/routes/token.py:67 | words separated by non-empty runs of any whitespace, with any whitespace before and after, split into exactly those words in order |
| `PyStr.SplitExample` | src/routes/token.py:67 | `"  ab \t cd ".split()` is `["ab", "cd"]` |
| `PyStr.JoinSpace` | src/routes/users.py:37 | `" ".join` of no items is "", of one item is that item; otherwise its length is the items' total plus one separator between neighbours |
| `PyStr.JoinSpaceAppend` | src/routes/users.py:37 | joining a non-empty list with one more item appends a single space and that item |
| `PyStr.JoinSpaceSpread` | src/routes/users.py:37 | the join lays the items out with exactly one space between neighbours and nothing after the last |
| `PyStr.SplitJoinSpace` | src/routes/users.py:37 | splitting a space-joined list of words gives back the list |
| `Crypto.VerifyPassword` | src/routes/token.py:23-29 | a password verifies exactly when the stored hash is the one it yields under the hash's own salt |
| `Crypto.HashPassword` | src/routes/users.py:97-102 | a fresh hash verifies its own password and no other one |
| `Crypto.Encode` | src/routes/token.py:55-56 | the token's header names the configured algorithm, its claims are the ones given and its signature is keyed with `hash_key` |
| `Crypto.Decode` | src/routes/users.py:44-45 | whatever decodes is exactly the encoding of its claims under these settings |
| `Crypto.DecodeEncode` | src/routes/token.py:54-57 | decoding inverts encoding |
| `Crypto.ForeignTokenRejected` | src/routes/users.py:44-45 | a token signed under another key or algorithm does not decode |
| `Crypto.TamperedTokenRejected` | src/routes/users.py:44-45 | a token whose claims were altered after signing does not decode |
| `Constants.AllScopesExactly` | src/constants.py:5-10 | the catalog has exactly the four scopes `task:read`, `task:write`, `task:delete`, `admin:user` |
| `Constants.DeletedUserMessage` | src/constants.py:4 | `DELETED_USER_MSG.format(u)` is `"User " + u + " had been deleted"` |
| `Constants.DeletedTaskMessage` | src/constants.py:3 | `DELETED_TASK_MSG.format(id)` is `"Task " + id + " had been deleted"` |
| `Schemas.ParseAuthScope` | src/models/schemas.py:6-9 | lookup by value inverts `Value()`: it finds the one member with that value, or none |
| `Schemas.AuthScopeValuesExactly` | src/models/schemas.py:6-9 | the enumeration's values are exactly the three task scopes; `admin:user` is not one of them |
| `Schemas.AuthScopesWithinCatalog` | src/constants.py:5-10 | the enumeration's values are a strict subset of the catalog; the catalog adds only `admin:user` |
| `Schemas.ParseStatus` | src/models/schemas.py:11-14 | lookup by value inverts `Value()` for the task statuses |
| `Schemas.StatusExactlyThree` | src/models/schemas.py:11-14 | `Status` has exactly three members with three distinct values |
| `Schemas.UserActiveByDefault` | src/models/schemas.py:19 | a `User` built without `active` is active |
| `Schemas.ValidateTitle` | src/models/schemas.py:29-33 | only the empty title is rejected, with "Title value must be provided"; an accepted title comes back trimmed and no longer |
| `Schemas.NewTask` | src/models/schemas.py:22-33 | a task is built exactly when its title validates, else the validation error; the stored title is the validated one and `id`, `userId`, `contributors` and `status` are kept as given |
| `Schemas.TaskDefaults` | src/models/schemas.py:23-27 | a task built from a title and an owner alone has no `id`, no contributors and status `Todo` |
| `Schemas.NewTaskStripsTitle` | src/models/schemas.py:29-33 | a task created from `p + m + q`, with whitespace `p`, `q` and a trimmed `m`, is the request with title `m` |
| `Schemas.ValidTitleStripped` | src/models/schemas.py:31-32 | a non-empty title is stored without its surrounding whitespace |
| `Schemas.WhitespaceTitleAccepted` | src/models/schemas.py:31-32 | a whitespace-only title passes the emptiness test and is stored as "" |
| `Security.FirstMissing` | src/routes/token.py:43-45 | the early-exit scope loop finds nothing exactly when every required scope is granted; otherwise it names the first required scope not granted |
| `TokenRoute.AuthenticateUser` | src/routes/token.py:31-47 | success exactly when the name is stored, the password verifies and every requested scope is held, and it returns that account; a credential failure is 400, a scope failure 401 "Unauthorized" |
| `TokenRoute.CredentialFailuresIndistinguishable` | src/routes/token.py:39-42 | an unknown username and a wrong password produce the same 400 error |
| `TokenRoute.CredentialsCheckedBeforeScopes` | src/routes/token.py:40-45 | bad credentials with an ungranted scope give 400, never 401 |
| `TokenRoute.UngrantedScopeRejected` | src/routes/token.py:43-45 | valid credentials with a requested scope the account lacks give 401 "Unauthorized" |
| `TokenRoute.NoScopesNeedOnlyCredentials` | src/routes/token.py:43-47 | an empty scope request succeeds on credentials alone |
| `TokenRoute.CreateAccessToken` | src/routes/token.py:49-57 | the token decodes to exactly the claims it was given |
| `TokenRoute.LoginForAccessToken` | src/routes/token.py:59-76 | fails exactly when authentication fails, with its error and no challenge header; a success is a "bearer" token with the account's username and exactly the requested scopes |
| `TokenRoute.LoginIssuesRequestedScopes` | src/routes/token.py:74-75 | the issued token's subject is the username given and its scopes are the requested list, each held by the account |
| `TokenRoute.LoginForm.Scopes` | src/routes/token.py:67 | the form's scope list holds only non-empty words without whitespace, and is empty exactly when `scope` is all whitespace |
| `TokenRoute.FormScopesRoundTrip` | src/routes/token.py:67 | the form's scope list is the words of its space-separated `scope` field |
| `UsersRoute.AuthenticateValue` | src/routes/users.py:37 | the challenge is `Bearer` when no scope is required, else starts `Bearer scope='` and ends in a quote |
| `UsersRoute.ChallengeNamesRequiredScopes` | src/routes/users.py:37 | the quoted part of a scope challenge is exactly `" ".join` of the required scopes, and splits back into them, in order |
| `UsersRoute.AdminChallenge` | src/routes/users.py:37 | the admin endpoints challenge with `Bearer scope='admin:user'` |
| `UsersRoute.CredentialsException` | src/routes/users.py:37-42 | a 401 "Could not validate credentials" whose challenge is `AuthenticateValue(required)`, the bare `Bearer` exactly when no scope is required |
| `UsersRoute.NotEnoughPermissions` | src/routes/users.py:59-63 | the same 401 and challenge as the credentials error, with the detail "Not enough permissions" instead |
| `UsersRoute.TokenScopes` | src/routes/users.py:49 | the token's `scopes` claim, or no scopes when the claim is missing |
| `UsersRoute.GetCurrentUser` | src/routes/users.py:28-64 | success exactly when the token decodes to a non-empty subject that is stored and whose token scopes include every required scope; it returns the live account; every failure is a 401, "Could not validate credentials" exactly when the subject check or lookup failed |
| `UsersRoute.GetCurrentActiveUser` | src/routes/users.py:69-77 | success exactly when the guard succeeds on an active account; a guard error passes through unchanged; otherwise 403 |
| `UsersRoute.NoSubjectRejected` | src/routes/users.py:43-52 | an undecodable token, or one with a missing or empty `sub`, gets the credentials 401 |
| `UsersRoute.UnknownSubjectRejected` | src/routes/users.py:54-56 | a validly signed token naming no stored account gets the credentials 401 |
| `UsersRoute.GuardTrustsTokenScopes` | src/routes/users.py:57-63 | the guard's verdict does not depend on the account's scopes, and a token lacking a required scope gets 401 "Not enough permissions" |
| `UsersRoute.MissingScopesClaim` | src/routes/users.py:49 | a token with no `scopes` claim passes only guards that require no scope |
| `UsersRoute.DisabledAccountOrdering` | src/routes/users.py:57-77 | a disabled account gets 403 when its token's scopes suffice and the 401 "Not enough permissions" when they do not |
| `UsersRoute.StoredAccount` | src/routes/users.py:116-119 | the stored record keeps the request's username, email, `active` flag and scopes, is stamped with its creator, and its hash verifies exactly the given password |
| `UsersRoute.UserCollection.GetByName` | src/routes/users.py:111 | returns the document filed under the name, or nothing when there is none |
| `UsersRoute.UserCollection.Create` | src/routes/users.py:120 | adds exactly one document, under its own username |
| `UsersRoute.UserCollection.RemoveByName` | src/routes/users.py:131 | removes the name and reports 1 deletion if it was stored, else 0 |
| `UsersRoute.UserCollection.ListUsers` | src/routes/users.py:79-86 | an active caller whose token has `admin:user` gets every stored user; anyone else gets the guard's error |
| `UsersRoute.UserCollection.Me` | src/routes/users.py:88-95 | the active guard with no scope required: the caller's own stored, active account; the 403 exactly when the token names a stored but disabled account; otherwise the credentials 401 |
| `UsersRoute.UserCollection.CreateUser` | src/routes/users.py:104-122 | guard errors and taken names leave the collection unchanged; otherwise exactly one record is added, with a hash of the password and `created_by` set to the admin's username |
| `UsersRoute.UserCollection.DeleteUser` | src/routes/users.py:124-138 | guard errors leave the collection unchanged; a stored name is removed and confirmed with "User <name> had been deleted"; an absent name gets 404 "User not found error" with nothing removed |
| `Scenarios.LoginThenGuard` | src/routes/users.py:57-63 | a login token passes exactly the guards whose scopes were all requested at login and yields the account; the active guard also needs the account active |
| `Scenarios.TokensNeverWiden` | src/routes/token.py:43-45 | no login token passes a guard requiring a scope the account lacked at login; for a non-empty username the refusal is 401 "Not enough permissions" |
| `Scenarios.EmptyUsernameTokenUseless` | src/routes/users.py:46-48 | a login under the empty username may succeed, but its token passes no guard |
| `Scenarios.CreatedUserCanLogin` | src/routes/users.py:116-120 | a created user logs in with the password given at creation, for exactly the scope lists within the scopes given, and with no other password |
| `Scenarios.DeletedUserLockedOut` | src/routes/users.py:131 | after deletion, every token naming the user gets the credentials 401 |
| `Scenarios.AliceScenario` | src/routes/token.py:59-76 | worked example: a `task:read` login reaches a `task:read` endpoint and is refused by a `task:write` one; a wrong password and an unknown name get the same 400 |

## Left out

- Cryptography is symbolic. The model has no sha256_crypt rounds, no byte-level digests, no
  base64url JWT segments and no constant-time comparison. It assumes a digest or signature
  can be reproduced only from the same inputs.
- `Crypto.HashPassword`, `Crypto.VerifyPassword`: passlib's sha256_crypt refuses a password that
  contains NUL or is longer than 4096 bytes, raising `PasswordValueError` from both `hash` and
  `verify`. The model accepts every password. So a login with such a password for a stored name
  (src/routes/token.py:40) is a server error where `TokenRoute.AuthenticateUser` answers 400,
  and `create_user` fails at hashing (src/routes/users.py:116) where
  `UserCollection.CreateUser` stores the user.
- A stored hash that passlib cannot parse makes `sha256_crypt.verify` raise, which the service
  turns into a server error. This is not modelled: every stored hash is well-formed.
- JWT payload values of the wrong JSON type are not modelled. `jwt.decode` refuses a
  non-string `sub` with a `JWTError`, which the guard turns into the credentials 401. What a
  `scopes` claim that is not a list does depends on `TokenData`, which is not part of this
  model. Claims here are an optional string and an optional list of strings.
- There is no expiry (`exp`): the service neither sets nor checks one.
- FastAPI plumbing is not modelled: routers, `Depends`/`Security` wiring, async handlers, CORS
  and app start-up. That includes taking the token from the `Authorization` header, where a
  missing header is answered by the framework before any code here runs.
- The form's splitting of `scope` into a list is framework code. It is modelled as
  `str.split()` because the properties depend on it.
- The MongoDB collection is a map keyed by username. Usernames are unique by construction.
  `UserCollection.ListUsers` returns a set, so document order is not modelled.
- `UserCollection.CreateUser`: `create_user` returns nothing when `inserted_id` is falsy. The
  model assumes every insertion succeeds. It returns the stored record, standing for the
  `get_by_id` re-read.
- The fields of `UsersResponse`, and whether `MongoUserCrud.create` stores the plaintext
  `password` next to its hash, are not part of this model. The stored record holds the hash only.
- `UserCollection.CreateUser` builds a new record where `create_user` sets `hashed_password` and
  `created_by` on the request object in place. The request body is never read again, so only
  the stored record is modelled.
- `create_access_token` copies its argument before encoding. All values in the model are
  immutable, so the caller's claims are unchanged by construction.
- `UserCreate`, `Users`, `TokenData` and `UsersResponse` are not part of this model. They have
  minimal records and no validation. Whatever default `UserCreate` gives `active` is not
  modelled either: a create request always states it.
- `PyStr.Format` supports only `{}`, `{{` and `}}`. Any other replacement field counts as a
  rejected template.
- The task routes, the `DbCrud`/`MongoCrud` stubs, settings loading, the admin seed script and
  the HTTP tests are not part of this model.
- Requests are modelled one at a time. Concurrent requests against the collection are not
  modelled.
