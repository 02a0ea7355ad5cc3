/**
 * The records the service validates and stores: the scope and status enumerations, the
 * `User` and `Tasks` models with their defaults and the title validator, and the user
 * documents the routes read and write.
 */
module Schemas {
  import opened Wrappers
  import opened PyStr
  import opened Crypto
  import Constants

  // ---------------------------------------------------------------------------
  // Enumerations
  // ---------------------------------------------------------------------------

  /** `AuthScopeEnum`: the scopes a `User` model may carry. */
  datatype AuthScope = TaskRead | TaskWrite | TaskDelete {
    function Value(): string {
      match this
      case TaskRead => "task:read"
      case TaskWrite => "task:write"
      case TaskDelete => "task:delete"
    }
  }

  /** `AuthScopeEnum(value)`: the member whose value is `value`, or `None` where the enum raises. */
  function ParseAuthScope(value: string): (r: Option<AuthScope>)
    ensures r.Some? ==> r.value.Value() == value
    ensures forall a: AuthScope :: a.Value() == value ==> r == Some(a)
  {
    if value == "task:read" then Some(TaskRead)
    else if value == "task:write" then Some(TaskWrite)
    else if value == "task:delete" then Some(TaskDelete)
    else None
  }

  /** The values of `AuthScopeEnum`. */
  const AuthScopeValues: set<string> := {TaskRead.Value(), TaskWrite.Value(), TaskDelete.Value()}

  /** The enumeration has exactly the three task scopes; the admin scope is not among them. */
  lemma AuthScopeValuesExactly()
    ensures AuthScopeValues == {"task:read", "task:write", "task:delete"}
    ensures "admin:user" !in AuthScopeValues
    ensures forall s :: ParseAuthScope(s).Some? <==> s in AuthScopeValues
  {
  }

  /** Every enumerated scope is in the catalog, and the catalog has one more: the admin scope. */
  lemma AuthScopesWithinCatalog()
    ensures AuthScopeValues < Constants.AllScopes.Keys
    ensures Constants.AllScopes.Keys - AuthScopeValues == {"admin:user"}
  {
    Constants.AllScopesExactly();
    AuthScopeValuesExactly();
  }

  /** `Status`: the states a task moves through. */
  datatype Status = Todo | InProgress | Done {
    function Value(): string {
      match this
      case Todo => "Todo"
      case InProgress => "In Progress"
      case Done => "Done"
    }
  }

  /** `Status(value)`: the member whose value is `value`, or `None` where the enum raises. */
  function ParseStatus(value: string): (r: Option<Status>)
    ensures r.Some? ==> r.value.Value() == value
    ensures forall st: Status :: st.Value() == value ==> r == Some(st)
  {
    if value == "Todo" then Some(Todo)
    else if value == "In Progress" then Some(InProgress)
    else if value == "Done" then Some(Done)
    else None
  }

  /** `Status` has exactly three members, with three distinct values. */
  lemma StatusExactlyThree(st: Status)
    ensures st == Todo || st == InProgress || st == Done
    ensures {Todo.Value(), InProgress.Value(), Done.Value()} == {"Todo", "In Progress", "Done"}
    ensures |{Todo.Value(), InProgress.Value(), Done.Value()}| == 3
  {
  }

  // ---------------------------------------------------------------------------
  // Models
  // ---------------------------------------------------------------------------

  /** The `User` model; `active` is optional and defaults to true. */
  datatype User = User(username: string, email: string, scopes: seq<AuthScope>, active: bool := true)

  /** A `User` built without an `active` value is active. */
  lemma UserActiveByDefault(username: string, email: string, scopes: seq<AuthScope>)
    ensures User(username, email, scopes).active
    ensures User(username, email, scopes) == User(username, email, scopes, true)
  {
  }

  /**
   * A `Tasks` record. The optional `id` and `contributors` are `None` when left out, and a
   * status left out is `Todo`.
   */
  datatype Task = Task(
    title: string,
    userId: string,
    id: Option<string> := None,
    contributors: Option<seq<string>> := None,
    status: Status := Todo)

  const TitleRequired: string := "Title value must be provided"

  /**
   * `Tasks.validate_title`: a title is accepted when it is not the empty string, and is then
   * stored stripped; the empty title raises `ValueError`, whose message is the error here.
   */
  function ValidateTitle(title: string): (r: Result<string, string>)
    ensures r.Err? <==> title == ""
    ensures r.Err? ==> r.error == TitleRequired
    ensures r.Ok? ==> Trimmed(r.value) && |r.value| <= |title|
  {
    if title != "" then Ok(Strip(title)) else Err(TitleRequired)
  }

  /**
   * Constructing a `Tasks` record: the title goes through `validate_title`, every other field
   * is kept as given, and the fields left out take their defaults.
   */
  function NewTask(
    title: string,
    userId: string,
    id: Option<string> := None,
    contributors: Option<seq<string>> := None,
    status: Status := Todo)
    : (r: Result<Task, string>)
    ensures r.Err? <==> ValidateTitle(title).Err?
    ensures r.Err? ==> r.error == TitleRequired
    ensures r.Ok? ==> && r.value.title == ValidateTitle(title).value
                      && r.value.userId == userId
                      && r.value.id == id
                      && r.value.contributors == contributors
                      && r.value.status == status
  {
    match ValidateTitle(title)
    case Err(e) => Err(e)
    case Ok(t) => Ok(Task(t, userId, id, contributors, status))
  }

  /** A task created with only a title and an owner has no id, no contributors and status `Todo`. */
  lemma TaskDefaults(title: string, userId: string)
    requires title != ""
    ensures NewTask(title, userId).Ok?
    ensures NewTask(title, userId).value.id == None
    ensures NewTask(title, userId).value.contributors == None
    ensures NewTask(title, userId).value.status == Todo
  {
  }

  /**
   * The title a task stores is the given one without its surrounding whitespace, and nothing
   * else about the request changes: for whitespace `p`, `q` and a title `m` whose ends are not
   * whitespace, a task created from `p + m + q` has title `m`.
   */
  lemma NewTaskStripsTitle(p: string, m: string, q: string, userId: string, id: Option<string>, contributors: Option<seq<string>>, status: Status)
    requires AllSpace(p) && AllSpace(q) && Trimmed(m) && p + m + q != ""
    ensures NewTask(p + m + q, userId, id, contributors, status) == Ok(Task(m, userId, id, contributors, status))
  {
    ValidTitleStripped(p, m, q);
  }

  /**
   * The stored title is the given one without its surrounding whitespace: for any whitespace
   * `p` and `q` around a title `m` whose ends are not whitespace, `p + m + q` validates to `m`.
   */
  lemma ValidTitleStripped(p: string, m: string, q: string)
    requires AllSpace(p) && AllSpace(q) && Trimmed(m)
    requires p + m + q != ""
    ensures ValidateTitle(p + m + q) == Ok(m)
  {
    StripCharacterised(p, m, q);
  }

  /**
   * The emptiness test comes before stripping: a title of whitespace only is accepted and
   * stored as the empty string.
   */
  lemma WhitespaceTitleAccepted(title: string)
    requires title != "" && AllSpace(title)
    ensures ValidateTitle(title) == Ok("")
  {
    StripEmptyIffAllSpace(title);
  }

  // ---------------------------------------------------------------------------
  // User documents
  // ---------------------------------------------------------------------------

  /**
   * A stored user document (the `Users` model): the fields the routes read and write.
   * Its scopes are plain strings, so the admin scope can be stored even though it is not
   * an `AuthScopeEnum` member.
   */
  datatype Account = Account(
    username: string,
    email: string,
    active: bool,
    scopes: seq<string>,
    createdBy: string,
    hashedPassword: PasswordHash)

  /**
   * The body of a create-user request (the `UserCreate` model). `active` is always given:
   * the schema's own default is not part of this model.
   */
  datatype UserCreate = UserCreate(
    username: string,
    email: string,
    scopes: seq<string>,
    password: string,
    createdBy: string,
    active: bool)

  /** The user collection, indexed by the name `get_by_name` looks documents up by. */
  type UserDb = map<string, Account>

  /** Every document is filed under its own username. */
  predicate KeyedByUsername(db: UserDb) {
    forall name :: name in db ==> db[name].username == name
  }
}
