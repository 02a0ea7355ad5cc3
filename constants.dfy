/** The scope catalog and the message templates shared by the routes. */
module Constants {
  import opened Wrappers
  import opened PyStr

  const TaskNotFoundMsg: string := "Task not found error"
  const UserNotFoundMsg: string := "User not found error"
  const DeletedTaskMsg: string := "Task {} had been deleted"
  const DeletedUserMsg: string := "User {} had been deleted"

  /** `ALL_SCOPES`: every scope the service knows, with the description a login form shows. */
  const AllScopes: map<string, string> := map[
    "task:read" := "Read created tasks",
    "task:write" := "Create new tasks",
    "task:delete" := "Delete the tasks present in database",
    "admin:user" := "User with this permission able to create new users"
  ]

  /** The catalog holds exactly the four scopes, the admin scope among them. */
  lemma AllScopesExactly()
    ensures AllScopes.Keys == {"task:read", "task:write", "task:delete", "admin:user"}
    ensures |AllScopes| == 4
  {
    assert AllScopes.Keys == {"task:read", "task:write", "task:delete", "admin:user"};
  }

  /** `DELETED_USER_MSG.format(username)` puts the name, verbatim, between the fixed words. */
  lemma DeletedUserMessage(username: string)
    ensures Format(DeletedUserMsg, username) == Some("User " + username + " had been deleted")
  {
    assert DeletedUserMsg == "User " + "{}" + " had been deleted";
    FormatOneField("User ", " had been deleted", username);
  }

  /** `DELETED_TASK_MSG.format(id)` puts the id, verbatim, between the fixed words. */
  lemma DeletedTaskMessage(id: string)
    ensures Format(DeletedTaskMsg, id) == Some("Task " + id + " had been deleted")
  {
    assert DeletedTaskMsg == "Task " + "{}" + " had been deleted";
    FormatOneField("Task ", " had been deleted", id);
  }
}
