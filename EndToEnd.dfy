/**
 * The request flow across the backend's parts: register, log in, present
 * the token to the auth gate, then act on tasks as the user the gate names.
 */
module EndToEnd {
  import opened Wrappers
  import opened Types
  import opened Crypto
  import opened Http
  import opened AuthController
  import opened AuthMiddleware
  import opened TaskController

  /**
   * Registering on an empty table and logging in with the same credentials
   * gives 201 with `{ id, username }` and then 200 with a token the gate
   * accepts for that id during the following hour.
   */
  method RegisterThenLogin(hasher: Hasher, ts: TokenService, username: string, password: string,
                           salt: Salt, now: int, later: int)
    returns (registered: Response, loggedIn: Response, gate: Outcome)
    requires HashRoundTrip(hasher) && SignVerifyRoundTrip(ts)
    requires username != "" && password != ""
    requires now <= later < now + TokenLifetime
    ensures registered == Response(201, UserJson(User(1, username)))
    ensures loggedIn.status == 200 && loggedIn.body.TokenJson?
    ensures gate == Next(1)
  {
    var users := new UserStore();
    registered := users.Register(hasher, Some(username), Some(password), salt);
    LoginAfterRegister(map[], hasher, ts, username, password, 1, salt, now);
    loggedIn := Login(users.accounts, hasher, ts, Some(username), Some(password), now);
    LoginTokenLifetime(ts, 1, now, later);
    gate := VerifyToken(ts, Some("Bearer " + loggedIn.body.token), later);
  }

  /**
   * A second registration of a taken username is refused with 400 and adds
   * no account.
   */
  method RegisterTwice(hasher: Hasher, username: string, password: string, otherPassword: string, salt: Salt)
    returns (first: Response, second: Response, accounts: nat)
    requires username != "" && password != "" && otherPassword != ""
    ensures first.status == 201 && second == UserExists && accounts == 1
  {
    var users := new UserStore();
    first := users.Register(hasher, Some(username), Some(password), salt);
    second := users.Register(hasher, Some(username), Some(otherPassword), salt + 1);
    assert users.accounts.Keys == {username};
    accounts := |users.accounts|;
  }

  /**
   * Two callers, A with id 1 and B with id 2, as the gate would name them;
   * A creates a task, naming B as its owner in the body, and still owns it.
   * B can neither
   * update (even to claim it) nor delete it: 404 both times, the row as it
   * was. B's listing is empty, A's is exactly that task.
   */
  method OtherUsersTask(title: string, now: int)
    returns (created: Response, updateByB: Response, deleteByB: Response,
             listA: Response, listB: Response)
    requires title != ""
    ensures created.status == 201 && created.body.TaskJson?
    ensures created.body.task == Task(1, title, None, Status.Pending, 1, now, now)
    ensures updateByB == TaskNotFound && deleteByB == TaskNotFound
    ensures listA == Response(200, TaskListJson([created.body.task]))
    ensures listB == Response(200, TaskListJson([]))
  {
    var table := new TaskTable();
    created := table.CreateTask(Some(1), TaskFields(Some(title), None, None, Some(2)), now);
    var task := created.body.task;
    updateByB := table.UpdateTask(Some(2), 1, TaskFields(Some("mine now"), None, None, Some(2)));
    deleteByB := table.DeleteTask(Some(2), 1);
    assert table.rows == map[1 := task];
    listA := GetTasks(table.rows, Some(1));
    assert task in listA.body.tasks;
    listB := GetTasks(table.rows, Some(2));
  }
}
