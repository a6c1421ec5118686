/**
 * The task handlers (Backend/src/controller/taskController.js): each takes
 * the caller id the auth gate attached to the request (absent when there is
 * none) and answers from, or updates, the task table.
 */
module TaskController {
  import opened Wrappers
  import opened Types
  import opened JsString
  import opened Http

  /** `if (!userId)`: an absent id and the id 0 are both refused. */
  predicate Authenticated(caller: Option<int>) {
    caller.Some? && caller.value != 0
  }

  /** The table is keyed by task id. */
  ghost predicate WellKeyed(rows: map<int, Task>) {
    forall k :: k in rows ==> rows[k].id == k
  }

  /** The row `id` exists and belongs to `owner`; anything else is answered 404 alike. */
  predicate Owns(rows: map<int, Task>, owner: int, id: int) {
    id in rows && rows[id].userId == owner
  }

  // ---------------------------------------------------------------------
  // getTasks: the caller's tasks, newest first

  /**
   * `a` may be listed before `b` under `orderBy: { createdAt: "desc" }`.
   * The store leaves the order of equal timestamps open; the model lists
   * the larger id first.
   */
  predicate ListedBefore(a: Task, b: Task) {
    a.createdAt > b.createdAt || (a.createdAt == b.createdAt && a.id >= b.id)
  }

  /** `k` is a row of `ids` listed before every row of `ids`. */
  predicate IsNewest(rows: map<int, Task>, ids: set<int>, k: int)
    requires ids <= rows.Keys
  {
    k in ids && forall j :: j in ids ==> ListedBefore(rows[k], rows[j])
  }

  /** Adding the row `x` to a set whose newest row is `m`: the newer of the two is newest. */
  lemma NewestOfOneMore(rows: map<int, Task>, others: set<int>, m: int, x: int)
    requires others <= rows.Keys && x in rows
    requires IsNewest(rows, others, m)
    ensures var k := if ListedBefore(rows[m], rows[x]) then m else x;
      IsNewest(rows, others + {x}, k)
  {
  }

  /** Every non-empty set of rows has a row listed before all the others. */
  lemma {:induction false} NewestExists(rows: map<int, Task>, ids: set<int>)
    requires ids <= rows.Keys && ids != {}
    ensures exists k :: IsNewest(rows, ids, k)
    decreases ids
  {
    assert exists x :: x in ids by {
      if forall x :: x !in ids { assert false; }
    }
    var x :| x in ids;
    var others := ids - {x};
    assert ids == others + {x};
    if others == {} {
      assert IsNewest(rows, ids, x);
    } else {
      NewestExists(rows, others);
      var m :| IsNewest(rows, others, m);
      NewestOfOneMore(rows, others, m, x);
    }
  }

  /** The rows `ids` in listing order: newest first, no row twice. */
  function NewestFirst(rows: map<int, Task>, ids: set<int>): (r: seq<Task>)
    requires WellKeyed(rows) && ids <= rows.Keys
    ensures |r| == |ids|
    ensures forall t :: t in r <==> t.id in ids && rows[t.id] == t
    ensures forall i, j :: 0 <= i < j < |r| ==> ListedBefore(r[i], r[j]) && r[i].id != r[j].id
    decreases ids
  {
    if ids == {} then []
    else
      NewestExists(rows, ids);
      var k :| IsNewest(rows, ids, k);
      var rest := NewestFirst(rows, ids - {k});
      assert forall i :: 0 <= i < |rest| ==> rest[i] in rest;
      [rows[k]] + rest
  }

  /** `findMany({ where: { userId }, orderBy: { createdAt: "desc" } })`. */
  function Listing(rows: map<int, Task>, owner: int): (r: seq<Task>)
    requires WellKeyed(rows)
    ensures forall t :: t in r <==> t.id in rows && rows[t.id] == t && t.userId == owner
    ensures forall i, j :: 0 <= i < j < |r| ==> r[i].createdAt >= r[j].createdAt && r[i].id != r[j].id
  {
    NewestFirst(rows, set k | k in rows && rows[k].userId == owner)
  }

  /** `getTasks`: 401 without a caller, else 200 with exactly the caller's rows, newest first. */
  function GetTasks(rows: map<int, Task>, caller: Option<int>): (resp: Response)
    requires WellKeyed(rows)
    ensures !Authenticated(caller) ==> resp == Unauthorized
    ensures Authenticated(caller) ==> resp.status == 200 && resp.body.TaskListJson?
    ensures Authenticated(caller) ==> forall t :: t in resp.body.tasks <==> t.id in rows && rows[t.id] == t && t.userId == caller.value
    ensures Authenticated(caller) ==>
      forall i, j :: 0 <= i < j < |resp.body.tasks| ==>
        resp.body.tasks[i].createdAt >= resp.body.tasks[j].createdAt && resp.body.tasks[i].id != resp.body.tasks[j].id
  {
    if !Authenticated(caller) then Unauthorized
    else Response(200, TaskListJson(Listing(rows, caller.value)))
  }

  // ---------------------------------------------------------------------
  // createTask / updateTask / deleteTask

  /**
   * A task request body: `create` and `update` read title, description and
   * status; an owner id a client puts in the body is never read.
   */
  datatype TaskFields = TaskFields(
    title: Option<string>,
    description: Option<string>,
    status: Option<Status>,
    userId: Option<int>)

  /** The status the store gives a task created without one. */
  const DefaultStatus := Status.Pending

  const TitleRequired := Response(400, Message("Title is required"))
  const TaskDeleted := Response(200, Message("Task deleted"))

  /**
   * `task.update({ data: { title, description, status } })`: a field the
   * body leaves out keeps its value; id, owner and timestamps never change.
   */
  function Patched(t: Task, body: TaskFields): (u: Task)
    ensures u.id == t.id && u.userId == t.userId && u.createdAt == t.createdAt && u.updatedAt == t.updatedAt
    ensures body.title.None? && body.description.None? && body.status.None? ==> u == t
    ensures body.title.Some? ==> u.title == body.title.value
    ensures body.title.None? ==> u.title == t.title
    ensures body.description.Some? ==> u.description == body.description
    ensures body.description.None? ==> u.description == t.description
    ensures u.status == if body.status.Some? then body.status.value else t.status
  {
    t.(title := if body.title.Some? then body.title.value else t.title,
       description := if body.description.Some? then body.description else t.description,
       status := if body.status.Some? then body.status.value else t.status)
  }

  /** The task table; `nextId` is the store's autoincrement counter. */
  class TaskTable {
    var rows: map<int, Task>
    var nextId: int

    /** Rows sit under their own id, and every id is one already issued. */
    ghost predicate Valid()
      reads this
    {
      && nextId >= 1
      && WellKeyed(rows)
      && forall k :: k in rows ==> 1 <= k < nextId
    }

    constructor ()
      ensures Valid() && rows == map[] && nextId == 1
    {
      rows := map[];
      nextId := 1;
    }

    /**
     * `createTask` at clock reading `now`: the new row gets a fresh id and
     * the caller as its owner, whatever owner the body names.
     */
    method CreateTask(caller: Option<int>, body: TaskFields, now: int) returns (resp: Response)
      requires Valid()
      modifies this
      ensures Valid()
      ensures !Authenticated(caller) ==> resp == Unauthorized && rows == old(rows) && nextId == old(nextId)
      ensures Authenticated(caller) && !Truthy(body.title) ==>
        resp == TitleRequired && rows == old(rows) && nextId == old(nextId)
      ensures Authenticated(caller) && Truthy(body.title) ==>
        var t := Task(old(nextId), body.title.value, body.description,
                      if body.status.Some? then body.status.value else DefaultStatus, caller.value, now, now);
        && old(nextId) !in old(rows)
        && resp == Response(201, TaskJson(t))
        && rows == old(rows)[old(nextId) := t]
        && nextId == old(nextId) + 1
    {
      if !Authenticated(caller) {
        return Unauthorized;
      }
      if !Truthy(body.title) {
        return TitleRequired;
      }
      var status := if body.status.Some? then body.status.value else DefaultStatus;
      var t := Task(nextId, body.title.value, body.description, status, caller.value, now, now);
      rows := rows[nextId := t];
      nextId := nextId + 1;
      resp := Response(201, TaskJson(t));
    }

    /**
     * `updateTask` of row `id`: one 404 for a missing row and for another
     * user's row, and on success only the target row's title, description
     * and status change.
     */
    method UpdateTask(caller: Option<int>, id: int, body: TaskFields) returns (resp: Response)
      requires Valid()
      modifies this
      ensures Valid() && nextId == old(nextId)
      ensures !Authenticated(caller) ==> resp == Unauthorized && rows == old(rows)
      ensures Authenticated(caller) && !Owns(old(rows), caller.value, id) ==> resp == TaskNotFound && rows == old(rows)
      ensures Authenticated(caller) && Owns(old(rows), caller.value, id) ==>
        && resp == Response(200, TaskJson(Patched(old(rows)[id], body)))
        && rows == old(rows)[id := Patched(old(rows)[id], body)]
    {
      if !Authenticated(caller) {
        return Unauthorized;
      }
      if !Owns(rows, caller.value, id) {
        return TaskNotFound;
      }
      var updated := Patched(rows[id], body);
      rows := rows[id := updated];
      resp := Response(200, TaskJson(updated));
    }

    /**
     * `deleteTask` of row `id`: the same 404 as `updateTask`, and on success
     * exactly that row is gone.
     */
    method DeleteTask(caller: Option<int>, id: int) returns (resp: Response)
      requires Valid()
      modifies this
      ensures Valid() && nextId == old(nextId)
      ensures !Authenticated(caller) ==> resp == Unauthorized && rows == old(rows)
      ensures Authenticated(caller) && !Owns(old(rows), caller.value, id) ==> resp == TaskNotFound && rows == old(rows)
      ensures Authenticated(caller) && Owns(old(rows), caller.value, id) ==>
        resp == TaskDeleted && rows == old(rows) - {id}
    {
      if !Authenticated(caller) {
        return Unauthorized;
      }
      if !Owns(rows, caller.value, id) {
        return TaskNotFound;
      }
      rows := rows - {id};
      resp := TaskDeleted;
    }
  }
}
