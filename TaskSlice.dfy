/**
 * The client's task store (Frontend/src/features/tasks/taskSlice.ts): the
 * state the reducers update in place on each thunk action. The thunks'
 * HTTP calls are not modelled; their payloads are the methods' arguments.
 */
module TaskSlice {
  import opened Wrappers
  import opened Types
  import opened ThunkErrors

  const FetchFailed := "Failed to fetch tasks"
  const CreateFailed := "Failed to create task"

  /** The list with its first task of `t`'s id replaced by `t`. */
  function ReplaceFirst(tasks: seq<Task>, t: Task): (r: seq<Task>)
    ensures |r| == |tasks|
    decreases |tasks|
  {
    if tasks == [] then []
    else if tasks[0].id == t.id then [t] + tasks[1..]
    else [tasks[0]] + ReplaceFirst(tasks[1..], t)
  }

  /** Replacing the first match at `i` changes position `i` and nothing else. */
  lemma {:induction false} ReplaceFirstAt(tasks: seq<Task>, t: Task, i: nat)
    requires i < |tasks| && tasks[i].id == t.id
    requires forall j :: 0 <= j < i ==> tasks[j].id != t.id
    ensures ReplaceFirst(tasks, t) == tasks[i := t]
    decreases i
  {
    if i > 0 {
      ReplaceFirstAt(tasks[1..], t, i - 1);
      assert [tasks[0]] + tasks[1..][i - 1 := t] == tasks[i := t];
    }
  }

  /** Without a task of `t`'s id the list is left as it is. */
  lemma {:induction false} ReplaceFirstNoMatch(tasks: seq<Task>, t: Task)
    requires forall j :: 0 <= j < |tasks| ==> tasks[j].id != t.id
    ensures ReplaceFirst(tasks, t) == tasks
    decreases |tasks|
  {
    if tasks != [] {
      ReplaceFirstNoMatch(tasks[1..], t);
      assert [tasks[0]] + tasks[1..] == tasks;
    }
  }

  /** `tasks.filter((t) => t.id !== id)`. */
  function WithoutId(tasks: seq<Task>, id: int): (r: seq<Task>)
    ensures |r| <= |tasks|
    ensures forall t :: t in r <==> t in tasks && t.id != id
    decreases |tasks|
  {
    if tasks == [] then []
    else (if tasks[0].id != id then [tasks[0]] else []) + WithoutId(tasks[1..], id)
  }

  /** Filtering keeps the relative order: it distributes over concatenation. */
  lemma {:induction false} WithoutIdConcat(a: seq<Task>, b: seq<Task>, id: int)
    ensures WithoutId(a + b, id) == WithoutId(a, id) + WithoutId(b, id)
    decreases |a|
  {
    if a == [] {
      assert a + b == b;
    } else {
      assert (a + b)[1..] == a[1..] + b;
      WithoutIdConcat(a[1..], b, id);
    }
  }

  /** The number of tasks of id `id` in the list. */
  function CountId(tasks: seq<Task>, id: int): nat
    decreases |tasks|
  {
    if tasks == [] then 0 else (if tasks[0].id == id then 1 else 0) + CountId(tasks[1..], id)
  }

  /** Filtering drops exactly the tasks of that id: the others keep their number. */
  lemma {:induction false} WithoutIdCount(tasks: seq<Task>, id: int)
    ensures |WithoutId(tasks, id)| == |tasks| - CountId(tasks, id)
    decreases |tasks|
  {
    if tasks != [] {
      WithoutIdCount(tasks[1..], id);
    }
  }

  /** `tasks.findIndex((t) => t.id === id)`: the first position of that id, or -1. */
  method FindIndex(tasks: seq<Task>, id: int) returns (index: int)
    ensures -1 <= index < |tasks|
    ensures index == -1 <==> forall j :: 0 <= j < |tasks| ==> tasks[j].id != id
    ensures index >= 0 ==> tasks[index].id == id && forall j :: 0 <= j < index ==> tasks[j].id != id
  {
    index := 0;
    while index < |tasks|
      invariant 0 <= index <= |tasks|
      invariant forall j :: 0 <= j < index ==> tasks[j].id != id
    {
      if tasks[index].id == id {
        return;
      }
      index := index + 1;
    }
    index := -1;
  }

  /** `tasks.filter((t) => t.id !== id)`, one element at a time. */
  method Filter(tasks: seq<Task>, id: int) returns (kept: seq<Task>)
    ensures kept == WithoutId(tasks, id)
  {
    kept := [];
    var i := 0;
    while i < |tasks|
      invariant 0 <= i <= |tasks|
      invariant kept == WithoutId(tasks[..i], id)
    {
      assert tasks[..i + 1] == tasks[..i] + [tasks[i]];
      WithoutIdConcat(tasks[..i], [tasks[i]], id);
      assert WithoutId([tasks[i]], id) == if tasks[i].id != id then [tasks[i]] else [] by {
        assert [tasks[i]][1..] == [];
      }
      if tasks[i].id != id {
        kept := kept + [tasks[i]];
      }
      i := i + 1;
    }
    assert tasks[..i] == tasks;
  }

  /** The `tasks` slice of the client's store. */
  class TaskStore {
    var tasks: seq<Task>
    var loading: bool
    var error: Option<string>

    /** `initialState`: no tasks, not loading, no error. */
    constructor ()
      ensures tasks == [] && !loading && error == None
    {
      tasks := [];
      loading := false;
      error := None;
    }

    /** `fetchTasks.pending` and `createTask.pending`: only the loading flag is set. */
    method Pending()
      modifies this
      ensures loading && tasks == old(tasks) && error == old(error)
    {
      loading := true;
    }

    /** `fetchTasks.fulfilled`: the list becomes the server's list; a previous error stays. */
    method FetchFulfilled(payload: seq<Task>)
      modifies this
      ensures !loading && tasks == payload && error == old(error)
    {
      loading := false;
      tasks := payload;
    }

    /** `fetchTasks.rejected`: the list is kept and the error is the rejection's message. */
    method FetchRejected(payload: Option<string>)
      modifies this
      ensures !loading && tasks == old(tasks) && error == Some(RejectionMessage(payload, FetchFailed))
    {
      loading := false;
      error := Some(RejectionMessage(payload, FetchFailed));
    }

    /** `createTask.fulfilled`: the new task goes at the end; the earlier ones stay as they were. */
    method CreateFulfilled(payload: Task)
      modifies this
      ensures !loading && tasks == old(tasks) + [payload] && error == old(error)
    {
      loading := false;
      tasks := tasks + [payload];
    }

    /** `createTask.rejected`: the list is kept and the error is the rejection's message. */
    method CreateRejected(payload: Option<string>)
      modifies this
      ensures !loading && tasks == old(tasks) && error == Some(RejectionMessage(payload, CreateFailed))
    {
      loading := false;
      error := Some(RejectionMessage(payload, CreateFailed));
    }

    /**
     * `updateTask.fulfilled`: the first task with the payload's id becomes
     * the payload; with no such task the list is unchanged. The loading flag
     * and the error are never touched.
     */
    method UpdateFulfilled(payload: Task)
      modifies this
      ensures tasks == ReplaceFirst(old(tasks), payload)
      ensures loading == old(loading) && error == old(error)
    {
      var index := FindIndex(tasks, payload.id);
      if index != -1 {
        ReplaceFirstAt(tasks, payload, index);
        tasks := tasks[index := payload];
      } else {
        ReplaceFirstNoMatch(tasks, payload);
      }
    }

    /**
     * `deleteTask.fulfilled`: every task of that id is dropped, the others
     * keep their order. The loading flag and the error are never touched.
     */
    method DeleteFulfilled(id: int)
      modifies this
      ensures tasks == WithoutId(old(tasks), id)
      ensures loading == old(loading) && error == old(error)
    {
      tasks := Filter(tasks, id);
    }
  }
}
