/** The JSON responses the backend's handlers send. */
module Http {
  import opened Types

  /** The JSON body of a response. */
  datatype Body =
    | Message(text: string)       // `{ message }`
    | TaskJson(task: Task)        // one task row
    | TaskListJson(tasks: seq<Task>)
    | UserJson(user: User)        // `{ user: { id, username } }`
    | TokenJson(token: string)    // `{ token }`

  /** A status code with its body; `res.json(x)` alone answers 200. */
  datatype Response = Response(status: int, body: Body)

  const Unauthorized := Response(401, Message("Unauthorized"))
  const TaskNotFound := Response(404, Message("Task not found"))
}
