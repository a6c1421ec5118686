/** The records exchanged between the backend and the client (Frontend/src/types/index.ts). */
module Types {
  import opened Wrappers

  /** The closed set of task states. */
  datatype Status = Pending | Completed

  /** An account as it is shown to clients: never carries the password hash. */
  datatype User = User(id: int, username: string)

  /**
   * A task row. Timestamps are instants (seconds); the wire format carries
   * them as ISO strings, which does not matter to any rule modelled here.
   */
  datatype Task = Task(
    id: int,
    title: string,
    description: Option<string>,
    status: Status,
    userId: int,
    createdAt: int,
    updatedAt: int)
}
