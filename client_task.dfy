/**
 * The browser's view of a task (`Task` in the client's type definitions): the
 * server's record as JSON, with dates as ISO-8601 text and the two enumerations
 * as the integers the server sends.
 */
module ClientTask {
  import opened Wrappers

  /** The client's `TaskStatus` values. */
  const Pending := 0
  const InProgress := 1
  const Completed := 2

  /** The client's `TaskPriority` values. */
  const Low := 0
  const Medium := 1
  const High := 2

  /**
   * A task as the list shows it. `status` and `priority` are raw integers: the
   * client casts whatever number arrives, so values outside 0..2 are possible.
   */
  datatype Task = Task(
    id: int,
    title: string,
    description: Option<string>,
    status: int,
    priority: int,
    dueDate: Option<string>,
    tags: string,
    createdAt: string,
    updatedAt: string,
    deletedAt: Option<string>)
}
