/** The domain model handed to every layer above persistence. */
module Domain {

  /** A domain task: an immutable value snapshot of one stored record. */
  datatype Task = Task(id: string, title: string, description: string, isCompleted: bool)

  /** Builds a task the way a caller does when it leaves out `isCompleted`. */
  function NewTask(id: string, title: string, description: string): (t: Task)
    ensures t.id == id && t.title == title && t.description == description
    ensures !t.isCompleted
  {
    Task(id, title, description, false)
  }
}
