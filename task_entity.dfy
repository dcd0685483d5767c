/** The record stored in the `tasks` table and its mapping to and from the domain task. */
module Entities {
  import opened Domain

  /**
   * One row of the `tasks` table: `id` is the text primary key, the other three fields are
   * the `title`, `description` and `is_completed` columns.
   */
  datatype TaskEntity = TaskEntity(id: string, title: string, description: string, isCompleted: bool)

  /** Builds a row the way a caller does when it leaves out `isCompleted`. */
  function NewEntity(id: string, title: string, description: string): (e: TaskEntity)
    ensures e.id == id && e.title == title && e.description == description
    ensures !e.isCompleted
  {
    TaskEntity(id, title, description, false)
  }

  /** Reads a stored row as a domain task, field by field. */
  function ToDomain(e: TaskEntity): (t: Task)
    ensures t.id == e.id && t.title == e.title && t.description == e.description
    ensures t.isCompleted == e.isCompleted
  {
    Task(e.id, e.title, e.description, e.isCompleted)
  }

  /** Turns a domain task into the row that stores it, field by field. */
  function ToEntity(t: Task): (e: TaskEntity)
    ensures e.id == t.id && e.title == t.title && e.description == t.description
    ensures e.isCompleted == t.isCompleted
  {
    TaskEntity(t.id, t.title, t.description, t.isCompleted)
  }

  /** Storing a domain task and reading it back gives the same task. */
  lemma DomainRoundTrip(t: Task)
    ensures ToDomain(ToEntity(t)) == t
  {
  }

  /** Reading a row as a domain task and storing it again gives the same row. */
  lemma EntityRoundTrip(e: TaskEntity)
    ensures ToEntity(ToDomain(e)) == e
  {
  }

  /** The two mappings are inverse bijections: each side determines the other. */
  lemma MappingInjective(e1: TaskEntity, e2: TaskEntity)
    ensures ToDomain(e1) == ToDomain(e2) <==> e1 == e2
  {
    if ToDomain(e1) == ToDomain(e2) {
      EntityRoundTrip(e1);
      EntityRoundTrip(e2);
    }
  }
}
