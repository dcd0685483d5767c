/**
 * The repository: the six operations other layers use for task data, each one DAO call
 * composed with the record/domain mapping. It validates nothing.
 */
module Repository {
  import opened Common
  import opened Domain
  import opened Entities
  import opened IdOrder
  import opened Table
  import opened Dao

  /** `entities.map { it.toDomain() }`. */
  function ToDomainList(es: seq<TaskEntity>): (ts: seq<Task>)
    ensures |ts| == |es|
    ensures forall i :: 0 <= i < |es| ==> ts[i] == ToDomain(es[i])
  {
    seq(|es|, i requires 0 <= i < |es| => ToDomain(es[i]))
  }

  /** `taskDao.getTaskById(id)?.toDomain()` on the table `m`. */
  function TaskById(m: Rows, id: string): (r: Option<Task>)
    requires KeyedById(m)
    ensures r.None? <==> id !in m
    ensures r.Some? ==> r.value.id == id && ToEntity(r.value) == m[id]
  {
    match Find(m, id)
    case None => None
    case Some(e) => Some(ToDomain(e))
  }

  /** The domain listing keeps the row listing's order, so it too ascends by id. */
  lemma {:induction false} DomainListingSorted(m: Rows, i: int, j: int)
    requires KeyedById(m)
    requires 0 <= i < j < |m|
    ensures var ts := ToDomainList(Listing(m)); IdBelow(ts[i].id, ts[j].id)
  {
    var l := Listing(m);
    assert IdBelow(l[i].id, l[j].id);
  }

  /** Each entry of the domain listing is what a lookup by its id returns. */
  lemma DomainListingAgrees(m: Rows, i: int)
    requires KeyedById(m)
    requires 0 <= i < |m|
    ensures var ts := ToDomainList(Listing(m)); TaskById(m, ts[i].id) == Some(ts[i])
  {
    var l := Listing(m);
    assert l[i].id in m && m[l[i].id] == l[i];
  }

  /** Every stored task appears in the domain listing. */
  lemma DomainListingCovers(m: Rows, id: string)
    requires KeyedById(m) && id in m
    ensures TaskById(m, id).value in ToDomainList(Listing(m))
  {
    var l := Listing(m);
    ListingCovers(l, m);
    var i :| 0 <= i < |l| && l[i] == m[id];
    assert ToDomainList(l)[i] == ToDomain(m[id]);
  }

  /** After `addTask(t)`, `getTaskById(t.id)` returns `t`, whether or not the id was taken. */
  lemma AddThenGet(m: Rows, t: Task)
    requires KeyedById(m)
    ensures TaskById(Inserted(m, ToEntity(t)), t.id) == Some(t)
    ensures |Inserted(m, ToEntity(t))| == if t.id in m then |m| else |m| + 1
  {
    DomainRoundTrip(t);
  }

  /** After `updateTask(t)`: the stored task is `t` if its id was stored, and absent otherwise. */
  lemma UpdateThenGet(m: Rows, t: Task)
    requires KeyedById(m)
    ensures TaskById(Updated(m, ToEntity(t)), t.id) == if t.id in m then Some(t) else None
  {
    DomainRoundTrip(t);
  }

  /** After `toggleTaskCompletion(id)`, the stored task, if any, has only its flag flipped. */
  lemma ToggleThenGet(m: Rows, id: string)
    requires KeyedById(m)
    ensures var before := TaskById(m, id);
      TaskById(Toggled(m, id), id) ==
        if before.Some? then Some(before.value.(isCompleted := !before.value.isCompleted)) else None
  {
  }

  /** After `deleteTask(id)`, `getTaskById(id)` returns null. */
  lemma DeleteThenGet(m: Rows, id: string)
    requires KeyedById(m)
    ensures TaskById(RemovedId(m, id), id) == None
  {
  }

  class TaskRepositoryImpl {
    const dao: TaskDao

    ghost predicate Valid()
      reads dao
    {
      dao.Valid()
    }

    constructor (dao: TaskDao)
      requires dao.Valid()
      ensures this.dao == dao && Valid()
    {
      this.dao := dao;
    }

    /** The current snapshot of all tasks, ascending by id. */
    method GetAllTasks() returns (tasks: seq<Task>)
      requires Valid()
      ensures tasks == ToDomainList(Listing(dao.rows))
      ensures |tasks| == |dao.rows|
    {
      var entities := dao.GetAllTasks();
      tasks := ToDomainList(entities);
    }

    method GetTaskById(id: string) returns (task: Option<Task>)
      requires Valid()
      ensures task == TaskById(dao.rows, id)
    {
      var entity := dao.GetTaskById(id);
      match entity {
        case None => task := None;
        case Some(e) => task := Some(ToDomain(e));
      }
    }

    /** Stores `task` as given, replacing any task with its id. */
    method AddTask(task: Task)
      requires Valid()
      modifies dao
      ensures Valid() && dao.rows == Inserted(old(dao.rows), ToEntity(task))
      ensures TaskById(dao.rows, task.id) == Some(task)
    {
      dao.InsertTask(ToEntity(task));
      AddThenGet(old(dao.rows), task);
    }

    method UpdateTask(task: Task)
      requires Valid()
      modifies dao
      ensures Valid() && dao.rows == Updated(old(dao.rows), ToEntity(task))
    {
      dao.UpdateTask(ToEntity(task));
    }

    method DeleteTask(id: string)
      requires Valid()
      modifies dao
      ensures Valid() && dao.rows == RemovedId(old(dao.rows), id)
    {
      dao.DeleteTaskById(id);
    }

    method ToggleTaskCompletion(id: string)
      requires Valid()
      modifies dao
      ensures Valid() && dao.rows == Toggled(old(dao.rows), id)
    {
      dao.ToggleTaskCompletion(id);
    }
  }
}
