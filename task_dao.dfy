/** The Room DAO over the `tasks` table: one shared table changed in place by SQL statements. */
module Dao {
  import opened Common
  import opened Entities
  import opened Table

  class TaskDao {
    /** The table's rows, keyed by primary key. */
    var rows: Rows

    ghost predicate Valid()
      reads this
    {
      KeyedById(rows)
    }

    /** An empty table. */
    constructor ()
      ensures Valid() && rows == map[]
    {
      rows := map[];
    }

    /** A freshly created database: the creation callback has inserted the four seed rows. */
    constructor Seeded()
      ensures Valid() && rows == SeedTable()
    {
      rows := SeedTable();
    }

    /** `SELECT * FROM tasks ORDER BY id ASC`: the current snapshot of the table. */
    method GetAllTasks() returns (list: seq<TaskEntity>)
      requires Valid()
      ensures IsListing(list, rows)
      ensures list == Listing(rows)
    {
      list := [];
      var pending := rows.Keys;
      while pending != {}
        invariant pending <= rows.Keys
        invariant IsListing(list, rows - pending)
        decreases pending
      {
        var k :| k in pending;
        ListingStep(list, rows, pending, k);
        list := InsertById(list, rows[k]);
        pending := pending - {k};
      }
      assert rows - pending == rows;
      ListingUnique(list, rows);
    }

    /** `SELECT * FROM tasks WHERE id = :id`. */
    method GetTaskById(id: string) returns (r: Option<TaskEntity>)
      requires Valid()
      ensures r == Find(rows, id)
    {
      if id in rows {
        r := Some(rows[id]);
      } else {
        r := None;
      }
    }

    /** `@Insert(onConflict = REPLACE)`. */
    method InsertTask(task: TaskEntity)
      requires Valid()
      modifies this
      ensures Valid() && rows == Inserted(old(rows), task)
    {
      rows := rows[task.id := task];
    }

    /** `@Update`: matched by primary key; no match is no change. */
    method UpdateTask(task: TaskEntity)
      requires Valid()
      modifies this
      ensures Valid() && rows == Updated(old(rows), task)
    {
      if task.id in rows {
        rows := rows[task.id := task];
      }
    }

    /** `@Delete`: removes the row with the entity's primary key, whatever its other fields. */
    method DeleteTask(task: TaskEntity)
      requires Valid()
      modifies this
      ensures Valid() && rows == RemovedId(old(rows), task.id)
    {
      rows := RemovedId(rows, task.id);
    }

    /** `DELETE FROM tasks WHERE id = :id`. */
    method DeleteTaskById(id: string)
      requires Valid()
      modifies this
      ensures Valid() && rows == RemovedId(old(rows), id)
    {
      rows := RemovedId(rows, id);
    }

    /** `DELETE FROM tasks`. */
    method DeleteAllTasks()
      requires Valid()
      modifies this
      ensures Valid() && rows == map[]
    {
      rows := map[];
    }

    /** `UPDATE tasks SET is_completed = NOT is_completed WHERE id = :id`. */
    method ToggleTaskCompletion(id: string)
      requires Valid()
      modifies this
      ensures Valid() && rows == Toggled(old(rows), id)
    {
      if id in rows {
        var row := rows[id];
        rows := rows[id := row.(isCompleted := !row.isCompleted)];
      }
    }
  }

  /** One step of the listing scan: the row of a pending key joins the rows listed so far. */
  lemma ListingStep(list: seq<TaskEntity>, rows: Rows, pending: set<string>, k: string)
    requires KeyedById(rows) && k in pending && pending <= rows.Keys
    requires IsListing(list, rows - pending)
    ensures forall x :: x in list ==> x.id != rows[k].id
    ensures IsListing(InsertById(list, rows[k]), rows - (pending - {k}))
  {
    var done := rows - pending;
    ListingAdd(list, done, rows[k]);
    assert done[k := rows[k]] == rows - (pending - {k});
  }

  /** After `DELETE FROM tasks` the listing is empty. */
  lemma ClearedListingEmpty()
    ensures Listing(map[]) == []
  {
  }
}
