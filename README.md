# Task store model

A Dafny model of the task store of a small Android task-list application: the Room table of
task records and the SQL statements its DAO runs on it, the mapping between stored records and
domain tasks, the repository that composes the two, and the state holder behind the task detail
screen.

- `common.dfy` (module `Common`): `Option` for Kotlin's nullable values, `Result` for failures.
- `task.dfy` (module `Domain`): the domain `Task`.
- `task_entity.dfy` (module `Entities`): the stored record `TaskEntity`, `ToDomain`, `ToEntity`.
- `id_order.dfy` (module `IdOrder`): the order of `ORDER BY id ASC`. The `id` column is TEXT
  with SQLite's default BINARY collation (byte-wise memcmp of UTF-8, shorter string first), which
  is the lexicographic order of code points; `IdBelow` states it on `char`, with its strict
  total order laws.
- `task_table.dfy` (module `Table`): the table as a value `map<string, TaskEntity>` keyed by
  primary key, one function per SQL statement, the listing predicate `IsListing` (one entry per
  row, each a stored row, ascending ids) and the ghost function `Listing` built by insertion, the
  proof that the listing is unique, and the four rows the database seeds on creation.
- `task_dao.dfy` (module `Dao`): class `TaskDao` holding the table in a mutable `rows` field;
  each DAO operation is a method. `GetAllTasks` scans the key set in a loop and inserts each row
  by id.
- `task_repository.dfy` (module `Repository`): class `TaskRepositoryImpl` owning a `TaskDao`;
  its six operations are the DAO calls composed with the mapping, with end-to-end lemmas
  ("after `addTask(t)`, `getTaskById(t.id)` is `t`").
- `task_detail_view_model.dfy` (module `DetailViewModel`): class `TaskDetailViewModel` with the
  `TaskDetailUiState` field, a ghost log of repository calls and a ghost history of every state
  assigned. Each coroutine the source launches is taken to run to completion at once. Whether a
  repository call throws, and with which message, is a `CallOutcome` argument; a call that
  succeeds is made on the model repository, so its effect on the store is part of the contract.

## Model

| member | source | states |
|---|---|---|
| `Domain.NewTask` | app/src/main/java/com/example/myapplication/presentation/tasks/list/TaskListScreen.kt:112-116 | a task built without `isCompleted` carries the given id, title and description and is not completed |
| `Entities.NewEntity` | app/src/main/java/com/example/myapplication/data/local/entity/TaskEntity.kt:9-21 | a record built without `isCompleted` is not completed and keeps the other three fields |
| `Entities.ToDomain` | app/src/main/java/com/example/myapplication/data/local/entity/TaskEntity.kt:23-30 | id, title, description and flag are copied unchanged |
| `Entities.ToEntity` | app/src/main/java/com/example/myapplication/data/local/entity/TaskEntity.kt:32-39 | id, title, description and flag are copied unchanged |
| `Entities.DomainRoundTrip` | app/src/main/java/com/example/myapplication/data/local/entity/TaskEntity.kt:23-39 | `toDomain(toEntity(t)) == t` for every task |
| `Entities.EntityRoundTrip` | app/src/main/java/com/example/myapplication/data/local/entity/TaskEntity.kt:23-39 | `toEntity(toDomain(e)) == e` for every record |
| `Entities.MappingInjective` | app/src/main/java/com/example/myapplication/data/local/entity/TaskEntity.kt:23-30 | two records map to the same task exactly when they are equal |
| `IdOrder.IdBelowIrreflexive` | app/src/main/java/com/example/myapplication/data/local/dao/TaskDao.kt:10 | no id sorts before itself |
| `IdOrder.IdBelowTransitive` | app/src/main/java/com/example/myapplication/data/local/dao/TaskDao.kt:10 | the id order is transitive |
| `IdOrder.IdBelowAsymmetric` | app/src/main/java/com/example/myapplication/data/local/dao/TaskDao.kt:10 | of two ids at most one sorts first |
| `IdOrder.IdBelowTotal` | app/src/main/java/com/example/myapplication/data/local/dao/TaskDao.kt:10 | any two distinct ids are ordered one way or the other |
| `Table.Find` | app/src/main/java/com/example/myapplication/data/local/dao/TaskDao.kt:13-14 | a present id yields its row (whose id is that id); an absent id yields null |
| `Table.Inserted` | app/src/main/java/com/example/myapplication/data/local/dao/TaskDao.kt:16-17 | the row is stored under its id, replacing any earlier row with that id; other rows unchanged; the count grows by one only for a new id |
| `Table.Updated` | app/src/main/java/com/example/myapplication/data/local/dao/TaskDao.kt:19-20 | a stored id gets the new row, other rows unchanged; an absent id leaves the table unchanged |
| `Table.RemovedId` | app/src/main/java/com/example/myapplication/data/local/dao/TaskDao.kt:22-26 | only the row with that id is removed, the rest unchanged; count drops by one exactly when the id was stored |
| `Table.Toggled` | app/src/main/java/com/example/myapplication/data/local/dao/TaskDao.kt:31-32 | only the flag of the matched row flips; other fields and rows unchanged; same key set, so an absent id changes nothing |
| `Table.InsertThenFind` | app/src/main/java/com/example/myapplication/data/local/dao/TaskDao.kt:13-17 | right after inserting a row, looking up its id returns that row |
| `Table.ToggleTwice` | app/src/main/java/com/example/myapplication/data/local/dao/TaskDao.kt:31-32 | toggling the same id twice restores the table |
| `Table.InsertById` | app/src/main/java/com/example/myapplication/data/local/dao/TaskDao.kt:10-11 | inserting a row with a fresh id into an id-sorted sequence keeps it sorted, with exactly the old entries plus the row |
| `Table.Listing` | app/src/main/java/com/example/myapplication/data/local/dao/TaskDao.kt:10-11 | every table has a listing: as many entries as rows, each a stored row, ascending by id |
| `Table.ListingCovers` | app/src/main/java/com/example/myapplication/data/local/dao/TaskDao.kt:10-11 | every stored row appears in a listing |
| `Table.ListingUnique` | app/src/main/java/com/example/myapplication/data/local/dao/TaskDao.kt:10-11 | the listing query has exactly one possible result on a given table |
| `Table.ListingHasOneEntryPerId` | app/src/main/java/com/example/myapplication/data/local/dao/TaskDao.kt:10-11 | no id occurs twice in a listing |
| `Table.SeedTable` | app/src/main/java/com/example/myapplication/data/local/database/TaskDatabase.kt:29-35 | the seeded table holds ids "1" to "4", keyed by id, all incomplete |
| `Table.SeedListing` | app/src/main/java/com/example/myapplication/data/local/database/TaskDatabase.kt:29-35 | the seeded table lists its four rows in id order |
| `Table.SeedDeleteFirst` | app/src/main/java/com/example/myapplication/data/local/dao/TaskDao.kt:25-26 | deleting id "1" from the seeded table leaves a listing of rows "2", "3", "4" |
| `Dao.TaskDao.constructor` | app/src/androidTest/java/com/example/myapplication/data/local/dao/TaskDaoTest.kt:31-38 | a database built without the seed callback starts with an empty table |
| `Dao.TaskDao.Seeded` | app/src/main/java/com/example/myapplication/data/local/database/TaskDatabase.kt:25-35 | a freshly created database holds the four seed rows |
| `Dao.TaskDao.GetAllTasks` | app/src/main/java/com/example/myapplication/data/local/dao/TaskDao.kt:10-11 | the result is the listing of the current table: one entry per row, ascending by id, length equal to the row count |
| `Dao.TaskDao.GetTaskById` | app/src/main/java/com/example/myapplication/data/local/dao/TaskDao.kt:13-14 | returns the stored row for the id, or null when absent |
| `Dao.TaskDao.InsertTask` | app/src/main/java/com/example/myapplication/data/local/dao/TaskDao.kt:16-17 | the new table is the insert-or-replace of the row |
| `Dao.TaskDao.UpdateTask` | app/src/main/java/com/example/myapplication/data/local/dao/TaskDao.kt:19-20 | the new table is the update by primary key (no-op for an absent id) |
| `Dao.TaskDao.DeleteTask` | app/src/main/java/com/example/myapplication/data/local/dao/TaskDao.kt:22-23 | removes the row with the entity's id, whatever its other fields |
| `Dao.TaskDao.DeleteTaskById` | app/src/main/java/com/example/myapplication/data/local/dao/TaskDao.kt:25-26 | removes the row with that id, if any |
| `Dao.TaskDao.DeleteAllTasks` | app/src/main/java/com/example/myapplication/data/local/dao/TaskDao.kt:28-29 | the table becomes empty |
| `Dao.ClearedListingEmpty` | app/src/main/java/com/example/myapplication/data/local/dao/TaskDao.kt:28-29 | the listing of an emptied table is empty |
| `Dao.TaskDao.ToggleTaskCompletion` | app/src/main/java/com/example/myapplication/data/local/dao/TaskDao.kt:31-32 | the new table is the old one with that row's flag flipped (no-op for an absent id) |
| `Repository.ToDomainList` | app/src/main/java/com/example/myapplication/data/repository/TaskRepositoryImpl.kt:18-21 | the element-wise `toDomain` of a record list: same length, same order |
| `Repository.TaskById` | app/src/main/java/com/example/myapplication/data/repository/TaskRepositoryImpl.kt:23-25 | null exactly when the DAO has no row for the id; otherwise a task with that id whose record is the stored row |
| `Repository.DomainListingSorted` | app/src/main/java/com/example/myapplication/data/repository/TaskRepositoryImpl.kt:18-21 | the domain listing ascends by id |
| `Repository.DomainListingAgrees` | app/src/main/java/com/example/myapplication/data/repository/TaskRepositoryImpl.kt:18-25 | every entry of the domain listing, the last one included, is what `getTaskById` returns for its id |
| `Repository.DomainListingCovers` | app/src/main/java/com/example/myapplication/data/repository/TaskRepositoryImpl.kt:18-21 | every stored task appears in the domain listing |
| `Repository.AddThenGet` | app/src/main/java/com/example/myapplication/data/repository/TaskRepositoryImpl.kt:27-29 | after adding `t`, looking up `t.id` yields `t`; the count is unchanged when the id was taken |
| `Repository.UpdateThenGet` | app/src/main/java/com/example/myapplication/data/repository/TaskRepositoryImpl.kt:31-33 | after updating with `t`, looking up `t.id` yields `t` if the id was stored and null otherwise |
| `Repository.DeleteThenGet` | app/src/main/java/com/example/myapplication/data/repository/TaskRepositoryImpl.kt:35-37 | after deleting an id, looking it up yields null |
| `Repository.ToggleThenGet` | app/src/main/java/com/example/myapplication/data/repository/TaskRepositoryImpl.kt:39-41 | after toggling an id, the stored task has only its flag flipped, or is still absent |
| `Repository.TaskRepositoryImpl.constructor` | app/src/main/java/com/example/myapplication/data/repository/TaskRepositoryImpl.kt:13-15 | the repository holds the given DAO |
| `Repository.TaskRepositoryImpl.GetAllTasks` | app/src/main/java/com/example/myapplication/data/repository/TaskRepositoryImpl.kt:18-21 | the result is the DAO listing mapped by `toDomain`; its length is the row count |
| `Repository.TaskRepositoryImpl.GetTaskById` | app/src/main/java/com/example/myapplication/data/repository/TaskRepositoryImpl.kt:23-25 | the result is `toDomain` of the DAO lookup, null when that is null |
| `Repository.TaskRepositoryImpl.AddTask` | app/src/main/java/com/example/myapplication/data/repository/TaskRepositoryImpl.kt:27-29 | any task, blank title included, is inserted-or-replaced as its record, and then looked up as itself |
| `Repository.TaskRepositoryImpl.UpdateTask` | app/src/main/java/com/example/myapplication/data/repository/TaskRepositoryImpl.kt:31-33 | exactly the DAO update of the task's record |
| `Repository.TaskRepositoryImpl.DeleteTask` | app/src/main/java/com/example/myapplication/data/repository/TaskRepositoryImpl.kt:35-37 | exactly the DAO delete by id |
| `Repository.TaskRepositoryImpl.ToggleTaskCompletion` | app/src/main/java/com/example/myapplication/data/repository/TaskRepositoryImpl.kt:39-41 | exactly the DAO toggle by id |
| `DetailViewModel.RequiredTaskId` | app/src/main/java/com/example/myapplication/presentation/tasks/detail/TaskDetailViewModel.kt:20 | succeeds exactly when the navigation arguments hold `taskId`, with its value; otherwise fails with `checkNotNull`'s message |
| `DetailViewModel.ErrorText` | app/src/main/java/com/example/myapplication/presentation/tasks/detail/TaskDetailViewModel.kt:40-45 | the exception's message when it has one, the operation's fallback text otherwise |
| `DetailViewModel.TaskDetailViewModel.constructor` | app/src/main/java/com/example/myapplication/presentation/tasks/detail/TaskDetailViewModel.kt:20-27 | creation runs one load: exactly one `getTaskById(taskId)` call; success shows the store's task (or null), not loading, no error; failure shows no task, not loading, the message or "Unknown error occurred"; loading was shown in between |
| `DetailViewModel.TaskDetailViewModel.Create` | app/src/main/java/com/example/myapplication/presentation/tasks/detail/TaskDetailViewModel.kt:20-27 | without `taskId` creation fails and no state holder exists; with it, a holder bound to that id that made one fetch and, as the constructor states, shows the store's task on success or the error text on failure, with loading shown in between |
| `DetailViewModel.TaskDetailViewModel.LoadTask` | app/src/main/java/com/example/myapplication/presentation/tasks/detail/TaskDetailViewModel.kt:29-47 | sets loading, makes one fetch, then on success sets task, clears loading and error; on failure keeps the task, clears loading, sets the error text |
| `DetailViewModel.TaskDetailViewModel.ToggleTaskCompletion` | app/src/main/java/com/example/myapplication/presentation/tasks/detail/TaskDetailViewModel.kt:49-64 | no task: no call, nothing changes. Otherwise one toggle call with the task's id; success flips only the local flag and toggles the store; failure sets the error, keeps the task and the store. A task in agreement with the store stays in agreement |
| `DetailViewModel.TaskDetailViewModel.DeleteTask` | app/src/main/java/com/example/myapplication/presentation/tasks/detail/TaskDetailViewModel.kt:66-78 | no task: no call, nothing changes. Otherwise one delete call; success removes the store row and changes no local state; failure sets the error only |
| `DetailViewModel.TaskDetailViewModel.UpdateTask` | app/src/main/java/com/example/myapplication/presentation/tasks/detail/TaskDetailViewModel.kt:80-97 | no task: no call, nothing changes. Otherwise sends the task with new title and description and the same id and flag; success makes that the local task and the store's update; failure sets the error, keeps the task. Agreement with the store is kept |
| `DetailViewModel.TaskDetailViewModel.ClearError` | app/src/main/java/com/example/myapplication/presentation/tasks/detail/TaskDetailViewModel.kt:99-101 | the error becomes null and nothing else changes; no repository call |
| `DetailViewModel.OpenMissingTask` | app/src/main/java/com/example/myapplication/presentation/tasks/detail/TaskDetailViewModel.kt:49-97 | opened for an id the store lacks: no task shown, not loading, and toggle, update and delete make no call and leave the store as it was |

## Left out

- The reactive delivery of `getAllTasks` (Room's re-emission after each write, `Flow.map`,
  subscription and cancellation): coroutine and library behaviour. The model has one snapshot
  per call of `GetAllTasks`, which a caller re-evaluates after each write.
- Concurrency: every coroutine runs to completion before the next intent, so a write racing a
  load, or an intent issued while the load is pending, is not modelled.
- Storage faults of Room and SQLite: DAO operations never fail in the model. A failed
  repository call seen by the detail state holder is a `CallOutcome` argument and is taken to
  leave the store unchanged.
- The `TaskRepository` interface is not a separate declaration (traits are not used here):
  `TaskRepositoryImpl` carries the six operations of that contract directly. The domain model
  file defining `Task` is not part of this model; its fields and the default of `isCompleted`
  follow the mapping code and its uses.
- Null navigation arguments: `SavedState` maps strings to strings, so a `taskId` key holding
  null is modelled as an absent key; `checkNotNull` fails on both alike.
- `DetailViewModel.TaskDetailViewModel` history: records every value assigned to the state flow;
  `StateFlow` drops an assignment equal to the current value, which the model does not.
- `Dao.TaskDao.GetAllTasks`: the order of ids is stated for SQLite's BINARY collation; a column
  declared with another collation would order differently.
- The list screen's state holder, the Compose screens, navigation, DI wiring and UUID
  generation for new tasks: glue with no logic of their own.

## Notes on the code

- The detail state holder's test for a failed update (TaskDetailViewModelTest.kt:329-330)
  guesses that the local task may be changed anyway. The code changes the local task only after
  the repository call returns, so on failure the task is kept; the model follows the code.
- After a successful delete the local task is kept while the store no longer holds it
  (`DeleteTask`'s contract states both facts); this is the optimistic-state trade-off of the
  design, not a defect.
