/**
 * The detail screen's state holder. It is bound to one task id, fetches that task once when it
 * is created, and afterwards keeps its state by local mutation while forwarding each intent to
 * the repository. Every coroutine it launches is taken to run to completion at once; whether a
 * repository call throws is the `CallOutcome` argument.
 */
module DetailViewModel {
  import opened Common
  import opened Domain
  import opened Entities
  import opened Table
  import opened Repository

  /** What the detail screen shows: the task (or null), a loading flag and an error message. */
  datatype TaskDetailUiState = TaskDetailUiState(task: Option<Task>, isLoading: bool, error: Option<string>)

  /** `TaskDetailUiState()` with every field at its default. */
  const InitialUiState := TaskDetailUiState(None, false, None)

  /** How a repository call ended: normally, or by throwing an exception with an optional message. */
  datatype CallOutcome = Succeeded | Failed(message: Option<string>)

  /** The repository calls the state holder issues, in order. */
  datatype RepositoryCall = FetchCall(id: string) | ToggleCall(id: string) | UpdateCall(task: Task) | DeleteCall(id: string)

  const UnknownError := "Unknown error occurred"
  const UpdateFailed := "Failed to update task"
  const DeleteFailed := "Failed to delete task"

  /** The message `checkNotNull` raises when the required value is null. */
  const MissingTaskId := "Required value was null."

  /** The navigation arguments a state holder is created with. */
  type SavedState = map<string, string>

  /** `checkNotNull(savedStateHandle["taskId"])`. */
  function RequiredTaskId(handle: SavedState): (r: Result<string, string>)
    ensures r.Ok? <==> "taskId" in handle
    ensures r.Ok? ==> r.value == handle["taskId"]
    ensures r.Err? ==> r.error == MissingTaskId
  {
    if "taskId" in handle then Ok(handle["taskId"]) else Err(MissingTaskId)
  }

  /** `e.message ?: fallback`: the text shown for a failed call. */
  function ErrorText(outcome: CallOutcome, fallback: string): (text: string)
    requires outcome.Failed?
    ensures outcome.message.Some? ==> text == outcome.message.value
    ensures outcome.message.None? ==> text == fallback
  {
    outcome.message.GetOr(fallback)
  }

  class TaskDetailViewModel {
    const repository: TaskRepositoryImpl
    const taskId: string

    /** The current value of the screen's state flow. */
    var uiState: TaskDetailUiState

    /** Every repository call made so far. */
    ghost var calls: seq<RepositoryCall>

    /** Every value assigned to the state flow so far, the current one last. */
    ghost var history: seq<TaskDetailUiState>

    ghost predicate Valid()
      reads this, repository.dao
    {
      && repository.Valid()
      && |history| > 0 && history[|history| - 1] == uiState
      && (uiState.task.Some? ==> uiState.task.value.id == taskId)
    }

    /** The shown task agrees with the stored one (or nothing is shown). */
    ghost predicate InSync()
      reads this, repository.dao
      requires Valid()
    {
      uiState.task.Some? ==> TaskById(repository.dao.rows, uiState.task.value.id) == uiState.task
    }

    /**
     * Creation with a task id already extracted, which runs `loadTask` once. The store is only
     * read.
     */
    constructor (repository: TaskRepositoryImpl, taskId: string, load: CallOutcome)
      requires repository.Valid()
      ensures Valid()
      ensures this.repository == repository && this.taskId == taskId
      ensures calls == [FetchCall(taskId)]
      ensures load.Succeeded? ==>
        uiState == TaskDetailUiState(TaskById(repository.dao.rows, taskId), false, None)
      ensures load.Failed? ==>
        uiState == TaskDetailUiState(None, false, Some(ErrorText(load, UnknownError)))
      ensures history == [InitialUiState, InitialUiState.(isLoading := true), uiState]
    {
      this.repository := repository;
      this.taskId := taskId;
      uiState := InitialUiState;
      calls := [];
      history := [InitialUiState];
      new;
      LoadTask(load);
    }

    /** Creation from navigation arguments: without a `taskId` it fails and nothing is called. */
    static method Create(repository: TaskRepositoryImpl, handle: SavedState, load: CallOutcome)
      returns (r: Result<TaskDetailViewModel, string>)
      requires repository.Valid()
      ensures r.Err? <==> "taskId" !in handle
      ensures r.Err? ==> r.error == MissingTaskId
      ensures r.Ok? ==> fresh(r.value) && r.value.Valid() && r.value.repository == repository
      ensures r.Ok? ==> r.value.taskId == handle["taskId"] && r.value.calls == [FetchCall(handle["taskId"])]
      ensures r.Ok? && load.Succeeded? ==>
        r.value.uiState == TaskDetailUiState(TaskById(repository.dao.rows, handle["taskId"]), false, None)
      ensures r.Ok? && load.Failed? ==>
        r.value.uiState == TaskDetailUiState(None, false, Some(ErrorText(load, UnknownError)))
      ensures r.Ok? ==>
        r.value.history == [InitialUiState, InitialUiState.(isLoading := true), r.value.uiState]
    {
      var id := RequiredTaskId(handle);
      match id {
        case Err(e) => r := Err(e);
        case Ok(taskId) =>
          var vm := new TaskDetailViewModel(repository, taskId, load);
          r := Ok(vm);
      }
    }

    /** Shows loading, fetches the task once, then shows it or the error. */
    method LoadTask(load: CallOutcome)
      requires Valid()
      modifies this
      ensures Valid()
      ensures calls == old(calls) + [FetchCall(taskId)]
      ensures history == old(history) + [old(uiState).(isLoading := true), uiState]
      ensures load.Succeeded? ==>
        uiState == old(uiState).(task := TaskById(repository.dao.rows, taskId), isLoading := false, error := None)
      ensures load.Failed? ==>
        uiState == old(uiState).(isLoading := false, error := Some(ErrorText(load, UnknownError)))
    {
      uiState := uiState.(isLoading := true);
      history := history + [uiState];
      calls := calls + [FetchCall(taskId)];
      match load {
        case Succeeded =>
          var task := repository.GetTaskById(taskId);
          uiState := uiState.(task := task, isLoading := false, error := None);
        case Failed(_) =>
          uiState := uiState.(isLoading := false, error := Some(ErrorText(load, UnknownError)));
      }
      history := history + [uiState];
    }

    /**
     * Flips the shown task's completion flag in the store and locally, without re-fetching.
     * With no task shown it does nothing at all.
     */
    method ToggleTaskCompletion(outcome: CallOutcome)
      requires Valid()
      modifies this, repository.dao
      ensures Valid()
      ensures old(uiState.task).None? ==>
        && uiState == old(uiState) && calls == old(calls) && history == old(history)
        && repository.dao.rows == old(repository.dao.rows)
      ensures old(uiState.task).Some? ==>
        var t := old(uiState.task).value;
        && calls == old(calls) + [ToggleCall(t.id)]
        && history == old(history) + [uiState]
        && (outcome.Succeeded? ==>
              && uiState == old(uiState).(task := Some(t.(isCompleted := !t.isCompleted)))
              && repository.dao.rows == Toggled(old(repository.dao.rows), t.id))
        && (outcome.Failed? ==>
              && uiState == old(uiState).(error := Some(ErrorText(outcome, UpdateFailed)))
              && repository.dao.rows == old(repository.dao.rows))
      ensures old(InSync()) ==> InSync()
    {
      if uiState.task.None? {
        return;
      }
      var current := uiState.task.value;
      calls := calls + [ToggleCall(current.id)];
      match outcome {
        case Succeeded =>
          repository.ToggleTaskCompletion(current.id);
          uiState := uiState.(task := Some(current.(isCompleted := !current.isCompleted)));
        case Failed(_) =>
          uiState := uiState.(error := Some(ErrorText(outcome, UpdateFailed)));
      }
      history := history + [uiState];
    }

    /**
     * Deletes the shown task from the store. Local state is left as it is, so after a successful
     * delete the screen still shows a task the store no longer holds.
     */
    method DeleteTask(outcome: CallOutcome)
      requires Valid()
      modifies this, repository.dao
      ensures Valid()
      ensures old(uiState.task).None? ==>
        && uiState == old(uiState) && calls == old(calls) && history == old(history)
        && repository.dao.rows == old(repository.dao.rows)
      ensures old(uiState.task).Some? ==>
        var t := old(uiState.task).value;
        && calls == old(calls) + [DeleteCall(t.id)]
        && (outcome.Succeeded? ==>
              && uiState == old(uiState) && history == old(history)
              && repository.dao.rows == RemovedId(old(repository.dao.rows), t.id)
              && TaskById(repository.dao.rows, t.id).None?)
        && (outcome.Failed? ==>
              && uiState == old(uiState).(error := Some(ErrorText(outcome, DeleteFailed)))
              && history == old(history) + [uiState]
              && repository.dao.rows == old(repository.dao.rows))
    {
      if uiState.task.None? {
        return;
      }
      var current := uiState.task.value;
      calls := calls + [DeleteCall(current.id)];
      match outcome {
        case Succeeded =>
          repository.DeleteTask(current.id);
        case Failed(_) =>
          uiState := uiState.(error := Some(ErrorText(outcome, DeleteFailed)));
          history := history + [uiState];
      }
    }

    /**
     * Replaces the shown task's title and description, keeping its id and flag, in the store and
     * locally. With no task shown it does nothing at all.
     */
    method UpdateTask(title: string, description: string, outcome: CallOutcome)
      requires Valid()
      modifies this, repository.dao
      ensures Valid()
      ensures old(uiState.task).None? ==>
        && uiState == old(uiState) && calls == old(calls) && history == old(history)
        && repository.dao.rows == old(repository.dao.rows)
      ensures old(uiState.task).Some? ==>
        var updated := old(uiState.task).value.(title := title, description := description);
        && calls == old(calls) + [UpdateCall(updated)]
        && history == old(history) + [uiState]
        && (outcome.Succeeded? ==>
              && uiState == old(uiState).(task := Some(updated))
              && repository.dao.rows == Updated(old(repository.dao.rows), ToEntity(updated)))
        && (outcome.Failed? ==>
              && uiState == old(uiState).(error := Some(ErrorText(outcome, UpdateFailed)))
              && repository.dao.rows == old(repository.dao.rows))
      ensures old(InSync()) ==> InSync()
    {
      if uiState.task.None? {
        return;
      }
      var current := uiState.task.value;
      var updated := current.(title := title, description := description);
      calls := calls + [UpdateCall(updated)];
      match outcome {
        case Succeeded =>
          repository.UpdateTask(updated);
          uiState := uiState.(task := Some(updated));
        case Failed(_) =>
          uiState := uiState.(error := Some(ErrorText(outcome, UpdateFailed)));
      }
      history := history + [uiState];
    }

    /** Clears the error and nothing else; makes no repository call. */
    method ClearError()
      requires Valid()
      modifies this
      ensures Valid()
      ensures uiState == old(uiState).(error := None)
      ensures calls == old(calls) && history == old(history) + [uiState]
    {
      uiState := uiState.(error := None);
      history := history + [uiState];
    }
  }

  /**
   * A state holder opened for an id the store does not hold: after the load it shows no task and
   * is not loading, and toggle, update and delete then issue no repository call and leave the
   * store as it was.
   */
  method OpenMissingTask(repository: TaskRepositoryImpl, id: string, title: string, description: string,
                         outcome: CallOutcome)
    returns (vm: TaskDetailViewModel)
    requires repository.Valid() && id !in repository.dao.rows
    modifies repository.dao
    ensures vm.uiState == TaskDetailUiState(None, false, None)
    ensures vm.calls == [FetchCall(id)]
    ensures repository.dao.rows == old(repository.dao.rows)
  {
    vm := new TaskDetailViewModel(repository, id, Succeeded);
    vm.ToggleTaskCompletion(outcome);
    vm.UpdateTask(title, description, outcome);
    vm.DeleteTask(outcome);
  }
}
