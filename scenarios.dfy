/**
 * Request sequences against the store and the handler, with what their
 * contracts guarantee about the outcome. Each one is a client that relies
 * only on the specifications of the operations it calls.
 */
module Scenarios {
  import opened Wrappers
  import opened GoInt
  import opened Domain
  import opened Psql
  import opened Rest

  /** A fresh store lists an empty, present list: JSON `[]`, not `null`. */
  method EmptyTableListsEmpty() returns (tasks: Option<seq<Task>>, err: Option<Error>)
    ensures tasks == Some([]) && err.None?
  {
    var store := new Tasks();
    tasks, err := store.GetAll(Succeeds, Drained);
  }

  /**
   * Create, then GetAll: the listing holds a task with the created name,
   * description and time, under the id the sequence assigned.
   */
  method CreateThenGetAll(store: Tasks, task: Task) returns (listed: seq<Task>)
    requires store.Valid() && NoNullRows(store.table) && store.nextId <= IdSequenceMax
    modifies store
    ensures exists i :: (0 <= i < |listed| &&
      listed[i] == Task(old(store.nextId) as int64, task.name, task.description, task.time))
  {
    var newId := store.nextId as int64;
    var _, err := store.Create(task, Succeeds);
    assert store.table == old(store.table)[newId := RowOf(task)];
    assert NoNullRows(store.table);
    var tasks, e := store.GetAll(Succeeds, Drained);
    listed := tasks.value;
    ListingHoldsRow(store.table, listed, newId);
  }

  /**
   * Create, then GetByID on the assigned id: the stored fields come back,
   * with the assigned id, while Create itself answered with the caller's id.
   */
  method CreateThenGetByID(store: Tasks, task: Task) returns (created: Task, read: Task)
    requires store.Valid() && store.nextId <= IdSequenceMax
    modifies store
    ensures created == task
    ensures read == Task(old(store.nextId) as int64, task.name, task.description, task.time)
  {
    var newId := store.nextId as int64;
    var err;
    created, err := store.Create(task, Succeeds);
    read, err := store.GetByID(newId, Succeeds);
  }

  /** Delete on an existing id returns the row; a later GetByID reports NotFound. */
  method DeleteThenGetByID(store: Tasks, id: int64) returns (deleted: Task, err: Option<Error>)
    requires store.Valid() && id in store.table
    modifies store
    ensures deleted == ScanRow(id, old(store.table)[id]).task
    ensures err == Some(ErrTaskNotFound)
  {
    var e;
    deleted, e := store.Delete(id, Succeeds, Succeeds);
    var _, err' := store.GetByID(id, Succeeds);
    err := err';
  }

  /** Update with every field present, then GetByID: the new fields come back. */
  method UpdateThenGetByID(store: Tasks, id: int64, name: string, description: string, time: string)
    returns (updated: Task, read: Task)
    requires store.Valid() && id in store.table
    modifies store
    ensures updated == Task(id, name, description, time)
    ensures read == Task(id, name, description, time)
  {
    var inp := UpdateTaskInput(None, Some(name), Some(description), Some(time));
    var err;
    updated, err := store.Update(id, inp, Succeeds, Succeeds);
    read, err := store.GetByID(id, Succeeds);
  }

  /**
   * Update with every field absent writes NULLs: the read-back fails to scan
   * the name, the failure is dropped, and the caller sees a task with only
   * its id and no error; a later GetAll fails on that row.
   */
  method UpdateWithAbsentFields(store: Tasks, id: int64)
    returns (updated: Task, err: Option<Error>, listErr: Option<Error>)
    requires store.Valid() && id in store.table && NoNullRows(store.table)
    modifies store
    ensures updated == Task(id, "", "", "") && err.None?
    ensures listErr == Some(Storage(ScanErrorMessage(1)))
  {
    var inp := UpdateTaskInput(None, None, None, None);
    updated, err := store.Update(id, inp, Succeeds, Succeeds);
    var tasks;
    assert !Complete(store.table[id]);
    tasks, listErr := store.GetAll(Succeeds, Drained);
  }

  /**
   * POST /tasks {"name":"a","description":"b","time":"2024-01-01"} answers
   * 201 with id 0: the request's task, not the stored one.
   */
  method PostAnswersRequestBody(h: Handler) returns (resp: Response)
    requires h.tasksService.repo.Valid() && h.tasksService.repo.nextId <= IdSequenceMax
    modifies h.tasksService.repo
    ensures resp == Response(StatusCreated, TaskJson(Task(0, "a", "b", "2024-01-01")))
  {
    resp := h.CreateTask(Success(Task(0, "a", "b", "2024-01-01")), Succeeds);
  }

  /** "0" and "abc" are 400 on every id route, and the table is untouched. */
  method BadIdsNeverReachTheStore(h: Handler, body: Result<UpdateTaskInput, string>,
                                  lookup: Outcome, exec: Outcome)
    returns (statuses: seq<int>)
    requires h.tasksService.repo.Valid()
    modifies h.tasksService.repo
    ensures statuses == [400, 400, 400, 400, 400, 400]
    ensures h.tasksService.repo.table == old(h.tasksService.repo.table)
  {
    assert Strconv.ParseInt("0") == Success(0);
    assert !Strconv.IsDigit('a');
    assert GetIdFromRequest("abc").Failure?;
    var get0 := h.GetTaskByID("0", lookup);
    var delete0 := h.DeleteTask("0", lookup, exec);
    var put0 := h.UpdateTask("0", body, exec, lookup);
    var getAbc := h.GetTaskByID("abc", lookup);
    var deleteAbc := h.DeleteTask("abc", lookup, exec);
    var putAbc := h.UpdateTask("abc", body, exec, lookup);
    statuses := [get0.status, delete0.status, put0.status, getAbc.status, deleteAbc.status, putAbc.status];
  }
}
