/**
 * The HTTP transport (package rest): path-id validation, and for each route
 * the decision that turns the request and the service's answer into a status
 * code and a JSON body. A route handler here returns its Response instead of
 * writing it into the request context; a request body arrives already decoded
 * (or as the decoder's error message).
 */
module Rest {
  import opened Wrappers
  import opened GoInt
  import opened Domain
  import opened Strconv
  import opened Psql
  import Service

  /** The JSON bodies the handlers write: a task, a task list, {"error": msg}, or nothing. */
  datatype Body = TaskJson(task: Task) | TaskListJson(tasks: Option<seq<Task>>) | ErrorJson(error: string) | NoBody

  datatype Response = Response(status: int, body: Body)

  const StatusOK: int := 200
  const StatusCreated: int := 201
  const StatusBadRequest: int := 400
  const StatusNotFound: int := 404
  const StatusInternalServerError: int := 500

  const IdZeroMessage: string := "id cant be 0"
  const TaskNotFoundMessage: string := "Task not found"

  /**
   * getIdFromRequest: the path parameter must be a base-10 int64 literal
   * (an optional sign and at least one digit) and must not denote zero;
   * negative ids pass. The failure text is ParseInt's own error, or
   * "id cant be 0".
   */
  function GetIdFromRequest(param: string): (r: Result<int64, string>)
    ensures r.Success? <==>
      IsDecimalLiteral(param) && InInt64(LiteralValue(param)) && LiteralValue(param) != 0
    ensures r.Success? ==> r.value as int == LiteralValue(param) && r.value != 0
    ensures IsDecimalLiteral(param) && LiteralValue(param) == 0 ==> r == Failure(IdZeroMessage)
    ensures IsDecimalLiteral(param) && !InInt64(LiteralValue(param)) ==>
      r == Failure(NumError(param, ErrRange).Error())
    ensures !IsDecimalLiteral(param) ==>
      exists e :: r == Failure(NumError(param, e).Error())
  {
    ParseIntMatchesLiteral(param);
    match ParseInt(param)
    case Failure(e) => Failure(e.Error())
    case Success(id) => if id == 0 then Failure(IdZeroMessage) else Success(id)
  }

  /** Every non-zero int64, written in decimal, is accepted as that id. */
  lemma IdRoundTrip(n: int64)
    requires n != 0
    ensures GetIdFromRequest(FormatInt(n)) == Success(n)
  {
    ParseIntFormatInt(n);
  }

  /** The 400 answer to a bad id or a bad body. */
  function BadRequest(msg: string): Response {
    Response(StatusBadRequest, ErrorJson(msg))
  }

  /** The 500 answer to an error from the service. */
  function InternalError(err: Error): Response {
    Response(StatusInternalServerError, ErrorJson(err.Message()))
  }

  /** getTaskByID after the service call: the sentinel is 404, other errors 500. */
  function ReplyGetTaskByID(task: Task, err: Option<Error>): Response {
    if err.Some? then
      if Is(err, ErrTaskNotFound) then Response(StatusNotFound, ErrorJson(TaskNotFoundMessage))
      else InternalError(err.value)
    else Response(StatusOK, TaskJson(task))
  }

  /** 404 is decided by the identity of the error, not by its text. */
  lemma NotFoundByIdentity(task: Task, err: Option<Error>)
    ensures ReplyGetTaskByID(task, err).status == StatusNotFound <==> err == Some(ErrTaskNotFound)
    ensures ReplyGetTaskByID(task, Some(Storage(ErrTaskNotFound.Message()))).status
      == StatusInternalServerError
  {
  }

  /** createTask after the service call: 201 with the request's own task. */
  function ReplyCreateTask(task: Task, err: Option<Error>): Response {
    if err.Some? then InternalError(err.value) else Response(StatusCreated, TaskJson(task))
  }

  /** deleteTask and updateTask after the service call: every error is 500. */
  function ReplyNoContent(err: Option<Error>): Response {
    if err.Some? then InternalError(err.value) else Response(StatusOK, NoBody)
  }

  /** getAllTasks after the service call. */
  function ReplyGetAllTasks(tasks: Option<seq<Task>>, err: Option<Error>): Response {
    if err.Some? then InternalError(err.value) else Response(StatusOK, TaskListJson(tasks))
  }

  /** A 500 carrying the scan error of some row that holds a NULL. */
  predicate ScanFailed(table: Table, resp: Response) {
    exists k :: k in table && ScanRow(k, table[k]).nullColumn.Some?
      && resp == InternalError(Storage(ScanErrorMessage(ScanRow(k, table[k]).nullColumn.value)))
  }

  /** The handler over the task service. */
  class Handler {
    const tasksService: Service.Tasks

    constructor (tasks: Service.Tasks)
      ensures tasksService == tasks
    {
      tasksService := tasks;
    }

    /**
     * GET /tasks/:id. A bad id is 400 before the service is asked. With this
     * store the answer is never 500: GetByID drops every error but "no rows",
     * so a failed query comes back as 200 with the zero task.
     */
    method GetTaskByID(param: string, lookup: Outcome) returns (resp: Response)
      ensures GetIdFromRequest(param).Failure? ==>
        resp == BadRequest(GetIdFromRequest(param).error)
      ensures GetIdFromRequest(param).Success? ==>
        var id := GetIdFromRequest(param).value;
        var table := tasksService.repo.table;
        if lookup.Succeeds? && id !in table then
          resp == Response(StatusNotFound, ErrorJson(TaskNotFoundMessage))
        else
          resp == Response(StatusOK, TaskJson(if lookup.Succeeds? then ScanRow(id, table[id]).task else ZeroTask))
      ensures resp.status != StatusInternalServerError
    {
      var parsed := GetIdFromRequest(param);
      if parsed.Failure? {
        return BadRequest(parsed.error);
      }
      var task, err := tasksService.GetByID(parsed.value, lookup);
      resp := ReplyGetTaskByID(task, err);
    }

    /**
     * POST /tasks. A body that does not decode is 400 and the table is
     * untouched; a failed insert is 500; otherwise 201 with the task as
     * decoded from the request (its id is whatever the client sent), and the
     * table holds the new row under a fresh id.
     */
    method CreateTask(decoded: Result<Task, string>, exec: Outcome) returns (resp: Response)
      requires tasksService.repo.Valid()
      requires exec.Succeeds? ==> tasksService.repo.nextId <= IdSequenceMax
      modifies tasksService.repo
      ensures tasksService.repo.Valid()
      ensures decoded.Failure? ==>
        resp == BadRequest(decoded.error) && unchanged(tasksService.repo)
      ensures decoded.Success? && exec.Fails? ==>
        resp == InternalError(Storage(exec.msg)) && tasksService.repo.table == old(tasksService.repo.table)
      ensures decoded.Success? && exec.Succeeds? ==>
        var newId := old(tasksService.repo.nextId) as int64;
        && resp == Response(StatusCreated, TaskJson(decoded.value))
        && newId !in old(tasksService.repo.table)
        && tasksService.repo.table == old(tasksService.repo.table)[newId := RowOf(decoded.value)]
    {
      if decoded.Failure? {
        return BadRequest(decoded.error);
      }
      var task := decoded.value;
      var _, err := tasksService.Create(task, exec);
      resp := ReplyCreateTask(task, err);
    }

    /**
     * DELETE /tasks/:id. A bad id is 400 and the table is untouched. Every
     * service error, not-found included, is 500; success is 200 with no body
     * and exactly that row gone.
     */
    method DeleteTask(param: string, lookup: Outcome, exec: Outcome) returns (resp: Response)
      requires tasksService.repo.Valid()
      modifies tasksService.repo
      ensures tasksService.repo.Valid()
      ensures GetIdFromRequest(param).Failure? ==>
        resp == BadRequest(GetIdFromRequest(param).error) && unchanged(tasksService.repo)
      ensures GetIdFromRequest(param).Success? ==>
        var id := GetIdFromRequest(param).value;
        var before := old(tasksService.repo.table);
        if lookup.Succeeds? && id !in before then
          resp == InternalError(NotFound) && tasksService.repo.table == before
        else if exec.Fails? then
          resp == InternalError(Storage(exec.msg)) && tasksService.repo.table == before
        else
          resp == Response(StatusOK, NoBody) && tasksService.repo.table == before - {id}
    {
      var parsed := GetIdFromRequest(param);
      if parsed.Failure? {
        return BadRequest(parsed.error);
      }
      var _, err := tasksService.Delete(parsed.value, lookup, exec);
      resp := ReplyNoContent(err);
    }

    /**
     * GET /tasks. Any error is 500; otherwise 200 with a list that holds
     * every row once, `[]` for an empty table.
     */
    method GetAllTasks(query: Outcome, cursor: Cursor) returns (resp: Response)
      ensures resp.status == StatusOK <==>
        query.Succeeds? && cursor.Drained? && NoNullRows(tasksService.repo.table)
      ensures resp.status == StatusOK ==>
        && resp.body.TaskListJson? && resp.body.tasks.Some?
        && Listed(tasksService.repo.table, resp.body.tasks.value)
        && Ids(resp.body.tasks.value) == tasksService.repo.table.Keys
      ensures resp.status != StatusOK ==>
        resp.status == StatusInternalServerError && resp.body.ErrorJson?
      ensures query.Fails? ==> resp == InternalError(Storage(query.msg))
      ensures exists tasks, err ::
        GetAllSpec(tasksService.repo.table, query, cursor, tasks, err) && resp == ReplyGetAllTasks(tasks, err)
      ensures query.Succeeds? && cursor.Breaks? && NoNullRows(tasksService.repo.table) ==>
        resp == InternalError(Storage(cursor.msg))
      ensures query.Succeeds? && cursor.Breaks? && cursor.after == 0 ==>
        resp == InternalError(Storage(cursor.msg))
      ensures query.Succeeds? && !NoNullRows(tasksService.repo.table) ==>
        (cursor.Breaks? && resp == InternalError(Storage(cursor.msg)))
        || ScanFailed(tasksService.repo.table, resp)
      ensures query.Succeeds? && cursor.Drained? && !NoNullRows(tasksService.repo.table) ==>
        ScanFailed(tasksService.repo.table, resp)
      ensures tasksService.repo.table == map[] && resp.status == StatusOK ==>
        resp.body == TaskListJson(Some([]))
    {
      var tasks, err := tasksService.GetAll(query, cursor);
      resp := ReplyGetAllTasks(tasks, err);
    }

    /**
     * PUT /tasks/:id. The id is checked before the body: a bad id is 400
     * whatever the body. A bad body is 400. Both leave the table untouched.
     * Every service error, not-found included, is 500; success is 200 with
     * no body. Absent fields are written as NULL.
     */
    method UpdateTask(param: string, decoded: Result<UpdateTaskInput, string>,
                      exec: Outcome, lookup: Outcome) returns (resp: Response)
      requires tasksService.repo.Valid()
      modifies tasksService.repo
      ensures tasksService.repo.Valid()
      ensures GetIdFromRequest(param).Failure? ==>
        resp == BadRequest(GetIdFromRequest(param).error) && unchanged(tasksService.repo)
      ensures GetIdFromRequest(param).Success? && decoded.Failure? ==>
        resp == BadRequest(decoded.error) && unchanged(tasksService.repo)
      ensures GetIdFromRequest(param).Success? && decoded.Success? ==>
        var id := GetIdFromRequest(param).value;
        var before := old(tasksService.repo.table);
        if exec.Fails? then
          resp == InternalError(Storage(exec.msg)) && tasksService.repo.table == before
        else
          && tasksService.repo.table == UpdateWhere(before, id, decoded.value)
          && resp == (if lookup.Succeeds? && id !in before then InternalError(NotFound)
                      else Response(StatusOK, NoBody))
    {
      var parsed := GetIdFromRequest(param);
      if parsed.Failure? {
        return BadRequest(parsed.error);
      }
      if decoded.Failure? {
        return BadRequest(decoded.error);
      }
      var _, err := tasksService.Update(parsed.value, decoded.value, exec, lookup);
      resp := ReplyNoContent(err);
    }
  }
}
