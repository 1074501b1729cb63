# A verified model of the todo task service

The todo service keeps a list of tasks in one PostgreSQL table, `tasks`.
It exposes them over HTTP:

- `POST /tasks` creates a task;
- `GET /tasks` lists every task;
- `GET /tasks/:id` reads one task;
- `DELETE /tasks/:id` removes one task;
- `PUT /tasks/:id` rewrites one task.

A request passes through three layers: the REST handler, the service and the
Postgres repository. This project models all three, plus the shared domain
types, in Dafny.

Modules:

- `Wrappers`: `Option` and `Result`.
- `GoInt`: Go's `int64` as a newtype.
- `Domain`: `Task`, `UpdateTaskInput` and the error values. `NotFound` is the
  `ErrTaskNotFound` sentinel. `Storage(msg)` stands for every other error.
- `Strconv`: the part of Go's `strconv` that the handler uses, namely
  `ParseInt(s, 10, 64)` with its error values and texts. `ParseInt` is proved
  equal to a reference grammar of decimal literals. `FormatInt(n, 10)` is
  defined as well, though the handler never calls it: it is the reference
  inverse against which the id round trip is proved.
- `Psql`: the repository.
  - The class `Psql.Tasks` holds the table as a `map<int64, Row>` and the id
    sequence as `nextId`.
  - A SQL NULL is `None` in a `Row` column.
  - Whether a statement fails is an input to the operation: an `Outcome`, or a
    `Cursor` for the row-by-row read.
  - Each operation's contract is one predicate: `CreateSpec`, `GetByIDSpec`,
    `GetAllSpec`, `DeleteSpec` or `UpdateSpec`.
  - `GetAll` is a loop that reads the rows one by one, with its invariants.
- `Service`: the service layer. Its class holds only the repository, and each
  method promises exactly the repository's contract predicate.
- `Rest`: the handler.
  - `GetIdFromRequest` validates the path id.
  - Pure `Reply*` functions decide the status and body.
  - A `Handler` class over the service has one method per route. Each method
    returns its `Response` instead of writing it into the request context.
- `Scenarios`: request sequences that use only the contracts above. Examples
  are create-then-list, delete-then-read, and "a bad id never reaches the
  store".

Behaviour of the code that the model keeps as written:

- `Create` answers with the caller's own task. The id it answers with is the
  one the client sent, not the id the sequence assigned.
- `GetByID` turns only "no rows" into `ErrTaskNotFound`. Every other error is
  dropped: a failed query comes back as the zero task with no error. As a
  result, `GET /tasks/:id` can answer 200 or 404 but never 500.
- `Update` writes all three text columns. A field absent from the input is
  written as NULL, not left unchanged. Reading such a row back fails in
  database/sql's `Scan`, which cannot store NULL in a Go string:
  - `GetByID` drops that error and returns a partially filled task;
  - `GetAll` returns no list and the scan error.

  `Scenarios.UpdateWithAbsentFields` shows the whole sequence.
- `DELETE` and `PUT` on a missing id answer 500, not 404.
- Ids may be negative; only 0 is rejected.

## Model

| member | source | states |
|---|---|---|
| Domain.SentinelIsIdentity | internal/domain/task.go:7-9 | ErrTaskNotFound is recognised by identity: a different error with the same text is not it |
| Strconv.ParseIntMatchesLiteral | internal/transport/rest/handler.go:134 | ParseInt(s, 10, 64) succeeds exactly on an optionally signed, non-empty digit string whose value fits int64, and returns that value; such a literal outside int64 is a range error |
| Strconv.ParseIntFormatInt | internal/transport/rest/handler.go:134 | ParseInt inverts FormatInt on every int64, and FormatInt always produces a decimal literal denoting its input |
| Rest.GetIdFromRequest | internal/transport/rest/handler.go:133-144 | succeeds exactly on an int64 literal whose value is not 0, and returns that value; 0 fails with "id cant be 0"; an out-of-range literal fails with ParseInt's range-error text; anything else fails with a ParseInt error text for that input |
| Rest.IdRoundTrip | internal/transport/rest/handler.go:133-144 | every non-zero int64, written in decimal, is accepted as exactly that id, negative ones included |
| Rest.NotFoundByIdentity | internal/transport/rest/handler.go:55-66 | getTaskByID answers 404 exactly when the service error is the ErrTaskNotFound sentinel; an error that only has the same text is 500 |
| Rest.Handler.constructor | internal/transport/rest/handler.go:26-30 | the handler holds the given service |
| Rest.Handler.GetTaskByID | internal/transport/rest/handler.go:48-67 | a bad id is 400 with the parse error; otherwise 404 "Task not found" when the query runs and no row has the id, else 200 with the scanned row, or with the zero task when the query failed; never 500 |
| Rest.Handler.CreateTask | internal/transport/rest/handler.go:69-83 | an undecodable body is 400 and the store is untouched; an insert failure is 500 with its text and the table is unchanged; success is 201 with the request's task, and the table gains exactly that row under a fresh id |
| Rest.Handler.DeleteTask | internal/transport/rest/handler.go:85-99 | a bad id is 400 and the store is untouched; a missing id is 500 "task not found"; a failing DELETE is 500 with its text; otherwise 200 with no body and exactly that row removed |
| Rest.Handler.GetAllTasks | internal/transport/rest/handler.go:101-109 | the reply is what getAllTasks makes of a result the store's GetAll contract allows; so 200 exactly when the query runs, the cursor is drained and no row holds a NULL, and then the body lists every row once, `[]` for an empty table; otherwise 500 with the error's own text: the query's, the broken cursor's (always so when it breaks before the first row, or when no row holds a NULL), or the scan error of a row holding a NULL that the cursor handed out |
| Rest.Handler.UpdateTask | internal/transport/rest/handler.go:111-131 | the id is checked before the body: a bad id is 400 whatever the body, and a bad body is 400; both leave the store untouched; a failing UPDATE is 500; otherwise the table is the UPDATE's result, with 500 for a missing id and 200 with no body otherwise |
| Psql.UpdateWhere | internal/repository/psql/task.go:88-94 | UPDATE keeps the table's ids, rewrites the matching row's three text columns from the input (absent fields as NULL, the input's id ignored), and changes no other row |
| Psql.ScanRow | internal/repository/psql/task.go:33-39 | Scan keeps the id; it fails exactly when a text column is NULL, at the first such column; destinations before it hold the row's values and the rest keep the empty string |
| Psql.ListingHoldsRow | internal/repository/psql/task.go:48-70 | a listing of exactly the table's ids holds, for every row, that row's task as read back, and every row is NULL-free |
| Psql.DistinctIdsCount | internal/repository/psql/task.go:48-70 | a list whose ids are pairwise distinct has as many ids as entries, so a full listing has one entry per row |
| Psql.ListedSnoc | internal/repository/psql/task.go:66 | appending a scanned row whose id is not yet listed keeps the list a listing of distinct table rows |
| Psql.ScanFailureMeetsSpec | internal/repository/psql/task.go:57-64 | a NULL in any row makes GetAll's nil list with that row's scan error meet GetAll's contract, provided the cursor hands out at least one row |
| Psql.BrokenCursorMeetsSpec | internal/repository/psql/task.go:55-69 | when the cursor breaks after `after` rows, the min(after, table size) distinct rows it handed out, together with rows.Err(), meet GetAll's contract |
| Psql.BreakAtOnceListsNothing | internal/repository/psql/task.go:54-69 | a cursor that breaks before its first row yields the empty, present list and the cursor's error, whatever NULLs the table holds |
| Psql.SoleNullRowFailsScan | internal/repository/psql/task.go:55-64 | when the table's only row holds a NULL and the cursor hands out at least one row, GetAll gives no list and that row's scan error, whatever the cursor's own error |
| Psql.DrainedMeetsSpec | internal/repository/psql/task.go:55-69 | a drained cursor whose listing covers the table's ids meets GetAll's contract with no error: no row holds a NULL and there is one entry per row |
| Psql.Tasks.constructor | internal/repository/psql/task.go:12-14 | a new store over an empty table with a fresh id sequence |
| Psql.Tasks.Create | internal/repository/psql/task.go:16-29 | on success: the caller's task back with no error, and the table gains exactly one row with the task's three strings under the sequence's next id, which no row had; on an insert failure, an exhausted id sequence included: the zero task, the error, and an unchanged table |
| Psql.Tasks.GetByID | internal/repository/psql/task.go:31-46 | NotFound exactly when the query runs and no row has the id; every other failure is dropped (no error); the task is the scanned row when the row exists and the query runs, and the zero task otherwise |
| Psql.Tasks.GetAll | internal/repository/psql/task.go:48-70 | no error exactly when the query runs, the cursor is drained and no row holds a NULL, and then a present list with exactly one entry per row, so `[]` for an empty table; a failed query, or a failed scan of a row the cursor handed out, gives no list and that error; a cursor that breaks after `after` rows gives exactly the min(after, table size) distinct rows it handed out, and its error |
| Psql.Tasks.Delete | internal/repository/psql/task.go:72-85 | a missing id gives the zero task and NotFound, and nothing is removed; a failing DELETE gives the zero task and its error, and nothing is removed; otherwise exactly that row is removed and the caller gets the pre-deletion read |
| Psql.Tasks.Update | internal/repository/psql/task.go:87-101 | a failing UPDATE gives the zero task and its error, and changes nothing; otherwise the table is UpdateWhere's result and the answer is GetByID's on the new table, so a missing id gives NotFound |
| Service.Tasks.constructor | internal/service/task.go:19-23 | the service holds the given repository and nothing else |
| Service.Tasks.Create | internal/service/task.go:25-27 | exactly the repository's Create contract: the same task, the same error, the same table change |
| Service.Tasks.GetByID | internal/service/task.go:29-31 | exactly the repository's GetByID contract, so NotFound arrives as the same sentinel |
| Service.Tasks.GetAll | internal/service/task.go:33-35 | exactly the repository's GetAll contract |
| Service.Tasks.Delete | internal/service/task.go:37-39 | exactly the repository's Delete contract |
| Service.Tasks.Update | internal/service/task.go:41-43 | exactly the repository's Update contract |
| Scenarios.EmptyTableListsEmpty | internal/repository/psql/task.go:54 | a fresh store lists an empty, present list and no error |
| Scenarios.CreateThenGetAll | internal/repository/psql/task.go:16-70 | after a successful Create, GetAll lists a task with the created name, description and time |
| Scenarios.CreateThenGetByID | internal/repository/psql/task.go:16-46 | Create answers with the caller's task, while GetByID on the assigned id reads back the stored fields under that id |
| Scenarios.DeleteThenGetByID | internal/repository/psql/task.go:31-85 | Delete returns the removed row as read before; a later GetByID reports ErrTaskNotFound |
| Scenarios.UpdateThenGetByID | internal/repository/psql/task.go:31-101 | an Update with all three fields present returns, and a later GetByID reads, the new fields |
| Scenarios.UpdateWithAbsentFields | internal/repository/psql/task.go:87-101 | an Update with every field absent answers with the id and empty strings and no error, and a later GetAll fails on the NULL name |
| Scenarios.PostAnswersRequestBody | internal/transport/rest/handler.go:69-83 | POST answers 201 with the request's task, id 0 included, not with the stored row |
| Scenarios.BadIdsNeverReachTheStore | internal/transport/rest/handler.go:49-53 | "0" and "abc" are 400 on GET, DELETE and PUT /tasks/:id, and the table is unchanged |

## Left out

- cmd/main.go is not part of this model. It covers environment variables, the database connection, logger setup and the HTTP listener.
- `InitRouter` and `LoggingMiddleware` are left out. They are gin route registration and a logging side channel, with no decision logic.
- JSON decoding and encoding (`ShouldBindJSON`, `c.JSON`) are left out. A request body arrives as a `Result`: the decoded value, or the decoder's error text. A response is a status and a `Body` value rather than serialised JSON.
- The database connection is not modelled. Whether a statement fails, and after how many rows a cursor breaks, are inputs to the operation. Their error texts are opaque strings.
- `Psql.Tasks.Create`: the id sequence is taken to be the `integer` column's serial, whose last value is 2147483647 (`IdSequenceMax`). An INSERT after that value fails in the database, so such an insert can only be given a failing verdict, whose text is opaque like every other. A failed insert does not advance the sequence here, whereas Postgres consumes the value; ids stay fresh either way.
- `Psql.Tasks.constructor`: the model starts from an empty table. A store opened on an existing database is any `Psql.Tasks` that satisfies `Valid()`.
- `Psql.Tasks.GetAll`: the order in which the database hands out rows is chosen nondeterministically. The contract fixes which tasks are listed, not their order.
- Go's distinction between a nil slice and an empty slice is modelled as `None` versus `Some([])`. JSON output of `null` versus `[]` follows from that.
- `Strconv.Quote` is modelled only for inputs that need no escaping. The error text for a path id containing quotes or control characters differs from Go's in its escapes.
- `Rest.GetIdFromRequest`: for a non-literal input, the contract says the failure is a ParseInt error for that input without saying whether it is the syntax or the range error. An over-long digit run followed by a non-digit is reported as a range error by the code's left-to-right loop, and the function itself models that.
- The `TasksRepository` and `rest.Tasks` interfaces are replaced by the concrete classes they are implemented by. Other implementations are not covered.
- Concurrency between requests and the connection pool are left out. Each request is one sequential operation on the store.
