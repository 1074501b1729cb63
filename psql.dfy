/**
 * The task store (package psql): the single `tasks` table and the five
 * operations that map task CRUD onto SQL statements.
 *
 * The table is a map from id to row. Every statement the database runs may
 * fail; whether it does is an input to the operation (an Outcome), since it
 * depends on a connection this model does not see. Ids come from the
 * table's id sequence, modelled by `nextId`.
 */
module Psql {
  import opened Wrappers
  import opened GoInt
  import opened Domain
  import Strconv

  /** One row of `tasks`, keyed by its id. None is SQL NULL. */
  datatype Row = Row(name: Option<string>, description: Option<string>, time: Option<string>)

  type Table = map<int64, Row>

  /** The database's verdict on one statement: it runs, or it fails with a driver message. */
  datatype Outcome = Succeeds | Fails(msg: string)

  /**
   * How the cursor of a multi-row query ends: it hands out every row, or
   * rows.Next() stops after `after` rows and rows.Err() reports `msg`.
   */
  datatype Cursor = Drained | Breaks(after: nat, msg: string)

  /** The errors QueryRow(...).Scan reports: sql.ErrNoRows, or any other. */
  datatype SqlError = ErrNoRows | SqlFailed(msg: string)

  /**
   * The last value the id sequence of the `integer` id column hands out.
   * An INSERT after it fails in the database, so its verdict is a failure.
   */
  const IdSequenceMax: int := 0x7FFF_FFFF

  /** The row INSERT writes: Go strings are never NULL. */
  function RowOf(task: Task): Row {
    Row(Some(task.name), Some(task.description), Some(task.time))
  }

  /** The row UPDATE writes: each absent field is bound as NULL. */
  function RowOfInput(inp: UpdateTaskInput): Row {
    Row(inp.name, inp.description, inp.time)
  }

  /**
   * UPDATE tasks SET name, description, time WHERE id: rewrites the one
   * matching row from the input's three text fields (never its id), and
   * matches nothing when the id is absent.
   */
  function UpdateWhere(table: Table, id: int64, inp: UpdateTaskInput): (t: Table)
    ensures t.Keys == table.Keys
    ensures id in table ==> t[id] == Row(inp.name, inp.description, inp.time)
    ensures forall k :: k in table && k != id ==> t[k] == table[k]
  {
    if id in table then table[id := RowOfInput(inp)] else table
  }

  // ---------------------------------------------------------------------------
  // Reading a row back: database/sql's Scan into (id, name, description, time).
  // Column 0 is the id, which is never NULL; columns 1 to 3 are the text columns.

  function TextColumn(row: Row, c: nat): Option<string>
    requires 1 <= c <= 3
  {
    if c == 1 then row.name else if c == 2 then row.description else row.time
  }

  function TaskField(task: Task, c: nat): string
    requires 1 <= c <= 3
  {
    if c == 1 then task.name else if c == 2 then task.description else task.time
  }

  const ColumnNames: seq<string> := ["id", "name", "description", "time"]

  predicate Complete(row: Row) {
    row.name.Some? && row.description.Some? && row.time.Some?
  }

  predicate NoNullRows(table: Table) {
    forall k :: k in table ==> Complete(table[k])
  }

  /** What Scan leaves in the destination task, and the column it failed on, if any. */
  datatype Scanned = Scanned(task: Task, nullColumn: Option<nat>)

  /** Whether column c lies before the column where Scan stopped. */
  predicate Before(c: nat, stop: Option<nat>) {
    stop.None? || c < stop.value
  }

  /**
   * Scan converts the columns in order and stops at the first NULL text
   * column, which it cannot store in a Go string: the destinations before it
   * hold the row's values, the ones from it on keep their zero value.
   */
  function ScanRow(id: int64, row: Row): (r: Scanned)
    ensures r.task.id == id
    ensures r.nullColumn.None? <==> Complete(row)
    ensures r.nullColumn.Some? ==>
      && 1 <= r.nullColumn.value <= 3
      && TextColumn(row, r.nullColumn.value).None?
      && forall c :: 1 <= c < r.nullColumn.value ==> TextColumn(row, c).Some?
    ensures forall c :: 1 <= c <= 3 ==>
      TaskField(r.task, c) == (if Before(c, r.nullColumn) then TextColumn(row, c).value else "")
  {
    if row.name.None? then Scanned(Task(id, "", "", ""), Some(1))
    else if row.description.None? then Scanned(Task(id, row.name.value, "", ""), Some(2))
    else if row.time.None? then Scanned(Task(id, row.name.value, row.description.value, ""), Some(3))
    else Scanned(Task(id, row.name.value, row.description.value, row.time.value), None)
  }

  /** The text of the error Scan reports for a NULL in column c. */
  function ScanErrorMessage(c: nat): string
    requires c < 4
  {
    "sql: Scan error on column index " + Strconv.FormatUint(c) + ", name "
      + Strconv.Quote(ColumnNames[c]) + ": converting NULL to string is unsupported"
  }

  /**
   * QueryRow("SELECT id, name, description, time FROM tasks WHERE id=$1").Scan(...):
   * the destination task and the error Scan returns.
   */
  function QueryRowScan(table: Table, id: int64, lookup: Outcome): (Task, Option<SqlError>) {
    if lookup.Fails? then (ZeroTask, Some(SqlFailed(lookup.msg)))
    else if id !in table then (ZeroTask, Some(ErrNoRows))
    else
      var s := ScanRow(id, table[id]);
      (s.task, if s.nullColumn.Some? then Some(SqlFailed(ScanErrorMessage(s.nullColumn.value))) else None)
  }

  // ---------------------------------------------------------------------------
  // Listings.

  function Ids(ts: seq<Task>): set<int64> {
    set i | 0 <= i < |ts| :: ts[i].id
  }

  /** Every task in ts is a complete row of the table, read back, and no row appears twice. */
  predicate Listed(table: Table, ts: seq<Task>) {
    && (forall i :: 0 <= i < |ts| ==>
          ts[i].id in table && ScanRow(ts[i].id, table[ts[i].id]) == Scanned(ts[i], None))
    && (forall i, j :: 0 <= i < j < |ts| ==> ts[i].id != ts[j].id)
  }

  /** A listing of exactly the rows of the table holds every row's task. */
  lemma {:induction false} ListingHoldsRow(table: Table, ts: seq<Task>, k: int64)
    requires Listed(table, ts) && Ids(ts) == table.Keys
    requires k in table
    ensures Complete(table[k])
    ensures exists i :: 0 <= i < |ts| && ts[i] == ScanRow(k, table[k]).task
  {
    assert k in Ids(ts);
    var i :| 0 <= i < |ts| && ts[i].id == k;
    assert ts[i] == ScanRow(k, table[k]).task;
  }

  lemma IdsSnoc(ts: seq<Task>, t: Task)
    ensures Ids(ts + [t]) == Ids(ts) + {t.id}
  {
    var us := ts + [t];
    forall k | k in Ids(us) ensures k in Ids(ts) + {t.id} {
      var i :| 0 <= i < |us| && us[i].id == k;
      if i < |ts| { assert ts[i].id == k; }
    }
    forall k | k in Ids(ts) ensures k in Ids(us) {
      var i :| 0 <= i < |ts| && ts[i].id == k;
      assert us[i].id == k;
    }
    assert us[|ts|].id == t.id;
  }

  /** Appending a complete row whose id is not yet listed keeps the listing a listing. */
  lemma ListedSnoc(table: Table, ts: seq<Task>, t: Task)
    requires Listed(table, ts) && t.id !in Ids(ts)
    requires t.id in table && ScanRow(t.id, table[t.id]) == Scanned(t, None)
    ensures Listed(table, ts + [t])
    ensures Ids(ts + [t]) == Ids(ts) + {t.id}
  {
    var us := ts + [t];
    IdsSnoc(ts, t);
    forall i, j | 0 <= i < j < |us| ensures us[i].id != us[j].id {
      if j == |ts| { assert ts[i].id in Ids(ts); }
    }
  }

  /** A list of tasks with pairwise distinct ids has as many ids as entries. */
  lemma {:induction false} DistinctIdsCount(ts: seq<Task>)
    requires forall i, j :: 0 <= i < j < |ts| ==> ts[i].id != ts[j].id
    ensures |Ids(ts)| == |ts|
  {
    if ts != [] {
      var init, last := ts[..|ts| - 1], ts[|ts| - 1];
      assert ts == init + [last];
      DistinctIdsCount(init);
      IdsSnoc(init, last);
      forall i | 0 <= i < |init| ensures init[i].id != last.id {
        assert init[i] == ts[i];
      }
    }
  }

  // ---------------------------------------------------------------------------
  // The contracts of the five operations. The service layer promises the same
  // ones, so they are stated once, here.

  /**
   * Create: on success the table gains exactly one row, holding the task's
   * three strings, under the next id of the sequence, an id no row had; the
   * caller gets its own task back, whose id is not the assigned one. On
   * failure (an exhausted sequence included): the zero task, the error, and
   * an unchanged table.
   */
  twostate predicate CreateSpec(s: Tasks, task: Task, exec: Outcome, new t: Task, new err: Option<Error>)
    reads s
  {
    && (exec.Fails? ==>
          t == ZeroTask && err == Some(Storage(exec.msg))
          && s.table == old(s.table) && s.nextId == old(s.nextId))
    && (exec.Succeeds? && 1 <= old(s.nextId) <= IdSequenceMax ==>
          && t == task && err.None?
          && old(s.nextId) as int64 !in old(s.table)
          && s.table == old(s.table)[old(s.nextId) as int64 := RowOf(task)]
          && s.nextId == old(s.nextId) + 1)
  }

  /**
   * GetByID: NotFound exactly when the query runs and no row has the id; any
   * other failure (the query's own, or a NULL the scan cannot store) is
   * dropped and reported as no error. The task is the row as scanned when the
   * row exists and the query runs, and the zero task otherwise.
   */
  predicate GetByIDSpec(table: Table, id: int64, lookup: Outcome, t: Task, err: Option<Error>) {
    && (err == Some(NotFound) <==> lookup.Succeeds? && id !in table)
    && (err.None? <==> !(lookup.Succeeds? && id !in table))
    && (lookup.Succeeds? && id in table ==> t == ScanRow(id, table[id]).task)
    && (!(lookup.Succeeds? && id in table) ==> t == ZeroTask)
  }

  /**
   * GetAll: no error exactly when the query runs, the cursor hands out every
   * row and no row holds a NULL; then the list is present and holds each row
   * once. A failed query or a failed scan gives no list at all; a scan runs
   * only on a row the cursor handed out, so never when it breaks at once. A cursor that
   * breaks after `after` rows gives the rows it handed out, min(after, |table|)
   * distinct rows of the table, together with its error.
   */
  predicate GetAllSpec(table: Table, query: Outcome, cursor: Cursor,
                       tasks: Option<seq<Task>>, err: Option<Error>)
  {
    && (err.None? <==> query.Succeeds? && cursor.Drained? && NoNullRows(table))
    && (query.Fails? ==> tasks.None? && err == Some(Storage(query.msg)))
    && (err.None? ==>
          tasks.Some? && Listed(table, tasks.value)
          && Ids(tasks.value) == table.Keys && |tasks.value| == |table|)
    && (tasks.None? ==> err.Some?)
    && (query.Succeeds? && tasks.None? ==>
          (cursor.Breaks? ==> cursor.after > 0) &&
          exists k :: k in table && ScanRow(k, table[k]).nullColumn.Some?
            && err == Some(Storage(ScanErrorMessage(ScanRow(k, table[k]).nullColumn.value))))
    && (tasks.Some? && err.Some? ==>
          cursor.Breaks? && err == Some(Storage(cursor.msg))
          && Listed(table, tasks.value)
          && |tasks.value| == (if cursor.after < |table| then cursor.after else |table|))
  }

  /**
   * Delete: a missing id (on a working lookup) gives the zero task and
   * NotFound and removes nothing; a failing DELETE gives the zero task and
   * its error and removes nothing; otherwise exactly the row with that id is
   * gone and the caller gets what GetByID returned before the removal.
   */
  twostate predicate DeleteSpec(s: Tasks, id: int64, lookup: Outcome, exec: Outcome,
                                new t: Task, new err: Option<Error>)
    reads s
  {
    && s.nextId == old(s.nextId)
    && (lookup.Succeeds? && id !in old(s.table) ==>
          t == ZeroTask && err == Some(NotFound) && s.table == old(s.table))
    && (!(lookup.Succeeds? && id !in old(s.table)) && exec.Fails? ==>
          t == ZeroTask && err == Some(Storage(exec.msg)) && s.table == old(s.table))
    && (!(lookup.Succeeds? && id !in old(s.table)) && exec.Succeeds? ==>
          err.None? && s.table == old(s.table) - {id}
          && GetByIDSpec(old(s.table), id, lookup, t, None))
  }

  /**
   * Update: a failing UPDATE gives the zero task and its error and changes
   * nothing; otherwise the row with that id, if any, now holds the input's
   * three fields (absent ones as NULL), no other row changes, and the result
   * is what GetByID reads back, so a missing id comes out as NotFound.
   */
  twostate predicate UpdateSpec(s: Tasks, id: int64, inp: UpdateTaskInput, exec: Outcome,
                                lookup: Outcome, new t: Task, new err: Option<Error>)
    reads s
  {
    && s.nextId == old(s.nextId)
    && (exec.Fails? ==>
          t == ZeroTask && err == Some(Storage(exec.msg)) && s.table == old(s.table))
    && (exec.Succeeds? ==>
          s.table == UpdateWhere(old(s.table), id, inp)
          && GetByIDSpec(s.table, id, lookup, t, err))
  }

  // The three ways GetAll can end after its query ran.

  lemma ScanFailureMeetsSpec(table: Table, query: Outcome, cursor: Cursor, k: int64)
    requires query.Succeeds? && k in table && ScanRow(k, table[k]).nullColumn.Some?
    requires cursor.Breaks? ==> cursor.after > 0
    ensures GetAllSpec(table, query, cursor, None,
                       Some(Storage(ScanErrorMessage(ScanRow(k, table[k]).nullColumn.value))))
  {
    assert !Complete(table[k]);
  }

  lemma BrokenCursorMeetsSpec(table: Table, query: Outcome, cursor: Cursor, ts: seq<Task>)
    requires query.Succeeds? && cursor.Breaks? && Listed(table, ts) && |ts| <= cursor.after
    requires Ids(ts) == table.Keys || |ts| == cursor.after
    ensures GetAllSpec(table, query, cursor, Some(ts), Some(Storage(cursor.msg)))
  {
    DistinctIdsCount(ts);
    ListedIdsInTable(table, ts);
    SubsetCount(Ids(ts), table.Keys);
  }

  lemma ListedIdsInTable(table: Table, ts: seq<Task>)
    requires Listed(table, ts)
    ensures Ids(ts) <= table.Keys
  {
  }

  lemma {:induction false} SubsetCount<T>(a: set<T>, b: set<T>)
    requires a <= b
    ensures |a| <= |b|
  {
    assert b == a + (b - a);
  }

  lemma DrainedMeetsSpec(table: Table, query: Outcome, ts: seq<Task>)
    requires query.Succeeds? && Listed(table, ts) && Ids(ts) == table.Keys
    ensures GetAllSpec(table, query, Drained, Some(ts), None)
  {
    DistinctIdsCount(ts);
    forall k | k in table ensures Complete(table[k]) {
      ListingHoldsRow(table, ts, k);
    }
  }

  /** A cursor that breaks before its first row: no row is scanned, so the answer is [] and rows.Err(). */
  lemma BreakAtOnceListsNothing(table: Table, msg: string, tasks: Option<seq<Task>>, err: Option<Error>)
    requires GetAllSpec(table, Succeeds, Breaks(0, msg), tasks, err)
    ensures tasks == Some([]) && err == Some(Storage(msg))
  {
  }

  /** The first entry of a listing was read from a row of the table without NULLs. */
  lemma ListedHeadComplete(table: Table, ts: seq<Task>)
    requires Listed(table, ts) && |ts| > 0
    ensures ts[0].id in table && Complete(table[ts[0].id])
  {
  }

  /**
   * A table whose only row holds a NULL, under a cursor that hands out at least
   * one row: that row is scanned, so the answer is its scan error, never rows.Err().
   */
  lemma SoleNullRowFailsScan(id: int64, row: Row, after: nat, msg: string,
                             tasks: Option<seq<Task>>, err: Option<Error>)
    requires !Complete(row) && after > 0
    requires GetAllSpec(map[id := row], Succeeds, Breaks(after, msg), tasks, err)
    ensures tasks.None?
    ensures err == Some(Storage(ScanErrorMessage(ScanRow(id, row).nullColumn.value)))
  {
    var table := map[id := row];
    assert table.Keys == {id};
    if tasks.Some? {
      ListedHeadComplete(table, tasks.value);
    }
  }

  /** The store: the `tasks` table behind the database handle. */
  class Tasks {
    var table: Table
    /** The next value of the id sequence. */
    var nextId: int

    /** Every id in the table is positive and was handed out by the sequence. */
    ghost predicate Valid()
      reads this
    {
      1 <= nextId && forall k :: k in table ==> 0 < k as int < nextId
    }

    /** A store over an empty table with a fresh sequence. */
    constructor ()
      ensures Valid() && table == map[] && nextId == 1
    {
      table := map[];
      nextId := 1;
    }

    /** INSERT INTO tasks (name, description, time); the assigned id is not read back. */
    method Create(task: Task, exec: Outcome) returns (t: Task, err: Option<Error>)
      requires Valid() && (exec.Succeeds? ==> nextId <= IdSequenceMax)
      modifies this
      ensures Valid()
      ensures CreateSpec(this, task, exec, t, err)
    {
      if exec.Fails? {
        return ZeroTask, Some(Storage(exec.msg));
      }
      var id := nextId as int64;
      table := table[id := RowOf(task)];
      nextId := nextId + 1;
      return task, None;
    }

    /** SELECT one row by id; only "no rows" becomes an error. */
    method GetByID(id: int64, lookup: Outcome) returns (t: Task, err: Option<Error>)
      ensures GetByIDSpec(table, id, lookup, t, err)
    {
      var (task, scanErr) := QueryRowScan(table, id, lookup);
      if scanErr == Some(ErrNoRows) {
        return task, Some(ErrTaskNotFound);
      }
      return task, None;
    }

    /** SELECT every row, scanning them one by one in the order the database hands them out. */
    method GetAll(query: Outcome, cursor: Cursor) returns (tasks: Option<seq<Task>>, err: Option<Error>)
      ensures GetAllSpec(table, query, cursor, tasks, err)
    {
      if query.Fails? {
        return None, Some(Storage(query.msg));
      }
      var rows := table;
      var acc: seq<Task> := [];
      var rest := rows.Keys;
      ghost var seen: set<int64> := {};
      while rest != {} && !(cursor.Breaks? && |acc| == cursor.after)
        invariant rest !! seen && rest + seen == rows.Keys
        invariant Listed(rows, acc) && Ids(acc) == seen
        invariant cursor.Breaks? ==> |acc| <= cursor.after
        decreases rest
      {
        var id :| id in rest;
        var s := ScanRow(id, rows[id]);
        if s.nullColumn.Some? {
          tasks, err := None, Some(Storage(ScanErrorMessage(s.nullColumn.value)));
          ScanFailureMeetsSpec(rows, query, cursor, id);
          return;
        }
        ListedSnoc(rows, acc, s.task);
        acc := acc + [s.task];
        rest := rest - {id};
        seen := seen + {id};
      }
      if cursor.Breaks? {
        assert rest == {} ==> seen == rows.Keys;
        tasks, err := Some(acc), Some(Storage(cursor.msg));
        BrokenCursorMeetsSpec(rows, query, cursor, acc);
        return;
      }
      assert seen == rows.Keys;
      tasks, err := Some(acc), None;
      DrainedMeetsSpec(rows, query, acc);
    }

    /** GetByID, then DELETE the row when it was found. */
    method Delete(id: int64, lookup: Outcome, exec: Outcome) returns (t: Task, err: Option<Error>)
      requires Valid()
      modifies this
      ensures Valid()
      ensures DeleteSpec(this, id, lookup, exec, t, err)
    {
      var task, e := GetByID(id, lookup);
      if e.Some? {
        return ZeroTask, e;
      }
      if exec.Fails? {
        return ZeroTask, Some(Storage(exec.msg));
      }
      table := table - {id};
      return task, None;
    }

    /** UPDATE the row's three text columns, then read it back with GetByID. */
    method Update(id: int64, inp: UpdateTaskInput, exec: Outcome, lookup: Outcome)
      returns (t: Task, err: Option<Error>)
      requires Valid()
      modifies this
      ensures Valid()
      ensures UpdateSpec(this, id, inp, exec, lookup, t, err)
    {
      if exec.Fails? {
        return ZeroTask, Some(Storage(exec.msg));
      }
      table := UpdateWhere(table, id, inp);
      t, err := GetByID(id, lookup);
    }
  }
}
