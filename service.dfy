/**
 * The service layer (package service): every operation forwards its
 * arguments to the repository and hands back the repository's result
 * untouched. Each method therefore promises exactly the contract of the
 * store operation it calls; in particular NotFound reaches the caller as the
 * same ErrTaskNotFound value.
 */
module Service {
  import opened Wrappers
  import opened GoInt
  import opened Domain
  import Psql

  class Tasks {
    /** The repository; the service keeps no other state. */
    const repo: Psql.Tasks

    constructor (repo: Psql.Tasks)
      ensures this.repo == repo
    {
      this.repo := repo;
    }

    method Create(task: Task, exec: Psql.Outcome) returns (t: Task, err: Option<Error>)
      requires repo.Valid() && (exec.Succeeds? ==> repo.nextId <= Psql.IdSequenceMax)
      modifies repo
      ensures repo.Valid()
      ensures Psql.CreateSpec(repo, task, exec, t, err)
    {
      t, err := repo.Create(task, exec);
    }

    method GetByID(id: int64, lookup: Psql.Outcome) returns (t: Task, err: Option<Error>)
      ensures Psql.GetByIDSpec(repo.table, id, lookup, t, err)
    {
      t, err := repo.GetByID(id, lookup);
    }

    method GetAll(query: Psql.Outcome, cursor: Psql.Cursor) returns (tasks: Option<seq<Task>>, err: Option<Error>)
      ensures Psql.GetAllSpec(repo.table, query, cursor, tasks, err)
    {
      tasks, err := repo.GetAll(query, cursor);
    }

    method Delete(id: int64, lookup: Psql.Outcome, exec: Psql.Outcome) returns (t: Task, err: Option<Error>)
      requires repo.Valid()
      modifies repo
      ensures repo.Valid()
      ensures Psql.DeleteSpec(repo, id, lookup, exec, t, err)
    {
      t, err := repo.Delete(id, lookup, exec);
    }

    method Update(id: int64, inp: UpdateTaskInput, exec: Psql.Outcome, lookup: Psql.Outcome)
      returns (t: Task, err: Option<Error>)
      requires repo.Valid()
      modifies repo
      ensures repo.Valid()
      ensures Psql.UpdateSpec(repo, id, inp, exec, lookup, t, err)
    {
      t, err := repo.Update(id, inp, exec, lookup);
    }
  }
}
