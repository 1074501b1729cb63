/**
 * The shared data model of the task service (package domain): the task
 * record, the partial-update input and the not-found sentinel error.
 */
module Domain {
  import opened Wrappers
  import opened GoInt

  /** A task: a signed 64-bit id and three free-form strings. */
  datatype Task = Task(id: int64, name: string, description: string, time: string)

  /** Go's zero Task, which every failure path returns beside its error. */
  const ZeroTask: Task := Task(0, "", "", "")

  /**
   * A partial update. Each field is independently present (Some) or absent
   * (None, a nil pointer); an absent field is not the same as an empty string.
   */
  datatype UpdateTaskInput = UpdateTaskInput(
    id: Option<int64>,
    name: Option<string>,
    description: Option<string>,
    time: Option<string>)

  /**
   * The errors that travel between the layers. NotFound is the one shared
   * ErrTaskNotFound value; Storage stands for every other error value,
   * each carrying the text its Error() method returns.
   */
  datatype Error = NotFound | Storage(msg: string) {
    /** The text of err.Error(). */
    function Message(): string {
      match this
      case NotFound => "task not found"
      case Storage(m) => m
    }
  }

  const ErrTaskNotFound: Error := NotFound

  /**
   * errors.Is(err, target) for a sentinel target. Nothing in this program
   * wraps errors, so the chain has one link and the test is identity.
   */
  predicate Is(err: Option<Error>, target: Error) {
    err == Some(target)
  }

  /** The sentinel is recognised by identity: another error with the same text is not it. */
  lemma SentinelIsIdentity(msg: string)
    ensures Is(Some(ErrTaskNotFound), ErrTaskNotFound)
    ensures !Is(Some(Storage(msg)), ErrTaskNotFound)
    ensures Storage(ErrTaskNotFound.Message()).Message() == ErrTaskNotFound.Message()
  {
  }
}
