/** Failure-carrying values shared by the argument scanner and the context builder. */
module Base {

  datatype Option<+T> = None | Some(value: T)

  /** Prefer the first option when it holds a value. */
  function OrElse<T>(first: Option<T>, fallback: Option<T>): Option<T>
  {
    if first.Some? then first else fallback
  }

  /** Every way the pipeline can stop before rendering.
      `Usage` is the usage message plus process exit; `MissingValue` replaces
      the out-of-bounds read of a flag's value; `DataNotTable` replaces the
      unwrap of a non-table data root; `Failed` carries the message of an
      error reported by a collaborator (data loader, template engine). */
  datatype AppError =
    | Usage
    | MissingValue(flag: string)
    | DataNotTable
    | Failed(message: string)

  datatype Result<+T> = Ok(value: T) | Err(error: AppError) {

    predicate IsFailure() {
      Err?
    }

    function PropagateFailure<U>(): Result<U>
      requires Err?
    {
      Err(error)
    }

    function Extract(): T
      requires Ok?
    {
      value
    }
  }
}
