/** Failure-carrying result types shared by the whole model.

    The solver reports three kinds of failure:
    - `NumEquationsNumUnknownsMismatch`: the error variant of the same name;
    - `ArgminError`: an error returned by an optimiser callback (`bail!`) or by
      the optimiser library itself;
    - `Panic`: the Rust program aborts (index out of bounds, `expect` on
      `None`, an empty random range, ...). A panic is not recoverable; it is
      modelled as a value so that the model can say when it happens.
 */
module Wrappers {

  datatype Option<+T> = None | Some(value: T)

  datatype SolverError =
    | NumEquationsNumUnknownsMismatch(nEqs: nat, nUnks: nat)
    | ArgminError(reason: string)
    | Panic(reason: string)

  datatype Result<+T> = Ok(value: T) | Err(error: SolverError) {

    predicate IsFailure() {
      Err?
    }

    function PropagateFailure<U>(): Result<U>
      requires Err?
    {
      Err(error)
    }

    function Extract(): T
      requires Ok?
    {
      value
    }
  }
}
