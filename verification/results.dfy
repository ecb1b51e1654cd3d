/** Failure-carrying datatypes shared by every module of the model.

    - Option<T> stands for a TypeScript optional (`x?: T`, `T | undefined`).
    - Result<T, E> is a synchronous call that returns a value or throws.
    - Settled<T, E> is a settled promise: resolved with a value or rejected
      with an error.
    - Script<T, E> is an asynchronous collaborator called several times: the
      outcome of its k-th call (0-based), fixed before the call sequence starts.
 */
module Results {

  datatype Option<+T> = None | Some(value: T)

  datatype Result<+T, +E> = Success(value: T) | Failure(error: E)

  datatype Settled<+T, +E> = Resolved(value: T) | Rejected(error: E)

  type Script<T, E> = nat -> Settled<T, E>
}
