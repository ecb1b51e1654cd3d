/** The `Logger` collaborator (types/service.ts): `info(message)` and
    `error(message, error?)`. Logging is a side effect only, so the model
    records the calls in order as a plain trace of entries. */
module Logging {
  import opened Results

  datatype LogEntry<+E> =
    | Info(message: string)
    | Error(message: string, cause: Option<E>)
}
