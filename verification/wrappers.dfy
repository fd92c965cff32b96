/** Optional values and failure-carrying results shared by every module of the model.
    `Result` stands for Go's `(T, error)` pair and for a Python call that either returns
    or raises; the error is kept as the message switchboard would print. */
module Wrappers {

  datatype Option<+T> = None | Some(value: T)

  datatype Result<+T> = Ok(value: T) | Err(msg: string) {

    predicate IsFailure() {
      Err?
    }

    function PropagateFailure<U>(): Result<U>
      requires Err?
    {
      Err(msg)
    }

    function Extract(): T
      requires Ok?
    {
      value
    }
  }
}
