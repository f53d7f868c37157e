/** The optional value used throughout the model (`None` for JavaScript's
    `undefined`/`null` results and Python's `None`). */
module Wrappers {
  datatype Option<T> = None | Some(value: T)
}
