/** The optional value a pipeline stage returns: `Some(params)` to continue, `None` to stop. */
module Wrappers {

  datatype Option<+T> = None | Some(value: T)
}
