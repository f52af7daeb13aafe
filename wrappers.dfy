/** The optional value used across the model: a JavaScript `null`/`undefined`, a missing
    key or a `NaN` result is `None`. */
module Wrappers {

  datatype Option<+T> = None | Some(value: T)
}
