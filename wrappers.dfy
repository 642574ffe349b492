/** The JavaScript `null`/`undefined`/`NaN` outcomes of the source, as one option type. */
module Wrappers {
  datatype Option<+T> = None | Some(value: T)
}
