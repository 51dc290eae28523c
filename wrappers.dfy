/** The optional-value wrapper used for parse results and image payloads. */
module Wrappers {

  datatype Option<+T> = None | Some(value: T)
}
