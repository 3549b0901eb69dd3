/** The optional value used wherever the routes DSL may or may not supply something. */
module Wrappers {
  datatype Option<+T> = None | Some(value: T)
}
