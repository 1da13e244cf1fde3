/** The optional value used for absent causes, stacks and failed parses. */
module Wrappers {
  datatype Option<+T> = None | Some(value: T)
}
