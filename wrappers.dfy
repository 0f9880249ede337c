/** A value that may be absent: stands for a nullable pointer of the engine's API. */
module Wrappers {

  datatype Option<+T> = None | Some(value: T)
}
