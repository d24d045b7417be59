/** A value that may be absent: a null reference, an undefined bucket, a rule that does not match. */
module Wrappers {

  datatype Option<+T> = None | Some(value: T)
}
