/** The "no value" marker used for a missing mean, a missing student and a
    number that does not parse. */
module Wrappers {

  datatype Option<+T> = None | Some(value: T)
}
