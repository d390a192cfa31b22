/** The Option type used for the results of searches and number conversions. */
module Wrappers {

  datatype Option<+T> = None | Some(value: T)
}
