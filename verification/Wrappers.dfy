/** The option type used for every nullable or absent value of the program. */
module Wrappers {
  datatype Option<+T> = None | Some(value: T)
}
