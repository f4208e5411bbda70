/** The optional value that stands for C's NULL results and C++'s std::optional. */
module Wrappers {
  datatype Option<+T> = None | Some(value: T)
}
