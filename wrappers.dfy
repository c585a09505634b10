/** The optional value used wherever the C++ code returns `nullptr` or
    reports a failed parse. */
module Wrappers {

  datatype Option<+T> = None | Some(value: T)
}
