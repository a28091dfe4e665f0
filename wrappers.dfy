/** The failure-compatible option type used throughout the model: `None` stands for a
    value the source represents as NaN (or a missing result). */
module Wrappers {

  datatype Option<+T> = None | Some(value: T)

}
