/** The conventional optional value, standing in for a cell that holds a mark
    or `null`, and for a winner that may or may not exist. */
module Wrappers {

  datatype Option<+T> = None | Some(value: T)
}
