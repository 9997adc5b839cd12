/** The conventional Some/None datatype; `None` stands for JavaScript's NaN
    ("not a number") wherever a numeric field is read. */
module Wrappers {

  datatype Option<+T> = None | Some(value: T)
}
