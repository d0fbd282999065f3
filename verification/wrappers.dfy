/** The optional value the quote service and the table lookups return. */
module Wrappers {

  datatype Option<+T> = None | Some(value: T)
}
