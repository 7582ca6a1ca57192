/** The optional value used where the source writes `None` for "no identity yet" or "nothing found". */
module Wrappers {

  datatype Option<+T> = None | Some(value: T)
}
