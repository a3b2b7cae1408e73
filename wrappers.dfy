/** Option, standing in for the game's null and -Infinity sentinels. */
module Wrappers {
  datatype Option<+T> = None | Some(value: T)
}
