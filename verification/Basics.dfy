/** What every component shares: a value or none, and the elements of a sequence. */
module Basics {
  datatype Option<+T> = None | Some(value: T)

  function Elements<T>(s: seq<T>): set<T> { set x | x in s }
}
