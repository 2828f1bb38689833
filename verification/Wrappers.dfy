/** Small definitions that the other modules share. */
module Wrappers {
  // A C pointer that may be NULL, or a value that there may not be.
  datatype Option<+T> = None | Some(value: T)

  ghost function SetOf<T>(s: seq<T>): set<T> {
    set x | x in s
  }

  function One(b: bool): nat {
    if b then 1 else 0
  }
}
