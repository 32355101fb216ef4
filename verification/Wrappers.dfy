/** Small definitions shared by the modules. */
module Wrappers {
  /** A reference that may be null in the program, or a result that may be missing. */
  datatype Option<+T> = None | Some(value: T)

  function One(b: bool): nat { if b then 1 else 0 }

  function RemoveAt<T>(s: seq<T>, i: nat): seq<T>
    requires i < |s|
  {
    s[..i] + s[i + 1..]
  }
}
