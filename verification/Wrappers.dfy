/** Small notions that several modules share. */
module Wrappers {
  datatype Option<+T> = None | Some(value: T)

  /** The first `n` parts in one sequence. */
  function Joined<T>(parts: seq<seq<T>>, n: nat): seq<T>
    requires n <= |parts|
  {
    if n == 0 then [] else Joined(parts, n - 1) + parts[n - 1]
  }
}
