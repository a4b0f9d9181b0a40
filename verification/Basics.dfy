/** Small things several modules share. */
module Basics {

  datatype Maybe<T> = None | Some(value: T)

  // Stacks are sequences that grow at the end.
  function Top<T>(s: seq<T>): T
    requires |s| > 0
  {
    s[|s| - 1]
  }

  function Front<T>(s: seq<T>): (r: seq<T>)
    requires |s| > 0
    ensures |r| == |s| - 1
  {
    s[..|s| - 1]
  }
}
