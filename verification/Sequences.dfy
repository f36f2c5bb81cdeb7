/** What several modules need of sequences. */
module Sequences {
  /** A sequence, last element first. */
  function Reversed<T>(s: seq<T>): seq<T> {
    if s == [] then [] else [s[|s| - 1]] + Reversed(s[..|s| - 1])
  }
}
