/** The two ends of a non-empty sequence, for definitions that recur from
    the end, as a loop over a growing prefix does. */
module Seqs {
  function Last<T>(s: seq<T>): T
    requires |s| > 0
  {
    s[|s| - 1]
  }

  function AllButLast<T>(s: seq<T>): seq<T>
    requires |s| > 0
  {
    s[..|s| - 1]
  }
}
