/** Threads by number, and lists of them. */
module Threads {
  type Tid = nat

  predicate Distinct(list: seq<Tid>) {
    forall i, j :: 0 <= i < j < |list| ==> list[i] != list[j]
  }
}
