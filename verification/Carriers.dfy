// What the policy form and the policy schema both say about lists of carriers.
module Carriers {
  import opened Wrappers

  /** An absent list reads as an empty one. */
  function OrEmpty(list: Option<seq<string>>): seq<string> {
    if list.Some? then list.value else []
  }

  predicate Distinct(list: seq<string>) {
    forall i, j | 0 <= i < j < |list| :: list[i] != list[j]
  }
}
