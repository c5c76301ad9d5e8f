// Strictly ascending sequences of numbers.
module Ascending {
  ghost predicate StrictlyAscending(s: seq<int>) {
    forall i, j | 0 <= i < j < |s| :: s[i] < s[j]
  }

  /** A strictly ascending sequence is determined by its elements. */
  lemma {:induction false} SameElementsSameSequence(s: seq<int>, t: seq<int>)
    requires StrictlyAscending(s) && StrictlyAscending(t)
    requires forall x :: x in s <==> x in t
    ensures s == t
    decreases |s|
  {
    assert t != [] ==> t[0] in t;
    if s == [] {
    } else {
      assert s[0] in s;
      assert s[0] in t;
      assert s[0] == t[0];
      forall x ensures x in s[1..] <==> x in t[1..] {
        assert x in s[1..] <==> x in s && x != s[0];
        assert x in t[1..] <==> x in t && x != t[0];
      }
      SameElementsSameSequence(s[1..], t[1..]);
    }
  }

  /** It is enough to look at neighbours. */
  lemma {:induction false} NeighboursSuffice(s: seq<int>)
    requires forall i | 0 < i < |s| :: s[i - 1] < s[i]
    ensures StrictlyAscending(s)
  {
    if s == [] {
    } else {
      var init := s[..|s| - 1];
      assert forall i | 0 <= i < |init| :: init[i] == s[i];
      NeighboursSuffice(init);
      forall i | 0 <= i < |s| - 1 ensures s[i] < s[|s| - 1] {
        assert init[i] <= init[|init| - 1];
      }
    }
  }
}
