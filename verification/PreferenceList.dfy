// The ordered list of preferred carriers: what any number of "Subir" presses can do to it.
module PreferenceLists {
  import opened Ascending
  import opened Carriers

  /** Swap position i with the one above it. */
  function Raise<T>(s: seq<T>, i: nat): seq<T>
    requires 0 < i < |s|
  {
    s[i - 1 := s[i]][i := s[i - 1]]
  }

  /** The button's handler: copy the list, swap two elements of the copy. */
  method RaisePriority(ordered: array<string>, index: nat) returns (raised: array<string>)
    requires 0 < index < ordered.Length
    ensures fresh(raised) && raised[..] == Raise(ordered[..], index)
  {
    raised := new string[ordered.Length](i requires 0 <= i < ordered.Length reads ordered => ordered[i]);
    raised[index - 1], raised[index] := raised[index], raised[index - 1];
  }

  predicate ValidPresses(n: nat, presses: seq<nat>) {
    forall k | 0 <= k < |presses| :: 0 < presses[k] < n
  }

  function RaiseAll<T>(s: seq<T>, presses: seq<nat>): (r: seq<T>)
    requires ValidPresses(|s|, presses)
    ensures |r| == |s|
    decreases |presses|
  {
    if presses == [] then s
    else
      assert ValidPresses(|s|, presses[1..]) by {
        assert forall k | 0 <= k < |presses[1..]| :: presses[1..][k] == presses[k + 1];
      }
      RaiseAll(Raise(s, presses[0]), presses[1..])
  }

  lemma RaiseKeepsElements<T>(s: seq<T>, i: nat)
    requires 0 < i < |s|
    ensures multiset(Raise(s, i)) == multiset(s)
  {}

  lemma {:induction false} PressesPermute<T>(s: seq<T>, presses: seq<nat>)
    requires ValidPresses(|s|, presses)
    ensures multiset(RaiseAll(s, presses)) == multiset(s)
    decreases |presses|
  {
    if presses == [] {
    } else {
      RaiseKeepsElements(s, presses[0]);
      PressesPermute(Raise(s, presses[0]), presses[1..]);
    }
  }

  // ---- Inversions -----------------------------------------------------------------------------------

  function CountBelow(s: seq<int>, x: int): nat {
    if s == [] then 0 else (if s[0] < x then 1 else 0) + CountBelow(s[1..], x)
  }

  /** The number of pairs that stand in the wrong order. */
  function Inversions(s: seq<int>): nat {
    if s == [] then 0 else CountBelow(s[1..], s[0]) + Inversions(s[1..])
  }

  lemma {:induction false} CountBelowAfterRaise(s: seq<int>, i: nat, x: int)
    requires 0 < i < |s|
    ensures CountBelow(Raise(s, i), x) == CountBelow(s, x)
  {
    if i == 1 {
      assert Raise(s, i)[1..][1..] == s[1..][1..];
    } else {
      assert Raise(s, i)[1..] == Raise(s[1..], i - 1);
      CountBelowAfterRaise(s[1..], i - 1, x);
    }
  }

  /** Each press changes the number of inversions by exactly one. */
  lemma {:induction false} RaiseChangesInversionsByOne(s: seq<int>, i: nat)
    requires 0 < i < |s| && s[i - 1] != s[i]
    ensures Inversions(Raise(s, i)) == if s[i] < s[i - 1] then Inversions(s) - 1 else Inversions(s) + 1
  {
    var r := Raise(s, i);
    if i == 1 {
      assert r[1..][1..] == s[1..][1..];
    } else {
      assert r[1..] == Raise(s[1..], i - 1);
      CountBelowAfterRaise(s[1..], i - 1, s[0]);
      RaiseChangesInversionsByOne(s[1..], i - 1);
    }
  }

  lemma {:induction false} CountBelowAtMost(s: seq<int>, x: int)
    ensures CountBelow(s, x) <= |s|
  {
    if s == [] {
    } else {
      CountBelowAtMost(s[1..], x);
    }
  }

  /** The number of pairs among n elements. */
  function Pairs(n: nat): nat {
    if n == 0 then 0 else n - 1 + Pairs(n - 1)
  }

  lemma {:induction false} PairsFormula(n: nat)
    ensures 2 * Pairs(n) == n * (n - 1)
  {
    if n == 0 {
    } else {
      PairsFormula(n - 1);
      assert 2 * (n - 1) + (n - 1) * (n - 2) == n * (n - 1);
    }
  }

  lemma {:induction false} InversionsAtMost(s: seq<int>)
    ensures Inversions(s) <= Pairs(|s|)
  {
    if s == [] {
    } else {
      CountBelowAtMost(s[1..], s[0]);
      InversionsAtMost(s[1..]);
    }
  }

  lemma {:induction false} NoDescentMeansNoInversion(s: seq<int>)
    ensures Inversions(s) == 0 <==> forall i | 0 < i < |s| :: s[i - 1] <= s[i]
  {
    if |s| <= 1 {
    } else {
      NoDescentMeansNoInversion(s[1..]);
      NothingBelowSorted(s[1..], s[0]);
      if forall i | 0 < i < |s| :: s[i - 1] <= s[i] {
        forall i | 0 < i < |s[1..]| ensures s[1..][i - 1] <= s[1..][i] {
          assert s[i] <= s[i + 1];
        }
      }
      if Inversions(s) == 0 {
        forall i | 0 < i < |s| ensures s[i - 1] <= s[i] {
          if i > 1 {
            assert s[1..][i - 2] <= s[1..][i - 1];
          }
        }
      }
    }
  }

  lemma {:induction false} NothingBelowSorted(s: seq<int>, x: int)
    requires s != []
    ensures CountBelow(s, x) == 0 ==> x <= s[0]
    ensures x <= s[0] && (forall i | 0 < i < |s| :: s[i - 1] <= s[i]) ==> CountBelow(s, x) == 0
  {
    if |s| == 1 {
    } else if x <= s[0] && forall i | 0 < i < |s| :: s[i - 1] <= s[i] {
      assert s[0] <= s[1];
      assert forall i | 0 < i < |s[1..]| :: s[1..][i - 1] == s[i] && s[1..][i] == s[i + 1];
      NothingBelowSorted(s[1..], x);
    }
  }

  /** k presses change the number of inversions by at most k. */
  lemma {:induction false} PressesBoundChange(s: seq<int>, presses: seq<nat>)
    requires ValidPresses(|s|, presses) && forall i, j | 0 <= i < j < |s| :: s[i] != s[j]
    ensures Inversions(s) <= Inversions(RaiseAll(s, presses)) + |presses|
    decreases |presses|
  {
    if presses == [] {
    } else {
      var r := Raise(s, presses[0]);
      RaiseChangesInversionsByOne(s, presses[0]);
      PressesBoundChange(r, presses[1..]);
    }
  }

  /** Raising where two neighbours are in the wrong order sorts in as many presses as there are
      inversions. */
  lemma {:induction false} SortingPresses(s: seq<int>) returns (presses: seq<nat>)
    requires forall i, j | 0 <= i < j < |s| :: s[i] != s[j]
    ensures ValidPresses(|s|, presses) && |presses| == Inversions(s)
    ensures StrictlyAscending(RaiseAll(s, presses))
    decreases Inversions(s)
  {
    NoDescentMeansNoInversion(s);
    if Inversions(s) == 0 {
      presses := [];
      assert forall i | 0 < i < |s| :: s[i - 1] <= s[i] && s[i - 1] != s[i];
      NeighboursSuffice(s);
    } else {
      var i: nat :| 0 < i < |s| && s[i] < s[i - 1];
      RaiseChangesInversionsByOne(s, i);
      var rest := SortingPresses(Raise(s, i));
      presses := [i] + rest;
      assert presses[1..] == rest;
    }
  }

  // ---- Reaching an order ------------------------------------------------------------------------------

  function Rank(target: seq<string>, x: string): nat
    requires x in target
    ensures Rank(target, x) < |target| && target[Rank(target, x)] == x
  {
    if target[0] == x then 0 else 1 + Rank(target[1..], x)
  }

  function Ranks(target: seq<string>, s: seq<string>): (r: seq<int>)
    requires forall i | 0 <= i < |s| :: s[i] in target
    ensures |r| == |s| && forall i | 0 <= i < |s| :: r[i] == Rank(target, s[i])
  {
    seq(|s|, i requires 0 <= i < |s| => Rank(target, s[i]))
  }

  /** A reordering of the target. */
  ghost predicate Reorders(s: seq<string>, target: seq<string>) {
    |s| == |target| && Distinct(s) && Distinct(target) && forall i | 0 <= i < |s| :: s[i] in target
  }

  /** How far s is from the target: the pairs that stand the other way round there. */
  ghost function Disorder(target: seq<string>, s: seq<string>): nat
    requires Reorders(s, target)
  {
    Inversions(Ranks(target, s))
  }

  lemma {:induction false} RanksOfRaised(target: seq<string>, s: seq<string>, presses: seq<nat>)
    requires Reorders(s, target) && ValidPresses(|s|, presses)
    ensures Reorders(RaiseAll(s, presses), target)
    ensures Ranks(target, RaiseAll(s, presses)) == RaiseAll(Ranks(target, s), presses)
    decreases |presses|
  {
    if presses == [] {
    } else {
      var r := Raise(s, presses[0]);
      assert Reorders(r, target);
      assert Ranks(target, r) == Raise(Ranks(target, s), presses[0]);
      RanksOfRaised(target, r, presses[1..]);
    }
  }

  lemma AscendingBelowIsIdentity(s: seq<int>, n: nat)
    requires StrictlyAscending(s) && |s| == n && forall i | 0 <= i < n :: 0 <= s[i] < n
    ensures forall i | 0 <= i < n :: s[i] == i
  {
    forall i | 0 <= i < n ensures s[i] == i {
      AtLeastItsIndex(s, i);
      AtMostItsIndex(s, n, i);
    }
  }

  lemma {:induction false} AtLeastItsIndex(s: seq<int>, i: nat)
    requires StrictlyAscending(s) && i < |s| && s[0] >= 0
    ensures s[i] >= i
  {
    if i == 0 {
    } else {
      AtLeastItsIndex(s, i - 1);
    }
  }

  lemma {:induction false} AtMostItsIndex(s: seq<int>, n: nat, i: nat)
    requires StrictlyAscending(s) && |s| == n && i < n && s[n - 1] < n
    ensures s[i] <= i
    decreases n - i
  {
    if i + 1 == n {
    } else {
      AtMostItsIndex(s, n, i + 1);
    }
  }

  lemma SortedRanksMeanTarget(target: seq<string>, s: seq<string>)
    requires Reorders(s, target)
    ensures StrictlyAscending(Ranks(target, s)) <==> s == target
  {
    if StrictlyAscending(Ranks(target, s)) {
      AscendingBelowIsIdentity(Ranks(target, s), |s|);
      forall i | 0 <= i < |s| ensures s[i] == target[i] {
        assert Ranks(target, s)[i] == i;
      }
    }
    if s == target {
      forall i | 0 <= i < |s| ensures Rank(target, target[i]) == i {}
    }
  }

  lemma RanksDistinct(target: seq<string>, s: seq<string>)
    requires Reorders(s, target)
    ensures forall i, j | 0 <= i < j < |s| :: Ranks(target, s)[i] != Ranks(target, s)[j]
  {
    forall i, j | 0 <= i < j < |s| ensures Ranks(target, s)[i] != Ranks(target, s)[j] {
      assert target[Rank(target, s[i])] == s[i] && target[Rank(target, s[j])] == s[j];
    }
  }

  /** No sequence of presses that ends in the target is shorter than the disorder. */
  lemma DisorderIsNeeded(s: seq<string>, target: seq<string>, presses: seq<nat>)
    requires Reorders(s, target) && ValidPresses(|s|, presses) && RaiseAll(s, presses) == target
    ensures Disorder(target, s) <= |presses|
  {
    RanksDistinct(target, s);
    PressesBoundChange(Ranks(target, s), presses);
    RanksOfRaised(target, s, presses);
    SortedRanksMeanTarget(target, target);
    NoDescentMeansNoInversion(Ranks(target, target));
  }

  lemma OrderReachable(s: seq<string>, target: seq<string>) returns (presses: seq<nat>)
    requires Reorders(s, target)
    ensures ValidPresses(|s|, presses) && RaiseAll(s, presses) == target && |presses| == Disorder(target, s)
  {
    RanksDistinct(target, s);
    presses := SortingPresses(Ranks(target, s));
    RanksOfRaised(target, s, presses);
    SortedRanksMeanTarget(target, RaiseAll(s, presses));
  }

  /** Every order is reachable, in exactly as many presses as there are pairs out of place, which is
      at most n(n-1)/2; and no fewer presses do it. */
  lemma EveryOrderReachable(s: seq<string>, target: seq<string>) returns (presses: seq<nat>)
    requires Reorders(s, target)
    ensures ValidPresses(|s|, presses) && RaiseAll(s, presses) == target
    ensures |presses| == Disorder(target, s) <= Pairs(|s|)
    ensures forall other | ValidPresses(|s|, other) && RaiseAll(s, other) == target :: |presses| <= |other|
  {
    presses := OrderReachable(s, target);
    InversionsAtMost(Ranks(target, s));
    forall other | ValidPresses(|s|, other) && RaiseAll(s, other) == target ensures |presses| <= |other| {
      DisorderIsNeeded(s, target, other);
    }
  }
}
