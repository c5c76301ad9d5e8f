// Shoe sizes: canonical spelling, and the check that a list is sorted and free of duplicates.
module SizeLists {
  import opened Ascending
  import opened IntegerDigits

  // ---- Canonical spelling ------------------------------------------------------------------------

  predicate EndsInHalf(size: string) {
    |size| >= 2 && size[|size| - 2..] == ".5"
  }

  function WholePart(size: string): string {
    if EndsInHalf(size) then size[..|size| - 2] else size
  }

  /** One or two digits without a leading zero, then possibly ".5". */
  predicate IsCanonical(size: string) {
    var whole := WholePart(size);
    && 1 <= |whole| <= 2
    && '1' <= whole[0] <= '9'
    && forall i | 0 <= i < |whole| :: IsDigit(whole[i])
  }

  /** `Number(size)`, counted in half sizes. */
  function Halves(size: string): nat
    requires IsCanonical(size)
  {
    2 * DecimalValue(WholePart(size)) + if EndsInHalf(size) then 1 else 0
  }

  function DigitChar(d: nat): char
    requires d < 10
  {
    '0' + d as char
  }

  /** The canonical spelling of a number of half sizes. */
  function Spell(halves: nat): string
    requires 2 <= halves <= 199
  {
    SpellWhole(halves / 2) + if halves % 2 == 1 then ".5" else ""
  }

  function SpellWhole(n: nat): string
    requires 1 <= n <= 99
  {
    if n < 10 then [DigitChar(n)] else [DigitChar(n / 10), DigitChar(n % 10)]
  }

  lemma WholeValue(whole: string)
    requires 1 <= |whole| <= 2 && forall i | 0 <= i < |whole| :: IsDigit(whole[i])
    ensures DecimalValue(whole) ==
            if |whole| == 1 then DigitValue(whole[0]) else 10 * DigitValue(whole[0]) + DigitValue(whole[1])
  {
    assert whole[..|whole| - 1][..0] == "";
    if |whole| == 2 {
      assert whole[..1] == [whole[0]];
      assert DecimalValue(whole[..1]) == 10 * DecimalValue("") + DigitValue(whole[0]);
    }
  }

  /** Every canonical spelling lies between 1 and 99.5, so the schema's range test adds nothing. */
  lemma CanonicalInRange(size: string)
    requires IsCanonical(size)
    ensures 2 <= Halves(size) <= 199
  {
    WholeValue(WholePart(size));
  }

  /** Spelling and reading are inverse: each half size from 1 to 99.5 has a canonical spelling... */
  lemma SpellIsCanonical(halves: nat)
    requires 2 <= halves <= 199
    ensures IsCanonical(Spell(halves)) && Halves(Spell(halves)) == halves
  {
    var n, size := halves / 2, Spell(halves);
    var whole := SpellWhole(n);
    if halves % 2 == 1 {
      assert size[|size| - 2..] == ".5" && size[..|size| - 2] == whole;
    } else {
      assert size == whole;
      assert |size| == 2 ==> size[0..] == size && size[0] != '.';
    }
    assert WholePart(size) == whole;
    WholeValue(whole);
  }

  lemma DigitsAreSpelled(whole: string)
    requires 1 <= |whole| <= 2 && '1' <= whole[0] <= '9' && forall i | 0 <= i < |whole| :: IsDigit(whole[i])
    ensures var n := DecimalValue(whole);
            1 <= n <= 99 && whole == SpellWhole(n)
  {
    WholeValue(whole);
    var n, d := DecimalValue(whole), DigitValue(whole[0]);
    assert DigitChar(d) == whole[0] && 1 <= d <= 9;
    if |whole| == 2 {
      assert n == 10 * d + DigitValue(whole[1]) && n / 10 == d && n % 10 == DigitValue(whole[1]);
      assert DigitChar(n % 10) == whole[1];
    }
  }

  /** ... and no other. */
  lemma CanonicalIsSpelled(size: string)
    requires IsCanonical(size)
    ensures 2 <= Halves(size) <= 199 && Spell(Halves(size)) == size
  {
    var whole := WholePart(size);
    DigitsAreSpelled(whole);
    SpellHalves(DecimalValue(whole), EndsInHalf(size));
    assert size == whole + if EndsInHalf(size) then ".5" else "";
  }

  lemma SpellHalves(n: nat, half: bool)
    requires 1 <= n <= 99
    ensures Spell(2 * n + if half then 1 else 0) == SpellWhole(n) + if half then ".5" else ""
  {
    var h := 2 * n + if half then 1 else 0;
    assert h / 2 == n && (h % 2 == 1 <==> half);
  }

  lemma SpellingIsInjective(s: string, t: string)
    requires IsCanonical(s) && IsCanonical(t)
    ensures Halves(s) == Halves(t) <==> s == t
  {
    CanonicalIsSpelled(s);
    CanonicalIsSpelled(t);
  }

  // ---- Numbers ------------------------------------------------------------------------------------------

  /** What `Number` may make of a string; canonical or not, the list is given all of them. */
  datatype Num = NaN | MinusInfinity | Finite(value: real) | PlusInfinity

  /** The operator `<`: false whenever NaN takes part. */
  predicate Less(a: Num, b: Num) {
    match (a, b)
    case (Finite(x), Finite(y)) => x < y
    case (MinusInfinity, Finite(_)) => true
    case (MinusInfinity, PlusInfinity) => true
    case (Finite(_), PlusInfinity) => true
    case _ => false
  }

  /** `Number` reads a canonical size as the number it spells; on any other string it may be any function. */
  ghost predicate ReadsSizes(number: string -> Num) {
    forall size | IsCanonical(size) :: number(size) == Num.Finite(Halves(size) as real / 2.0)
  }

  lemma CanonicalLess(number: string -> Num, s: string, t: string)
    requires ReadsSizes(number) && IsCanonical(s) && IsCanonical(t)
    ensures Less(number(s), number(t)) <==> Halves(s) < Halves(t)
  {
    assert number(s) == Num.Finite(Halves(s) as real / 2.0) && number(t) == Num.Finite(Halves(t) as real / 2.0);
  }

  // ---- The list -------------------------------------------------------------------------------------

  datatype Issue = Duplicate(index: nat) | Unsorted(index: nat)

  /** Among the first n sizes. */
  ghost predicate Occurs(sizes: seq<string>, n: nat, size: string) {
    n <= |sizes| && exists j | 0 <= j < n :: sizes[j] == size
  }

  ghost function IssuesAt(number: string -> Num, sizes: seq<string>, i: nat): seq<Issue>
    requires i < |sizes|
  {
    (if Occurs(sizes, i, sizes[i]) then [Duplicate(i)] else []) +
    (if i > 0 && !Less(number(sizes[i - 1]), number(sizes[i])) then [Unsorted(i)] else [])
  }

  ghost function IssuesUpTo(number: string -> Num, sizes: seq<string>, n: nat): seq<Issue>
    requires n <= |sizes|
  {
    if n == 0 then [] else IssuesUpTo(number, sizes, n - 1) + IssuesAt(number, sizes, n - 1)
  }

  /** The issues of a list, index by index. */
  ghost function Issues(number: string -> Num, sizes: seq<string>): seq<Issue> {
    IssuesUpTo(number, sizes, |sizes|)
  }

  /** One turn of the loop. */
  method CheckOne(number: string -> Num, sizes: seq<string>, index: nat, duplicate: bool) returns (issues: seq<Issue>)
    requires index < |sizes| && duplicate == Occurs(sizes, index, sizes[index])
    ensures issues == IssuesAt(number, sizes, index)
  {
    issues := [];
    if duplicate {
      issues := issues + [Duplicate(index)];
    }
    if index > 0 {
      var previous, current := number(sizes[index - 1]), number(sizes[index]);
      if !Less(previous, current) {
        issues := issues + [Unsorted(index)];
      }
    }
  }

  method CheckSizes(number: string -> Num, sizes: seq<string>) returns (issues: seq<Issue>)
    ensures issues == Issues(number, sizes)
  {
    var seen: set<string> := {};
    issues := [];
    for index := 0 to |sizes|
      invariant forall z :: z in seen <==> Occurs(sizes, index, z)
      invariant issues == IssuesUpTo(number, sizes, index)
    {
      var found := CheckOne(number, sizes, index, sizes[index] in seen);
      issues := issues + found;
      seen := seen + {sizes[index]};
      OccursOneMore(sizes, index);
    }
  }

  lemma OccursOneMore(sizes: seq<string>, n: nat)
    requires n < |sizes|
    ensures forall z :: Occurs(sizes, n + 1, z) <==> Occurs(sizes, n, z) || z == sizes[n]
  {
    forall z ensures Occurs(sizes, n + 1, z) <==> Occurs(sizes, n, z) || z == sizes[n] {
      if Occurs(sizes, n + 1, z) {
        var j :| 0 <= j < n + 1 && sizes[j] == z;
        assert j < n ==> Occurs(sizes, n, z);
      }
      if Occurs(sizes, n, z) {
        var j :| 0 <= j < n && sizes[j] == z;
        assert sizes[j] == z && j < n + 1;
      }
    }
  }

  lemma {:induction false} IssuesAre(number: string -> Num, sizes: seq<string>, n: nat, issue: Issue)
    requires n <= |sizes|
    ensures issue in IssuesUpTo(number, sizes, n) <==>
            issue.index < n && issue in IssuesAt(number, sizes, issue.index)
  {
    if n == 0 {
    } else {
      IssuesAre(number, sizes, n - 1, issue);
      assert issue in IssuesAt(number, sizes, n - 1) ==> issue.index == n - 1;
    }
  }

  /** A duplicate is reported at i exactly when the same text occurs before, an order issue exactly when the
      number before is not smaller. */
  lemma IssueReportedIff(number: string -> Num, sizes: seq<string>, issue: Issue)
    ensures issue in Issues(number, sizes) <==>
            match issue
            case Duplicate(i) => i < |sizes| && exists j | 0 <= j < i :: sizes[j] == sizes[i]
            case Unsorted(i) => 0 < i < |sizes| && !Less(number(sizes[i - 1]), number(sizes[i]))
  {
    IssuesAre(number, sizes, |sizes|, issue);
  }

  ghost predicate InOrder(issues: seq<Issue>) {
    forall a, b | 0 <= a < b < |issues| :: issues[a].index <= issues[b].index && issues[a] != issues[b]
  }

  lemma {:induction false} IssuesUpToInOrder(number: string -> Num, sizes: seq<string>, n: nat)
    requires n <= |sizes|
    ensures InOrder(IssuesUpTo(number, sizes, n))
    ensures forall issue | issue in IssuesUpTo(number, sizes, n) :: issue.index < n
  {
    if n == 0 {
    } else {
      var before, last := IssuesUpTo(number, sizes, n - 1), IssuesAt(number, sizes, n - 1);
      IssuesUpToInOrder(number, sizes, n - 1);
      assert forall issue | issue in last :: issue.index == n - 1;
      InOrderTogether(before, last, n - 1);
    }
  }

  lemma InOrderTogether(before: seq<Issue>, last: seq<Issue>, n: nat)
    requires InOrder(before) && InOrder(last)
    requires forall issue | issue in before :: issue.index < n
    requires forall issue | issue in last :: issue.index == n
    ensures InOrder(before + last)
  {
    var all := before + last;
    forall a, b | 0 <= a < b < |all| ensures all[a].index <= all[b].index && all[a] != all[b] {
      assert all[a] in before || all[a] in last;
      assert all[b] in before || all[b] in last;
    }
  }

  /** Issues come in the order of their indices, and none twice. */
  lemma IssuesInOrder(number: string -> Num, sizes: seq<string>)
    ensures InOrder(Issues(number, sizes))
  {
    IssuesUpToInOrder(number, sizes, |sizes|);
  }

  ghost predicate Ascends(number: string -> Num, sizes: seq<string>) {
    forall i, j | 0 <= i < j < |sizes| :: Less(number(sizes[i]), number(sizes[j]))
  }

  /** Between two sizes that are not in order, two neighbours are not in order. */
  lemma {:induction false} DropBetween(number: string -> Num, sizes: seq<string>, i: nat, j: nat) returns (k: nat)
    requires i < j < |sizes| && !Less(number(sizes[i]), number(sizes[j]))
    ensures i < k <= j && !Less(number(sizes[k - 1]), number(sizes[k]))
    decreases j
  {
    if i == j - 1 || !Less(number(sizes[j - 1]), number(sizes[j])) {
      k := j;
    } else {
      k := DropBetween(number, sizes, i, j - 1);
    }
  }

  /** For every list of strings: no issue is reported exactly when the numbers are strictly ascending, none
      of a list of two or more being NaN. */
  lemma NoIssueIffAscending(number: string -> Num, sizes: seq<string>)
    ensures Issues(number, sizes) == [] <==> Ascends(number, sizes)
    ensures Ascends(number, sizes) && |sizes| > 1 ==> forall i | 0 <= i < |sizes| :: number(sizes[i]) != NaN
  {
    var issues := Issues(number, sizes);
    if issues == [] {
      forall i, j | 0 <= i < j < |sizes| ensures Less(number(sizes[i]), number(sizes[j])) {
        if !Less(number(sizes[i]), number(sizes[j])) {
          var k := DropBetween(number, sizes, i, j);
          IssuesAre(number, sizes, |sizes|, Unsorted(k));
        }
      }
    } else {
      IssuesAre(number, sizes, |sizes|, issues[0]);
      IssueMeansDisorder(number, sizes, issues[0]);
    }
    if Ascends(number, sizes) && |sizes| > 1 {
      forall i | 0 <= i < |sizes| ensures number(sizes[i]) != NaN {
        var other := if i == 0 then 1 else 0;
        assert Less(number(sizes[i]), number(sizes[other])) || Less(number(sizes[other]), number(sizes[i]));
      }
    }
  }

  lemma IssueMeansDisorder(number: string -> Num, sizes: seq<string>, issue: Issue)
    requires issue.index < |sizes| && issue in IssuesAt(number, sizes, issue.index)
    ensures !Ascends(number, sizes)
  {
    var i := issue.index;
    if Occurs(sizes, i, sizes[i]) {
      var j :| 0 <= j < i && sizes[j] == sizes[i];
      assert !Less(number(sizes[j]), number(sizes[i]));
    } else {
      assert !Less(number(sizes[i - 1]), number(sizes[i]));
    }
  }

  /** A duplicate, of any strings, forces an order issue after its first place and not after its second, so
      the duplicate rule is implied by the order rule. */
  lemma DuplicateForcesOrderIssue(number: string -> Num, sizes: seq<string>, i: nat, j: nat)
    requires i < j < |sizes| && sizes[i] == sizes[j]
    ensures exists k: nat :: i < k <= j && Unsorted(k) in Issues(number, sizes)
  {
    var k := DropBetween(number, sizes, i, j);
    IssuesAre(number, sizes, |sizes|, Unsorted(k));
  }

  // ---- Accepted lists ----------------------------------------------------------------------------------------

  /** Every element is canonical, and the list has no issue. */
  ghost predicate Accepted(number: string -> Num, sizes: seq<string>) {
    (forall i | 0 <= i < |sizes| :: IsCanonical(sizes[i])) && Issues(number, sizes) == []
  }

  ghost function AllHalves(sizes: seq<string>): (halves: seq<int>)
    requires forall i | 0 <= i < |sizes| :: IsCanonical(sizes[i])
    ensures |halves| == |sizes| && forall i | 0 <= i < |sizes| :: halves[i] == Halves(sizes[i])
  {
    seq(|sizes|, i requires 0 <= i < |sizes| => Halves(sizes[i]))
  }

  lemma AcceptedIffAscending(number: string -> Num, sizes: seq<string>)
    requires ReadsSizes(number) && forall i | 0 <= i < |sizes| :: IsCanonical(sizes[i])
    ensures Accepted(number, sizes) <==> StrictlyAscending(AllHalves(sizes))
  {
    NoIssueIffAscending(number, sizes);
    forall i, j | 0 <= i < j < |sizes|
      ensures Less(number(sizes[i]), number(sizes[j])) <==> AllHalves(sizes)[i] < AllHalves(sizes)[j]
    {
      CanonicalLess(number, sizes[i], sizes[j]);
    }
  }

  lemma SameSizesSameHalves(s: seq<string>, t: seq<string>, x: int)
    requires forall i | 0 <= i < |s| :: IsCanonical(s[i])
    requires forall i | 0 <= i < |t| :: IsCanonical(t[i])
    requires forall z :: z in s ==> z in t
    ensures x in AllHalves(s) ==> x in AllHalves(t)
  {
    if x in AllHalves(s) {
      var i :| 0 <= i < |s| && AllHalves(s)[i] == x;
      assert s[i] in s;
      var j :| 0 <= j < |t| && t[j] == s[i];
      assert AllHalves(t)[j] == x;
    }
  }

  /** An accepted list is determined by its set of sizes. */
  lemma AcceptedListIsItsSet(number: string -> Num, s: seq<string>, t: seq<string>)
    requires ReadsSizes(number) && Accepted(number, s) && Accepted(number, t)
    requires forall z :: z in s <==> z in t
    ensures s == t
  {
    AcceptedIffAscending(number, s);
    AcceptedIffAscending(number, t);
    forall x ensures x in AllHalves(s) <==> x in AllHalves(t) {
      SameSizesSameHalves(s, t, x);
      SameSizesSameHalves(t, s, x);
    }
    SameElementsSameSequence(AllHalves(s), AllHalves(t));
    forall i | 0 <= i < |s| ensures s[i] == t[i] {
      assert AllHalves(s)[i] == AllHalves(t)[i];
      SpellingIsInjective(s[i], t[i]);
    }
  }
}
