// The handlers of the policy form that edit its three carrier lists.
module PolicyEditors {
  import opened Wrappers
  import opened Carriers
  import opened PreferenceLists

  datatype Lists = Lists(
    allowed: Option<seq<string>>, excluded: Option<seq<string>>, ordered: Option<seq<string>>)

  datatype Event =
    | Limit(checked: bool)
    | Allow(carrier: string, checked: bool)
    | Exclude(carrier: string, checked: bool)
    | Raised(index: nat)
    | Remove(carrier: string)
    | Add(value: string)

  /** list.filter(value => !without.includes(value)) */
  function Without(list: seq<string>, without: seq<string>): seq<string> {
    if list == [] then []
    else
      var rest, last := Without(list[..|list| - 1], without), list[|list| - 1];
      if last in without then rest else rest + [last]
  }

  /** [...new Set(list)] */
  function Uniques(list: seq<string>): seq<string> {
    if list == [] then []
    else
      var rest, last := Uniques(list[..|list| - 1]), list[|list| - 1];
      if last in list[..|list| - 1] then rest else rest + [last]
  }

  /** What the form lets the user do.  A checkbox shows membership, so it is checked exactly when the
      carrier is not in the list yet; the allow box of an excluded carrier is disabled, and so is
      raising the first entry. */
  predicate Enabled(carriers: seq<string>, s: Lists, e: Event) {
    match e
    case Limit(checked) => checked == s.allowed.None?
    case Allow(c, checked) =>
      c in carriers && s.allowed.Some? && checked == (c !in s.allowed.value) && c !in OrEmpty(s.excluded)
    case Exclude(c, checked) => c in carriers && checked == (c !in OrEmpty(s.excluded))
    case Raised(i) => 0 < i < |OrEmpty(s.ordered)|
    case Remove(c) => c in OrEmpty(s.ordered)
    case Add(v) => v == "" || v in carriers
  }

  function Apply(carriers: seq<string>, s: Lists, e: Event): Lists
    requires Enabled(carriers, s, e)
  {
    match e
    case Limit(checked) => s.(allowed := if checked then Some(Without(carriers, OrEmpty(s.excluded))) else None)
    case Allow(c, checked) =>
      s.(allowed := Some(if checked then OrEmpty(s.allowed) + [c] else Without(OrEmpty(s.allowed), [c])))
    case Exclude(c, checked) =>
      s.(excluded := Some(if checked then OrEmpty(s.excluded) + [c] else Without(OrEmpty(s.excluded), [c])))
    case Raised(i) => s.(ordered := Some(Raise(OrEmpty(s.ordered), i)))
    case Remove(c) => s.(ordered := Some(Without(OrEmpty(s.ordered), [c])))
    case Add(v) => s.(ordered := Some(if v == "" then OrEmpty(s.ordered) else Uniques(OrEmpty(s.ordered) + [v])))
  }

  ghost predicate Run(carriers: seq<string>, s: Lists, es: seq<Event>)
    decreases |es|
  {
    es != [] ==> Enabled(carriers, s, es[0]) && Run(carriers, Apply(carriers, s, es[0]), es[1..])
  }

  ghost function End(carriers: seq<string>, s: Lists, es: seq<Event>): Lists
    requires Run(carriers, s, es)
    decreases |es|
  {
    if es == [] then s else End(carriers, Apply(carriers, s, es[0]), es[1..])
  }

  // ---- The list operations ----------------------------------------------------------------------------

  lemma {:induction false} WithoutIs(list: seq<string>, without: seq<string>)
    ensures forall c :: c in Without(list, without) <==> c in list && c !in without
    ensures Distinct(list) ==> Distinct(Without(list, without))
  {
    if list == [] {
    } else {
      var init, last := list[..|list| - 1], list[|list| - 1];
      WithoutIs(init, without);
      assert list == init + [last];
      if Distinct(list) {
        assert last !in init;
        AppendStaysDistinct(Without(init, without), last);
      }
    }
  }

  lemma AppendStaysDistinct(list: seq<string>, c: string)
    ensures Distinct(list) && c !in list ==> Distinct(list + [c])
  {}

  /** A set built from a list keeps each value once, and a list of distinct values as it is. */
  lemma {:induction false} UniquesIs(list: seq<string>)
    ensures forall c :: c in Uniques(list) <==> c in list
    ensures Distinct(Uniques(list))
    ensures Distinct(list) ==> Uniques(list) == list
  {
    if list == [] {
    } else {
      var init, last := list[..|list| - 1], list[|list| - 1];
      UniquesIs(init);
      assert list == init + [last];
      AppendStaysDistinct(Uniques(init), last);
    }
  }

  // ---- Over all edits --------------------------------------------------------------------------------------

  ghost predicate NoDuplicates(s: Lists) {
    Distinct(OrEmpty(s.allowed)) && Distinct(OrEmpty(s.excluded)) && Distinct(OrEmpty(s.ordered))
  }

  lemma EditKeepsNoDuplicates(carriers: seq<string>, s: Lists, e: Event)
    requires Distinct(carriers) && NoDuplicates(s) && Enabled(carriers, s, e)
    ensures NoDuplicates(Apply(carriers, s, e))
  {
    match e
    case Limit(_) => WithoutIs(carriers, OrEmpty(s.excluded));
    case Allow(c, _) => WithoutIs(OrEmpty(s.allowed), [c]);
    case Exclude(c, _) => WithoutIs(OrEmpty(s.excluded), [c]);
    case Raised(_) =>
    case Remove(c) => WithoutIs(OrEmpty(s.ordered), [c]);
    case Add(v) => UniquesIs(OrEmpty(s.ordered) + [v]);
  }

  /** Given carriers without duplicates, no sequence of edits ever puts a duplicate into any of the
      three lists. */
  lemma {:induction false} EditsNeverDuplicate(carriers: seq<string>, s: Lists, es: seq<Event>)
    requires Distinct(carriers) && NoDuplicates(s) && Run(carriers, s, es)
    ensures NoDuplicates(End(carriers, s, es))
    decreases |es|
  {
    if es == [] {
    } else {
      EditKeepsNoDuplicates(carriers, s, es[0]);
      EditsNeverDuplicate(carriers, Apply(carriers, s, es[0]), es[1..]);
    }
  }

  /** What an edit does to each list, as a question of membership: it changes one list, and there only
      what the handler is about. */
  lemma EditChangesMembership(carriers: seq<string>, s: Lists, e: Event, d: string)
    requires Enabled(carriers, s, e)
    ensures var s' := Apply(carriers, s, e);
            match e
            case Limit(checked) =>
              && s'.excluded == s.excluded && s'.ordered == s.ordered && (s'.allowed.Some? <==> checked)
              && (checked ==> (d in OrEmpty(s'.allowed) <==> d in carriers && d !in OrEmpty(s.excluded)))
            case Allow(c, checked) =>
              && s'.excluded == s.excluded && s'.ordered == s.ordered
              && (d in OrEmpty(s'.allowed) <==> if d == c then checked else d in OrEmpty(s.allowed))
            case Exclude(c, checked) =>
              && s'.allowed == s.allowed && s'.ordered == s.ordered
              && (d in OrEmpty(s'.excluded) <==> if d == c then checked else d in OrEmpty(s.excluded))
            case Raised(i) =>
              && s'.allowed == s.allowed && s'.excluded == s.excluded
              && multiset(OrEmpty(s'.ordered)) == multiset(OrEmpty(s.ordered))
            case Remove(c) =>
              && s'.allowed == s.allowed && s'.excluded == s.excluded
              && (d in OrEmpty(s'.ordered) <==> d != c && d in OrEmpty(s.ordered))
            case Add(v) =>
              && s'.allowed == s.allowed && s'.excluded == s.excluded
              && (d in OrEmpty(s'.ordered) <==> d in OrEmpty(s.ordered) || (v != "" && d == v))
  {
    match e
    case Limit(_) => WithoutIs(carriers, OrEmpty(s.excluded));
    case Allow(c, _) => WithoutIs(OrEmpty(s.allowed), [c]);
    case Exclude(c, _) => WithoutIs(OrEmpty(s.excluded), [c]);
    case Raised(i) => RaiseKeepsElements(OrEmpty(s.ordered), i);
    case Remove(c) => WithoutIs(OrEmpty(s.ordered), [c]);
    case Add(v) => UniquesIs(OrEmpty(s.ordered) + [v]);
  }

  /** Striking out works place by place, so what is left keeps its order. */
  lemma {:induction false} WithoutOfConcat(a: seq<string>, b: seq<string>, without: seq<string>)
    ensures Without(a + b, without) == Without(a, without) + Without(b, without)
  {
    if b == [] {
      assert a + b == a;
    } else {
      var init, last := b[..|b| - 1], b[|b| - 1];
      WithoutOfConcat(a, init, without);
      assert (a + b)[..|a + b| - 1] == a + init;
    }
  }

  lemma {:induction false} WithoutFilters(list: seq<string>, without: seq<string>)
    ensures IsFilter(Without(list, without), list, without)
    decreases |list|
  {
    if list == [] {
    } else {
      var first := [list[0]];
      WithoutOfConcat(first, list[1..], without);
      assert first + list[1..] == list && first[..0] == [];
      var rest := Without(list[1..], without);
      assert Without(first, without) == if list[0] in without then [] else first;
      assert [] + rest == rest && (first + rest)[1..] == rest;
      WithoutFilters(list[1..], without);
    }
  }

  /** `f` is what is left of the list when the values in `without` are struck out, in the old order. */
  ghost predicate IsFilter(f: seq<string>, list: seq<string>, without: seq<string>)
    decreases |list|
  {
    if list == [] then f == []
    else if list[0] in without then IsFilter(f, list[1..], without)
    else f != [] && f[0] == list[0] && IsFilter(f[1..], list[1..], without)
  }

  /** Where things go: a limit lists the carriers in their order, what is ticked or added goes to the end, what
      is unticked or removed leaves the rest in order, and a raised carrier changes places with the one
      above. */
  lemma EditPlaces(carriers: seq<string>, s: Lists, e: Event)
    requires Enabled(carriers, s, e) && NoDuplicates(s)
    ensures var s' := Apply(carriers, s, e);
            var (allowed, excluded, ordered) := (OrEmpty(s.allowed), OrEmpty(s.excluded), OrEmpty(s.ordered));
            match e
            case Limit(checked) => checked ==> IsFilter(OrEmpty(s'.allowed), carriers, excluded)
            case Allow(c, checked) =>
              if checked then OrEmpty(s'.allowed) == allowed + [c] else IsFilter(OrEmpty(s'.allowed), allowed, [c])
            case Exclude(c, checked) =>
              if checked then OrEmpty(s'.excluded) == excluded + [c] else IsFilter(OrEmpty(s'.excluded), excluded, [c])
            case Raised(i) =>
              var raised := OrEmpty(s'.ordered);
              && |raised| == |ordered| && raised[i - 1] == ordered[i] && raised[i] == ordered[i - 1]
              && forall k | 0 <= k < |ordered| && k != i && k != i - 1 :: raised[k] == ordered[k]
            case Remove(c) => IsFilter(OrEmpty(s'.ordered), ordered, [c])
            case Add(v) =>
              OrEmpty(s'.ordered) == if v == "" || v in ordered then ordered else ordered + [v]
  {
    match e
    case Limit(_) => WithoutFilters(carriers, OrEmpty(s.excluded));
    case Allow(c, _) => WithoutFilters(OrEmpty(s.allowed), [c]);
    case Exclude(c, _) => WithoutFilters(OrEmpty(s.excluded), [c]);
    case Raised(i) =>
    case Remove(c) => WithoutFilters(OrEmpty(s.ordered), [c]);
    case Add(v) =>
      var ordered := OrEmpty(s.ordered);
      UniquesIs(ordered);
      assert (ordered + [v])[..|ordered|] == ordered;
  }

  lemma ExcludeUndone(carriers: seq<string>, s: Lists, c: string)
    requires c in carriers && c !in OrEmpty(s.excluded)
    ensures var toggled := Apply(carriers, Apply(carriers, s, Exclude(c, true)), Exclude(c, false));
            OrEmpty(toggled.excluded) == OrEmpty(s.excluded)
  {
    WithoutLast(OrEmpty(s.excluded), c);
  }

  lemma AddUndone(carriers: seq<string>, s: Lists, c: string)
    requires NoDuplicates(s) && c in carriers && c != "" && c !in OrEmpty(s.ordered)
    ensures var added := Apply(carriers, s, Add(c));
            && OrEmpty(added.ordered) == OrEmpty(s.ordered) + [c]
            && OrEmpty(Apply(carriers, added, Remove(c)).ordered) == OrEmpty(s.ordered)
  {
    WithoutLast(OrEmpty(s.ordered), c);
    EditPlaces(carriers, s, Add(c));
  }

  /** Ticking a box and unticking it again restores the list; adding a preference puts it last, and
      removing it undoes that. */
  lemma EditsUndo(carriers: seq<string>, s: Lists, c: string)
    requires NoDuplicates(s) && c in carriers && c != ""
    ensures c !in OrEmpty(s.excluded) ==>
              var toggled := Apply(carriers, Apply(carriers, s, Exclude(c, true)), Exclude(c, false));
              OrEmpty(toggled.excluded) == OrEmpty(s.excluded)
    ensures c !in OrEmpty(s.ordered) ==>
              && OrEmpty(Apply(carriers, s, Add(c)).ordered) == OrEmpty(s.ordered) + [c]
              && OrEmpty(Apply(carriers, Apply(carriers, s, Add(c)), Remove(c)).ordered) == OrEmpty(s.ordered)
    ensures c in OrEmpty(s.ordered) ==> OrEmpty(Apply(carriers, s, Add(c)).ordered) == OrEmpty(s.ordered)
  {
    if c !in OrEmpty(s.excluded) {
      ExcludeUndone(carriers, s, c);
    }
    if c in OrEmpty(s.ordered) {
      EditPlaces(carriers, s, Add(c));
    } else {
      AddUndone(carriers, s, c);
    }
  }

  lemma WithoutLast(list: seq<string>, c: string)
    requires c !in list
    ensures Without(list + [c], [c]) == list
  {
    assert (list + [c])[..|list|] == list;
    WithoutAbsent(list, c);
  }

  lemma {:induction false} WithoutAbsent(list: seq<string>, c: string)
    requires c !in list
    ensures Without(list, [c]) == list
  {
    if list == [] {
    } else {
      WithoutAbsent(list[..|list| - 1], c);
    }
  }

  // ---- The form ---------------------------------------------------------------------------------------------

  class PolicyEditor {
    const carriers: seq<string>
    var lists: Lists

    constructor (carriers: seq<string>, lists: Lists)
      ensures this.carriers == carriers && this.lists == lists
    {
      this.carriers, this.lists := carriers, lists;
    }

    method Edit(e: Event)
      requires Enabled(carriers, lists, e)
      modifies this
      ensures lists == Apply(carriers, old(lists), e)
    {
      match e {
        case Limit(checked) =>
          lists := lists.(allowed := if checked then Some(Without(carriers, OrEmpty(lists.excluded))) else None);
        case Allow(c, checked) =>
          var now := OrEmpty(lists.allowed);
          lists := lists.(allowed := Some(if checked then now + [c] else Without(now, [c])));
        case Exclude(c, checked) =>
          var now := OrEmpty(lists.excluded);
          lists := lists.(excluded := Some(if checked then now + [c] else Without(now, [c])));
        case Raised(index) =>
          var now := OrEmpty(lists.ordered);
          var copy := new string[|now|](i requires 0 <= i < |now| => now[i]);
          assert copy[..] == now;
          var raised := RaisePriority(copy, index);
          lists := lists.(ordered := Some(raised[..]));
        case Remove(c) =>
          lists := lists.(ordered := Some(Without(OrEmpty(lists.ordered), [c])));
        case Add(v) =>
          var now := OrEmpty(lists.ordered);
          lists := lists.(ordered := Some(if v == "" then now else Uniques(now + [v])));
      }
    }
  }
}
