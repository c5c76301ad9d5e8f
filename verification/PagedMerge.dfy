// Merging pages of items by id: all at once, and page by page.
module PagedMerge {
  import opened Ascending

  datatype Item = Item(id: string, body: string)

  ghost predicate Distinct(s: seq<Item>) {
    forall i, j | 0 <= i < j < |s| :: s[i].id != s[j].id
  }

  function Ids(s: seq<Item>): set<string> {
    set i | 0 <= i < |s| :: s[i].id
  }

  function Concat(pages: seq<seq<Item>>): seq<Item> {
    if pages == [] then [] else Concat(pages[..|pages| - 1]) + pages[|pages| - 1]
  }

  /** page.filter(item => !seen.has(item.id)) */
  function Unseen(seen: set<string>, page: seq<Item>): seq<Item> {
    if page == [] then []
    else
      var rest, last := Unseen(seen, page[..|page| - 1]), page[|page| - 1];
      if last.id in seen then rest else rest + [last]
  }

  /** The incremental merge: what is there, then the page's items whose id is not there. */
  function Merge(existing: seq<Item>, page: seq<Item>): seq<Item> {
    existing + Unseen(Ids(existing), page)
  }

  function MergeAll(pages: seq<seq<Item>>): seq<Item> {
    if pages == [] then [] else Merge(MergeAll(pages[..|pages| - 1]), pages[|pages| - 1])
  }

  /** What the batch merge should produce: each id once, at its first place. */
  function FirstOccurrences(s: seq<Item>): seq<Item> {
    if s == [] then []
    else
      var init, last := s[..|s| - 1], s[|s| - 1];
      if last.id in Ids(init) then FirstOccurrences(init) else FirstOccurrences(init) + [last]
  }

  // ---- The batch merge -------------------------------------------------------------------------

  /** The inner loop: one page on top of the items `done` so far. */
  method AddPage(page: seq<Item>, ghost done: seq<Item>, seen0: set<string>, items0: seq<Item>)
    returns (seen: set<string>, items: seq<Item>)
    requires items0 == FirstOccurrences(done) && seen0 == Ids(done)
    ensures items == FirstOccurrences(done + page) && seen == Ids(done + page)
  {
    seen, items := seen0, items0;
    assert done + page[..0] == done;
    for i := 0 to |page|
      invariant items == FirstOccurrences(done + page[..i]) && seen == Ids(done + page[..i])
    {
      var item := page[i];
      OneMorePlace(done, page, i);
      if item.id in seen {
        continue;
      }
      seen := seen + {item.id};
      items := items + [item];
    }
    assert page[..|page|] == page;
  }

  lemma OneMorePlace(done: seq<Item>, page: seq<Item>, i: nat)
    requires i < |page|
    ensures var now, next := done + page[..i], done + page[..i + 1];
            && FirstOccurrences(next) ==
               (if page[i].id in Ids(now) then FirstOccurrences(now) else FirstOccurrences(now) + [page[i]])
            && Ids(next) == Ids(now) + {page[i].id}
  {
    assert done + page[..i + 1] == (done + page[..i]) + [page[i]];
    OneMoreItem(done + page[..i], page[i]);
  }

  method FlattenUnique(pages: seq<seq<Item>>) returns (items: seq<Item>)
    ensures items == FirstOccurrences(Concat(pages))
  {
    var seen: set<string> := {};
    items := [];
    for p := 0 to |pages|
      invariant items == FirstOccurrences(Concat(pages[..p])) && seen == Ids(Concat(pages[..p]))
    {
      ConcatOneMore(pages, p);
      seen, items := AddPage(pages[p], Concat(pages[..p]), seen, items);
    }
    assert pages[..|pages|] == pages;
  }

  lemma ConcatOneMore(pages: seq<seq<Item>>, p: nat)
    requires p < |pages|
    ensures Concat(pages[..p + 1]) == Concat(pages[..p]) + pages[p]
  {
    assert pages[..p + 1][..p] == pages[..p];
  }

  lemma IdsOfLonger(s: seq<Item>, item: Item)
    ensures Ids(s + [item]) == Ids(s) + {item.id}
  {
    var longer := s + [item];
    forall id | id in Ids(s) ensures id in Ids(longer) {
      var i :| 0 <= i < |s| && s[i].id == id;
      assert longer[i].id == id;
    }
    assert longer[|s|].id == item.id;
  }

  lemma OneMoreItem(s: seq<Item>, item: Item)
    ensures FirstOccurrences(s + [item]) ==
            if item.id in Ids(s) then FirstOccurrences(s) else FirstOccurrences(s) + [item]
    ensures Ids(s + [item]) == Ids(s) + {item.id}
  {
    assert (s + [item])[..|s|] == s;
    IdsOfLonger(s, item);
  }

  lemma IdsOfConcat(s: seq<Item>, t: seq<Item>)
    ensures Ids(s + t) == Ids(s) + Ids(t)
  {
    var all := s + t;
    forall id | id in Ids(s) + Ids(t) ensures id in Ids(all) {
      if id in Ids(s) {
        var i :| 0 <= i < |s| && s[i].id == id;
        assert all[i].id == id;
      } else {
        var i :| 0 <= i < |t| && t[i].id == id;
        assert all[|s| + i].id == id;
      }
    }
  }

  // ---- What first occurrences are ---------------------------------------------------------------

  function FirstIndex(s: seq<Item>, id: string): nat
    requires id in Ids(s)
    ensures FirstIndex(s, id) < |s| && s[FirstIndex(s, id)].id == id
    ensures forall i | 0 <= i < FirstIndex(s, id) :: s[i].id != id
  {
    if s[0].id == id then 0
    else
      assert forall i | 0 < i < |s| :: s[i] == s[1..][i - 1];
      1 + FirstIndex(s[1..], id)
  }

  /** `f` holds exactly the ids of s, each with the item at its first place, in the order of those
      places. */
  ghost predicate KeepsFirsts(f: seq<Item>, s: seq<Item>) {
    && Ids(f) == Ids(s)
    && (forall k | 0 <= k < |f| :: f[k].id in Ids(s) && f[k] == s[FirstIndex(s, f[k].id)])
    && (forall j, k | 0 <= j < k < |f| :: FirstIndex(s, f[j].id) < FirstIndex(s, f[k].id))
  }

  lemma FirstIndexOfLonger(s: seq<Item>, item: Item, id: string)
    requires id in Ids(s)
    ensures id in Ids(s + [item]) && FirstIndex(s + [item], id) == FirstIndex(s, id)
  {
    IdsOfLonger(s, item);
    var i, j := FirstIndex(s, id), FirstIndex(s + [item], id);
    assert (s + [item])[i] == s[i];
    assert j < |s| ==> s[j].id == id;
  }

  lemma KeepsFirstsOfLonger(f: seq<Item>, s: seq<Item>, item: Item)
    requires KeepsFirsts(f, s)
    ensures forall k | 0 <= k < |f| ::
              f[k].id in Ids(s + [item]) && FirstIndex(s + [item], f[k].id) == FirstIndex(s, f[k].id)
    ensures item.id in Ids(s) ==> KeepsFirsts(f, s + [item])
  {
    IdsOfLonger(s, item);
    forall k | 0 <= k < |f|
      ensures f[k].id in Ids(s + [item]) && FirstIndex(s + [item], f[k].id) == FirstIndex(s, f[k].id)
      ensures (s + [item])[FirstIndex(s, f[k].id)] == f[k]
    {
      FirstIndexOfLonger(s, item, f[k].id);
    }
  }

  lemma KeepsFirstsOfNew(f: seq<Item>, s: seq<Item>, item: Item)
    requires KeepsFirsts(f, s) && item.id !in Ids(s)
    ensures KeepsFirsts(f + [item], s + [item])
  {
    var longer, more := s + [item], f + [item];
    KeepsFirstsOfLonger(f, s, item);
    IdsOfLonger(s, item);
    IdsOfLonger(f, item);
    NewItemIsLast(s, item);
    forall k | 0 <= k < |more|
      ensures more[k].id in Ids(longer)
      ensures FirstIndex(longer, more[k].id) == if k < |f| then FirstIndex(s, f[k].id) else |s|
      ensures more[k] == longer[FirstIndex(longer, more[k].id)]
    {
      if k < |f| {
        assert more[k] == f[k];
      }
    }
  }

  lemma NewItemIsLast(s: seq<Item>, item: Item)
    requires item.id !in Ids(s)
    ensures item.id in Ids(s + [item]) && FirstIndex(s + [item], item.id) == |s|
  {
    var longer := s + [item];
    assert longer[|s|] == item;
    assert forall i | 0 <= i < |s| :: longer[i] == s[i] && s[i].id in Ids(s);
  }

  lemma {:induction false} FirstOccurrencesKeepsFirsts(s: seq<Item>)
    ensures KeepsFirsts(FirstOccurrences(s), s)
  {
    if s == [] {
    } else {
      var init, last := s[..|s| - 1], s[|s| - 1];
      assert s == init + [last];
      FirstOccurrencesKeepsFirsts(init);
      if last.id in Ids(init) {
        KeepsFirstsOfLonger(FirstOccurrences(init), init, last);
      } else {
        KeepsFirstsOfNew(FirstOccurrences(init), init, last);
      }
    }
  }

  ghost function Positions(f: seq<Item>, s: seq<Item>): seq<int>
    requires KeepsFirsts(f, s)
  {
    seq(|f|, k requires 0 <= k < |f| => FirstIndex(s, f[k].id))
  }

  lemma PositionsOfIds(f: seq<Item>, s: seq<Item>, x: int)
    requires KeepsFirsts(f, s)
    ensures x in Positions(f, s) <==> exists id | id in Ids(s) :: FirstIndex(s, id) == x
  {
    if x in Positions(f, s) {
      var k :| 0 <= k < |f| && Positions(f, s)[k] == x;
      assert f[k].id in Ids(s);
    }
    if id :| id in Ids(s) && FirstIndex(s, id) == x {
      var k :| 0 <= k < |f| && f[k].id == id;
      assert Positions(f, s)[k] == x;
    }
  }

  /** That description fits one list only. */
  lemma KeepsFirstsIsUnique(f: seq<Item>, g: seq<Item>, s: seq<Item>)
    requires KeepsFirsts(f, s) && KeepsFirsts(g, s)
    ensures f == g
  {
    forall x ensures x in Positions(f, s) <==> x in Positions(g, s) {
      PositionsOfIds(f, s, x);
      PositionsOfIds(g, s, x);
    }
    SameElementsSameSequence(Positions(f, s), Positions(g, s));
    forall k | 0 <= k < |f| ensures f[k] == g[k] {
      assert Positions(f, s)[k] == Positions(g, s)[k];
    }
  }

  /** The batch merge keeps exactly the first occurrence of each id, in page order, and it is the only
      list that does. */
  lemma FlattenKeepsExactlyFirsts(pages: seq<seq<Item>>, f: seq<Item>)
    ensures f == FirstOccurrences(Concat(pages)) <==> KeepsFirsts(f, Concat(pages))
  {
    FirstOccurrencesKeepsFirsts(Concat(pages));
    if KeepsFirsts(f, Concat(pages)) {
      KeepsFirstsIsUnique(f, FirstOccurrences(Concat(pages)), Concat(pages));
    }
  }

  // ---- One more page -------------------------------------------------------------------------------

  lemma IdsOfAppended(s: seq<Item>, page: seq<Item>)
    ensures Ids(s + page) == Ids(s) + Ids(Unseen(Ids(s), page))
  {
    IdsOfConcat(s, page);
    UnseenIs(Ids(s), page);
  }

  lemma AppendingOne(all: seq<Item>, s: seq<Item>, news: seq<Item>, last: Item)
    requires FirstOccurrences(all) == FirstOccurrences(s) + FirstOccurrences(news)
    requires Ids(all) == Ids(s) + Ids(news)
    ensures FirstOccurrences(all + [last]) ==
            FirstOccurrences(s) + FirstOccurrences(if last.id in Ids(s) then news else news + [last])
  {
    OneMoreItem(all, last);
    if last.id !in Ids(s) {
      OneMoreItem(news, last);
      if last.id !in Ids(news) {
        assert FirstOccurrences(s) + (FirstOccurrences(news) + [last]) ==
               (FirstOccurrences(s) + FirstOccurrences(news)) + [last];
      }
    }
  }

  lemma {:induction false} AppendingItems(s: seq<Item>, page: seq<Item>)
    ensures FirstOccurrences(s + page) == FirstOccurrences(s) + FirstOccurrences(Unseen(Ids(s), page))
  {
    if page == [] {
      assert s + page == s;
    } else {
      var init, last := page[..|page| - 1], page[|page| - 1];
      var all := s + init;
      AppendingItems(s, init);
      IdsOfAppended(s, init);
      AppendingOne(all, s, Unseen(Ids(s), init), last);
      assert s + page == all + [last];
    }
  }

  /** Loading one more page appends exactly that page's unseen items, each once. */
  lemma FlattenAppendsUnseen(pages: seq<seq<Item>>, page: seq<Item>)
    ensures FirstOccurrences(Concat(pages + [page])) ==
            FirstOccurrences(Concat(pages)) + FirstOccurrences(Unseen(Ids(Concat(pages)), page))
  {
    assert (pages + [page])[..|pages|] == pages;
    AppendingItems(Concat(pages), page);
  }

  // ---- Page by page against all at once ---------------------------------------------------------------

  /** An id that occurs twice in the page is in `seen`. */
  ghost predicate RepeatsIn(page: seq<Item>, seen: set<string>) {
    forall i, j | 0 <= i < j < |page| && page[i].id == page[j].id :: page[i].id in seen
  }

  lemma RepeatsOfLongerPage(init: seq<Item>, last: Item, seen: set<string>)
    ensures RepeatsIn(init + [last], seen) <==> RepeatsIn(init, seen) && (last.id in Ids(init) ==> last.id in seen)
  {
    var page := init + [last];
    assert page[|init|] == last;
    assert forall i | 0 <= i < |init| :: page[i] == init[i];
    if last.id in Ids(init) {
      var i :| 0 <= i < |init| && init[i].id == last.id;
      assert page[i].id == page[|init|].id;
    }
    forall i, j | 0 <= i < j < |page| && page[i].id == page[j].id
      ensures j == |init| ==> last.id in Ids(init)
    {
      assert page[i].id == init[i].id;
    }
  }

  lemma {:induction false} UnseenIs(seen: set<string>, page: seq<Item>)
    ensures Ids(Unseen(seen, page)) == Ids(page) - seen
    ensures Distinct(Unseen(seen, page)) <==>
            RepeatsIn(page, seen)
  {
    if page == [] {
    } else {
      var init, last := page[..|page| - 1], page[|page| - 1];
      assert page == init + [last];
      UnseenIs(seen, init);
      RepeatsOfLongerPage(init, last, seen);
      IdsOfLonger(init, last);
      var rest := Unseen(seen, init);
      if last.id !in seen {
        IdsOfLonger(rest, last);
        DistinctOfLonger(rest, last);
      }
    }
  }

  /** `f` is what is left of the page when the items with a seen id are struck out. */
  ghost predicate IsFilter(f: seq<Item>, page: seq<Item>, seen: set<string>)
    decreases |page|
  {
    if page == [] then f == []
    else if page[0].id in seen then IsFilter(f, page[1..], seen)
    else f != [] && f[0] == page[0] && IsFilter(f[1..], page[1..], seen)
  }

  lemma {:induction false} IsFilterOfLonger(f: seq<Item>, page: seq<Item>, seen: set<string>, last: Item)
    requires IsFilter(f, page, seen)
    ensures IsFilter(if last.id in seen then f else f + [last], page + [last], seen)
    decreases |page|
  {
    var longer := page + [last];
    if page == [] {
      assert longer[1..] == [];
    } else {
      assert longer[1..] == page[1..] + [last];
      if page[0].id in seen {
        IsFilterOfLonger(f, page[1..], seen, last);
      } else {
        IsFilterOfLonger(f[1..], page[1..], seen, last);
        assert (f + [last])[1..] == f[1..] + [last];
      }
    }
  }

  lemma {:induction false} UnseenFilters(seen: set<string>, page: seq<Item>)
    ensures IsFilter(Unseen(seen, page), page, seen)
  {
    if page == [] {
    } else {
      var init, last := page[..|page| - 1], page[|page| - 1];
      UnseenFilters(seen, init);
      IsFilterOfLonger(Unseen(seen, init), init, seen, last);
      assert page == init + [last];
    }
  }

  lemma DistinctOfLonger(s: seq<Item>, item: Item)
    ensures Distinct(s + [item]) <==> Distinct(s) && item.id !in Ids(s)
  {
    var longer := s + [item];
    assert forall i | 0 <= i < |s| :: longer[i] == s[i];
    assert longer[|s|] == item;
    if Distinct(longer) {
      forall i | 0 <= i < |s| ensures s[i].id != item.id {
        assert longer[i].id != longer[|s|].id;
      }
    }
  }

  lemma DistinctOfConcat(s: seq<Item>, t: seq<Item>)
    requires Ids(s) !! Ids(t)
    ensures Distinct(s + t) <==> Distinct(s) && Distinct(t)
  {
    var all := s + t;
    assert forall i | 0 <= i < |s| :: all[i] == s[i] && s[i].id in Ids(s);
    assert forall i | 0 <= i < |t| :: all[|s| + i] == t[i] && t[i].id in Ids(t);
    assert forall i | |s| <= i < |all| :: all[i] == t[i - |s|] && all[i].id in Ids(t);
  }

  lemma {:induction false} IdsOfMergeAll(pages: seq<seq<Item>>)
    ensures Ids(MergeAll(pages)) == Ids(Concat(pages))
  {
    if pages == [] {
    } else {
      var init, last := pages[..|pages| - 1], pages[|pages| - 1];
      IdsOfMergeAll(init);
      UnseenIs(Ids(MergeAll(init)), last);
      IdsOfConcat(MergeAll(init), Unseen(Ids(MergeAll(init)), last));
      IdsOfConcat(Concat(init), last);
    }
  }

  /** An id occurs twice in a page only if an earlier page has it already. */
  ghost predicate RepeatsAreOld(pages: seq<seq<Item>>) {
    forall k | 0 <= k < |pages| :: RepeatsIn(pages[k], Ids(Concat(pages[..k])))
  }

  lemma RepeatsOfLonger(init: seq<seq<Item>>, last: seq<Item>)
    ensures RepeatsAreOld(init + [last]) <==> RepeatsAreOld(init) && RepeatsIn(last, Ids(Concat(init)))
  {
    var pages := init + [last];
    assert pages[|init|] == last && pages[..|init|] == init;
    assert forall k | 0 <= k < |init| :: pages[k] == init[k] && pages[..k] == init[..k];
  }

  lemma {:induction false} MergeAllDistinctIff(pages: seq<seq<Item>>)
    ensures Distinct(MergeAll(pages)) <==> RepeatsAreOld(pages)
  {
    if pages == [] {
    } else {
      var init, last := pages[..|pages| - 1], pages[|pages| - 1];
      var merged := MergeAll(init);
      MergeAllDistinctIff(init);
      IdsOfMergeAll(init);
      UnseenIs(Ids(merged), last);
      DistinctOfConcat(merged, Unseen(Ids(merged), last));
      assert pages == init + [last];
      RepeatsOfLonger(init, last);
    }
  }

  lemma {:induction false} DistinctIsFirstOccurrences(s: seq<Item>)
    ensures FirstOccurrences(s) == s <==> Distinct(s)
    ensures Distinct(FirstOccurrences(s)) && Ids(FirstOccurrences(s)) == Ids(s)
    ensures |FirstOccurrences(s)| <= |s|
  {
    if s == [] {
    } else {
      var init, last := s[..|s| - 1], s[|s| - 1];
      assert s == init + [last];
      DistinctIsFirstOccurrences(init);
      DistinctOfLonger(init, last);
      DistinctOfLonger(FirstOccurrences(init), last);
      IdsOfLonger(init, last);
      IdsOfLonger(FirstOccurrences(init), last);
      if FirstOccurrences(s) == s {
        assert FirstOccurrences(init) == FirstOccurrences(s)[..|init|] == init;
      }
    }
  }

  lemma {:induction false} DistinctMergeIsFirstOccurrences(pages: seq<seq<Item>>)
    requires Distinct(MergeAll(pages))
    ensures MergeAll(pages) == FirstOccurrences(Concat(pages))
  {
    if pages == [] {
    } else {
      var init, last := pages[..|pages| - 1], pages[|pages| - 1];
      var merged := MergeAll(init);
      var more := Unseen(Ids(merged), last);
      UnseenIs(Ids(merged), last);
      DistinctOfConcat(merged, more);
      DistinctMergeIsFirstOccurrences(init);
      IdsOfMergeAll(init);
      AppendingItems(Concat(init), last);
      DistinctIsFirstOccurrences(more);
    }
  }

  /** Merging page by page gives the batch result exactly when an id repeats inside a page only if an
      earlier page has it; pages that are distinct in themselves are the usual case. */
  lemma IncrementalAgreesWithBatchIff(pages: seq<seq<Item>>)
    ensures MergeAll(pages) == FirstOccurrences(Concat(pages)) <==> RepeatsAreOld(pages)
    ensures (forall k | 0 <= k < |pages| :: Distinct(pages[k])) ==> RepeatsAreOld(pages)
  {
    MergeAllDistinctIff(pages);
    DistinctIsFirstOccurrences(Concat(pages));
    if RepeatsAreOld(pages) {
      DistinctMergeIsFirstOccurrences(pages);
    }
  }
}
