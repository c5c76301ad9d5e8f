// The customer reconciliation page: a base response, pages loaded on top of it, and answers that
// arrive after the base has been fetched anew.
module ReconciliationPages {
  import opened Wrappers
  import opened PagedMerge

  datatype Kind = Orders | Conversations

  /** A response: the base and every further page have this shape. */
  datatype Lists = Lists(
    orders: seq<Item>, conversations: seq<Item>,
    ordersNextCursor: Option<string>, conversationsNextCursor: Option<string>) {
    function Of(kind: Kind): seq<Item> {
      if kind.Orders? then orders else conversations
    }
    function Cursor(kind: Kind): Option<string> {
      if kind.Orders? then ordersNextCursor else conversationsNextCursor
    }
  }

  /** The query cache's data, by object identity, and when it was updated. */
  datatype Version = Version(ref: nat, updatedAt: int)

  datatype Loaded = Loaded(base: Version, value: Lists)

  datatype Input = Input(
    kind: Kind, base: Version, ordersCursor: Option<string>, conversationsCursor: Option<string>)

  /** A page that was merged. */
  datatype Received = Received(kind: Kind, page: Lists)

  datatype State = State(
    heap: seq<Lists>,          // responses ever put into the cache; a ref is an index
    query: Option<Version>,
    loaded: Option<Loaded>,
    inFlight: seq<Input>,      // load-more requests under way
    received: seq<Received>)   // pages answered so far for the current version

  datatype Event =
    | Refetch(value: Lists, shared: bool, updatedAt: int)
    | LoadMore(kind: Kind)
    | Success(i: nat, page: Lists)
    | Failure(i: nat)

  predicate Valid(s: State, v: Version) { v.ref < |s.heap| }

  function Current(s: State): Option<Lists> {
    if s.query.None? || !Valid(s, s.query.value) then None
    else if s.loaded.Some? && s.loaded.value.base == s.query.value then Some(s.loaded.value.value)
    else Some(s.heap[s.query.value.ref])
  }

  function MergePage(existing: Lists, kind: Kind, page: Lists): Lists {
    match kind
    case Orders =>
      existing.(orders := Merge(existing.orders, page.orders), ordersNextCursor := page.ordersNextCursor)
    case Conversations =>
      existing.(conversations := Merge(existing.conversations, page.conversations),
                conversationsNextCursor := page.conversationsNextCursor)
  }

  predicate Enabled(s: State, e: Event) {
    match e
    case Refetch(value, shared, updatedAt) =>
      // A deep-equal answer keeps the old object; the clock does not run backwards for it.
      shared ==> s.query.Some? && Valid(s, s.query.value) && s.heap[s.query.value.ref] == value
                 && s.query.value.updatedAt <= updatedAt
    case LoadMore(_) => Current(s).Some?
    case Success(i, _) => i < |s.inFlight| && Valid(s, s.inFlight[i].base)
    case Failure(i) => i < |s.inFlight|
  }

  function Apply(s: State, e: Event): State
    requires Enabled(s, e)
  {
    match e
    case Refetch(value, shared, updatedAt) =>
      if shared then
        var v := s.query.value.(updatedAt := updatedAt);
        s.(query := Some(v), received := if v == s.query.value then s.received else [])
      else
        s.(heap := s.heap + [value], query := Some(Version(|s.heap|, updatedAt)), received := [])
    case LoadMore(kind) =>
      var now := Current(s).value;
      s.(inFlight := s.inFlight +
           [Input(kind, s.query.value, now.ordersNextCursor, now.conversationsNextCursor)])
    case Success(i, page) => OnSuccess(s.(inFlight := s.inFlight[..i] + s.inFlight[i + 1..]), s.inFlight[i], page)
    case Failure(i) => s.(inFlight := s.inFlight[..i] + s.inFlight[i + 1..])
  }

  function OnSuccess(s: State, input: Input, page: Lists): State
    requires Valid(s, input.base)
  {
    if s.query != Some(input.base) then s
    else
      var existing := if s.loaded.Some? && s.loaded.value.base == input.base then s.loaded.value.value
                      else s.heap[input.base.ref];
      s.(loaded := Some(Loaded(input.base, MergePage(existing, input.kind, page))),
         received := s.received + [Received(input.kind, page)])
  }

  ghost predicate Run(s: State, es: seq<Event>)
    decreases |es|
  {
    es != [] ==> Enabled(s, es[0]) && Run(Apply(s, es[0]), es[1..])
  }

  ghost function End(s: State, es: seq<Event>): State
    requires Run(s, es)
    decreases |es|
  {
    if es == [] then s else End(Apply(s, es[0]), es[1..])
  }

  const INITIAL := State([], None, None, [], [])

  // ---- What should be displayed --------------------------------------------------------------------

  function Replay(base: Lists, received: seq<Received>): Lists {
    if received == [] then base
    else
      var last := received[|received| - 1];
      MergePage(Replay(base, received[..|received| - 1]), last.kind, last.page)
  }

  /** Versions never come back: of one object, only later times. */
  ghost predicate NotLater(s: State, v: Version) {
    && s.query.Some? && v.ref < |s.heap| && v.ref <= s.query.value.ref
    && (v.ref == s.query.value.ref ==> v.updatedAt <= s.query.value.updatedAt)
  }

  ghost predicate Inv(s: State) {
    && (s.query.Some? ==> s.query.value.ref == |s.heap| - 1)
    && (s.loaded.Some? ==> NotLater(s, s.loaded.value.base))
    && (forall i | 0 <= i < |s.inFlight| :: NotLater(s, s.inFlight[i].base))
    && (s.query.None? ==> s.received == [] && s.heap == [])
    && (s.query.Some? ==> Current(s) == Some(Replay(s.heap[s.query.value.ref], s.received)))
  }

  lemma InvKept(s: State, e: Event)
    requires Inv(s) && Enabled(s, e)
    ensures Inv(Apply(s, e))
  {
    if e.Success? {
      var received := s.received + [Received(s.inFlight[e.i].kind, e.page)];
      assert received[..|s.received|] == s.received;
    }
  }

  lemma {:induction false} InvHoldsOnRuns(s: State, es: seq<Event>)
    requires Inv(s) && Run(s, es)
    ensures Inv(End(s, es))
    decreases |es|
  {
    if es == [] {
    } else {
      InvKept(s, es[0]);
      InvHoldsOnRuns(Apply(s, es[0]), es[1..]);
    }
  }

  /** The base list of one kind, then the received pages of that kind. */
  ghost function PagesOf(base: Lists, received: seq<Received>, kind: Kind): seq<seq<Item>> {
    if received == [] then [base.Of(kind)]
    else
      var rest, last := PagesOf(base, received[..|received| - 1], kind), received[|received| - 1];
      if last.kind == kind then rest + [last.page.Of(kind)] else rest
  }

  lemma {:induction false} ReplayIsMergeAll(base: Lists, received: seq<Received>, kind: Kind)
    ensures Replay(base, received).Of(kind) == MergeAll(PagesOf(base, received, kind))
  {
    var pages := PagesOf(base, received, kind);
    if received == [] {
      assert pages[..0] == [] && Ids([]) == {};
      UnseenOfNothing(base.Of(kind));
      assert [] + base.Of(kind) == base.Of(kind);
    } else {
      var init, last := received[..|received| - 1], received[|received| - 1];
      ReplayIsMergeAll(base, init, kind);
      if last.kind == kind {
        assert pages[..|pages| - 1] == PagesOf(base, init, kind);
      }
    }
  }

  lemma {:induction false} UnseenOfNothing(page: seq<Item>)
    ensures Unseen({}, page) == page
  {
    if page == [] {
    } else {
      UnseenOfNothing(page[..|page| - 1]);
    }
  }

  /** Where the last page of a kind ended, or else the base. */
  ghost function LastCursor(base: Lists, received: seq<Received>, kind: Kind): Option<string> {
    if received == [] then base.Cursor(kind)
    else
      var last := received[|received| - 1];
      if last.kind == kind then last.page.Cursor(kind)
      else LastCursor(base, received[..|received| - 1], kind)
  }

  lemma {:induction false} ReplayCursor(base: Lists, received: seq<Received>, kind: Kind)
    ensures Replay(base, received).Cursor(kind) == LastCursor(base, received, kind)
  {
    if received == [] {
    } else {
      ReplayCursor(base, received[..|received| - 1], kind);
    }
  }

  // ---- What the events alone say -----------------------------------------------------------------------

  /** An observer of the events: the answers fetched, the version and content of the current one, for which
      list and version each open request was made, and the pages that answered the current version. */
  datatype Observer = Observer(
    fetches: nat, current: Option<(Version, Lists)>, requests: seq<(Kind, Option<Version>)>, pages: seq<Received>)

  function VersionSeen(o: Observer): Option<Version> {
    if o.current.None? then None else Some(o.current.value.0)
  }

  function Observe(o: Observer, e: Event): Observer {
    match e
    case Refetch(value, shared, updatedAt) =>
      var ref := if shared && o.current.Some? then o.current.value.0.ref else o.fetches;
      var version := Version(ref, updatedAt);
      o.(fetches := if shared then o.fetches else o.fetches + 1, current := Some((version, value)),
         pages := if VersionSeen(o) == Some(version) then o.pages else [])
    case LoadMore(kind) => o.(requests := o.requests + [(kind, VersionSeen(o))])
    case Success(i, page) =>
      if i >= |o.requests| then o
      else
        var request := o.requests[i];
        o.(requests := o.requests[..i] + o.requests[i + 1..],
           pages := if request.1 == VersionSeen(o) then o.pages + [Received(request.0, page)] else o.pages)
    case Failure(i) =>
      if i >= |o.requests| then o else o.(requests := o.requests[..i] + o.requests[i + 1..])
  }

  function ObserveAll(o: Observer, es: seq<Event>): Observer
    decreases |es|
  {
    if es == [] then o else ObserveAll(Observe(o, es[0]), es[1..])
  }

  /** What the observer has seen by the end of a run. */
  function Seen(es: seq<Event>): Observer { ObserveAll(Observer(0, None, [], []), es) }

  ghost predicate Agrees(s: State, o: Observer) {
    && o.fetches == |s.heap| && VersionSeen(o) == s.query && o.pages == s.received
    && (s.query.Some? ==> Valid(s, s.query.value) && s.heap[s.query.value.ref] == o.current.value.1)
    && |o.requests| == |s.inFlight|
    && forall i | 0 <= i < |s.inFlight| :: o.requests[i] == (s.inFlight[i].kind, Some(s.inFlight[i].base))
  }

  lemma ObserverFollows(s: State, e: Event, o: Observer)
    requires Inv(s) && Enabled(s, e) && Agrees(s, o)
    ensures Agrees(Apply(s, e), Observe(o, e))
  {}

  lemma {:induction false} ObserverFollowsRun(s: State, es: seq<Event>, o: Observer)
    requires Inv(s) && Run(s, es) && Agrees(s, o)
    ensures Agrees(End(s, es), ObserveAll(o, es))
    decreases |es|
  {
    if es == [] {
    } else {
      InvKept(s, es[0]);
      ObserverFollows(s, es[0], o);
      ObserverFollowsRun(Apply(s, es[0]), es[1..], Observe(o, es[0]));
    }
  }

  // ---- Over every interleaving -----------------------------------------------------------------------

  /** Whatever the order of refetches, requests, answers and failures: what is displayed is the answer
      fetched last, followed by the unseen items of the pages that have answered requests made for it, page
      by page, with the cursor of the last such page; all as the events themselves show it. */
  lemma DisplayIsBaseThenUnseen(es: seq<Event>, kind: Kind)
    requires Run(INITIAL, es)
    ensures var s, seen := End(INITIAL, es), Seen(es);
            && Current(s).Some? == s.query.Some? == seen.current.Some?
            && (seen.current.Some? ==>
                  var base := seen.current.value.1;
                  && Current(s).value.Of(kind) == MergeAll(PagesOf(base, seen.pages, kind))
                  && Current(s).value.Cursor(kind) == LastCursor(base, seen.pages, kind))
  {
    InvHoldsOnRuns(INITIAL, es);
    ObserverFollowsRun(INITIAL, es, Observer(0, None, [], []));
    var s := End(INITIAL, es);
    if s.query.Some? {
      ReplayIsMergeAll(s.heap[s.query.value.ref], s.received, kind);
      ReplayCursor(s.heap[s.query.value.ref], s.received, kind);
    }
  }

  /** An answer for the version displayed puts just its items that are not displayed yet at the end, in its
      order, and moves the cursor to where the page ended. */
  lemma AnswerIsAppended(es: seq<Event>, i: nat, page: Lists)
    requires Run(INITIAL, es) && Enabled(End(INITIAL, es), Success(i, page))
    requires var s := End(INITIAL, es); s.query == Some(s.inFlight[i].base)
    ensures var s, s' := End(INITIAL, es), Apply(End(INITIAL, es), Success(i, page));
            var kind := s.inFlight[i].kind;
            && Current(s).Some? && Current(s').Some? && s'.query == s.query
            && (var shown, shown' := Current(s).value.Of(kind), Current(s').value.Of(kind);
                && shown <= shown'
                && IsFilter(shown'[|shown|..], page.Of(kind), Ids(shown)))
            && Current(s').value.Cursor(kind) == page.Cursor(kind)
  {
    InvHoldsOnRuns(INITIAL, es);
    var s := End(INITIAL, es);
    var kind := s.inFlight[i].kind;
    var shown := Current(s).value.Of(kind);
    var added := Unseen(Ids(shown), page.Of(kind));
    UnseenFilters(Ids(shown), page.Of(kind));
    assert (shown + added)[|shown|..] == added;
  }

  /** A refetch that makes a new version shows the answer and nothing else; one that does not, a deep-equal
      answer of the same time, changes nothing. */
  lemma RefetchShowsTheAnswer(es: seq<Event>, value: Lists, shared: bool, updatedAt: int)
    requires Run(INITIAL, es) && Enabled(End(INITIAL, es), Refetch(value, shared, updatedAt))
    ensures var s, s' := End(INITIAL, es), Apply(End(INITIAL, es), Refetch(value, shared, updatedAt));
            && s'.query.Some? && s'.query.value.updatedAt == updatedAt
            && (!shared ==> s'.query != s.query)
            && Current(s') == if s'.query == s.query then Current(s) else Some(value)
  {
    InvHoldsOnRuns(INITIAL, es);
  }

  /** If the base and each received page hold every id once, so does the list displayed; it is then
      what the batch merge of the base and the pages gives. */
  lemma DisplayStaysDistinct(es: seq<Event>, kind: Kind)
    requires Run(INITIAL, es) && Seen(es).current.Some?
    requires var pages := PagesOf(Seen(es).current.value.1, Seen(es).pages, kind);
             forall k | 0 <= k < |pages| :: Distinct(pages[k])
    ensures var s := End(INITIAL, es);
            && Current(s).Some? && Distinct(Current(s).value.Of(kind))
            && Current(s).value.Of(kind) ==
               FirstOccurrences(Concat(PagesOf(Seen(es).current.value.1, Seen(es).pages, kind)))
  {
    var pages := PagesOf(Seen(es).current.value.1, Seen(es).pages, kind);
    DisplayIsBaseThenUnseen(es, kind);
    IncrementalAgreesWithBatchIff(pages);
    MergeAllDistinctIff(pages);
  }

  ghost predicate IsStale(s: State, e: Event) {
    e.Success? && e.i < |s.inFlight| && s.query != Some(s.inFlight[e.i].base)
  }

  /** The same run with every stale answer lost on the way. */
  ghost function WithoutStale(s: State, es: seq<Event>): seq<Event>
    requires Run(s, es)
    decreases |es|
  {
    if es == [] then []
    else [if IsStale(s, es[0]) then Failure(es[0].i) else es[0]] + WithoutStale(Apply(s, es[0]), es[1..])
  }

  /** However many stale answers come in between, a run ends as if none of them had arrived. */
  lemma {:induction false} StaleAnswersMightAsWellFail(s: State, es: seq<Event>)
    requires Run(s, es)
    ensures Run(s, WithoutStale(s, es)) && End(s, WithoutStale(s, es)) == End(s, es)
    decreases |es|
  {
    if es == [] {
    } else {
      var e := if IsStale(s, es[0]) then Failure(es[0].i) else es[0];
      assert Apply(s, e) == Apply(s, es[0]);
      StaleAnswersMightAsWellFail(Apply(s, es[0]), es[1..]);
      assert WithoutStale(s, es)[1..] == WithoutStale(Apply(s, es[0]), es[1..]);
    }
  }

  /** An answer of one kind leaves the list and the cursor of the other kind alone. */
  lemma KindsDoNotInterfere(s: State, i: nat, page: Lists, kind: Kind)
    requires Inv(s) && Enabled(s, Success(i, page)) && s.inFlight[i].kind != kind && Current(s).Some?
    ensures var s' := Apply(s, Success(i, page));
            && Current(s').Some?
            && Current(s').value.Of(kind) == Current(s).value.Of(kind)
            && Current(s').value.Cursor(kind) == Current(s).value.Cursor(kind)
  {
    InvKept(s, Success(i, page));
  }

  /** A request asks for what follows the last page shown, in both lists, and carries the version it
      was made for; all as the events themselves show it. */
  lemma RequestContinuesTheDisplay(es: seq<Event>, kind: Kind)
    requires Run(INITIAL, es) && Enabled(End(INITIAL, es), LoadMore(kind))
    ensures var s, seen := End(INITIAL, es), Seen(es);
            var asked := Apply(s, LoadMore(kind)).inFlight;
            && seen.current.Some?
            && asked == s.inFlight + [Input(kind, seen.current.value.0,
                                            LastCursor(seen.current.value.1, seen.pages, Orders),
                                            LastCursor(seen.current.value.1, seen.pages, Conversations))]
  {
    InvHoldsOnRuns(INITIAL, es);
    ObserverFollowsRun(INITIAL, es, Observer(0, None, [], []));
    DisplayIsBaseThenUnseen(es, Orders);
    DisplayIsBaseThenUnseen(es, Conversations);
  }

  ghost predicate Grows(s: State, s': State) {
    && Current(s).Some? && Current(s').Some?
    && Current(s).value.orders <= Current(s').value.orders
    && Current(s).value.conversations <= Current(s').value.conversations
  }

  lemma {:induction false} VersionsAdvance(s: State, es: seq<Event>)
    requires Inv(s) && s.query.Some? && Run(s, es)
    ensures NotLater(End(s, es), s.query.value)
    decreases |es|
  {
    if es == [] {
    } else {
      InvKept(s, es[0]);
      VersionsAdvance(Apply(s, es[0]), es[1..]);
    }
  }

  lemma {:induction false} GrowsFrom(s: State, es: seq<Event>)
    requires Inv(s) && s.query.Some? && Run(s, es) && End(s, es).query == s.query
    ensures Grows(s, End(s, es))
    decreases |es|
  {
    if es == [] {
    } else {
      var s1 := Apply(s, es[0]);
      InvKept(s, es[0]);
      VersionsAdvance(s1, es[1..]);
      assert s1.query == s.query;
      GrowsFrom(s1, es[1..]);
    }
  }

  /** Between two moments of any run with the same version, the displayed lists only grow at the end. */
  lemma DisplayOnlyGrowsAtTheEnd(es: seq<Event>, more: seq<Event>)
    requires Run(INITIAL, es) && End(INITIAL, es).query.Some?
    requires Run(End(INITIAL, es), more) && End(End(INITIAL, es), more).query == End(INITIAL, es).query
    ensures Grows(End(INITIAL, es), End(End(INITIAL, es), more))
  {
    InvHoldsOnRuns(INITIAL, es);
    GrowsFrom(End(INITIAL, es), more);
  }

  // ---- The component -------------------------------------------------------------------------------------

  class CustomerReconciliationPage {
    var heap: seq<Lists>
    var query: Option<Version>
    var loaded: Option<Loaded>
    var inFlight: seq<Input>
    ghost var received: seq<Received>

    constructor ()
      ensures View() == INITIAL
    {
      heap, query, loaded, inFlight := [], None, None, [];
      received := [];
    }

    ghost function View(): State
      reads this
    {
      State(heap, query, loaded, inFlight, received)
    }

    /** The query client stores an answer. */
    method Refetched(value: Lists, shared: bool, updatedAt: int)
      requires Enabled(View(), Refetch(value, shared, updatedAt))
      modifies this
      ensures View() == Apply(old(View()), Refetch(value, shared, updatedAt))
    {
      if shared {
        if query.value.updatedAt != updatedAt {
          received := [];
        }
        query := Some(Version(query.value.ref, updatedAt));
      } else {
        query, heap, received := Some(Version(|heap|, updatedAt)), heap + [value], [];
      }
    }

    /** `isPending` is what the last rendering saw, so it may be out of date. */
    method LoadMore(kind: Kind, isPending: bool)
      requires query.Some? ==> Valid(View(), query.value)
      modifies this
      ensures View() == if Current(old(View())).None? || isPending then old(View())
                        else Apply(old(View()), Event.LoadMore(kind))
    {
      if query.None? || isPending {
        return;
      }
      var current := if loaded.Some? && loaded.value.base == query.value then loaded.value.value
                     else heap[query.value.ref];
      inFlight := inFlight +
        [Input(kind, query.value, current.ordersNextCursor, current.conversationsNextCursor)];
    }

    method OnSuccess(i: nat, page: Lists)
      requires Enabled(View(), Success(i, page))
      modifies this
      ensures View() == Apply(old(View()), Success(i, page))
    {
      var input := inFlight[i];
      inFlight := inFlight[..i] + inFlight[i + 1..];
      if query != Some(input.base) {
        return;
      }
      var existing := if loaded.Some? && loaded.value.base == input.base then loaded.value.value
                      else heap[input.base.ref];
      if input.kind.Orders? {
        loaded := Some(Loaded(input.base, existing.(
          orders := existing.orders + Unseen(Ids(existing.orders), page.orders),
          ordersNextCursor := page.ordersNextCursor)));
      } else {
        loaded := Some(Loaded(input.base, existing.(
          conversations := existing.conversations + Unseen(Ids(existing.conversations), page.conversations),
          conversationsNextCursor := page.conversationsNextCursor)));
      }
      received := received + [Received(input.kind, page)];
    }
  }
}
