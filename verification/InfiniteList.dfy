/** The browser's infinite list: the state machine of useInfiniteList against a server whose table stands still. */
module InfiniteList {
  import opened Prelude
  import opened Cursor
  import opened Keyset
  import opened Pages

  /** The state the hook renders. */
  datatype ListState = ListState(items: seq<RowKey>, cursor: Option<string>, hasMore: bool,
                                 isLoading: bool, isFetchingMore: bool, failed: bool)

  const INITIAL := ListState([], None, true, true, false, false)

  /** A request under way: the cursor it asked for, and whether the answer replaces the list. */
  datatype Request = Request(cursor: Option<string>, replace: bool)

  /** `observed` is stateRef.current: the state the observer callback reads, which lags until the next render. */
  datatype Client = Client(state: ListState, observed: ListState, pending: Option<Request>)

  datatype Event =
    | Reload                       // mount, a new fetcher, or reload()
    | Render                       // the effect that copies state into stateRef
    | Observe(intersecting: bool)  // the sentinel's observer callback
    | Answer(arrives: bool)        // the fetch settles: with a page, or with an error

  function FetchPage(c: Client, cursor: Option<string>, replace: bool): Client {
    if c.pending.Some? then c
    else
      var s := c.state.(failed := false);
      c.(state := if replace then s.(isLoading := true) else s.(isFetchingMore := true),
         pending := Some(Request(cursor, replace)))
  }

  function Observed(c: Client, intersecting: bool): Client {
    if intersecting && c.observed.hasMore && c.observed.cursor.Some?
    then FetchPage(c, c.observed.cursor, false)
    else c
  }

  function Settled(c: Client, page: Option<CursorPage<RowKey>>): Client
    requires c.pending.Some?
  {
    var s := c.state.(isLoading := false, isFetchingMore := false);
    match page
    case Some(p) =>
      var items := if c.pending.value.replace then p.items else s.items + p.items;
      c.(state := s.(items := items, cursor := p.next, hasMore := p.next.Some?, failed := false), pending := None)
    case None => c.(state := s.(failed := true), pending := None)
  }

  // ---------------------------------------------------------------- the hook

  class Hook {
    var state: ListState
    var stateRef: ListState
    var inFlight: bool
    var request: Request

    ghost function View(): Client
      reads this
    {
      Client(state, stateRef, if inFlight then Some(request) else None)
    }

    constructor ()
      ensures View() == Client(INITIAL, INITIAL, None)
    {
      state, stateRef, inFlight := INITIAL, INITIAL, false;
      request := Request(None, true);
    }

    method StartFetch(cursor: Option<string>, replace: bool)
      modifies this
      ensures View() == FetchPage(old(View()), cursor, replace)
    {
      if inFlight {
        return;
      }
      inFlight := true;
      request := Request(cursor, replace);
      state := if replace then state.(isLoading := true, failed := false) else state.(isFetchingMore := true, failed := false);
    }

    method Reload()
      modifies this
      ensures View() == FetchPage(old(View()).(state := INITIAL), None, true)
    {
      state := INITIAL;
      StartFetch(None, true);
    }

    method Render()
      modifies this
      ensures View() == old(View()).(observed := old(state))
    {
      stateRef := state;
    }

    method OnIntersect(intersecting: bool)
      modifies this
      ensures View() == Observed(old(View()), intersecting)
    {
      if !intersecting || inFlight {
        return;
      }
      var current := stateRef;
      if current.hasMore && current.cursor.Some? {
        StartFetch(current.cursor, false);
      }
    }

    method Settle(page: Option<CursorPage<RowKey>>)
      requires inFlight
      modifies this
      ensures View() == Settled(old(View()), page)
    {
      match page {
        case Some(p) =>
          var items := if request.replace then p.items else state.items + p.items;
          state := state.(items := items, cursor := p.next, hasMore := p.next.Some?,
                          isLoading := false, isFetchingMore := false, failed := false);
        case None =>
          state := state.(isLoading := false, isFetchingMore := false, failed := true);
      }
      inFlight := false;
    }
  }

  // ---------------------------------------------------------------- runs

  /** The page that answers a request, or nothing when the server refuses its cursor. */
  ghost function Served(r: Request, table: set<RowKey>, limit: Option<int>): Option<CursorPage<RowKey>> {
    match Fetch(table, r.cursor, limit, Itself)
    case Ok(page) => Some(page)
    case Err(_) => None
  }

  ghost function Step(c: Client, e: Event, table: set<RowKey>, limit: Option<int>): Client {
    match e
    case Reload => FetchPage(c.(state := INITIAL), None, true)
    case Render => c.(observed := c.state)
    case Observe(intersecting) => Observed(c, intersecting)
    case Answer(arrives) =>
      if c.pending.None? then c
      else Settled(c, if arrives then Served(c.pending.value, table, limit) else None)
  }

  ghost function Run(events: seq<Event>, table: set<RowKey>, limit: Option<int>): Client {
    if events == [] then Client(INITIAL, INITIAL, None)
    else Step(Run(events[..|events| - 1], table, limit), events[|events| - 1], table, limit)
  }

  /** An answer that is appended goes where it was asked for: the list still ends at the request's cursor. */
  ghost predicate Lands(c: Client, e: Event) {
    e == Answer(true) && c.pending.Some? && !c.pending.value.replace ==> c.pending.value.cursor == c.state.cursor
  }

  ghost predicate IsPrefix(c: Client, table: set<RowKey>) {
    c.state.items <= Listing(table)
  }

  /** The cursor of the first k rows of the listing, where more rows follow. */
  ghost predicate Marks(cursor: Option<string>, k: nat, all: seq<RowKey>) {
    0 < k < |all| && cursor == Some(EncodeCursor(all[k - 1]))
  }

  ghost predicate IsMark(cursor: Option<string>, all: seq<RowKey>) {
    exists k :: Marks(cursor, k, all)
  }

  /** What holds of every client, however its events interleave. */
  ghost predicate Wellformed(c: Client, all: seq<RowKey>) {
    && (c.state.cursor.Some? ==> IsMark(c.state.cursor, all))
    && (c.observed.cursor.Some? ==> IsMark(c.observed.cursor, all))
    && (c.pending.Some? ==> if c.pending.value.replace then c.pending.value.cursor.None? else IsMark(c.pending.value.cursor, all))
  }

  /** The list is a prefix, and its cursor is the mark of exactly that prefix. */
  ghost predicate Coherent(s: ListState, all: seq<RowKey>) {
    && s.items <= all
    && (s.cursor.Some? ==> Marks(s.cursor, |s.items|, all) && s.hasMore)
    && (s.cursor.None? ==> if s.hasMore then s.items == [] else s.items == all)
  }

  lemma MarksOnce(cursor: Option<string>, j: nat, k: nat, all: seq<RowKey>)
    requires Descending(all) && Marks(cursor, j, all) && Marks(cursor, k, all)
    ensures j == k
  {
    CursorInjective(all[j - 1], all[k - 1]);
    hide EncodeCursor;
    DescendingIsDistinct(all);
  }

  lemma ServedPage(r: Request, boundary: Option<RowKey>, table: set<RowKey>, limit: Option<int>)
    requires Denotes(r.cursor, boundary)
    ensures var served, page := Served(r, table, limit), PageOf(table, boundary, ClampLimit(limit));
      served.Some? && served.value.items == page.items && Denotes(served.value.next, page.next)
  {
    hide Fetch, EncodeCursor, ClampLimit, PageOf;
    FetchIsPage(table, r.cursor, boundary, limit, Itself);
    var page := PageOf(table, boundary, ClampLimit(limit));
    assert Mapped(page.items, Itself) == page.items;
  }

  function RowBefore(k: nat, all: seq<RowKey>): Option<RowKey>
    requires k <= |all|
  {
    if k == 0 then None else Some(all[k - 1])
  }

  lemma BehindMark(k: nat, table: set<RowKey>)
    requires k <= |Listing(table)|
    ensures Listing(Below(table, RowBefore(k, Listing(table)))) == Listing(table)[k..]
  {
    hide Listing;
    if k > 0 {
      RestOfListing(table, k);
    }
  }

  /** The page at a mark is the next rows of the listing, and its cursor is their mark or null at the end. */
  lemma ServedAtMark(cursor: Option<string>, k: nat, table: set<RowKey>, limit: Option<int>)
    requires if k == 0 then cursor.None? else Marks(cursor, k, Listing(table))
    ensures var all, page := Listing(table), Served(Request(cursor, k == 0), table, limit);
      && page.Some?
      && page.value.items == Take(all[k..], ClampLimit(limit))
      && (if page.value.next.None? then k + |page.value.items| == |all|
          else Marks(page.value.next, k + |page.value.items|, all))
  {
    hide Fetch, EncodeCursor, ClampLimit, Listing, Below, Served;
    var all := Listing(table);
    ServedPage(Request(cursor, k == 0), RowBefore(k, all), table, limit);
    BehindMark(k, table);
  }

  lemma StepKeepsWellformed(c: Client, e: Event, table: set<RowKey>, limit: Option<int>)
    requires Wellformed(c, Listing(table))
    ensures Wellformed(Step(c, e, table, limit), Listing(table))
  {
    hide EncodeCursor, Fetch;
    if e == Answer(true) && c.pending.Some? {
      var r := c.pending.value;
      if r.replace {
        ServedAtMark(r.cursor, 0, table, limit);
      } else {
        var k: nat :| Marks(r.cursor, k, Listing(table));
        ServedAtMark(r.cursor, k, table, limit);
      }
    }
  }

  /** Rows of the listing continue a front of it only at their own place. */
  lemma ContinuesOnlyInPlace(items: seq<RowKey>, all: seq<RowKey>, k: nat, n: Limit)
    requires items <= all && Distinct(all) && k < |all|
    ensures items + Take(all[k..], n) <= all <==> |items| == k
  {
    var page := Take(all[k..], n);
    assert page[0] == all[k] && (items + page)[|items|] == all[k];
    CutContinues(all, k, n);
    assert |items| == k ==> items == all[..k];
  }

  /** A coherent list ends at row k exactly when its cursor is the mark of row k. */
  lemma EndsAtMark(s: ListState, cursor: Option<string>, k: nat, all: seq<RowKey>)
    requires Descending(all) && Coherent(s, all) && Marks(cursor, k, all)
    ensures cursor == s.cursor <==> |s.items| == k
  {
    hide EncodeCursor, Descending;
    if cursor == s.cursor {
      MarksOnce(cursor, k, |s.items|, all);
    }
  }

  lemma AppendedInPlace(s: ListState, page: CursorPage<RowKey>, k: nat, n: Limit, all: seq<RowKey>)
    requires Distinct(all) && Coherent(s, all) && k < |all| && page.items == Take(all[k..], n)
    requires if page.next.None? then k + |page.items| == |all| else Marks(page.next, k + |page.items|, all)
    ensures s.items + page.items <= all <==> |s.items| == k
    ensures |s.items| == k ==>
      Coherent(s.(items := s.items + page.items, cursor := page.next, hasMore := page.next.Some?), all)
  {
    hide EncodeCursor, Distinct;
    ContinuesOnlyInPlace(s.items, all, k, n);
  }

  /** An appended answer on a coherent client keeps the prefix exactly when it lands. */
  lemma AppendIffLands(c: Client, table: set<RowKey>, limit: Option<int>)
    requires Wellformed(c, Listing(table)) && Coherent(c.state, Listing(table))
    requires c.pending.Some? && !c.pending.value.replace
    ensures var next := Step(c, Answer(true), table, limit);
      && (IsPrefix(next, table) <==> c.pending.value.cursor == c.state.cursor)
      && (c.pending.value.cursor == c.state.cursor ==> Coherent(next.state, Listing(table)))
  {
    hide EncodeCursor, Fetch, ClampLimit, Descending, Distinct, Served;
    var all, r := Listing(table), c.pending.value;
    ListingIsSorted(table);
    DescendingIsDistinct(all);
    var k: nat :| Marks(r.cursor, k, all);
    ServedAtMark(r.cursor, k, table, limit);
    EndsAtMark(c.state, r.cursor, k, all);
    AppendedInPlace(c.state, Served(r, table, limit).value, k, ClampLimit(limit), all);
  }

  /** A first page is a coherent list of its own. */
  lemma ReplacedIsCoherent(c: Client, table: set<RowKey>, limit: Option<int>)
    requires c.pending.Some? && c.pending.value == Request(None, true)
    ensures Coherent(Step(c, Answer(true), table, limit).state, Listing(table))
  {
    hide EncodeCursor, Fetch, ClampLimit, Listing, Served;
    var all := Listing(table);
    ServedAtMark(None, 0, table, limit);
    CutContinues(all, 0, ClampLimit(limit));
    assert all[0..] == all;
  }

  lemma OtherStepIsCoherent(c: Client, e: Event, table: set<RowKey>, limit: Option<int>)
    requires Coherent(c.state, Listing(table)) && !(e == Answer(true) && c.pending.Some?)
    ensures Coherent(Step(c, e, table, limit).state, Listing(table))
  {
    hide EncodeCursor, Fetch, ClampLimit, Listing, Served, Marks;
  }

  lemma CoherentIsPrefix(c: Client, table: set<RowKey>)
    requires Coherent(c.state, Listing(table))
    ensures IsPrefix(c, table)
  {
  }

  /** One event on a coherent client: the list stays a prefix exactly when an appended answer lands, and then
      the client stays coherent. */
  lemma StepPrefixIffLands(c: Client, e: Event, table: set<RowKey>, limit: Option<int>)
    requires Wellformed(c, Listing(table)) && Coherent(c.state, Listing(table))
    ensures IsPrefix(Step(c, e, table, limit), table) <==> Lands(c, e)
    ensures Lands(c, e) ==> Coherent(Step(c, e, table, limit).state, Listing(table))
  {
    hide Step, Coherent, IsPrefix, IsMark;
    if e == Answer(true) && c.pending.Some? && !c.pending.value.replace {
      AppendIffLands(c, table, limit);
    } else {
      if e == Answer(true) && c.pending.Some? {
        ReplacedIsCoherent(c, table, limit);
      } else {
        OtherStepIsCoherent(c, e, table, limit);
      }
      CoherentIsPrefix(Step(c, e, table, limit), table);
    }
  }

  lemma {:induction false} RunIsWellformed(events: seq<Event>, table: set<RowKey>, limit: Option<int>)
    ensures Wellformed(Run(events, table, limit), Listing(table))
  {
    if events != [] {
      RunIsWellformed(events[..|events| - 1], table, limit);
      StepKeepsWellformed(Run(events[..|events| - 1], table, limit), events[|events| - 1], table, limit);
    }
  }

  ghost predicate AllLand(events: seq<Event>, table: set<RowKey>, limit: Option<int>) {
    forall n :: 0 <= n < |events| ==> Lands(Run(events[..n], table, limit), events[n])
  }

  ghost predicate AlwaysPrefix(events: seq<Event>, table: set<RowKey>, limit: Option<int>) {
    forall n :: 0 <= n <= |events| ==> IsPrefix(Run(events[..n], table, limit), table)
  }

  lemma {:induction false} CoherentWhileLanding(events: seq<Event>, n: nat, table: set<RowKey>, limit: Option<int>)
    requires n <= |events|
    requires forall i :: 0 <= i < n ==> Lands(Run(events[..i], table, limit), events[i])
    ensures Coherent(Run(events[..n], table, limit).state, Listing(table))
  {
    hide Fetch, EncodeCursor, Step, Lands, IsPrefix, Wellformed;
    if n > 0 {
      CoherentWhileLanding(events, n - 1, table, limit);
      RunIsWellformed(events[..n - 1], table, limit);
      OneMore(events, n - 1, table, limit);
      StepPrefixIffLands(Run(events[..n - 1], table, limit), events[n - 1], table, limit);
    }
  }

  lemma OneMore(events: seq<Event>, n: nat, table: set<RowKey>, limit: Option<int>)
    requires n < |events|
    ensures Run(events[..n + 1], table, limit) == Step(Run(events[..n], table, limit), events[n], table, limit)
  {
    assert events[..n + 1][..n] == events[..n];
  }

  lemma {:induction false} LandsWhilePrefix(events: seq<Event>, n: nat, table: set<RowKey>, limit: Option<int>)
    requires n <= |events| && AlwaysPrefix(events, table, limit)
    ensures forall i :: 0 <= i < n ==> Lands(Run(events[..i], table, limit), events[i])
  {
    hide Fetch, EncodeCursor, Step, Lands, IsPrefix, Wellformed;
    if n > 0 {
      LandsWhilePrefix(events, n - 1, table, limit);
      CoherentWhileLanding(events, n - 1, table, limit);
      RunIsWellformed(events[..n - 1], table, limit);
      OneMore(events, n - 1, table, limit);
      StepPrefixIffLands(Run(events[..n - 1], table, limit), events[n - 1], table, limit);
    }
  }

  /** Over every order of events, the list is a prefix of the sorted table all along if and only if every page
      that is appended lands on the cursor it was asked for. */
  lemma {:induction false} PrefixIffAppendsLand(events: seq<Event>, table: set<RowKey>, limit: Option<int>)
    ensures AlwaysPrefix(events, table, limit) <==> AllLand(events, table, limit)
  {
    if AllLand(events, table, limit) {
      forall n | 0 <= n <= |events| ensures IsPrefix(Run(events[..n], table, limit), table) {
        CoherentWhileLanding(events, n, table, limit);
      }
    }
    if AlwaysPrefix(events, table, limit) {
      LandsWhilePrefix(events, |events|, table, limit);
    }
  }

  /** The observer asks for one more page. */
  ghost predicate Asks(c: Client, e: Event) {
    e == Observe(true) && c.pending.None? && c.observed.hasMore && c.observed.cursor.Some?
  }

  predicate NoAnswer(events: seq<Event>, from: nat, to: nat)
    requires from <= to <= |events|
  {
    forall i :: from <= i < to ==> !events[i].Answer?
  }

  predicate Reloaded(events: seq<Event>, from: nat, to: nat)
    requires from <= to <= |events|
  {
    exists i :: from <= i < to && events[i] == Reload
  }

  /** From the moment a page is asked for until its answer, the request stands; and the list's cursor stands too,
      unless a reload takes it away. */
  lemma {:induction false} SinceAsked(events: seq<Event>, n: nat, m: nat, table: set<RowKey>, limit: Option<int>)
    requires n < m <= |events| && Asks(Run(events[..n], table, limit), events[n]) && NoAnswer(events, n + 1, m)
    ensures var asked, c := Run(events[..n], table, limit), Run(events[..m], table, limit);
      && c.pending == Some(Request(asked.observed.cursor, false))
      && c.state.cursor == if Reloaded(events, n + 1, m) then None else asked.state.cursor
    decreases m
  {
    hide Fetch, EncodeCursor, Run;
    OneMore(events, m - 1, table, limit);
    if m > n + 1 {
      SinceAsked(events, n, m - 1, table, limit);
      assert Reloaded(events, n + 1, m) <==> Reloaded(events, n + 1, m - 1) || events[m - 1] == Reload;
    }
  }

  /** An append under way was asked for by an observer, and not answered since. */
  lemma {:induction false} WasAsked(events: seq<Event>, m: nat, table: set<RowKey>, limit: Option<int>) returns (n: nat)
    requires m <= |events|
    requires var c := Run(events[..m], table, limit); c.pending.Some? && !c.pending.value.replace
    ensures n < m && Asks(Run(events[..n], table, limit), events[n]) && NoAnswer(events, n + 1, m)
  {
    hide Fetch, EncodeCursor, Run;
    n := 0;
    if m == 0 {
      NothingPendingAtFirst(events, table, limit);
    } else {
      OneMore(events, m - 1, table, limit);
      if Asks(Run(events[..m - 1], table, limit), events[m - 1]) {
        n := m - 1;
      } else {
        n := WasAsked(events, m - 1, table, limit);
      }
    }
  }

  lemma NothingPendingAtFirst(events: seq<Event>, table: set<RowKey>, limit: Option<int>)
    ensures Run(events[..0], table, limit).pending.None?
  {
  }

  /** Every page that was asked for and came was asked for under the list's own cursor, with no reload before it
      came. */
  ghost predicate AskedInPlace(events: seq<Event>, table: set<RowKey>, limit: Option<int>) {
    forall n, m :: 0 <= n < m < |events| && AskedAndCame(events, n, m, table, limit) ==>
      var c := Run(events[..n], table, limit);
      c.observed.cursor == c.state.cursor && !Reloaded(events, n + 1, m)
  }

  ghost predicate AskedAndCame(events: seq<Event>, n: nat, m: nat, table: set<RowKey>, limit: Option<int>)
    requires n < m < |events|
  {
    Asks(Run(events[..n], table, limit), events[n]) && NoAnswer(events, n + 1, m) && events[m] == Answer(true)
  }

  lemma InPlaceIffLands(events: seq<Event>, n: nat, m: nat, table: set<RowKey>, limit: Option<int>)
    requires n < m < |events| && AskedAndCame(events, n, m, table, limit)
    ensures var c := Run(events[..n], table, limit);
      Lands(Run(events[..m], table, limit), events[m]) <==> c.observed.cursor == c.state.cursor && !Reloaded(events, n + 1, m)
  {
    hide Fetch, EncodeCursor, Run;
    SinceAsked(events, n, m, table, limit);
  }

  /** The same condition at the moment of asking: over every order of events, the list is a prefix all along if and
      only if every observer that asked for a page that came had seen the list's own cursor, and no reload came
      in between. */
  lemma {:induction false} PrefixIffAskedInPlace(events: seq<Event>, table: set<RowKey>, limit: Option<int>)
    ensures AlwaysPrefix(events, table, limit) <==> AskedInPlace(events, table, limit)
  {
    hide Fetch, EncodeCursor, Run, AlwaysPrefix, Reloaded;
    PrefixIffAppendsLand(events, table, limit);
    if AskedInPlace(events, table, limit) {
      forall m | 0 <= m < |events| ensures Lands(Run(events[..m], table, limit), events[m]) {
        var c := Run(events[..m], table, limit);
        if events[m] == Answer(true) && c.pending.Some? && !c.pending.value.replace {
          var n := WasAsked(events, m, table, limit);
          assert AskedAndCame(events, n, m, table, limit);
          InPlaceIffLands(events, n, m, table, limit);
        }
      }
    } else {
      var n, m :| 0 <= n < m < |events| && AskedAndCame(events, n, m, table, limit)
        && !(Run(events[..n], table, limit).observed.cursor == Run(events[..n], table, limit).state.cursor && !Reloaded(events, n + 1, m));
      InPlaceIffLands(events, n, m, table, limit);
      assert !Lands(Run(events[..m], table, limit), events[m]);
    }
  }

  // ---------------------------------------------------------------- one request at a time

  /** The event calls the fetcher. */
  ghost predicate Calls(c: Client, e: Event) {
    c.pending.None? && (e == Reload || (e == Observe(true) && c.observed.hasMore && c.observed.cursor.Some?))
  }

  ghost function CallsMade(events: seq<Event>, table: set<RowKey>, limit: Option<int>): nat {
    if events == [] then 0
    else
      var front, last := events[..|events| - 1], events[|events| - 1];
      CallsMade(front, table, limit) + if Calls(Run(front, table, limit), last) then 1 else 0
  }

  ghost function CallsSettled(events: seq<Event>, table: set<RowKey>, limit: Option<int>): nat {
    if events == [] then 0
    else
      var front, last := events[..|events| - 1], events[|events| - 1];
      CallsSettled(front, table, limit) + if last.Answer? && Run(front, table, limit).pending.Some? then 1 else 0
  }

  /** Over every order of events, at most one request is in flight: the fetcher is called again only when the call
      before has settled. */
  lemma {:induction false} OneFetchInFlight(events: seq<Event>, table: set<RowKey>, limit: Option<int>)
    ensures CallsMade(events, table, limit) ==
      CallsSettled(events, table, limit) + if Run(events, table, limit).pending.Some? then 1 else 0
  {
    hide Fetch, EncodeCursor;
    if events != [] {
      OneFetchInFlight(events[..|events| - 1], table, limit);
    }
  }

  // ---------------------------------------------------------------- what is shown of a fetch

  /** Over every order of events, the list shows that it loads exactly while a fetch is under way, and before the first
      one settled: as a whole list when the answer will replace it, and also when a reload already emptied it. */
  lemma {:induction false} LoadingIsShown(events: seq<Event>, table: set<RowKey>, limit: Option<int>)
    ensures var c, settled := Run(events, table, limit), CallsSettled(events, table, limit);
      && (c.state.isLoading || c.state.isFetchingMore <==> c.pending.Some? || settled == 0)
      && (c.pending.Some? && c.pending.value.replace ==> c.state.isLoading)
      && (c.pending.Some? && !c.pending.value.replace && c.state.isLoading ==> c.state.items == [] && c.state.cursor.None?)
      && (settled == 0 ==> c.state.isLoading && !c.state.isFetchingMore && c.state.cursor.None? && c.observed.cursor.None?)
  {
    hide Fetch, EncodeCursor, Served;
    if events != [] {
      LoadingIsShown(events[..|events| - 1], table, limit);
    }
  }

  /** A fetch that is started takes the failure of the last one away; one that fails shows it and leaves the list, its
      cursor and whether there is more as they were; one that succeeds shows none. */
  lemma FailureIsShown(c: Client, e: Event, table: set<RowKey>, limit: Option<int>)
    requires Wellformed(c, Listing(table))
    ensures var s, t := c.state, Step(c, e, table, limit).state;
      && (Calls(c, e) || e == Reload ==> !t.failed)
      && (e == Answer(true) && c.pending.Some? ==> !t.failed)
      && (e == Answer(false) && c.pending.Some? ==>
            t.failed && t.items == s.items && t.cursor == s.cursor && t.hasMore == s.hasMore)
      && (!Calls(c, e) && e != Reload && !(e.Answer? && c.pending.Some?) ==> t == s)
  {
    hide EncodeCursor, Fetch, ClampLimit, Listing, Served;
    if e == Answer(true) && c.pending.Some? {
      var r := c.pending.value;
      if r.replace {
        ServedAtMark(None, 0, table, limit);
      } else {
        var k: nat :| Marks(r.cursor, k, Listing(table));
        ServedAtMark(r.cursor, k, table, limit);
      }
    }
  }

  // ---------------------------------------------------------------- a sufficient discipline

  /** The observer reads a rendered state, and nobody reloads while a fetch is under way. */
  ghost predicate Disciplined(events: seq<Event>, table: set<RowKey>, limit: Option<int>) {
    forall n :: 0 <= n < |events| ==>
      var c := Run(events[..n], table, limit);
      (events[n].Observe? ==> c.observed == c.state) && (events[n].Reload? ==> c.pending.None?)
  }

  lemma {:induction false} PendingAtCursor(events: seq<Event>, n: nat, table: set<RowKey>, limit: Option<int>)
    requires n <= |events| && Disciplined(events, table, limit)
    ensures var c := Run(events[..n], table, limit);
      c.pending.Some? && !c.pending.value.replace ==> c.pending.value.cursor == c.state.cursor
  {
    hide Fetch, EncodeCursor;
    if n > 0 {
      PendingAtCursor(events, n - 1, table, limit);
      OneMore(events, n - 1, table, limit);
    }
  }

  /** The last event brought the page that a fetch had asked for. */
  ghost predicate JustAnswered(events: seq<Event>, table: set<RowKey>, limit: Option<int>) {
    events != [] && events[|events| - 1] == Answer(true) && Run(events[..|events| - 1], table, limit).pending.Some?
  }

  /** Such a run never leaves the prefix; once a fetch has succeeded, hasMore is false exactly when the whole
      table is on the screen. */
  lemma {:induction false} DisciplinedRun(events: seq<Event>, table: set<RowKey>, limit: Option<int>)
    requires Disciplined(events, table, limit)
    ensures AlwaysPrefix(events, table, limit)
    ensures JustAnswered(events, table, limit) ==>
      (!Run(events, table, limit).state.hasMore <==> Run(events, table, limit).state.items == Listing(table))
  {
    forall n | 0 <= n < |events| ensures Lands(Run(events[..n], table, limit), events[n]) {
      PendingAtCursor(events, n, table, limit);
    }
    PrefixIffAppendsLand(events, table, limit);
    if events != [] && events[|events| - 1] == Answer(true) {
      var before := Run(events[..|events| - 1], table, limit);
      assert events[..|events|] == events;
      CoherentWhileLanding(events, |events|, table, limit);
      RunIsWellformed(events[..|events| - 1], table, limit);
      AnsweredIsLoaded(before, table, limit);
    }
  }

  lemma AnsweredIsLoaded(c: Client, table: set<RowKey>, limit: Option<int>)
    requires Wellformed(c, Listing(table))
    ensures c.pending.Some? ==>
      var s := Step(c, Answer(true), table, limit).state;
      s.hasMore == s.cursor.Some?
  {
    hide Fetch, EncodeCursor;
    if c.pending.Some? {
      var r := c.pending.value;
      if r.replace {
        ServedAtMark(r.cursor, 0, table, limit);
      } else {
        var k: nat :| Marks(r.cursor, k, Listing(table));
        ServedAtMark(r.cursor, k, table, limit);
      }
    }
  }

  // ---------------------------------------------------------------- where it fails

  const FIRST_PAGE := [Reload, Answer(true), Render]

  lemma FirstPageLoaded(c: Client, table: set<RowKey>, limit: Option<int>)
    requires |table| > ClampLimit(limit) && c == Client(INITIAL, INITIAL, Some(Request(None, true)))
    ensures var s := Step(c, Answer(true), table, limit).state; s.hasMore && s.cursor.Some?
  {
    hide Fetch, EncodeCursor, ClampLimit;
    ListingIsSorted(table);
    ServedAtMark(None, 0, table, limit);
  }

  lemma AfterFirstPage(table: set<RowKey>, limit: Option<int>)
    requires |table| > ClampLimit(limit)
    ensures var c := Run(FIRST_PAGE, table, limit);
      c.pending.None? && c.observed == c.state && c.state.hasMore && c.state.cursor.Some?
      && Wellformed(c, Listing(table)) && Coherent(c.state, Listing(table))
  {
    hide Fetch, EncodeCursor, ClampLimit, Run, Wellformed, Coherent;
    RunEmpty(table, limit);
    RunMore([], Reload, table, limit);
    RunMore([Reload], Answer(true), table, limit);
    RunMore([Reload, Answer(true)], Render, table, limit);
    assert [] + [Reload] == [Reload] && [Reload] + [Answer(true)] == [Reload, Answer(true)];
    assert [Reload, Answer(true)] + [Render] == FIRST_PAGE;
    var c1, c2 := Run([Reload], table, limit), Run([Reload, Answer(true)], table, limit);
    FirstPageLoaded(c1, table, limit);
    RunIsWellformed([Reload], table, limit);
    RunIsWellformed(FIRST_PAGE, table, limit);
    assert Coherent(c1.state, Listing(table)) by {
      InitialIsCoherent(table);
    }
    StepPrefixIffLands(c1, Answer(true), table, limit);
  }

  lemma InitialIsCoherent(table: set<RowKey>)
    ensures Coherent(INITIAL, Listing(table))
  {
  }

  lemma RunEmpty(table: set<RowKey>, limit: Option<int>)
    ensures Run([], table, limit) == Client(INITIAL, INITIAL, None)
  {
  }

  lemma RunMore(events: seq<Event>, e: Event, table: set<RowKey>, limit: Option<int>)
    ensures Run(events + [e], table, limit) == Step(Run(events, table, limit), e, table, limit)
  {
    assert (events + [e])[..|events|] == events;
  }

  /** Outside that discipline the prefix is lost: a reload during an append leaves the late page as the whole
      list, on every table of more than one page. */
  lemma {:induction false} ReloadDuringAppendBreaks(table: set<RowKey>, limit: Option<int>)
    requires |table| > ClampLimit(limit)
    ensures !IsPrefix(Run(FIRST_PAGE + [Observe(true)] + [Reload] + [Answer(true)], table, limit), table)
  {
    hide Fetch, EncodeCursor, ClampLimit, Run;
    AfterFirstPage(table, limit);
    var es := FIRST_PAGE + [Observe(true)] + [Reload];
    RunMore(FIRST_PAGE, Observe(true), table, limit);
    RunMore(FIRST_PAGE + [Observe(true)], Reload, table, limit);
    RunMore(es, Answer(true), table, limit);
    RunIsWellformed(es, table, limit);
    StepPrefixIffLands(Run(es, table, limit), Answer(true), table, limit);
  }

  /** So does an observer callback that fires before the appended page was rendered: it asks for the page that
      has just arrived, and its rows are shown twice. */
  lemma ObserveBeforeRenderBreaks(table: set<RowKey>, limit: Option<int>)
    requires |table| > ClampLimit(limit)
    ensures !IsPrefix(Run(FIRST_PAGE + [Observe(true)] + [Answer(true)] + [Observe(true)] + [Answer(true)], table, limit), table)
  {
    hide Fetch, EncodeCursor, ClampLimit, Run;
    AfterFirstPage(table, limit);
    var es1 := FIRST_PAGE + [Observe(true)];
    var es2 := es1 + [Answer(true)];
    var es3 := es2 + [Observe(true)];
    var c1, c2, c3 := Run(es1, table, limit), Run(es2, table, limit), Run(es3, table, limit);
    RunMore(FIRST_PAGE, Observe(true), table, limit);
    RunMore(es1, Answer(true), table, limit);
    RunMore(es2, Observe(true), table, limit);
    RunMore(es3, Answer(true), table, limit);
    RunIsWellformed(es1, table, limit);
    RunIsWellformed(es3, table, limit);
    StepPrefixIffLands(c1, Answer(true), table, limit);
    CursorMoves(c1, table, limit);
    StaleRequestBreaks(c2, c3, table, limit);
  }

  lemma StaleRequestBreaks(c2: Client, c3: Client, table: set<RowKey>, limit: Option<int>)
    requires Coherent(c2.state, Listing(table)) && c2.pending.None? && Wellformed(c3, Listing(table))
    requires c2.observed.hasMore && c2.observed.cursor.Some? && c2.observed.cursor != c2.state.cursor
    requires c3 == Observed(c2, true)
    ensures !IsPrefix(Step(c3, Answer(true), table, limit), table)
  {
    hide Fetch, EncodeCursor, ClampLimit;
    StepPrefixIffLands(c3, Answer(true), table, limit);
  }

  /** An appended page is not empty, so the list's cursor moves. */
  lemma CursorMoves(c: Client, table: set<RowKey>, limit: Option<int>)
    requires Wellformed(c, Listing(table)) && Coherent(c.state, Listing(table))
    requires c.pending.Some? && !c.pending.value.replace && Lands(c, Answer(true))
    ensures Step(c, Answer(true), table, limit).state.cursor != c.state.cursor
  {
    hide Fetch, EncodeCursor, Descending, Listing;
    ListingIsSorted(table);
    var all, r := Listing(table), c.pending.value;
    var k: nat :| Marks(r.cursor, k, all);
    ServedAtMark(r.cursor, k, table, limit);
    var next := Served(r, table, limit).value.next;
    if next == r.cursor {
      MarksOnce(next, k, k + |Take(all[k..], ClampLimit(limit))|, all);
    }
  }
}
