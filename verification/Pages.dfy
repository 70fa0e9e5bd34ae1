/** The list endpoints as a client sees them: opaque cursor strings in, pages with an opaque next cursor out. */
module Pages {
  import opened Prelude
  import opened Cursor
  import opened Keyset

  const DEFAULT_LIMIT := 20
  const MAX_LIMIT := 100

  function ClampLimit(limit: Option<int>): (n: Limit)
    ensures limit.Some? && 1 <= limit.value <= 100 ==> n == limit.value
    ensures limit.Some? && limit.value < 1 ==> n == 1
    ensures limit.Some? && limit.value > 100 ==> n == 100
    ensures limit.None? ==> n == 20
  {
    match limit
    case None => DEFAULT_LIMIT
    case Some(n) => if n < 1 then 1 else if n > MAX_LIMIT then MAX_LIMIT else n
  }

  /** What the select built by apply_cursor returns from this table. */
  ghost function ApplyCursor(table: set<RowKey>, cursor: Option<string>, limit: nat): Result<seq<RowKey>, CursorError> {
    match cursor
    case None => Ok(Take(Listing(table), limit + 1))
    case Some(c) =>
      match DecodeCursor(c)
      case Err(e) => Err(e)
      case Ok(boundary) => Ok(Take(Listing(Below(table, Some(boundary))), limit + 1))
  }

  datatype CursorPage<M> = CursorPage(items: seq<M>, next: Option<string>)

  function BuildCursorPage<R, M>(rows: seq<R>, serializer: R -> M, cursorKey: R -> RowKey, limit: nat): CursorPage<M> {
    var hasMore := |rows| > limit;
    var pageRows := Take(rows, limit);
    var next := if hasMore && pageRows != [] then Some(EncodeCursor(cursorKey(pageRows[|pageRows| - 1]))) else None;
    CursorPage(seq(|pageRows|, i requires 0 <= i < |pageRows| => serializer(pageRows[i])), next)
  }

  /** A list endpoint: clamp the limit, run the query, build the page. */
  ghost function Fetch<M>(table: set<RowKey>, cursor: Option<string>, limit: Option<int>, serializer: RowKey -> M)
    : Result<CursorPage<M>, CursorError>
  {
    match ApplyCursor(table, cursor, ClampLimit(limit))
    case Err(e) => Err(e)
    case Ok(rows) => Ok(BuildCursorPage(rows, serializer, (k: RowKey) => k, ClampLimit(limit)))
  }

  function Mapped<M>(keys: seq<RowKey>, serializer: RowKey -> M): (ms: seq<M>)
    ensures |ms| == |keys|
  {
    seq(|keys|, i requires 0 <= i < |keys| => serializer(keys[i]))
  }

  /** The cursor, read back, is the boundary. */
  ghost predicate Denotes(cursor: Option<string>, boundary: Option<RowKey>) {
    if boundary.None? then cursor.None? else cursor == Some(EncodeCursor(boundary.value))
  }

  lemma CutTwice<T>(s: seq<T>, n: nat)
    ensures Take(Take(s, n + 1), n) == Take(s, n)
    ensures |Take(s, n + 1)| > n <==> |s| > n
  {
  }

  lemma QueryIsListing(table: set<RowKey>, cursor: Option<string>, boundary: Option<RowKey>, limit: nat)
    requires Denotes(cursor, boundary)
    ensures ApplyCursor(table, cursor, limit) == Ok(Take(Listing(Below(table, boundary)), limit + 1))
  {
    if boundary.Some? {
      CursorRoundTrip(boundary.value);
    }
  }

  /** The page is the one the boundary asks for, in order and with nothing skipped; the next cursor is null
      exactly when nothing is left, and otherwise encodes the boundary of the next page. */
  lemma {:induction false} FetchIsPage<M>(table: set<RowKey>, cursor: Option<string>, boundary: Option<RowKey>, limit: Option<int>,
                       serializer: RowKey -> M)
    requires Denotes(cursor, boundary)
    ensures var page := PageOf(table, boundary, ClampLimit(limit));
      && Fetch(table, cursor, limit, serializer).Ok?
      && Fetch(table, cursor, limit, serializer).value.items == Mapped(page.items, serializer)
      && Denotes(Fetch(table, cursor, limit, serializer).value.next, page.next)
  {
    hide EncodeCursor, DecodeCursor, ApplyCursor, BuildCursorPage, Mapped, ClampLimit, Listing, Below;
    var n := ClampLimit(limit);
    QueryIsListing(table, cursor, boundary, n);
    BuiltPage(Listing(Below(table, boundary)), serializer, n);
  }

  lemma BuiltPage<M>(all: seq<RowKey>, serializer: RowKey -> M, n: Limit)
    ensures var page := BuildCursorPage(Take(all, n + 1), serializer, (k: RowKey) => k, n);
      && page.items == Mapped(Take(all, n), serializer)
      && Denotes(page.next, if |all| > n then Some(all[n - 1]) else None)
  {
    hide EncodeCursor;
    CutTwice(all, n);
    LastOfCut(all, n);
    hide Take;
    assert BuildCursorPage(Take(all, n + 1), serializer, (k: RowKey) => k, n).items == Mapped(Take(all, n), serializer);
  }

  /** A page in plain terms: the newest rows behind the boundary, newest first and by falling id where the moment is the
      same, as many as the limit allows; none of those left out is newer; and there is a next cursor exactly when some
      are left out. */
  lemma PageIsTheNewest(table: set<RowKey>, cursor: Option<string>, boundary: Option<RowKey>, limit: Option<int>)
    requires Denotes(cursor, boundary)
    ensures Fetch(table, cursor, limit, Itself).Ok?
    ensures var page := Fetch(table, cursor, limit, Itself).value;
      var left := set k | k in table && (boundary.Some? ==> Older(k, boundary.value));
      && (forall i, j :: 0 <= i < j < |page.items| ==> Older(page.items[j], page.items[i]))
      && (forall k :: k in page.items ==> k in left)
      && (forall k, l :: k in page.items && l in left && l !in page.items ==> Older(l, k))
      && |page.items| == (if |left| < ClampLimit(limit) then |left| else ClampLimit(limit))
      && (page.next.None? <==> |left| <= ClampLimit(limit))
  {
    hide EncodeCursor, ClampLimit, Fetch, Listing;
    var n := ClampLimit(limit);
    FetchIsPage(table, cursor, boundary, limit, Itself);
    var page := PageOf(table, boundary, n);
    assert Mapped(page.items, Itself) == page.items;
    var left := set k | k in table && (boundary.Some? ==> Older(k, boundary.value));
    forall a: RowKey, b: RowKey ensures Behind(a, b) <==> Older(a, b) {
      BehindIsOlder(a, b);
    }
    assert Below(table, boundary) == left;
    ListingIsSorted(left);
    FrontIsTheNewest(Listing(left), n);
  }

  predicate Older(a: RowKey, b: RowKey) {
    Earlier(a.at, b.at) || (a.at == b.at && a.id < b.id)
  }

  lemma FrontIsTheNewest(all: seq<RowKey>, n: Limit)
    requires Descending(all)
    ensures var front := Take(all, n);
      && |front| == (if |all| < n then |all| else n)
      && (forall k, l :: k in front && l in all && l !in front ==> Behind(l, k))
  {
    var front := Take(all, n);
    assert forall j :: 0 <= j < |front| ==> front[j] == all[j];
    forall k, l | k in front && l in all && l !in front ensures Behind(l, k) {
      var i :| 0 <= i < |front| && front[i] == k;
      var j :| 0 <= j < |all| && all[j] == l;
    }
  }

  /** The test the server makes on a cursor: a cursor it did not hand out can be refused, one it did cannot. */
  lemma HandedOutCursorIsAccepted<M>(boundary: RowKey, table: set<RowKey>, limit: Option<int>, serializer: RowKey -> M)
    ensures Fetch(table, Some(EncodeCursor(boundary)), limit, serializer).Ok?
  {
    FetchIsPage(table, Some(EncodeCursor(boundary)), Some(boundary), limit, serializer);
  }

  /** A fetch is refused exactly when it was given a cursor that spells no key. */
  lemma RefusedExactly<M>(table: set<RowKey>, cursor: Option<string>, limit: Option<int>, serializer: RowKey -> M)
    ensures Fetch(table, cursor, limit, serializer).Err? <==> cursor.Some? && forall k :: !Spells(cursor.value, k)
  {
    hide DecodeCursor, Spells, BuildCursorPage, Listing, Below, ClampLimit;
    if cursor.Some? {
      forall k ensures Spells(cursor.value, k) <==> DecodeCursor(cursor.value) == Ok(k) {
        DecodesExactly(cursor.value, k);
      }
      if DecodeCursor(cursor.value).Ok? {
        assert Spells(cursor.value, DecodeCursor(cursor.value).value);
      }
    }
  }

  // ---------------------------------------------------------------- following the cursors

  /** The table as each fetch saw it, the limits asked for, and the pages that following next_cursor gave. */
  datatype Walk = Walk(tables: seq<set<RowKey>>, limits: seq<Option<int>>, pages: seq<CursorPage<RowKey>>)

  const Itself := (k: RowKey) => k

  function CursorAt(w: Walk, i: nat): Option<string>
    requires i <= |w.pages|
  {
    if i == 0 then None else w.pages[i - 1].next
  }

  ghost predicate FollowedAt(w: Walk, i: nat)
    requires |w.tables| == |w.limits| == |w.pages| && i < |w.pages|
  {
    Fetch(w.tables[i], CursorAt(w, i), w.limits[i], Itself) == Ok(w.pages[i]) && (i > 0 ==> w.pages[i - 1].next.Some?)
  }

  /** Every fetch after the first was given the previous page's cursor. */
  ghost predicate Followed(w: Walk) {
    |w.tables| == |w.limits| == |w.pages| && forall i :: 0 <= i < |w.pages| ==> FollowedAt(w, i)
  }

  function Shown(pages: seq<CursorPage<RowKey>>): seq<RowKey> {
    if pages == [] then [] else Shown(pages[..|pages| - 1]) + pages[|pages| - 1].items
  }

  ghost predicate Ended(w: Walk) {
    w.pages != [] && w.pages[|w.pages| - 1].next.None?
  }

  lemma FetchedPage(w: Walk, n: nat, b: Option<RowKey>)
    requires |w.tables| == |w.limits| == |w.pages| && n < |w.pages| && FollowedAt(w, n)
    requires Denotes(CursorAt(w, n), b)
    ensures var page := PageOf(w.tables[n], b, ClampLimit(w.limits[n]));
      w.pages[n].items == page.items && Denotes(w.pages[n].next, page.next)
  {
    FetchIsPage(w.tables[n], CursorAt(w, n), b, w.limits[n], Itself);
    var page := PageOf(w.tables[n], b, ClampLimit(w.limits[n]));
    assert Mapped(page.items, Itself) == page.items;
  }

  lemma ButlastOf(w: Walk) returns (u: Walk)
    requires Followed(w) && w.pages != []
    ensures Followed(u) && |u.pages| == |w.pages| - 1
    ensures w.tables == u.tables + [w.tables[|u.pages|]] && w.pages == u.pages + [w.pages[|u.pages|]]
    ensures Shown(w.pages) == Shown(u.pages) + w.pages[|u.pages|].items
    ensures CursorAt(u, |u.pages|) == CursorAt(w, |u.pages|) && FollowedAt(w, |u.pages|)
  {
    hide Fetch;
    var n := |w.pages| - 1;
    u := Walk(w.tables[..n], w.limits[..n], w.pages[..n]);
    forall i | 0 <= i < n ensures FollowedAt(u, i) {
      assert FollowedAt(w, i) && CursorAt(u, i) == CursorAt(w, i);
    }
    assert FollowedAt(w, n);
  }

  lemma {:induction false} WalkByBoundary(w: Walk) returns (v: KeyWalk)
    requires Followed(w)
    ensures KeyFollowed(v) && v.tables == w.tables && |v.pages| == |w.pages|
    ensures Items(v.pages) == Shown(w.pages)
    ensures Denotes(CursorAt(w, |w.pages|), LastBoundary(v))
    ensures forall i :: 0 <= i < |w.pages| ==> v.pages[i].items == w.pages[i].items
    decreases |w.pages|
  {
    hide Fetch, EncodeCursor;
    if w.pages == [] {
      v := KeyWalk([], [], []);
    } else {
      var u := ButlastOf(w);
      var n := |u.pages|;
      var front := WalkByBoundary(u);
      FetchedPage(w, n, LastBoundary(front));
      v := Extended(front, w.tables[n], ClampLimit(w.limits[n]));
      ExtendedFollowed(front, w.tables[n], ClampLimit(w.limits[n]));
    }
  }

  /** However the table changes between fetches, following the cursors never shows a row twice: the pages laid
      end to end are strictly descending. */
  lemma NoRowTwice(w: Walk)
    requires Followed(w)
    ensures Descending(Shown(w.pages)) && Distinct(Shown(w.pages))
  {
    var v := WalkByBoundary(w);
    KeyNoRowTwice(v);
    DescendingIsDistinct(Items(v.pages));
  }

  /** A walk that ended with a null cursor showed every row that matched at every fetch, exactly once. */
  lemma LastingRowsShownOnce(w: Walk, k: RowKey)
    requires Followed(w) && Ended(w)
    requires forall i :: 0 <= i < |w.tables| ==> k in w.tables[i]
    ensures Count(Shown(w.pages), k) == 1
  {
    var v := WalkByBoundary(w);
    assert LastBoundary(v).None?;
    NoRowTwice(w);
    DistinctCount(Shown(w.pages), k);
    if k !in Items(v.pages) {
      KeyNotYetShown(v, k);
    }
  }

  /** What was shown stood in the table at the fetch that showed it. */
  lemma NothingInvented(w: Walk, k: RowKey)
    requires Followed(w) && k in Shown(w.pages)
    ensures exists i :: 0 <= i < |w.pages| && k in w.pages[i].items && k in w.tables[i]
  {
    var v := WalkByBoundary(w);
    KeyNothingInvented(v, k);
    var i :| 0 <= i < |v.pages| && k in v.pages[i].items && k in v.tables[i];
    assert k in w.pages[i].items && k in w.tables[i];
  }

  /** A next cursor is never refused, whatever the table has become since it was handed out. */
  lemma FollowingNeverFails(w: Walk, table: set<RowKey>, limit: Option<int>)
    requires Followed(w)
    ensures Fetch(table, CursorAt(w, |w.pages|), limit, Itself).Ok?
  {
    var v := WalkByBoundary(w);
    FetchIsPage(table, CursorAt(w, |w.pages|), LastBoundary(v), limit, Itself);
  }

  /** On a table that does not change, the pages laid end to end are the sorted table from its front, in full
      exactly when the last cursor is null, after at most as many pages as rows. */
  lemma StaticWalk(w: Walk, table: set<RowKey>)
    requires Followed(w) && SameTable(w.tables, table)
    ensures Shown(w.pages) <= Listing(table)
    ensures w.pages != [] ==> (Ended(w) <==> Shown(w.pages) == Listing(table))
    ensures |w.pages| <= |Shown(w.pages)| <= |table| || (|w.pages| == 1 && table == {})
  {
    var v := WalkByBoundary(w);
    KeyStaticWalk(v, table);
    ListingIsSorted(table);
  }
}
