/** Keyset pages over a table that may change between fetches. A row is its key (created_at, id): created_at
    is never updated and the id is unique, so a key stays with its row for the row's whole life. */
module Keyset {
  import opened Prelude
  import opened Cursor

  const EPOCH := Timestamp(1970, 1, 1, 0, 0, 0, 0)

  type RowKey = k: Key | ValidTimestamp(k.at) witness Key(EPOCH, 0)

  // ---------------------------------------------------------------- order

  /** A number that orders timestamps as datetimes are ordered: field by field, the year first. */
  function Instant(t: Timestamp): int {
    1000000 * (60 * (60 * (24 * (32 * (13 * t.year + t.month) + t.day) + t.hour) + t.minute) + t.second) + t.micro
  }

  lemma HighDigitDecides(hi: int, lo: int, hi': int, lo': int, radix: int)
    requires 0 <= lo < radix && 0 <= lo' && hi < hi'
    ensures radix * hi + lo < radix * hi' + lo'
  {
    var more := hi' - hi - 1;
    assert radix * hi' == radix * hi + radix + radix * more;
    assert radix * more >= 0;
  }

  lemma SameDigits(hi: int, lo: int, hi': int, lo': int, radix: int)
    requires 0 <= lo < radix && 0 <= lo' < radix && radix * hi + lo == radix * hi' + lo'
    ensures hi == hi' && lo == lo'
  {
    if hi < hi' {
      HighDigitDecides(hi, lo, hi', lo', radix);
    } else if hi > hi' {
      HighDigitDecides(hi', lo', hi, lo, radix);
    }
  }

  lemma InstantInjective(s: Timestamp, t: Timestamp)
    requires ValidTimestamp(s) && ValidTimestamp(t) && Instant(s) == Instant(t)
    ensures s == t
  {
    var s1, t1 := 13 * s.year + s.month, 13 * t.year + t.month;
    var s2, t2 := 32 * s1 + s.day, 32 * t1 + t.day;
    var s3, t3 := 24 * s2 + s.hour, 24 * t2 + t.hour;
    var s4, t4 := 60 * s3 + s.minute, 60 * t3 + t.minute;
    var s5, t5 := 60 * s4 + s.second, 60 * t4 + t.second;
    SameDigits(s5, s.micro, t5, t.micro, 1000000);
    SameDigits(s4, s.second, t4, t.second, 60);
    SameDigits(s3, s.minute, t3, t.minute, 60);
    SameDigits(s2, s.hour, t2, t.hour, 24);
    SameDigits(s1, s.day, t1, t.day, 32);
    SameDigits(s.year, s.month, t.year, t.month, 13);
  }

  /** The where clause of apply_cursor: a is strictly behind b in the listing. */
  predicate Behind(a: Key, b: Key) {
    Instant(a.at) < Instant(b.at) || (a.at == b.at && a.id < b.id)
  }

  /** Datetimes compared field by field. */
  predicate Earlier(s: Timestamp, t: Timestamp) {
    if s.year != t.year then s.year < t.year
    else if s.month != t.month then s.month < t.month
    else if s.day != t.day then s.day < t.day
    else if s.hour != t.hour then s.hour < t.hour
    else if s.minute != t.minute then s.minute < t.minute
    else if s.second != t.second then s.second < t.second
    else s.micro < t.micro
  }

  lemma EarlierIsLess(s: Timestamp, t: Timestamp)
    requires ValidTimestamp(s) && ValidTimestamp(t) && Earlier(s, t)
    ensures Instant(s) < Instant(t)
  {
  }

  /** Behind means older, and of two rows of the same moment the one with the smaller id. */
  lemma BehindIsOlder(a: RowKey, b: RowKey)
    ensures Behind(a, b) <==> Earlier(a.at, b.at) || (a.at == b.at && a.id < b.id)
  {
    if Earlier(a.at, b.at) {
      EarlierIsLess(a.at, b.at);
    } else if Earlier(b.at, a.at) {
      EarlierIsLess(b.at, a.at);
    } else {
      assert a.at == b.at;
    }
  }

  lemma BehindIsTotal(a: RowKey, b: RowKey)
    ensures a == b || Behind(a, b) || Behind(b, a)
  {
    if Instant(a.at) == Instant(b.at) {
      InstantInjective(a.at, b.at);
    }
  }

  lemma BehindIsStrictOrder(a: RowKey, b: RowKey, c: RowKey)
    ensures !(Behind(a, b) && Behind(b, a))
    ensures Behind(a, b) && Behind(b, c) ==> Behind(a, c)
  {
  }

  predicate Descending(q: seq<RowKey>) {
    forall i, j :: 0 <= i < j < |q| ==> Behind(q[j], q[i])
  }

  lemma DescendingIsDistinct(q: seq<RowKey>)
    requires Descending(q)
    ensures Distinct(q)
  {
    forall i, j | 0 <= i < j < |q| ensures q[i] != q[j] {
      BehindIsStrictOrder(q[i], q[j], q[i]);
    }
  }

  // ---------------------------------------------------------------- the whole listing

  lemma {:induction false} NewestExists(s: set<RowKey>) returns (m: RowKey)
    requires s != {}
    ensures m in s && forall k :: k in s && k != m ==> Behind(k, m)
  {
    var x :| x in s;
    if s == {x} {
      m := x;
    } else {
      m := NewestExists(s - {x});
      BehindIsTotal(x, m);
      if Behind(m, x) {
        forall k | k in s && k != x ensures Behind(k, x) {
          BehindIsStrictOrder(k, m, x);
        }
        m := x;
      }
    }
  }

  ghost predicate Lists(q: seq<RowKey>, s: set<RowKey>) {
    Descending(q) && |q| == |s| && forall k :: k in q <==> k in s
  }

  lemma {:induction false} ListingExists(s: set<RowKey>) returns (q: seq<RowKey>)
    ensures Lists(q, s)
  {
    if s == {} {
      q := [];
    } else {
      var m := NewestExists(s);
      var rest := ListingExists(s - {m});
      q := [m] + rest;
    }
  }

  /** ORDER BY created_at DESC, id DESC: by the next two lemmas the one descending sequence of the rows. */
  ghost function Listing(s: set<RowKey>): seq<RowKey> {
    assert exists q :: Lists(q, s) by {
      var w := ListingExists(s);
    }
    var q :| Lists(q, s);
    q
  }

  lemma ListingIsSorted(s: set<RowKey>)
    ensures Lists(Listing(s), s)
  {
  }

  lemma SomethingIn(q: seq<RowKey>)
    ensures q != [] ==> exists k :: k in q
  {
    assert q != [] ==> q[0] in q;
  }

  /** A descending sequence is determined by its elements. */
  lemma {:induction false} DescendingIsUnique(p: seq<RowKey>, q: seq<RowKey>)
    requires Descending(p) && Descending(q)
    requires forall k :: k in p <==> k in q
    ensures p == q
  {
    hide Behind, Descending;
    if p == [] {
      SomethingIn(q);
    } else {
      assert p[0] in q;
      HeadIsNewest(p);
      HeadIsNewest(q);
      assert q[0] in p;
      BehindIsStrictOrder(p[0], q[0], p[0]);
      BehindIsStrictOrder(q[0], q[0], q[0]);
      TailOfDescending(p);
      TailOfDescending(q);
      DescendingIsUnique(p[1..], q[1..]);
      assert p == [p[0]] + p[1..] && q == [q[0]] + q[1..];
    }
  }

  lemma HeadIsNewest(q: seq<RowKey>)
    requires Descending(q) && q != []
    ensures forall k :: k in q ==> k == q[0] || Behind(k, q[0])
  {
    hide Behind;
  }

  lemma TailOfDescending(q: seq<RowKey>)
    requires Descending(q) && q != []
    ensures Descending(q[1..])
    ensures forall k :: k in q[1..] <==> k in q && k != q[0]
  {
    DescendingIsDistinct(q);
    hide Behind;
    forall k ensures k in q[1..] <==> k in q && k != q[0] {
      if k in q && k != q[0] {
        var i :| 0 < i < |q| && q[i] == k;
        assert q[1..][i - 1] == k;
      }
    }
  }

  // ---------------------------------------------------------------- pages by boundary

  ghost function Below(table: set<RowKey>, boundary: Option<RowKey>): set<RowKey> {
    if boundary.None? then table else set k | k in table && Behind(k, boundary.value)
  }

  function Take<T>(s: seq<T>, n: nat): seq<T> {
    if |s| <= n then s else s[..n]
  }

  type Limit = n: nat | 1 <= n witness 1

  /** A page with its boundary row in place of the cursor that encodes it. */
  datatype KeyPage = KeyPage(items: seq<RowKey>, next: Option<RowKey>)

  /** The next n rows behind the boundary, and the last of them when more are left. */
  ghost function PageOf(table: set<RowKey>, boundary: Option<RowKey>, n: Limit): KeyPage {
    var all := Listing(Below(table, boundary));
    KeyPage(Take(all, n), if |all| > n then Some(all[n - 1]) else None)
  }

  /** Cutting a descending sequence after n rows leaves behind the cut only what is behind the n-th row. */
  lemma CutDescending(all: seq<RowKey>, n: Limit)
    requires Descending(all)
    ensures Descending(Take(all, n))
    ensures forall k :: k in Take(all, n) ==> k in all
    ensures |all| > n ==> forall k :: k in all && k !in all[..n] ==> Behind(k, all[n - 1])
  {
    if |all| > n {
      var front := all[..n];
      assert forall i :: 0 <= i < n ==> all[i] == front[i];
      forall i | 0 <= i < |all| && all[i] !in front ensures Behind(all[i], all[n - 1]) {
      }
    }
  }

  lemma PageOrder(table: set<RowKey>, boundary: Option<RowKey>, n: Limit)
    ensures var page := PageOf(table, boundary, n);
      && Descending(page.items)
      && (forall k :: k in page.items ==> k in Below(table, boundary))
      && (page.next.None? ==> forall k :: k in Below(table, boundary) ==> k in page.items)
      && (page.next.Some? ==> page.items != [] && page.next.value == page.items[|page.items| - 1])
      && (page.next.Some? ==> forall k :: k in Below(table, boundary) && k !in page.items ==> Behind(k, page.next.value))
  {
    hide Descending, Listing, Below, Behind;
    ListingIsSorted(Below(table, boundary));
    CutDescending(Listing(Below(table, boundary)), n);
  }

  // ---------------------------------------------------------------- walks by boundary

  /** The table as each fetch saw it, the page sizes, and the pages. */
  datatype KeyWalk = KeyWalk(tables: seq<set<RowKey>>, limits: seq<Limit>, pages: seq<KeyPage>)

  function BoundaryAt(w: KeyWalk, i: nat): Option<RowKey>
    requires i <= |w.pages|
  {
    if i == 0 then None else w.pages[i - 1].next
  }

  ghost predicate StepFollowed(w: KeyWalk, i: nat)
    requires |w.tables| == |w.limits| == |w.pages| && i < |w.pages|
  {
    w.pages[i] == PageOf(w.tables[i], BoundaryAt(w, i), w.limits[i]) && (i > 0 ==> w.pages[i - 1].next.Some?)
  }

  ghost predicate KeyFollowed(w: KeyWalk) {
    |w.tables| == |w.limits| == |w.pages| && forall i :: 0 <= i < |w.pages| ==> StepFollowed(w, i)
  }

  function Items(pages: seq<KeyPage>): seq<RowKey> {
    if pages == [] then [] else Items(pages[..|pages| - 1]) + pages[|pages| - 1].items
  }

  function Butlast(w: KeyWalk): KeyWalk
    requires |w.tables| == |w.limits| == |w.pages| > 0
  {
    var n := |w.pages| - 1;
    KeyWalk(w.tables[..n], w.limits[..n], w.pages[..n])
  }

  lemma ButlastFollowed(w: KeyWalk)
    requires KeyFollowed(w) && w.pages != []
    ensures KeyFollowed(Butlast(w))
    ensures Items(w.pages) == Items(Butlast(w).pages) + PageOf(w.tables[|w.pages| - 1], LastBoundary(Butlast(w)), w.limits[|w.pages| - 1]).items
    ensures |w.pages| > 1 ==> LastBoundary(Butlast(w)).Some?
    ensures LastBoundary(w) == PageOf(w.tables[|w.pages| - 1], LastBoundary(Butlast(w)), w.limits[|w.pages| - 1]).next
  {
    var n := |w.pages| - 1;
    var v := Butlast(w);
    forall i | 0 <= i < n ensures StepFollowed(v, i) {
      assert StepFollowed(w, i);
      assert BoundaryAt(v, i) == BoundaryAt(w, i);
    }
    assert StepFollowed(w, n);
    assert BoundaryAt(w, n) == LastBoundary(v);
  }

  function LastBoundary(w: KeyWalk): Option<RowKey> {
    BoundaryAt(w, |w.pages|)
  }

  /** The walk with one more page. */
  ghost function Extended(w: KeyWalk, table: set<RowKey>, n: Limit): KeyWalk {
    KeyWalk(w.tables + [table], w.limits + [n], w.pages + [PageOf(table, LastBoundary(w), n)])
  }

  lemma ExtendedFollowed(w: KeyWalk, table: set<RowKey>, n: Limit)
    requires KeyFollowed(w) && (w.pages == [] || LastBoundary(w).Some?)
    ensures KeyFollowed(Extended(w, table, n))
    ensures Items(Extended(w, table, n).pages) == Items(w.pages) + PageOf(table, LastBoundary(w), n).items
    ensures LastBoundary(Extended(w, table, n)) == PageOf(table, LastBoundary(w), n).next
  {
    var v := Extended(w, table, n);
    forall i | 0 <= i < |v.pages| ensures StepFollowed(v, i) {
      assert i < |w.pages| ==> StepFollowed(w, i);
      assert BoundaryAt(v, i) == BoundaryAt(w, i);
    }
    assert v.pages[..|w.pages|] == w.pages;
  }

  lemma {:induction false} KeyNoRowTwice(w: KeyWalk)
    requires KeyFollowed(w)
    ensures Descending(Items(w.pages))
    ensures LastBoundary(w).Some? ==>
      forall k :: k in Items(w.pages) ==> k == LastBoundary(w).value || Behind(LastBoundary(w).value, k)
    decreases |w.pages|
  {
    hide KeyFollowed, PageOf, Behind, Descending;
    if w.pages == [] {
      NoBoundary(w);
      NothingDescends();
    } else {
      WalkLengths(w);
      var v, n := Butlast(w), |w.pages| - 1;
      ButlastFollowed(w);
      KeyNoRowTwice(v);
      if v.pages == [] {
        NoBoundary(v);
      }
      OnePageOn(w.tables[n], Items(v.pages), LastBoundary(v), w.limits[n]);
    }
  }

  lemma NothingDescends()
    ensures Descending([])
  {
  }

  lemma OnePageOn(table: set<RowKey>, earlier: seq<RowKey>, b: Option<RowKey>, n: Limit)
    requires Descending(earlier) && (b.None? ==> earlier == [])
    requires b.Some? ==> forall k :: k in earlier ==> k == b.value || Behind(b.value, k)
    ensures var page := PageOf(table, b, n);
      && Descending(earlier + page.items)
      && (page.next.Some? ==>
            forall k :: k in earlier + page.items ==> k == page.next.value || Behind(page.next.value, k))
  {
    PageOrder(table, b, n);
    var page := PageOf(table, b, n);
    hide Descending, PageOf, Behind;
    forall i, j | 0 <= i < |earlier| && 0 <= j < |page.items| ensures Behind(page.items[j], earlier[i]) {
      assert earlier[i] in earlier && page.items[j] in page.items;
      assert Behind(page.items[j], b.value);
      BehindIsStrictOrder(page.items[j], b.value, earlier[i]);
    }
    AppendDescending(earlier, page.items);
  }

  lemma AppendDescending(p: seq<RowKey>, q: seq<RowKey>)
    requires Descending(p) && Descending(q)
    requires forall i, j :: 0 <= i < |p| && 0 <= j < |q| ==> Behind(q[j], p[i])
    ensures Descending(p + q)
    ensures q != [] ==> forall k :: k in p + q ==> k == q[|q| - 1] || Behind(q[|q| - 1], k)
  {
    var all := p + q;
    forall i, j | 0 <= i < j < |all| ensures Behind(all[j], all[i]) {
      if i < |p| <= j {
        assert Behind(q[j - |p|], p[i]);
      }
    }
    if q != [] {
      assert all[|all| - 1] == q[|q| - 1];
    }
  }

  lemma {:induction false} KeyNotYetShown(w: KeyWalk, k: RowKey)
    requires KeyFollowed(w) && k !in Items(w.pages)
    requires forall i :: 0 <= i < |w.tables| ==> k in w.tables[i]
    ensures w.pages != [] ==> LastBoundary(w).Some? && Behind(k, LastBoundary(w).value)
    decreases |w.pages|
  {
    if w.pages != [] {
      var v, n := Butlast(w), |w.pages| - 1;
      ButlastFollowed(w);
      KeyNotYetShown(v, k);
      PageOrder(w.tables[n], LastBoundary(v), w.limits[n]);
      assert k in Below(w.tables[n], LastBoundary(v));
    }
  }

  lemma {:induction false} KeyNothingInvented(w: KeyWalk, k: RowKey)
    requires KeyFollowed(w) && k in Items(w.pages)
    ensures exists i :: 0 <= i < |w.pages| && k in w.pages[i].items && k in w.tables[i]
    decreases |w.pages|
  {
    var v, n := Butlast(w), |w.pages| - 1;
    ButlastFollowed(w);
    if k in Items(v.pages) {
      KeyNothingInvented(v, k);
      var i :| 0 <= i < n && k in v.pages[i].items && k in v.tables[i];
      assert k in w.pages[i].items && k in w.tables[i];
    } else {
      assert StepFollowed(w, n);
      PageOrder(w.tables[n], LastBoundary(v), w.limits[n]);
      assert k in w.pages[n].items && k in w.tables[n];
    }
  }

  // ---------------------------------------------------------------- a table that does not change

  /** The rows behind the k-th row are the rest of the listing. */
  lemma RestOfListing(table: set<RowKey>, k: nat)
    requires 0 < k <= |Listing(table)|
    ensures Listing(Below(table, Some(Listing(table)[k - 1]))) == Listing(table)[k..]
  {
    var all := Listing(table);
    ListingIsSorted(table);
    var rest := Below(table, Some(all[k - 1]));
    ListingIsSorted(rest);
    forall x: RowKey ensures x in all[k..] <==> x in Listing(rest) {
      BehindIsAfter(all, k, x);
      assert x in rest <==> x in table && Behind(x, all[k - 1]);
    }
    hide Listing, Behind, Below;
    SuffixDescends(all, k);
    DescendingIsUnique(Listing(rest), all[k..]);
  }

  lemma SuffixDescends(all: seq<RowKey>, k: nat)
    requires Descending(all) && k <= |all|
    ensures Descending(all[k..])
  {
    hide Behind;
  }

  /** In a descending sequence, what comes after a place is what is behind it. */
  lemma BehindIsAfter(all: seq<RowKey>, k: nat, x: RowKey)
    requires Descending(all) && 0 < k <= |all|
    ensures x in all[k..] <==> x in all && Behind(x, all[k - 1])
  {
    hide Behind;
    if x in all[k..] {
      var i :| 0 <= i < |all[k..]| && all[k..][i] == x;
      assert x == all[k + i];
    }
    if x in all && Behind(x, all[k - 1]) {
      var i :| 0 <= i < |all| && all[i] == x;
      BehindIsStrictOrder(x, all[k - 1], x);
      BehindIsStrictOrder(x, x, x);
      assert i >= k;
      assert x == all[k..][i - k];
    }
  }

  ghost predicate SameTable(tables: seq<set<RowKey>>, table: set<RowKey>) {
    forall i :: 0 <= i < |tables| ==> tables[i] == table
  }

  /** Behind the first rows of a listing stand its other rows. */
  lemma BehindShown(table: set<RowKey>, shown: seq<RowKey>, boundary: Option<RowKey>)
    requires shown <= Listing(table)
    requires if shown == [] then boundary.None? else boundary == Some(shown[|shown| - 1])
    ensures Listing(Below(table, boundary)) == Listing(table)[|shown|..]
  {
    hide Listing;
    if shown != [] {
      assert shown[|shown| - 1] == Listing(table)[|shown| - 1];
      RestOfListing(table, |shown|);
    }
  }

  /** A page taken after the first rows of a listing continues that listing. */
  lemma PageExtends(table: set<RowKey>, shown: seq<RowKey>, boundary: Option<RowKey>, n: Limit)
    requires shown <= Listing(table)
    requires if shown == [] then boundary.None? else boundary == Some(shown[|shown| - 1])
    ensures var page := PageOf(table, boundary, n);
      && shown + page.items <= Listing(table)
      && (page.next.None? <==> shown + page.items == Listing(table))
      && (page.next.Some? ==> page.items != [] && page.next.value == page.items[|page.items| - 1])
  {
    BehindShown(table, shown, boundary);
    hide Listing, Below;
    var all := Listing(table);
    assert all[..|shown|] == shown;
    CutContinues(all, |shown|, n);
    LastOfCut(all[|shown|..], n);
  }

  lemma LastOfCut(all: seq<RowKey>, n: Limit)
    ensures |all| > n ==> Take(all, n) != [] && all[n - 1] == Take(all, n)[|Take(all, n)| - 1]
  {
  }

  lemma CutContinues(all: seq<RowKey>, s: nat, n: Limit)
    requires s <= |all|
    ensures all[..s] + Take(all[s..], n) <= all
    ensures |all[s..]| <= n <==> all[..s] + Take(all[s..], n) == all
  {
    assert all == all[..s] + all[s..];
    if |all[s..]| > n {
      assert all[..s] + all[s..][..n] == all[..s + n];
    }
  }

  lemma {:induction false} KeyStaticWalk(w: KeyWalk, table: set<RowKey>)
    requires KeyFollowed(w) && SameTable(w.tables, table)
    ensures Items(w.pages) <= Listing(table)
    ensures w.pages != [] ==> (LastBoundary(w).None? <==> Items(w.pages) == Listing(table))
    ensures LastBoundary(w).Some? ==> EndsAt(Items(w.pages), LastBoundary(w).value)
    ensures |w.pages| <= |Items(w.pages)| || (|w.pages| == 1 && table == {})
    decreases |w.pages|
  {
    hide KeyFollowed, PageOf, Listing;
    if w.pages == [] {
      NoBoundary(w);
    } else {
      WalkLengths(w);
      var v, n := Butlast(w), |w.pages| - 1;
      ButlastFollowed(w);
      KeyStaticWalk(v, table);
      LastStep(table, Items(v.pages), LastBoundary(v), w.limits[n], |v.pages|);
    }
  }

  lemma WalkLengths(w: KeyWalk)
    requires KeyFollowed(w)
    ensures |w.tables| == |w.limits| == |w.pages|
  {
  }

  lemma NoBoundary(w: KeyWalk)
    requires w.pages == []
    ensures LastBoundary(w).None? && Items(w.pages) == []
  {
  }

  /** One more page of a fixed table: the rows shown are a longer front of the listing, or all of it. */
  lemma LastStep(table: set<RowKey>, shown: seq<RowKey>, boundary: Option<RowKey>, n: Limit, pages: nat)
    requires shown <= Listing(table) && (if pages == 0 then shown == [] && boundary.None? else boundary.Some?)
    requires boundary.Some? ==> EndsAt(shown, boundary.value)
    requires pages <= |shown| || (pages == 1 && table == {})
    requires pages > 0 ==> shown != Listing(table)
    ensures var page := PageOf(table, boundary, n);
      && shown + page.items <= Listing(table)
      && (page.next.None? <==> shown + page.items == Listing(table))
      && (page.next.Some? ==> EndsAt(shown + page.items, page.next.value))
      && (pages + 1 <= |shown + page.items| || (pages == 0 && table == {}))
  {
    hide PageOf, Listing;
    PageExtends(table, shown, boundary, n);
    EmptyListing(table);
  }

  lemma EmptyListing(table: set<RowKey>)
    ensures Listing(table) == [] ==> table == {}
  {
    ListingIsSorted(table);
    assert Listing(table) == [] ==> forall k :: k in table ==> k in Listing(table);
  }

  predicate EndsAt(items: seq<RowKey>, k: RowKey) {
    items != [] && items[|items| - 1] == k
  }
}
