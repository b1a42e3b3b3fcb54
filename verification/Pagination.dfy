// Keyset pagination over any total order: one page, and walks through a table that changes between pages
// (src/application/schedules.rs, src/infrastructure/postgres/repository/schedules.rs).
module Pagination {
  import opened Wrappers

  ghost predicate TotalOrder<T(!new)>(less: (T, T) -> bool) {
    && (forall a, b :: less(a, b) || a == b || less(b, a))
    && (forall a, b :: less(a, b) ==> a != b && !less(b, a))
    && (forall a, b, c :: less(a, b) && less(b, c) ==> less(a, c))
  }

  // ---- the page query ----

  ghost predicate IsGreatest<T>(less: (T, T) -> bool, s: set<T>, k: T) {
    k in s && forall other | other in s && other != k :: less(other, k)
  }

  lemma {:induction false} GreatestExists<T(!new)>(less: (T, T) -> bool, s: set<T>)
    requires TotalOrder(less) && s != {}
    ensures exists k :: IsGreatest(less, s, k)
  {
    var x :| x in s;
    if s == {x} {
      assert IsGreatest(less, s, x);
    } else {
      GreatestExists(less, s - {x});
      var y :| IsGreatest(less, s - {x}, y);
      assert IsGreatest(less, s, if less(x, y) then y else x);
    }
  }

  /** `ORDER BY key DESC LIMIT n`. */
  ghost function Newest<T(!new)>(less: (T, T) -> bool, s: set<T>, n: nat): (rows: seq<T>)
    requires TotalOrder(less)
    ensures |rows| <= n
    decreases n
  {
    if n == 0 || s == {} then [] else
      GreatestExists(less, s);
      var k :| IsGreatest(less, s, k);
      [k] + Newest(less, s - {k}, n - 1)
  }

  predicate Descending<T(!new)>(less: (T, T) -> bool, rows: seq<T>) {
    forall i, j | 0 <= i < j < |rows| :: less(rows[j], rows[i])
  }

  /** `rows` are the first rows of `s` in descending order, at most `n`. */
  ghost predicate AreNewest<T(!new)>(less: (T, T) -> bool, s: set<T>, n: nat, rows: seq<T>) {
    && Descending(less, rows)
    && (forall k | k in rows :: k in s)
    && (forall k | k in s && k !in rows :: |rows| == n && forall r | r in rows :: less(k, r))
  }

  lemma {:induction false} NewestAreNewest<T(!new)>(less: (T, T) -> bool, s: set<T>, n: nat)
    requires TotalOrder(less)
    ensures AreNewest(less, s, n, Newest(less, s, n))
    decreases n
  {
    if n > 0 && s != {} {
      GreatestExists(less, s);
      var k :| IsGreatest(less, s, k) && Newest(less, s, n) == [k] + Newest(less, s - {k}, n - 1);
      NewestAreNewest(less, s - {k}, n - 1);
      NewestFirst(less, s, n, k, Newest(less, s - {k}, n - 1));
    }
  }

  lemma NewestFirst<T(!new)>(less: (T, T) -> bool, s: set<T>, n: nat, k: T, rest: seq<T>)
    requires n > 0 && IsGreatest(less, s, k) && AreNewest(less, s - {k}, n - 1, rest)
    ensures AreNewest(less, s, n, [k] + rest)
  {
    assert forall i | 0 <= i < |rest| :: rest[i] in rest;
  }

  ghost function After<T>(less: (T, T) -> bool, s: set<T>, cursor: Option<T>): set<T> {
    set k | k in s && (cursor.Some? ==> less(k, cursor.value))
  }

  datatype Page<T> = Page(items: seq<T>, more: bool)

  /** One row more than asked for tells whether another page follows. */
  function PageFromRows<T>(rows: seq<T>, limit: nat): Page<T> {
    Page(if |rows| > limit then rows[..limit] else rows, |rows| > limit)
  }

  ghost function Query<T(!new)>(less: (T, T) -> bool, s: set<T>, cursor: Option<T>, limit: nat): Page<T>
    requires TotalOrder(less)
  {
    PageFromRows(Newest(less, After(less, s, cursor), limit + 1), limit)
  }

  /** What one page shows, and what it leaves for later pages. */
  ghost predicate ShowsPage<T(!new)>(less: (T, T) -> bool, s: set<T>, cursor: Option<T>, limit: nat, page: Page<T>) {
    && Descending(less, page.items) && |page.items| <= limit && (page.more ==> |page.items| == limit)
    && (forall k | k in page.items :: k in s && (cursor.Some? ==> less(k, cursor.value)))
    && (forall k | k in s && (cursor.Some? ==> less(k, cursor.value)) && k !in page.items ::
          page.more && forall r | r in page.items :: less(k, r))
  }

  lemma {:induction false} QueryShowsPage<T(!new)>(less: (T, T) -> bool, s: set<T>, cursor: Option<T>, limit: nat)
    requires TotalOrder(less)
    ensures ShowsPage(less, s, cursor, limit, Query(less, s, cursor, limit))
  {
    var rows := Newest(less, After(less, s, cursor), limit + 1);
    NewestAreNewest(less, After(less, s, cursor), limit + 1);
    var page := Query(less, s, cursor, limit);
    assert forall k | k in page.items :: k in rows;
    forall k | k in After(less, s, cursor) && k !in page.items
      ensures page.more && forall r | r in page.items :: less(k, r)
    {
      if k in rows {
        var j :| 0 <= j < |rows| && rows[j] == k;
        assert j == limit;
      }
    }
  }

  // ---- walks ----

  function Last<T>(rows: seq<T>): Option<T> { if rows == [] then None else Some(rows[|rows| - 1]) }

  /** Page `i` was read when the matching rows were `tables[i]`, after the last row of the page before. */
  ghost predicate Continues<T(!new)>(less: (T, T) -> bool, tables: seq<set<T>>, limit: nat, pages: seq<Page<T>>, i: nat)
    requires TotalOrder(less) && i < |pages| == |tables|
  {
    && (i > 0 ==> pages[i - 1].more)
    && pages[i] == Query(less, tables[i], if i == 0 then None else Last(pages[i - 1].items), limit)
  }

  ghost predicate IsWalk<T(!new)>(less: (T, T) -> bool, tables: seq<set<T>>, limit: nat, pages: seq<Page<T>>)
    requires TotalOrder(less)
  {
    |pages| == |tables| && forall i | 0 <= i < |pages| :: Continues(less, tables, limit, pages, i)
  }

  function Items<T>(pages: seq<Page<T>>): seq<T> {
    if pages == [] then [] else Items(pages[..|pages| - 1]) + pages[|pages| - 1].items
  }

  /** What a walk has shown so far: every row seen throughout, but for those still below its last row. */
  ghost predicate Covers<T(!new)>(less: (T, T) -> bool, tables: seq<set<T>>, shown: seq<T>, more: bool) {
    && Descending(less, shown)
    && (forall k | k in shown :: exists s | s in tables :: k in s)
    && (forall k | (forall s | s in tables :: k in s) && k !in shown :: more && forall r | r in shown :: less(k, r))
  }

  /** Following the cursor shows rows in strictly descending order, and skips none that stays. */
  lemma {:induction false} WalkCovers<T(!new)>(less: (T, T) -> bool, tables: seq<set<T>>, limit: nat,
                                               pages: seq<Page<T>>)
    requires TotalOrder(less) && IsWalk(less, tables, limit, pages) && pages != [] && limit > 0
    ensures var last := pages[|pages| - 1];
      && Covers(less, tables, Items(pages), last.more)
      && (last.more ==> last.items != [] && Last(Items(pages)) == Last(last.items))
      && |Items(pages)| >= (if last.more then |pages| else |pages| - 1) * limit
  {
    var n := |pages| - 1;
    var page := pages[n];
    assert Continues(less, tables, limit, pages, n);
    var cursor := if n == 0 then None else Last(pages[n - 1].items);
    QueryShowsPage(less, tables[n], cursor, limit);
    assert tables == tables[..n] + [tables[n]];
    if n == 0 {
      assert Items(pages) == page.items;
      NextPageCovers(less, [], [], tables[0], cursor, limit, page);
    } else {
      forall i | 0 <= i < n ensures Continues(less, tables[..n], limit, pages[..n], i) {
        assert Continues(less, tables, limit, pages, i);
      }
      WalkCovers(less, tables[..n], limit, pages[..n]);
      NextPageCovers(less, tables[..n], Items(pages[..n]), tables[n], cursor, limit, page);
      CountPages(n, limit);
    }
  }

  lemma CountPages(n: nat, limit: nat)
    ensures (n + 1) * limit == n * limit + limit
  {}

  lemma NextPageCovers<T(!new)>(less: (T, T) -> bool, tables: seq<set<T>>, shown: seq<T>, s: set<T>, cursor: Option<T>,
                                limit: nat, page: Page<T>)
    requires TotalOrder(less) && Covers(less, tables, shown, true) && cursor == Last(shown)
    requires ShowsPage(less, s, cursor, limit, page)
    ensures Covers(less, tables + [s], shown + page.items, page.more)
  {}

  /**
   * A walk ends: with every row ever present in `universe`, there are at most `|universe| / limit + 1` pages. When it
   * has ended, each row that stayed was shown exactly once.
   */
  lemma WalkShowsEachRowOnce<T(!new)>(less: (T, T) -> bool, tables: seq<set<T>>, limit: nat, pages: seq<Page<T>>,
                                      universe: set<T>)
    requires TotalOrder(less) && IsWalk(less, tables, limit, pages) && pages != [] && limit > 0
    requires forall s | s in tables :: s <= universe
    ensures |pages| <= |universe| / limit + 1
    ensures Descending(less, Items(pages))
    ensures forall k | !pages[|pages| - 1].more && (forall s | s in tables :: k in s) :: multiset(Items(pages))[k] == 1
  {
    WalkCovers(less, tables, limit, pages);
    PagesFit(less, tables, limit, pages, universe);
    forall k | !pages[|pages| - 1].more && forall s | s in tables :: k in s ensures multiset(Items(pages))[k] == 1 {
      DescendingShowsOnce(less, Items(pages), k);
    }
  }

  lemma PagesFit<T(!new)>(less: (T, T) -> bool, tables: seq<set<T>>, limit: nat, pages: seq<Page<T>>, universe: set<T>)
    requires TotalOrder(less) && pages != [] && limit > 0
    requires Covers(less, tables, Items(pages), pages[|pages| - 1].more)
    requires |Items(pages)| >= (if pages[|pages| - 1].more then |pages| else |pages| - 1) * limit
    requires forall s | s in tables :: s <= universe
    ensures |pages| <= |universe| / limit + 1
  {
    DistinctWithin(less, Items(pages), universe);
    var full := |pages| - 1;
    CountPages(full, limit);
    AtMostQuotient(full, limit, |universe|);
  }

  lemma AtMostQuotient(full: nat, limit: nat, bound: nat)
    requires limit > 0 && full * limit <= bound
    ensures full <= bound / limit
  {
    ProductsKeepOrder(bound / limit + 1, full, limit);
    CountPages(bound / limit, limit);
    assert bound < bound / limit * limit + limit;
  }

  lemma ProductsKeepOrder(a: nat, b: nat, c: nat)
    ensures a <= b ==> a * c <= b * c
  {}

  lemma {:induction false} DistinctWithin<T(!new)>(less: (T, T) -> bool, rows: seq<T>, universe: set<T>)
    requires TotalOrder(less) && Descending(less, rows) && forall k | k in rows :: k in universe
    ensures |rows| <= |universe|
  {
    if rows != [] {
      var n := |rows| - 1;
      assert forall i | 0 <= i < n :: rows[i] != rows[n];
      DistinctWithin(less, rows[..n], universe - {rows[n]});
    }
  }

  lemma {:induction false} DescendingShowsOnce<T(!new)>(less: (T, T) -> bool, rows: seq<T>, k: T)
    requires TotalOrder(less) && Descending(less, rows) && k in rows
    ensures multiset(rows)[k] == 1
  {
    var n := |rows| - 1;
    assert rows == rows[..n] + [rows[n]];
    if k == rows[n] {
      assert forall i | 0 <= i < n :: rows[i] != k;
      assert k !in rows[..n];
    } else {
      DescendingShowsOnce(less, rows[..n], k);
    }
  }
}
