// List requests: pages of rows by (instant, id), newest first, with the next page named by an encoded cursor.
module CursorPages {
  import opened Wrappers
  import opened Cursor
  import opened Pagination
  import Base64

  datatype Key = Key(at: Instant, id: Uuid)

  type Order = (Key, Key) -> bool

  type Parser = seq<Base64.Byte> -> Option<Envelope>

  datatype Response = Response(items: seq<Key>, next: Option<string>)

  function PageLimit(limit: Option<nat>): Option<nat> {
    var n := if limit.None? then 20 else limit.value;
    if 1 <= n <= 100 then Some(n) else None
  }

  predicate Rows(s: set<Key>) { forall k | k in s :: Real(k.at) }

  function EncodeKey(kind: Kind, k: Key): string
    requires Real(k.at)
  {
    Encode(PageCursor(kind, k.at, k.id))
  }

  function NextCursor(kind: Kind, page: Page<Key>): Option<string>
    requires forall k | k in page.items :: Real(k.at)
  {
    if !page.more || page.items == [] then None
    else
      var last := page.items[|page.items| - 1];
      Some(EncodeKey(kind, last))
  }

  ghost function Respond(less: Order, kind: Kind, s: set<Key>, cursor: Option<Key>, limit: nat): Response
    requires TotalOrder(less) && Rows(s)
  {
    QueryShowsPage(less, s, cursor, limit);
    var page := Query(less, s, cursor, limit);
    Response(page.items, NextCursor(kind, page))
  }

  /** One list request over the rows its filters match; `None` is a validation error. */
  ghost function List(less: Order, parse: Parser, kind: Kind, s: set<Key>, cursor: Option<string>,
                      limit: Option<nat>): Option<Response>
    requires TotalOrder(less) && Faithful(parse) && Rows(s)
  {
    if cursor.None? then
      if PageLimit(limit).None? then None else Some(Respond(less, kind, s, None, PageLimit(limit).value))
    else
      var decoded := Decode(parse, cursor.value, kind);
      if decoded.Err? || PageLimit(limit).None? then None
      else Some(Respond(less, kind, s, Some(Key(decoded.value.at, decoded.value.id)), PageLimit(limit).value))
  }

  // ---- walks by cursor text ----

  /** Page `i` answered the request with page `i - 1`'s cursor, when the matching rows were `tables[i]`. */
  ghost predicate Follows(less: Order, parse: Parser, kind: Kind, tables: seq<set<Key>>, limit: Option<nat>,
                          pages: seq<Response>, i: nat)
    requires TotalOrder(less) && Faithful(parse) && i < |pages| == |tables| && forall s | s in tables :: Rows(s)
  {
    && (i > 0 ==> pages[i - 1].next.Some?)
    && List(less, parse, kind, tables[i], if i == 0 then None else pages[i - 1].next, limit) == Some(pages[i])
  }

  ghost predicate IsTextWalk(less: Order, parse: Parser, kind: Kind, tables: seq<set<Key>>, limit: Option<nat>,
                             pages: seq<Response>)
    requires Faithful(parse)
  {
    && TotalOrder(less) && |pages| == |tables| && (forall s | s in tables :: Rows(s))
    && forall i | 0 <= i < |pages| :: Follows(less, parse, kind, tables, limit, pages, i)
  }

  function Plain(pages: seq<Response>): (p: seq<Page<Key>>)
    ensures |p| == |pages|
  {
    seq(|pages|, i requires 0 <= i < |pages| => Page(pages[i].items, pages[i].next.Some?))
  }

  lemma RespondShowsQuery(less: Order, kind: Kind, s: set<Key>, cursor: Option<Key>, limit: nat)
    requires TotalOrder(less) && Rows(s) && limit > 0
    ensures var (r, page) := (Respond(less, kind, s, cursor, limit), Query(less, s, cursor, limit));
      r.items == page.items && (r.next.Some? <==> page.more) && (page.more ==> page.items != [])
      && forall k | k in page.items :: Real(k.at)
  {
    QueryShowsPage(less, s, cursor, limit);
  }

  /** A next cursor stands for the last row shown. */
  lemma NextStandsForLast(less: Order, kind: Kind, s: set<Key>, cursor: Option<Key>, limit: nat)
    requires TotalOrder(less) && Rows(s) && limit > 0 && Respond(less, kind, s, cursor, limit).next.Some?
    ensures var r := Respond(less, kind, s, cursor, limit);
      r.items != [] && Real(r.items[|r.items| - 1].at) && r.next == Some(EncodeKey(kind, r.items[|r.items| - 1]))
  {
    RespondShowsQuery(less, kind, s, cursor, limit);
    var items := Respond(less, kind, s, cursor, limit).items;
    assert items[|items| - 1] in items;
  }

  /** Up to 100 rows a page, 20 unless a limit is given; with a next cursor exactly as many. */
  lemma PagesAreBounded(less: Order, parse: Parser, kind: Kind, s: set<Key>, cursor: Option<string>, limit: Option<nat>)
    requires TotalOrder(less) && Faithful(parse) && Rows(s)
    ensures var page := List(less, parse, kind, s, cursor, limit);
      && (limit.Some? && !(1 <= limit.value <= 100) ==> page.None?)
      && (cursor.None? && (limit.Some? ==> 1 <= limit.value <= 100) ==> page.Some?)
      && (page.Some? ==>
            var n := if limit.Some? then limit.value else 20;
            |page.value.items| <= n && (page.value.next.Some? ==> |page.value.items| == n))
  {
    if PageLimit(limit).Some? {
      var n := PageLimit(limit).value;
      RespondShowsQuery(less, kind, s, None, n);
      QueryShowsPage(less, s, None, n);
      if cursor.Some? && Decode(parse, cursor.value, kind).Ok? {
        var from := Decode(parse, cursor.value, kind).value;
        RespondShowsQuery(less, kind, s, Some(Key(from.at, from.id)), n);
        QueryShowsPage(less, s, Some(Key(from.at, from.id)), n);
      }
    }
  }

  /** The request made with a row's cursor is never refused, and continues after that row. */
  lemma {:induction false} CursorLeadsOn(less: Order, parse: Parser, kind: Kind, s: set<Key>, last: Key,
                                         limit: Option<nat>)
    requires TotalOrder(less) && Faithful(parse) && Rows(s) && Real(last.at) && PageLimit(limit).Some?
    ensures List(less, parse, kind, s, Some(EncodeKey(kind, last)), limit)
      == Some(Respond(less, kind, s, Some(last), PageLimit(limit).value))
  {
    DecodeEncode(parse, PageCursor(kind, last.at, last.id), kind);
  }

  /** Walking by cursor text is walking by the rows themselves. */
  lemma TextWalkIsWalk(less: Order, parse: Parser, kind: Kind, tables: seq<set<Key>>, limit: Option<nat>,
                       pages: seq<Response>)
    requires TotalOrder(less) && Faithful(parse) && IsTextWalk(less, parse, kind, tables, limit, pages)
      && PageLimit(limit).Some?
    ensures IsWalk(less, tables, PageLimit(limit).value, Plain(pages))
  {
    var n := PageLimit(limit).value;
    forall i | 0 <= i < |pages| ensures Continues(less, tables, n, Plain(pages), i) {
      StepContinues(less, parse, kind, tables, limit, pages, i);
    }
  }

  lemma StepContinues(less: Order, parse: Parser, kind: Kind, tables: seq<set<Key>>, limit: Option<nat>,
                      pages: seq<Response>, i: nat)
    requires TotalOrder(less) && Faithful(parse) && IsTextWalk(less, parse, kind, tables, limit, pages)
    requires PageLimit(limit).Some? && i < |pages|
    ensures Continues(less, tables, PageLimit(limit).value, Plain(pages), i)
  {
    PageAt(less, parse, kind, tables, limit, pages, i);
    RespondContinues(less, kind, tables, PageLimit(limit).value, pages, i);
  }

  lemma RespondContinues(less: Order, kind: Kind, tables: seq<set<Key>>, n: nat, pages: seq<Response>, i: nat)
    requires TotalOrder(less) && n > 0 && i < |pages| == |tables| && Rows(tables[i])
    requires i > 0 ==> pages[i - 1].next.Some?
    requires pages[i] == Respond(less, kind, tables[i], if i == 0 then None else Last(pages[i - 1].items), n)
    ensures Continues(less, tables, n, Plain(pages), i)
  {
    RespondShowsQuery(less, kind, tables[i], if i == 0 then None else Last(pages[i - 1].items), n);
  }

  /** Page `i` is the page after the last row of page `i - 1`. */
  lemma PageAt(less: Order, parse: Parser, kind: Kind, tables: seq<set<Key>>, limit: Option<nat>, pages: seq<Response>,
               i: nat)
    requires TotalOrder(less) && Faithful(parse) && IsTextWalk(less, parse, kind, tables, limit, pages)
    requires PageLimit(limit).Some? && i < |pages|
    ensures i > 0 ==> pages[i - 1].next.Some?
    ensures var after := if i == 0 then None else Last(pages[i - 1].items);
      pages[i] == Respond(less, kind, tables[i], after, PageLimit(limit).value)
  {
    assert Follows(less, parse, kind, tables, limit, pages, i);
    if i > 0 {
      assert Follows(less, parse, kind, tables, limit, pages, i - 1);
      ListResponds(less, parse, kind, tables[i - 1], if i == 1 then None else pages[i - 2].next, limit);
      StepLeadsOn(less, parse, kind, tables[i - 1], tables[i], limit, pages[i - 1]);
    }
  }

  /** Whatever cursor text was accepted, the response is a page after some row. */
  lemma ListResponds(less: Order, parse: Parser, kind: Kind, s: set<Key>, cursor: Option<string>, limit: Option<nat>)
    requires TotalOrder(less) && Faithful(parse) && Rows(s)
    requires List(less, parse, kind, s, cursor, limit).Some?
    ensures PageLimit(limit).Some?
    ensures exists k ::
      List(less, parse, kind, s, cursor, limit).value == Respond(less, kind, s, k, PageLimit(limit).value)
  {}

  lemma {:induction false} StepLeadsOn(less: Order, parse: Parser, kind: Kind, s: set<Key>, later: set<Key>,
                                       limit: Option<nat>, r: Response)
    requires TotalOrder(less) && Faithful(parse) && Rows(s) && Rows(later) && PageLimit(limit).Some? && r.next.Some?
    requires exists k :: r == Respond(less, kind, s, k, PageLimit(limit).value)
    ensures List(less, parse, kind, later, r.next, limit)
            == Some(Respond(less, kind, later, Last(r.items), PageLimit(limit).value))
  {
    var k :| r == Respond(less, kind, s, k, PageLimit(limit).value);
    NextStandsForLast(less, kind, s, k, PageLimit(limit).value);
    CursorLeadsOn(less, parse, kind, later, r.items[|r.items| - 1], limit);
  }

  // ---- the order of the list queries ----

  function Fields(k: Key): (f: seq<int>)
    ensures |f| == 39
  {
    [k.at.year, k.at.month, k.at.day, k.at.hour, k.at.minute, k.at.second, k.at.nano] + k.id
  }

  predicate LexLess(a: seq<int>, b: seq<int>)
    requires |a| == |b|
  {
    a != [] && (a[0] < b[0] || (a[0] == b[0] && LexLess(a[1..], b[1..])))
  }

  /** The order of the list queries: by instant, then by id. */
  predicate Older(a: Key, b: Key) { LexLess(Fields(a), Fields(b)) }

  lemma {:induction false} LexIsTotalOrder(a: seq<int>, b: seq<int>, c: seq<int>)
    requires |a| == |b| == |c|
    ensures LexLess(a, b) || a == b || LexLess(b, a)
    ensures !(LexLess(a, b) && LexLess(b, a)) && !LexLess(a, a)
    ensures LexLess(a, b) && LexLess(b, c) ==> LexLess(a, c)
  {
    if a != [] {
      LexIsTotalOrder(a[1..], b[1..], c[1..]);
      assert a == [a[0]] + a[1..] && b == [b[0]] + b[1..];
    }
  }

  lemma OlderIsTotalOrder()
    ensures TotalOrder(Older)
  {
    forall a, b ensures Older(a, b) || a == b || Older(b, a) {
      LexIsTotalOrder(Fields(a), Fields(b), Fields(b));
      FieldsIdentify(a, b);
    }
    forall a, b ensures Older(a, b) ==> a != b && !Older(b, a) {
      LexIsTotalOrder(Fields(a), Fields(b), Fields(b));
    }
    forall a, b, c ensures Older(a, b) && Older(b, c) ==> Older(a, c) {
      LexIsTotalOrder(Fields(a), Fields(b), Fields(c));
    }
  }

  lemma FieldsIdentify(a: Key, b: Key)
    ensures Fields(a) == Fields(b) ==> a == b
  {
    var x, y := Fields(a), Fields(b);
    if x == y {
      assert forall i | 0 <= i < 7 :: x[i] == y[i];
      assert a.id == x[7..] == y[7..] == b.id;
    }
  }

  /** Following the cursors of a changing list to the end: it ends, and every row that stays is shown exactly once. */
  lemma FollowingCursorsShowsEachRowOnce(parse: Parser, kind: Kind, tables: seq<set<Key>>, limit: Option<nat>,
                                         pages: seq<Response>, universe: set<Key>)
    requires Faithful(parse) && IsTextWalk(Older, parse, kind, tables, limit, pages) && PageLimit(limit).Some?
      && pages != []
    requires forall s | s in tables :: s <= universe
    ensures |pages| <= |universe| / PageLimit(limit).value + 1
    ensures Descending(Older, Items(Plain(pages)))
    ensures forall k | pages[|pages| - 1].next.None? && (forall s | s in tables :: k in s) ::
              multiset(Items(Plain(pages)))[k] == 1
  {
    TextWalkIsWalk(Older, parse, kind, tables, limit, pages);
    WalkShowsEachRowOnce(Older, tables, PageLimit(limit).value, Plain(pages), universe);
  }
}
