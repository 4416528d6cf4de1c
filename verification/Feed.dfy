/**
 * The change feed (api/services/memory_feed.py) and its complete traversal by a client
 * (scripts/m009_release_validation.py) while other writers keep inserting rows.
 *
 * A cursor is signed text that carries the corpus and the key of the last row of a page; it is modelled as that row.
 */
module Feed {
  import opened Common
  import Ordering

  const MAX_PAGE_SIZE: int := 500
  const PAGE_GUARD: nat := 10000

  /** A memory version: within a corpus the pair (observed_at, id) is its key. */
  datatype Row = Row(corpus: string, observedAt: int, id: string)

  datatype Database = Database(corpora: set<string>, rows: set<Row>)

  datatype Page = Page(items: seq<Row>, hasMore: bool, nextCursor: Option<Row>)

  datatype FeedError = InvalidPageSize | CursorCorpusMismatch | CorpusNotFound

  datatype Answer = Served(page: Page) | Refused(error: FeedError)

  // ---- the keyset order ----

  predicate Before(a: Row, b: Row) {
    a.observedAt < b.observedAt || (a.observedAt == b.observedAt && Ordering.Less(a.id, b.id))
  }

  /** The row lies beyond the cursor; without a cursor every row does. */
  predicate Ahead(cursor: Option<Row>, r: Row) {
    cursor.None? || Before(cursor.value, r)
  }

  lemma BeforeTotal(a: Row, b: Row)
    requires a.corpus == b.corpus
    ensures a == b || Before(a, b) || Before(b, a)
  {
    Ordering.LessTotal(a.id, b.id);
  }

  lemma BeforeTransitive(a: Row, b: Row, c: Row)
    requires Before(a, b) && Before(b, c)
    ensures Before(a, c)
  {
    if Ordering.Less(a.id, b.id) && Ordering.Less(b.id, c.id) {
      Ordering.LessTransitive(a.id, b.id, c.id);
    }
  }

  lemma BeforeAsymmetric(a: Row, b: Row)
    requires Before(a, b)
    ensures !Before(b, a)
  {
    if Before(b, a) {
      Ordering.LessAsymmetric(a.id, b.id);
    }
  }

  lemma AheadTransitive(cursor: Option<Row>, a: Row, b: Row)
    requires Ahead(cursor, a) && Before(a, b)
    ensures Ahead(cursor, b)
  {
    if cursor.Some? {
      BeforeTransitive(cursor.value, a, b);
    }
  }

  ghost predicate Ordered(rows: seq<Row>) {
    forall i, j :: 0 <= i < j < |rows| ==> Before(rows[i], rows[j])
  }

  // ---- one page ----

  predicate IsFirst(m: Row, s: set<Row>) {
    m in s && forall r :: r in s ==> r == m || Before(m, r)
  }

  lemma {:induction false} FirstExists(s: set<Row>, corpus: string)
    requires s != {} && forall r :: r in s ==> r.corpus == corpus
    ensures exists m :: IsFirst(m, s)
    decreases |s|
  {
    var x :| x in s;
    var rest := s - {x};
    if rest == {} {
      assert s == {x};
      assert IsFirst(x, s);
    } else {
      FirstExists(rest, corpus);
      var m :| IsFirst(m, rest);
      BeforeTotal(x, m);
      if Before(x, m) {
        forall r | r in s
          ensures r == x || Before(x, r)
        {
          if r != x && r != m {
            BeforeTransitive(x, m, r);
          }
        }
        assert IsFirst(x, s);
      } else {
        assert IsFirst(m, s);
      }
    }
  }

  lemma FirstUnique(a: Row, b: Row, s: set<Row>)
    requires IsFirst(a, s) && IsFirst(b, s)
    ensures a == b
  {
    if a != b {
      BeforeAsymmetric(a, b);
    }
  }

  function First(s: set<Row>, corpus: string): (m: Row)
    requires s != {} && forall r :: r in s ==> r.corpus == corpus
    ensures IsFirst(m, s)
  {
    FirstExists(s, corpus);
    assert forall a, b | IsFirst(a, s) && IsFirst(b, s) :: a == b by {
      forall a, b | IsFirst(a, s) && IsFirst(b, s)
        ensures a == b
      {
        FirstUnique(a, b, s);
      }
    }
    var m :| m in s && IsFirst(m, s);
    m
  }

  /** The rows of one corpus in keyset order. */
  function InOrder(s: set<Row>, corpus: string): (rows: seq<Row>)
    requires forall r :: r in s ==> r.corpus == corpus
    ensures Ordered(rows) && |rows| == |s|
    ensures forall r :: r in rows <==> r in s
  {
    if s == {} then [] else
    var m := First(s, corpus);
    [m] + InOrder(s - {m}, corpus)
  }

  /** The rows of the corpus beyond the boundary: the WHERE clause. */
  function Beyond(db: Database, corpus: string, boundary: Option<Row>): set<Row> {
    set r | r in db.rows && r.corpus == corpus && Ahead(boundary, r)
  }

  /** WHERE, ORDER BY and LIMIT. */
  function Query(db: Database, corpus: string, boundary: Option<Row>, limit: nat): seq<Row> {
    var rows := InOrder(Beyond(db, corpus, boundary), corpus);
    if |rows| <= limit then rows else rows[..limit]
  }

  function PageOf(db: Database, corpus: string, boundary: Option<Row>, size: nat): Page
    requires size > 0
  {
    var rows := Query(db, corpus, boundary, size + 1);
    if |rows| > size then Page(rows[..size], true, Some(rows[size - 1])) else Page(rows, false, None)
  }

  /** `feed` */
  function Feed(db: Database, corpus: string, cursor: Option<Row>, size: int): Answer {
    if !(1 <= size <= MAX_PAGE_SIZE) then Refused(InvalidPageSize)
    else if cursor.Some? && cursor.value.corpus != corpus then Refused(CursorCorpusMismatch)
    else if corpus !in db.corpora then Refused(CorpusNotFound)
    else Served(PageOf(db, corpus, cursor, size))
  }

  /**
   * The page is an initial segment of what lies beyond its boundary: in order, no larger than asked for, full when
   * there is more, and whatever it leaves out comes after its last row, where the next cursor stands.
   */
  ghost predicate IsPage(p: Page, beyond: set<Row>, size: int) {
    && Ordered(p.items) && |p.items| <= size
    && (forall r :: r in p.items ==> r in beyond)
    && if p.hasMore then
         && 0 < |p.items| == size && p.nextCursor == Some(p.items[size - 1])
         && (forall r :: r in beyond ==> r in p.items || Before(p.items[size - 1], r))
         && (exists r :: r in beyond && Before(p.items[size - 1], r))
       else
         p.nextCursor == None && forall r :: r in beyond ==> r in p.items
  }

  lemma PageIsPage(db: Database, corpus: string, boundary: Option<Row>, size: nat)
    requires size > 0
    ensures IsPage(PageOf(db, corpus, boundary, size), Beyond(db, corpus, boundary), size)
  {
    var beyond := Beyond(db, corpus, boundary);
    FirstRowsArePage(InOrder(beyond, corpus), beyond, size);
  }

  /** Beyond the cursor, by time and then by code-point order of the ids. */
  ghost predicate Later(cursor: Option<Row>, r: Row) {
    cursor.None? || cursor.value.observedAt < r.observedAt ||
    (cursor.value.observedAt == r.observedAt && Ordering.CodePointBefore(cursor.value.id, r.id))
  }

  /** Every answer, with the condition under which it is given. */
  lemma FeedExactly(db: Database, corpus: string, cursor: Option<Row>, size: int)
    ensures var a := Feed(db, corpus, cursor, size);
            (a == Refused(InvalidPageSize) <==> size < 1 || size > 500) &&
            (a == Refused(CursorCorpusMismatch) <==>
               1 <= size <= 500 && cursor.Some? && cursor.value.corpus != corpus) &&
            (a == Refused(CorpusNotFound) <==>
               1 <= size <= 500 && (cursor.Some? ==> cursor.value.corpus == corpus) && corpus !in db.corpora) &&
            (a.Served? ==> IsPage(a.page, Beyond(db, corpus, cursor), size))
    ensures forall r :: r in Beyond(db, corpus, cursor) <==> r in db.rows && r.corpus == corpus && Later(cursor, r)
  {
    if 1 <= size {
      PageIsPage(db, corpus, cursor, size);
    }
    forall r
      ensures Ahead(cursor, r) <==> Later(cursor, r)
    {
      if cursor.Some? {
        Ordering.LessIsCodePointOrder(cursor.value.id, r.id);
      }
    }
  }

  lemma FirstRowsArePage(rows: seq<Row>, beyond: set<Row>, size: nat)
    requires 0 < size && Ordered(rows) && forall r :: r in rows <==> r in beyond
    ensures |rows| > size ==> IsPage(Page(rows[..size], true, Some(rows[size - 1])), beyond, size)
    ensures |rows| <= size ==> IsPage(Page(rows, false, None), beyond, size)
  {
    if |rows| > size {
      assert rows[size] in beyond;
      assert forall i :: 0 <= i < size ==> rows[i] == rows[..size][i];
      forall r | r in beyond && r !in rows[..size]
        ensures Before(rows[size - 1], r)
      {
        var i :| 0 <= i < |rows| && rows[i] == r;
      }
    }
  }

  lemma {:induction false} OrderedUnique(a: seq<Row>, b: seq<Row>)
    requires Ordered(a) && Ordered(b) && forall r :: r in a <==> r in b
    ensures a == b
  {
    if a == [] {
      assert forall i :: 0 <= i < |b| ==> b[i] in b;
    } else {
      assert a[0] in b;
      assert b[0] in a;
      var i :| 0 <= i < |a| && a[i] == b[0];
      var j :| 0 <= j < |b| && b[j] == a[0];
      if a[0] != b[0] {
        BeforeAsymmetric(a[0], b[0]);
      }
      forall r
        ensures r in a[1..] <==> r in b[1..]
      {
        TailMembers(a, r);
        TailMembers(b, r);
      }
      OrderedUnique(a[1..], b[1..]);
      assert a == [a[0]] + a[1..] && b == [b[0]] + b[1..];
    }
  }

  lemma TailMembers(a: seq<Row>, r: Row)
    requires a != [] && Ordered(a)
    ensures r in a[1..] <==> r in a && r != a[0]
  {
    if r in a[1..] {
      var i :| 1 <= i < |a| && a[i] == r;
      if r == a[0] {
        BeforeAsymmetric(a[0], a[i]);
      }
    }
  }

  /** Rows in order before which nothing is left out are the first rows. */
  lemma {:induction false} FirstRows(items: seq<Row>, rows: seq<Row>)
    requires Ordered(items) && Ordered(rows) && forall r :: r in items ==> r in rows
    requires forall r, x :: r in rows && r !in items && x in items ==> Before(x, r)
    ensures items <= rows
  {
    if items != [] {
      assert items[0] in items && items[0] in rows && rows[0] in rows;
      FirstRowsStart(items, rows);
      forall r
        ensures (r in items[1..] <==> r in items && r != items[0]) && (r in rows[1..] <==> r in rows && r != rows[0])
      {
        TailMembers(items, r);
        TailMembers(rows, r);
      }
      FirstRows(items[1..], rows[1..]);
      assert items == [items[0]] + items[1..] && rows == [rows[0]] + rows[1..];
    }
  }

  lemma FirstRowsStart(items: seq<Row>, rows: seq<Row>)
    requires Ordered(items) && Ordered(rows) && items != [] && items[0] in rows && rows != []
    requires rows[0] in items || Before(items[0], rows[0])
    ensures items[0] == rows[0]
  {
    var i :| 0 <= i < |rows| && rows[i] == items[0];
    if items[0] != rows[0] {
      BeforeAsymmetric(rows[0], items[0]);
    }
  }

  lemma PageIsPrefix(p: Page, beyond: set<Row>, rows: seq<Row>, size: int)
    requires IsPage(p, beyond, size) && Ordered(rows) && forall r :: r in rows <==> r in beyond
    ensures p.items <= rows && (p.hasMore <==> |rows| > size)
  {
    forall r, x | r in rows && r !in p.items && x in p.items
      ensures Before(x, r)
    {
      var i :| 0 <= i < |p.items| && p.items[i] == x;
      if i < size - 1 {
        BeforeTransitive(x, p.items[size - 1], r);
      }
    }
    FirstRows(p.items, rows);
    if p.hasMore {
      var r :| r in rows && Before(p.items[size - 1], r);
      BeyondPrefix(p.items, rows, r);
    } else {
      OrderedUnique(p.items, rows);
    }
  }

  lemma BeyondPrefix(items: seq<Row>, rows: seq<Row>, r: Row)
    requires Ordered(items) && items != [] && items <= rows && r in rows && Before(items[|items| - 1], r)
    ensures |rows| > |items|
  {
    if |rows| == |items| {
      var i :| 0 <= i < |rows| && rows[i] == r;
      BeforeAsymmetric(items[|items| - 1], r);
    }
  }

  /** There is only one such page: the specification determines what the query returns. */
  lemma PageUnique(p: Page, db: Database, corpus: string, boundary: Option<Row>, size: nat)
    requires size > 0 && IsPage(p, Beyond(db, corpus, boundary), size)
    ensures p == PageOf(db, corpus, boundary, size)
  {
    var beyond := Beyond(db, corpus, boundary);
    var q := PageOf(db, corpus, boundary, size);
    PageIsPage(db, corpus, boundary, size);
    SamePage(p, q, beyond, InOrder(beyond, corpus), size);
  }

  lemma SamePage(p: Page, q: Page, beyond: set<Row>, rows: seq<Row>, size: int)
    requires IsPage(p, beyond, size) && IsPage(q, beyond, size)
    requires Ordered(rows) && forall r :: r in rows <==> r in beyond
    ensures p == q
  {
    PageIsPrefix(p, beyond, rows, size);
    PageIsPrefix(q, beyond, rows, size);
    if p.hasMore {
      assert p.items == rows[..size] == q.items;
    } else {
      OrderedUnique(p.items, q.items);
    }
  }

  // ---- the traversal ----

  /** What a client asks for: a corpus, the cursor to start from and the page size. */
  datatype Request = Request(corpus: string, start: Option<Row>, size: int)

  /** One page query: the database it saw, the cursor it carried and the page it got. */
  datatype Step = Step(db: Database, cursor: Option<Row>, page: Page)

  /** Rows and corpora are only ever added. */
  ghost predicate Extends(earlier: Database, later: Database) {
    earlier.rows <= later.rows && earlier.corpora <= later.corpora
  }

  /** Query `k` got its page, with the cursor handed out before, on a database that has only grown. */
  ghost predicate Follows(h: seq<Step>, k: nat, q: Request)
    requires k < |h|
  {
    && IsPage(h[k].page, Beyond(h[k].db, q.corpus, h[k].cursor), q.size)
    && (k == 0 ==> h[k].cursor == q.start)
    && (k > 0 ==> h[k - 1].page.hasMore && h[k].cursor == h[k - 1].page.nextCursor && Extends(h[k - 1].db, h[k].db))
  }

  ghost predicate IsRun(h: seq<Step>, q: Request) {
    forall k: nat :: k < |h| ==> Follows(h, k, q)
  }

  /** The run has come to a page after which there is no more. */
  ghost predicate IsComplete(h: seq<Step>, q: Request) {
    IsRun(h, q) && h != [] && !Last(h).page.hasMore
  }

  function Last(h: seq<Step>): Step
    requires h != []
  {
    h[|h| - 1]
  }

  function Front(h: seq<Step>): seq<Step>
    requires h != []
  {
    h[..|h| - 1]
  }

  /** The items delivered. */
  ghost function Items(h: seq<Step>): seq<Row> {
    if h == [] then [] else Items(Front(h)) + Last(h).page.items
  }

  lemma FrontIsRun(h: seq<Step>, q: Request)
    requires IsRun(h, q) && h != []
    ensures IsRun(Front(h), q)
    ensures |h| > 1 ==> Last(Front(h)).page.hasMore && Last(h).cursor == Last(Front(h)).page.nextCursor
  {
    forall k: nat | k < |h| - 1
      ensures Follows(Front(h), k, q)
    {
      assert Follows(h, k, q);
    }
    assert Follows(h, |h| - 1, q);
  }

  /** A page's next cursor is a row of the corpus that lies beyond the page's own cursor. */
  lemma NextCursorAdvances(h: seq<Step>, q: Request, k: nat)
    requires IsRun(h, q) && k < |h| && h[k].page.hasMore
    ensures h[k].page.nextCursor.Some?
    ensures h[k].page.nextCursor.value.corpus == q.corpus && Ahead(h[k].cursor, h[k].page.nextCursor.value)
  {
    assert Follows(h, k, q);
    var p := h[k].page;
    assert p.items[q.size - 1] in p.items;
  }

  /** The cursor moves strictly forward and stays in the corpus. */
  lemma {:induction false} CursorsAdvance(h: seq<Step>, q: Request, j: nat, k: nat)
    requires IsRun(h, q) && j < k < |h|
    ensures h[k].cursor.Some? && h[k].cursor.value.corpus == q.corpus && Ahead(h[j].cursor, h[k].cursor.value)
  {
    assert Follows(h, k, q);
    NextCursorAdvances(h, q, k - 1);
    if j < k - 1 {
      CursorsAdvance(h, q, j, k - 1);
      AheadTransitive(h[j].cursor, h[k - 1].cursor.value, h[k].cursor.value);
    }
  }

  lemma {:induction false} DatabasesGrow(h: seq<Step>, q: Request, j: nat, k: nat)
    requires IsRun(h, q) && j <= k < |h|
    ensures Extends(h[j].db, h[k].db)
  {
    if j < k {
      assert Follows(h, k, q);
      DatabasesGrow(h, q, j, k - 1);
    }
  }

  /** A page's items are beyond its cursor, up to the next cursor if there is one. */
  lemma PageItems(h: seq<Step>, q: Request, k: nat, r: Row)
    requires IsRun(h, q) && k < |h| && r in h[k].page.items
    ensures r in Beyond(h[k].db, q.corpus, h[k].cursor)
    ensures h[k].page.hasMore ==> h[k].page.nextCursor.Some? &&
                                  (r == h[k].page.nextCursor.value || Before(r, h[k].page.nextCursor.value))
  {
    assert Follows(h, k, q);
    var p := h[k].page.items;
    var i :| 0 <= i < |p| && p[i] == r;
  }

  /** What has been delivered is not ahead of the next cursor. */
  lemma {:induction false} ItemsBehindCursor(h: seq<Step>, q: Request, r: Row)
    requires IsRun(h, q) && h != [] && Last(h).page.hasMore && r in Items(h)
    ensures Last(h).page.nextCursor.Some?
    ensures var c := Last(h).page.nextCursor.value; r == c || Before(r, c)
  {
    NextCursorAdvances(h, q, |h| - 1);
    if r in Last(h).page.items {
      PageItems(h, q, |h| - 1, r);
    } else {
      assert r in Items(Front(h));
      FrontIsRun(h, q);
      ItemsBehindCursor(Front(h), q, r);
      var c := Last(Front(h)).page.nextCursor.value;
      if r != c {
        BeforeTransitive(r, c, Last(h).page.nextCursor.value);
      }
    }
  }

  lemma OrderedAppend(a: seq<Row>, b: seq<Row>)
    requires Ordered(a) && Ordered(b) && forall x, y :: x in a && y in b ==> Before(x, y)
    ensures Ordered(a + b)
  {
    var c := a + b;
    forall i, j | 0 <= i < j < |c|
      ensures Before(c[i], c[j])
    {
      if i < |a| <= j {
        assert a[i] in a && b[j - |a|] in b;
      }
    }
  }

  /** The items delivered are strictly increasing, so none is delivered twice. */
  lemma {:induction false} ItemsOrdered(h: seq<Step>, q: Request)
    requires IsRun(h, q)
    ensures Ordered(Items(h))
  {
    if h != [] {
      FrontIsRun(h, q);
      ItemsOrdered(Front(h), q);
      assert Follows(h, |h| - 1, q);
      forall x, y | x in Items(Front(h)) && y in Last(h).page.items
        ensures Before(x, y)
      {
        EarlierItemBefore(h, q, x, y);
      }
      OrderedAppend(Items(Front(h)), Last(h).page.items);
    }
  }

  lemma EarlierItemBefore(h: seq<Step>, q: Request, x: Row, y: Row)
    requires IsRun(h, q) && h != [] && x in Items(Front(h)) && y in Last(h).page.items
    ensures Before(x, y)
  {
    FrontIsRun(h, q);
    PageItems(h, q, |h| - 1, y);
    ItemsBehindCursor(Front(h), q, x);
    var c := Last(h).cursor.value;
    assert Before(c, y);
    if x != c {
      BeforeTransitive(x, c, y);
    }
  }

  /** Query `k` finds row `r` in the corpus beyond its cursor. */
  ghost predicate VisibleAt(h: seq<Step>, q: Request, k: nat, r: Row) {
    k < |h| && r in Beyond(h[k].db, q.corpus, h[k].cursor)
  }

  ghost predicate OnPage(h: seq<Step>, k: nat, r: Row) {
    k < |h| && r in h[k].page.items
  }

  lemma {:induction false} ItemOfSomePage(h: seq<Step>, r: Row)
    ensures r in Items(h) <==> exists k: nat :: OnPage(h, k, r)
  {
    if h != [] {
      ItemOfSomePage(Front(h), r);
      if r in Items(Front(h)) {
        var k: nat :| OnPage(Front(h), k, r);
        assert OnPage(h, k, r);
      } else if r in Last(h).page.items {
        assert OnPage(h, |h| - 1, r);
      } else if k: nat :| OnPage(h, k, r) {
        assert OnPage(Front(h), k, r);
      }
    }
  }

  /** A row that a query finds is on the query's page or found again by the next. */
  lemma VisibleStays(h: seq<Step>, q: Request, k: nat, r: Row)
    requires IsRun(h, q) && VisibleAt(h, q, k, r) && r !in h[k].page.items
    ensures h[k].page.hasMore && (k + 1 < |h| ==> VisibleAt(h, q, k + 1, r))
  {
    assert Follows(h, k, q);
    if k + 1 < |h| {
      assert Follows(h, k + 1, q);
    }
  }

  lemma {:induction false} VisibleIsDelivered(h: seq<Step>, q: Request, k: nat, r: Row)
    requires IsComplete(h, q) && VisibleAt(h, q, k, r)
    ensures r in Items(h)
    decreases |h| - k
  {
    if OnPage(h, k, r) {
      ItemOfSomePage(h, r);
    } else {
      VisibleStays(h, q, k, r);
      VisibleIsDelivered(h, q, k + 1, r);
    }
  }

  /**
   * Live keyset semantics: a complete traversal delivers exactly the rows that some page query finds beyond its
   * cursor, whenever they were inserted.
   */
  lemma LiveKeyset(h: seq<Step>, q: Request, r: Row)
    requires IsComplete(h, q)
    ensures r in Items(h) <==> exists k: nat :: VisibleAt(h, q, k, r)
  {
    if r in Items(h) {
      ItemOfSomePage(h, r);
      var k: nat :| OnPage(h, k, r);
      PageItems(h, q, k, r);
      assert VisibleAt(h, q, k, r);
    } else if k: nat :| VisibleAt(h, q, k, r) {
      VisibleIsDelivered(h, q, k, r);
    }
  }

  /** Every row that was there at the start beyond the start cursor is delivered. */
  lemma InitialRowsDelivered(h: seq<Step>, q: Request, r: Row)
    requires IsComplete(h, q) && r in Beyond(h[0].db, q.corpus, q.start)
    ensures r in Items(h)
  {
    assert Follows(h, 0, q);
    assert VisibleAt(h, q, 0, r);
    LiveKeyset(h, q, r);
  }

  /** A row inserted only after query `k`, at or behind the cursor that query carried, is never delivered. */
  lemma LateRowsBehindSkipped(h: seq<Step>, q: Request, k: nat, r: Row)
    requires IsComplete(h, q) && k < |h| && (forall j :: 0 <= j < k ==> r !in h[j].db.rows) && !Ahead(h[k].cursor, r)
    ensures r !in Items(h)
  {
    if r in Items(h) {
      LiveKeyset(h, q, r);
      var j: nat :| VisibleAt(h, q, j, r);
      if k < j {
        CursorsAdvance(h, q, k, j);
        AheadTransitive(h[k].cursor, h[j].cursor.value, r);
      }
    }
  }

  lemma AheadOfStart(h: seq<Step>, q: Request, k: nat, r: Row)
    requires IsRun(h, q) && VisibleAt(h, q, k, r)
    ensures r in Beyond(Last(h).db, q.corpus, q.start)
  {
    DatabasesGrow(h, q, k, |h| - 1);
    assert Follows(h, 0, q);
    if k > 0 {
      CursorsAdvance(h, q, 0, k);
      AheadTransitive(q.start, h[k].cursor.value, r);
    }
  }

  /** If nothing is inserted meanwhile, a traversal delivers the archive beyond its cursor, in keyset order. */
  lemma QuietTraversal(h: seq<Step>, q: Request)
    requires IsComplete(h, q) && h[0].db == Last(h).db
    ensures Items(h) == InOrder(Beyond(h[0].db, q.corpus, q.start), q.corpus)
  {
    var rows := Beyond(h[0].db, q.corpus, q.start);
    ItemsOrdered(h, q);
    forall r
      ensures r in Items(h) <==> r in rows
    {
      if r in Items(h) {
        LiveKeyset(h, q, r);
        var k: nat :| VisibleAt(h, q, k, r);
        AheadOfStart(h, q, k, r);
      } else if r in rows {
        InitialRowsDelivered(h, q, r);
      }
    }
    OrderedUnique(Items(h), InOrder(rows, q.corpus));
  }

  // ---- the page guard ----

  lemma {:induction false} ItemsLength(h: seq<Step>, q: Request)
    requires IsRun(h, q) && (h == [] || Last(h).page.hasMore)
    ensures |Items(h)| == |h| * q.size
  {
    if h != [] {
      FrontIsRun(h, q);
      ItemsLength(Front(h), q);
      assert Follows(h, |h| - 1, q);
      assert |h| * q.size == (|h| - 1) * q.size + q.size;
    }
  }

  lemma {:induction false} OrderedFits(rows: seq<Row>, s: set<Row>)
    requires Ordered(rows) && forall r :: r in rows ==> r in s
    ensures |rows| <= |s|
  {
    if rows != [] {
      var rest := rows[1..];
      forall r | r in rest
        ensures r in s - {rows[0]}
      {
        TailMembers(rows, r);
      }
      assert rows[0] in rows;
      OrderedFits(rest, s - {rows[0]});
    }
  }

  /** A traversal that is to go on after its last page has more than that many full pages beyond its start. */
  lemma ContinuingNeedsRows(h: seq<Step>, q: Request)
    requires IsRun(h, q) && h != [] && Last(h).page.hasMore
    ensures |Beyond(Last(h).db, q.corpus, q.start)| > |h| * q.size
  {
    var beyond := Beyond(Last(h).db, q.corpus, q.start);
    var r := RowLeft(h, q);
    forall x | x in Items(h)
      ensures x in beyond - {r}
    {
      ItemOfSomePage(h, x);
      var k: nat :| OnPage(h, k, x);
      PageItems(h, q, k, x);
      AheadOfStart(h, q, k, x);
      ItemsBehindCursor(h, q, x);
      if x == r {
        BeforeAsymmetric(Last(h).page.nextCursor.value, r);
      }
    }
    ItemsOrdered(h, q);
    ItemsLength(h, q);
    OrderedFits(Items(h), beyond - {r});
  }

  /** A row for the page that is still to come. */
  ghost function RowLeft(h: seq<Step>, q: Request): (r: Row)
    requires IsRun(h, q) && h != [] && Last(h).page.hasMore
    ensures r in Beyond(Last(h).db, q.corpus, q.start)
    ensures Last(h).page.nextCursor.Some? && Before(Last(h).page.nextCursor.value, r)
  {
    assert Follows(h, |h| - 1, q);
    var beyond := Beyond(Last(h).db, q.corpus, Last(h).cursor);
    var r :| r in beyond && Before(Last(h).page.nextCursor.value, r);
    assert VisibleAt(h, q, |h| - 1, r);
    AheadOfStart(h, q, |h| - 1, r);
    r
  }

  // ---- the loop ----

  datatype Outcome = Done | Failed(error: FeedError) | CursorMissing | CursorRepeated | PageGuardExceeded

  /** How the traversal ended: with its last page, refused at the next query, or cut off by the guard. */
  ghost predicate Explained(h: seq<Step>, q: Request, dbs: nat -> Database, outcome: Outcome) {
    match outcome
    case Done => |h| <= 10000 && IsComplete(h, q)
    case Failed(error) => |h| < 10000 && GoesOn(h, q) &&
                          Feed(dbs(|h|), q.corpus, NextCursor(h, q), q.size) == Refused(error)
    case PageGuardExceeded => |h| == 10000 && GoesOn(h, q)
    case _ => false
  }

  ghost predicate GoesOn(h: seq<Step>, q: Request) {
    IsRun(h, q) && (h == [] || Last(h).page.hasMore)
  }

  function NextCursor(h: seq<Step>, q: Request): Option<Row> {
    if h == [] then q.start else Last(h).page.nextCursor
  }

  /** The k-th query sees the k-th state of the database. */
  ghost predicate Sees(h: seq<Step>, dbs: nat -> Database) {
    forall k: nat :: k < |h| ==> h[k].db == dbs(k)
  }

  ghost predicate GrowsAfter(dbs: nat -> Database, k: nat) {
    Extends(dbs(k), dbs(k + 1))
  }

  ghost predicate OnlyInserts(dbs: nat -> Database) {
    forall k: nat :: GrowsAfter(dbs, k)
  }

  function PageSizes(h: seq<Step>): seq<nat> {
    if h == [] then [] else PageSizes(Front(h)) + [|Last(h).page.items|]
  }

  lemma FollowsAppend(h: seq<Step>, q: Request, s: Step, k: nat)
    requires k < |h| && Follows(h, k, q)
    ensures Follows(h + [s], k, q)
  {
  }

  lemma RunGrows(h: seq<Step>, q: Request, s: Step)
    requires GoesOn(h, q) && Follows(h + [s], |h|, q)
    ensures IsRun(h + [s], q)
  {
    forall k: nat | k < |h|
      ensures Follows(h + [s], k, q)
    {
      assert Follows(h, k, q);
      FollowsAppend(h, q, s, k);
    }
  }

  /** The next query. */
  ghost function NextStep(h: seq<Step>, q: Request, db: Database): Step
    requires q.size > 0
  {
    Step(db, NextCursor(h, q), PageOf(db, q.corpus, NextCursor(h, q), q.size))
  }

  lemma NextStepFollows(h: seq<Step>, q: Request, db: Database)
    requires q.size > 0 && GoesOn(h, q) && (h != [] ==> Extends(Last(h).db, db))
    ensures IsRun(h + [NextStep(h, q, db)], q)
  {
    PageIsPage(db, q.corpus, NextCursor(h, q), q.size);
    RunGrows(h, q, NextStep(h, q, db));
  }

  /** What the loop has after a page that is not the last: the run so far sees the states in turn and goes on. */
  ghost predicate Underway(h: seq<Step>, q: Request, dbs: nat -> Database) {
    GoesOn(h, q) && Sees(h, dbs)
  }

  lemma StepAppended(h: seq<Step>, q: Request, dbs: nat -> Database, s: Step)
    requires Sees(h, dbs) && s.db == dbs(|h|) && IsRun(h + [s], q)
    ensures Sees(h + [s], dbs) && Front(h + [s]) == h && Last(h + [s]) == s
    ensures s.page.hasMore ==> Underway(h + [s], q, dbs) && CursorIsNew(h + [s], q)
  {
    if s.page.hasMore {
      NextCursorIsNew(h + [s], q);
    }
  }

  lemma StepTaken(h: seq<Step>, q: Request, dbs: nat -> Database)
    requires q.size > 0 && OnlyInserts(dbs) && Underway(h, q, dbs)
    ensures var s := NextStep(h, q, dbs(|h|)); var after := h + [s];
            && IsRun(after, q) && Sees(after, dbs) && Front(after) == h && Last(after) == s
            && (s.page.hasMore ==> Underway(after, q, dbs) && CursorIsNew(after, q))
  {
    if h != [] {
      assert GrowsAfter(dbs, |h| - 1);
    }
    NextStepFollows(h, q, dbs(|h|));
    StepAppended(h, q, dbs, NextStep(h, q, dbs(|h|)));
  }

  /** The continuation cursors handed out. */
  function CursorsOf(h: seq<Step>): set<Row> {
    if h == [] then {}
    else CursorsOf(Front(h)) + if Last(h).page.nextCursor.Some? then {Last(h).page.nextCursor.value} else {}
  }

  /** A continuation cursor is handed out and has not been handed out before. */
  ghost predicate CursorIsNew(h: seq<Step>, q: Request)
    requires h != []
  {
    Last(h).page.nextCursor.Some? && Last(h).page.nextCursor.value !in CursorsOf(Front(h))
  }

  lemma {:induction false} CursorsBehind(h: seq<Step>, q: Request, c: Row)
    requires IsRun(h, q) && h != [] && Last(h).page.hasMore && c in CursorsOf(h)
    ensures Last(h).page.nextCursor.Some?
    ensures var last := Last(h).page.nextCursor.value; c == last || Before(c, last)
  {
    NextCursorAdvances(h, q, |h| - 1);
    if c != Last(h).page.nextCursor.value {
      FrontIsRun(h, q);
      CursorsBehind(Front(h), q, c);
      if c != Last(h).cursor.value {
        BeforeTransitive(c, Last(h).cursor.value, Last(h).page.nextCursor.value);
      }
    }
  }

  lemma NextCursorIsNew(h: seq<Step>, q: Request)
    requires IsRun(h, q) && h != [] && Last(h).page.hasMore
    ensures CursorIsNew(h, q)
  {
    NextCursorAdvances(h, q, |h| - 1);
    var last := Last(h).page.nextCursor.value;
    if last in CursorsOf(Front(h)) {
      FrontIsRun(h, q);
      CursorsBehind(Front(h), q, last);
      BeforeAsymmetric(Last(h).cursor.value, last);
    }
  }

  ghost predicate Ended(h: seq<Step>, q: Request, dbs: nat -> Database, outcome: Outcome) {
    Sees(h, dbs) && Explained(h, q, dbs, outcome)
  }

  /** What is handed to the caller are the items and the page sizes of a run that ended so. */
  ghost predicate Traversed(q: Request, dbs: nat -> Database, items: seq<Row>, pageSizes: seq<nat>, outcome: Outcome) {
    exists h :: Ended(h, q, dbs, outcome) && items == Items(h) && pageSizes == PageSizes(h)
  }

  lemma RefusalEnds(h: seq<Step>, q: Request, dbs: nat -> Database, error: FeedError)
    requires Underway(h, q, dbs) && |h| < PAGE_GUARD
    requires Feed(dbs(|h|), q.corpus, NextCursor(h, q), q.size) == Refused(error)
    ensures Traversed(q, dbs, Items(h), PageSizes(h), Failed(error))
  {
    assert Ended(h, q, dbs, Failed(error));
  }

  lemma GuardEnds(h: seq<Step>, q: Request, dbs: nat -> Database)
    requires Underway(h, q, dbs) && |h| == PAGE_GUARD
    ensures Traversed(q, dbs, Items(h), PageSizes(h), PageGuardExceeded)
  {
    assert Ended(h, q, dbs, PageGuardExceeded);
  }

  lemma LastPageEnds(h: seq<Step>, q: Request, dbs: nat -> Database)
    requires q.size > 0 && OnlyInserts(dbs) && Underway(h, q, dbs) && |h| < PAGE_GUARD
    requires var page := NextStep(h, q, dbs(|h|)).page; !page.hasMore
    ensures var page := NextStep(h, q, dbs(|h|)).page;
            Traversed(q, dbs, Items(h) + page.items, PageSizes(h) + [|page.items|], Done)
  {
    StepTaken(h, q, dbs);
    var after := h + [NextStep(h, q, dbs(|h|))];
    assert Ended(after, q, dbs, Done);
  }

  /**
   * `traverse`, with the database as each page query sees it: a run of the feed as far as it got. A missing or
   * repeated continuation cursor, for which the loop looks, cannot come about.
   */
  method Traverse(q: Request, dbs: nat -> Database)
      returns (items: seq<Row>, pageSizes: seq<nat>, outcome: Outcome)
    requires OnlyInserts(dbs)
    ensures Traversed(q, dbs, items, pageSizes, outcome)
  {
    items, pageSizes := [], [];
    ghost var h: seq<Step> := [];
    var cursor := q.start;
    var seen: set<Row> := {};
    for n := 0 to PAGE_GUARD
      invariant |h| == n && Underway(h, q, dbs)
      invariant cursor == NextCursor(h, q) && seen == CursorsOf(h)
      invariant items == Items(h) && pageSizes == PageSizes(h)
    {
      var answer := Feed(dbs(n), q.corpus, cursor, q.size);
      if answer.Refused? {
        RefusalEnds(h, q, dbs, answer.error);
        return items, pageSizes, Failed(answer.error);
      }
      var page := answer.page;
      items := items + page.items;
      pageSizes := pageSizes + [|page.items|];
      if !page.hasMore {
        LastPageEnds(h, q, dbs);
        return items, pageSizes, Done;
      }
      StepTaken(h, q, dbs);
      h := h + [NextStep(h, q, dbs(n))];
      if page.nextCursor.None? {
        return items, pageSizes, CursorMissing;
      }
      cursor := page.nextCursor;
      if cursor.value in seen {
        return items, pageSizes, CursorRepeated;
      }
      seen := seen + {cursor.value};
    }
    GuardEnds(h, q, dbs);
    return items, pageSizes, PageGuardExceeded;
  }

  /** When the first query is served, a traversal fails only by the guard, and only on too many rows. */
  lemma TraversalFailsOnlyBySize(h: seq<Step>, q: Request, dbs: nat -> Database, outcome: Outcome)
    requires OnlyInserts(dbs) && Ended(h, q, dbs, outcome)
    requires Feed(dbs(0), q.corpus, q.start, q.size).Served?
    ensures outcome == Done || (outcome == PageGuardExceeded &&
                                |Beyond(dbs(9999), q.corpus, q.start)| > 10000 * q.size)
  {
    if outcome == PageGuardExceeded {
      ContinuingNeedsRows(h, q);
    } else if outcome.Failed? && h != [] {
      DatabasesGrow(h, q, 0, |h| - 1);
      assert GrowsAfter(dbs, |h| - 1);
      NextCursorAdvances(h, q, |h| - 1);
    }
  }
}
