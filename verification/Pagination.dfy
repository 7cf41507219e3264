/** Keyset pages over the stable pair (createdAt, key), and walks that follow their
    cursors while the rows may change between fetches. */
module Pagination {
  import opened Prelude
  import opened CodeUnits
  import opened Sorting

  datatype Pos = Pos(createdAt: JsString, key: JsString)

  predicate Before(a: Pos, b: Pos) {
    Less(a.createdAt, b.createdAt) || (a.createdAt == b.createdAt && Less(a.key, b.key))
  }

  /** a is listed ahead of b; newest first when descending. */
  predicate Ahead(desc: bool, a: Pos, b: Pos) {
    if desc then Before(b, a) else Before(a, b)
  }

  /** The order is strict and total: the sort and the cursor's filter cannot disagree. */
  lemma AheadIsStrictTotal(desc: bool, a: Pos, b: Pos, c: Pos)
    ensures !Ahead(desc, a, a)
    ensures a == b || Ahead(desc, a, b) || Ahead(desc, b, a)
    ensures Ahead(desc, a, b) ==> !Ahead(desc, b, a)
    ensures Ahead(desc, a, b) && Ahead(desc, b, c) ==> Ahead(desc, a, c)
  {
    LessIrreflexive(a.createdAt);
    LessIrreflexive(a.key);
    LessTotal(a.createdAt, b.createdAt);
    LessTotal(a.key, b.key);
    BeforeTransitive(a, b, a);
    BeforeTransitive(a, b, c);
    BeforeTransitive(c, b, a);
    BeforeTransitive(b, a, b);
    LessIrreflexive(b.createdAt);
    LessIrreflexive(b.key);
  }

  lemma BeforeTransitive(a: Pos, b: Pos, c: Pos)
    ensures Before(a, b) && Before(b, c) ==> Before(a, c)
  {
    if Less(a.createdAt, b.createdAt) && Less(b.createdAt, c.createdAt) {
      LessTransitive(a.createdAt, b.createdAt, c.createdAt);
    }
    if Less(a.key, b.key) && Less(b.key, c.key) {
      LessTransitive(a.key, b.key, c.key);
    }
  }

  predicate Beyond(desc: bool, cursor: Option<Pos>, p: Pos) {
    cursor.None? || Ahead(desc, cursor.value, p)
  }

  ghost predicate Ordered(desc: bool, s: seq<Pos>) {
    forall i, j :: 0 <= i < j < |s| ==> Ahead(desc, s[i], s[j])
  }

  // ---------------------------------------------------------------- page sizes and cursors

  datatype Limit = NoLimit | NotFinite | Finite(n: real)

  const DefaultPageSize := 100
  const MaxPageSize := 1000

  function ClampPageSize(limit: Limit): (size: nat)
    ensures 1 <= size <= MaxPageSize
    ensures limit.Finite? && 1.0 <= limit.n < 1000.0 ==> size as real <= limit.n < size as real + 1.0
    ensures limit.Finite? && limit.n < 1.0 ==> size == 1
    ensures limit.Finite? && limit.n >= 1000.0 ==> size == 1000
    ensures !limit.Finite? ==> size == 100
  {
    match limit
    case NoLimit => DefaultPageSize
    case NotFinite => DefaultPageSize
    case Finite(n) =>
      var asked := if n.Floor < 1 then 1 else n.Floor;
      if asked > MaxPageSize then MaxPageSize else asked
  }

  const Bar: CodeUnit := 124

  /** The cursor's text, before its base64url armour. */
  function EncodeCursor(c: Pos): JsString {
    c.createdAt + [Bar] + c.key
  }

  function IndexOf(s: JsString, u: CodeUnit): Option<nat> {
    if s == [] then None
    else if s[0] == u then Some(0)
    else
      var i := IndexOf(s[1..], u);
      if i.None? then None else Some(i.value + 1)
  }

  /** None is a malformed cursor; `isDate` says which texts parse as a date. */
  function DecodeCursor(s: JsString, isDate: JsString -> bool): Option<Pos> {
    var sep := IndexOf(s, Bar);
    if sep.None? || sep.value >= |s| then None
    else
      var createdAt := s[..sep.value];
      if createdAt == [] || !isDate(createdAt) then None
      else Some(Pos(createdAt, s[sep.value + 1..]))
  }

  lemma {:induction false} IndexOfFirst(a: JsString, rest: JsString)
    ensures IndexOf(a + [Bar] + rest, Bar) == Some(|a|) <==> Bar !in a
    ensures IndexOf(a + [Bar] + rest, Bar).Some? && IndexOf(a + [Bar] + rest, Bar).value <= |a|
  {
    var s := a + [Bar] + rest;
    if a == [] {
      assert s[0] == Bar;
    } else {
      assert s[0] == a[0] && s[1..] == a[1..] + [Bar] + rest;
      IndexOfFirst(a[1..], rest);
      assert Bar in a <==> a[0] == Bar || Bar in a[1..];
    }
  }

  /** A cursor survives the round trip exactly when its timestamp is a date without a
      bar; the key may hold anything. */
  lemma CursorRoundTrip(c: Pos, isDate: JsString -> bool)
    ensures DecodeCursor(EncodeCursor(c), isDate) == Some(c)
      <==> c.createdAt != [] && isDate(c.createdAt) && Bar !in c.createdAt
  {
    var s := EncodeCursor(c);
    IndexOfFirst(c.createdAt, c.key);
    var sep := IndexOf(s, Bar).value;
    if sep == |c.createdAt| {
      assert s[..sep] == c.createdAt && s[sep + 1..] == c.key;
    }
  }

  lemma {:induction false} IndexOfIs(s: JsString, u: CodeUnit)
    ensures match IndexOf(s, u)
            case None => u !in s
            case Some(i) => i < |s| && s[i] == u && u !in s[..i]
  {
    if s != [] && s[0] != u {
      IndexOfIs(s[1..], u);
      assert s == [s[0]] + s[1..];
      if IndexOf(s, u).Some? {
        var i := IndexOf(s, u).value;
        assert s[..i] == [s[0]] + s[1..][..i - 1];
      }
    }
  }

  /** A text is decoded exactly when it is a cursor's: a timestamp that is a date, without
      a bar, then a bar, then a key; every other text is malformed. */
  lemma DecodesExactly(s: JsString, c: Pos, isDate: JsString -> bool)
    ensures DecodeCursor(s, isDate) == Some(c)
      <==> s == c.createdAt + [Bar] + c.key && c.createdAt != [] && isDate(c.createdAt) && Bar !in c.createdAt
  {
    IndexOfIs(s, Bar);
    if DecodeCursor(s, isDate) == Some(c) {
      var i := IndexOf(s, Bar).value;
      assert s == s[..i] + [s[i]] + s[i + 1..];
    }
    if s == c.createdAt + [Bar] + c.key && c.createdAt != [] && isDate(c.createdAt) && Bar !in c.createdAt {
      CursorRoundTrip(c, isDate);
    }
  }

  // ---------------------------------------------------------------- pages

  datatype Page = Page(items: seq<Pos>, next: Option<Pos>)

  /** Trim a fetch of up to limit + 1 rows. */
  function BuildPage(rows: seq<Pos>, limit: nat): Page {
    var hasMore := |rows| > limit;
    var items := if hasMore then rows[..limit] else rows;
    Page(items, if hasMore && items != [] then Some(items[|items| - 1]) else None)
  }

  /** What a page promises: the next `limit` rows beyond the cursor, in order and with
      none skipped; a cursor on the last of them exactly when more rows follow. */
  ghost predicate IsPage(page: Page, rows: set<Pos>, desc: bool, cursor: Option<Pos>, limit: nat) {
    && Ordered(desc, page.items) && |page.items| <= limit
    && (forall p :: p in page.items ==> p in rows && Beyond(desc, cursor, p))
    && match page.next
       case None => forall p :: p in rows && Beyond(desc, cursor, p) ==> p in page.items
       case Some(last) =>
         && |page.items| == limit > 0 && last == page.items[limit - 1]
         && (forall p :: p in rows && Beyond(desc, cursor, p) && !Ahead(desc, last, p) ==> p in page.items)
         && (exists p :: p in rows && Ahead(desc, last, p))
  }

  lemma BuildIsPage(after: seq<Pos>, rows: set<Pos>, desc: bool, cursor: Option<Pos>, limit: nat)
    requires limit > 0 && Ordered(desc, after)
    requires forall p :: p in after <==> p in rows && Beyond(desc, cursor, p)
    ensures IsPage(BuildPage(if |after| > limit
            + 1 then after[..limit + 1] else after, limit), rows, desc, cursor, limit)
  {
    if |after| > limit {
      var items := after[..limit];
      var page := BuildPage(if |after| > limit + 1 then after[..limit + 1] else after, limit);
      assert page == Page(items, Some(after[limit - 1]));
      assert forall i :: limit <= i < |after| ==> Ahead(desc, after[limit - 1], after[i]);
      forall p | p in rows && Beyond(desc, cursor, p) && !Ahead(desc, after[limit - 1], p) ensures p in items {
        var i :| 0 <= i < |after| && after[i] == p;
        assert p == items[i];
      }
      assert after[limit] in after && Ahead(desc, after[limit - 1], after[limit]);
      assert forall p :: p in items ==> p in after;
    }
  }

  // ---------------------------------------------------------------- walks

  /** Pages fetched one after another, each from the previous one's cursor; `rowsAt`
      holds the rows that match at each fetch. */
  ghost predicate IsWalk(pages: seq<Page>, rowsAt: seq<set<Pos>>, desc: bool, start: Option<Pos>, limit: nat) {
    && |pages| == |rowsAt|
    && (pages != [] ==>
          && IsPage(pages[0], rowsAt[0], desc, start, limit)
          && (|pages| > 1 ==> pages[0].next.Some?)
          && IsWalk(pages[1..], rowsAt[1..], desc, pages[0].next, limit))
  }

  /** The walk reached a page without a cursor. */
  predicate Ended(pages: seq<Page>) {
    pages != [] && pages[|pages| - 1].next.None?
  }

  function Collected(pages: seq<Page>): seq<Pos> {
    if pages == [] then [] else pages[0].items + Collected(pages[1..])
  }

  lemma PageReaches(page: Page, rows: set<Pos>, desc: bool, cursor: Option<Pos>, limit: nat, p: Pos, q: Pos)
    requires IsPage(page, rows, desc, cursor, limit) && page.next.Some?
    requires p in page.items && Ahead(desc, page.next.value, q)
    ensures Ahead(desc, p, q) && Beyond(desc, cursor, q)
  {
    var last := page.next.value;
    var i :| 0 <= i < |page.items| && page.items[i] == p;
    if i < limit - 1 {
      assert Ahead(desc, page.items[i], page.items[limit - 1]);
    }
    AheadIsStrictTotal(desc, p, last, q);
    if cursor.Some? {
      AheadIsStrictTotal(desc, cursor.value, p, q);
    }
  }

  /** Whatever happens to the rows between fetches, what a walk yields is strictly in
      order: no row is returned twice. */
  lemma {:induction false} WalkNeverRepeats(pages: seq<Page>, rowsAt: seq<set<Pos>>, desc: bool, start: Option<Pos>,
                                            limit: nat)
    requires IsWalk(pages, rowsAt, desc, start, limit)
    ensures Ordered(desc, Collected(pages))
    ensures forall p :: p in Collected(pages) ==> Beyond(desc, start, p)
    ensures forall i, j :: 0 <= i < j < |Collected(pages)| ==> Collected(pages)[i] != Collected(pages)[j]
  {
    if pages != [] {
      var rest := Collected(pages[1..]);
      WalkNeverRepeats(pages[1..], rowsAt[1..], desc, pages[0].next, limit);
      if |pages| > 1 {
        forall p, q | p in pages[0].items && q in rest ensures Ahead(desc, p, q) && Beyond(desc, start, q) {
          PageReaches(pages[0], rowsAt[0], desc, start, limit, p, q);
        }
        assert rest != [] ==> pages[0].items[0] in pages[0].items;
      }
      var all := Collected(pages);
      forall i, j | 0 <= i < j < |all| ensures Ahead(desc, all[i], all[j]) && all[i] != all[j] {
        AheadIsStrictTotal(desc, all[i], all[j], all[i]);
        var n := |pages[0].items|;
        if i < n <= j {
          assert all[i] in pages[0].items && all[j] in rest;
        }
      }
    }
  }

  /** In a walk that ends, a row that matches at every fetch from the start, and is not
      behind the start, is returned; by the above, exactly once. */
  lemma {:induction false} WalkMissesNone(pages: seq<Page>, rowsAt: seq<set<Pos>>, desc: bool, start: Option<Pos>,
                                          limit: nat, p: Pos)
    requires IsWalk(pages, rowsAt, desc, start, limit) && Ended(pages)
    requires Beyond(desc, start, p) && forall i :: 0 <= i < |rowsAt| ==> p in rowsAt[i]
    ensures p in Collected(pages)
  {
    if p !in pages[0].items {
      assert |pages| > 1;
      assert Ended(pages[1..]);
      assert forall i :: 0 <= i < |rowsAt[1..]| ==> rowsAt[1..][i] == rowsAt[i + 1];
      WalkMissesNone(pages[1..], rowsAt[1..], desc, pages[0].next, limit, p);
    }
  }

  /** The cursor a walk fetches its j-th page from. */
  function CursorAt(pages: seq<Page>, start: Option<Pos>, j: nat): Option<Pos>
    requires j <= |pages|
  {
    if j == 0 then start else pages[j - 1].next
  }

  lemma {:induction false} WalkSuffix(pages: seq<Page>, rowsAt: seq<set<Pos>>, desc: bool, start: Option<Pos>,
                                      limit: nat, j: nat)
    requires IsWalk(pages, rowsAt, desc, start, limit) && j <= |pages|
    ensures IsWalk(pages[j..], rowsAt[j..], desc, CursorAt(pages, start, j), limit)
    ensures forall p :: p in Collected(pages[j..]) ==> p in Collected(pages)
  {
    if j == 0 {
      assert pages[0..] == pages && rowsAt[0..] == rowsAt;
    } else {
      assert CursorAt(pages, start, j) == CursorAt(pages[1..], pages[0].next, j - 1);
      assert pages[1..][j - 1..] == pages[j..] && rowsAt[1..][j - 1..] == rowsAt[j..];
      WalkSuffix(pages[1..], rowsAt[1..], desc, pages[0].next, limit, j - 1);
    }
  }

  /** A row that appears or starts to match part way is returned too, exactly once,
      if it is then ahead of the cursor and stays. */
  lemma LateRowsAreSeen(pages: seq<Page>, rowsAt: seq<set<Pos>>, desc: bool, start: Option<Pos>, limit: nat, j: nat,
                        p: Pos)
    requires IsWalk(pages, rowsAt, desc, start, limit) && Ended(pages) && j < |pages|
    requires Beyond(desc, CursorAt(pages, start, j), p)
    requires forall i :: j <= i < |rowsAt| ==> p in rowsAt[i]
    ensures exists n :: 0 <= n < |Collected(pages)| && Collected(pages)[n] == p
                        && forall m :: 0 <= m < |Collected(pages)| && Collected(pages)[m] == p ==> m == n
  {
    WalkSuffix(pages, rowsAt, desc, start, limit, j);
    assert Ended(pages[j..]);
    WalkMissesNone(pages[j..], rowsAt[j..], desc, CursorAt(pages, start, j), limit, p);
    WalkNeverRepeats(pages, rowsAt, desc, start, limit);
    var n :| 0 <= n < |Collected(pages)| && Collected(pages)[n] == p;
    assert forall m :: 0 <= m < |Collected(pages)| && Collected(pages)[m] == p ==> m == n;
  }

  /** Over rows that do not change, a walk that ends yields exactly the matching rows
      beyond the start, sorted. */
  lemma FixedWalkIsListing(pages: seq<Page>, rows: set<Pos>, desc: bool, start: Option<Pos>, limit: nat)
    requires IsWalk(pages, seq(|pages|, _ => rows), desc, start, limit) && Ended(pages)
    ensures Ordered(desc, Collected(pages))
    ensures forall p :: p in Collected(pages) <==> p in rows && Beyond(desc, start, p)
  {
    var rowsAt := seq(|pages|, _ => rows);
    WalkNeverRepeats(pages, rowsAt, desc, start, limit);
    forall p | p in rows && Beyond(desc, start, p) ensures p in Collected(pages) {
      WalkMissesNone(pages, rowsAt, desc, start, limit, p);
    }
    CollectedMatch(pages, rowsAt, desc, start, limit, rows);
  }

  lemma {:induction false} CollectedMatch(pages: seq<Page>, rowsAt: seq<set<Pos>>, desc: bool, start: Option<Pos>,
                                          limit: nat, rows: set<Pos>)
    requires IsWalk(pages, rowsAt, desc, start, limit)
    requires forall i :: 0 <= i < |rowsAt| ==> rowsAt[i] == rows
    ensures forall p :: p in Collected(pages) ==> p in rows
  {
    if pages != [] {
      CollectedMatch(pages[1..], rowsAt[1..], desc, pages[0].next, limit, rows);
    }
  }

  /** The listing is unique: two orderings of the same rows are the same sequence. */
  lemma {:induction false} OneListing(desc: bool, a: seq<Pos>, b: seq<Pos>)
    requires Ordered(desc, a) && Ordered(desc, b)
    requires forall p :: p in a <==> p in b
    ensures a == b
  {
    EmptyTogether(a, b);
    if a != [] {
      assert a[0] in a;
      var j :| 0 <= j < |b| && b[j] == a[0];
      assert b[0] in a by { assert b[0] in b; }
      var i :| 0 <= i < |a| && a[i] == b[0];
      AheadIsStrictTotal(desc, a[0], b[0], a[0]);
      assert a[0] == b[0];
      forall p ensures p in a[1..] <==> p in b[1..] {
        AheadIsStrictTotal(desc, p, p, p);
        assert p in a <==> p == a[0] || p in a[1..];
        assert p in b <==> p == b[0] || p in b[1..];
        assert p in a[1..] ==> Ahead(desc, a[0], p);
        assert p in b[1..] ==> Ahead(desc, b[0], p);
      }
      OneListing(desc, a[1..], b[1..]);
    }
  }

  /** Over rows that do not change a walk cannot go on for ever: every page but the
      last is full, and the last is not empty unless it is the only one. */
  lemma {:induction false} FixedWalkEnds(pages: seq<Page>, rows: set<Pos>, desc: bool, start: Option<Pos>, limit: nat)
    requires IsWalk(pages, seq(|pages|, _ => rows), desc, start, limit) && |pages| > 0
    ensures |pages| > 1 ==> (|pages| - 1) * limit < |rows|
  {
    if |pages| > 1 {
      var rowsAt := seq(|pages|, _ => rows);
      FullPages(pages, rowsAt, desc, start, limit, rows, |pages| - 1);
    }
  }

  /** The rows at or before the last of n full pages, and one more beyond them. */
  lemma {:induction false} FullPages(pages: seq<Page>, rowsAt: seq<set<Pos>>, desc: bool, start: Option<Pos>,
                                     limit: nat, rows: set<Pos>, n: nat)
    requires IsWalk(pages, rowsAt, desc, start, limit) && 0 < n < |pages|
    requires forall i :: 0 <= i < |rowsAt| ==> rowsAt[i] == rows
    ensures n * limit < |RowsBeyond(rows, desc, start)| <= |rows|
    decreases n
  {
    FullPage(pages[0], rows, desc, start, limit);
    if n > 1 {
      FullPages(pages[1..], rowsAt[1..], desc, pages[0].next, limit, rows, n - 1);
      assert n * limit == limit + (n - 1) * limit;
    }
  }

  function RowsBeyond(rows: set<Pos>, desc: bool, cursor: Option<Pos>): set<Pos> {
    set p | p in rows && Beyond(desc, cursor, p)
  }

  /** What lies beyond a page's cursor lies beyond the page. */
  lemma LaterRows(page: Page, rows: set<Pos>, desc: bool, start: Option<Pos>, limit: nat, p: Pos)
    requires IsPage(page, rows, desc, start, limit) && page.next.Some? && p in RowsBeyond(rows, desc, page.next)
    ensures p in RowsBeyond(rows, desc, start) && p !in page.items
  {
    var last := page.next.value;
    assert last in page.items;
    PageReaches(page, rows, desc, start, limit, last, p);
    if p in page.items {
      PageReaches(page, rows, desc, start, limit, p, p);
      AheadIsStrictTotal(desc, p, p, p);
    }
  }

  /** A page with a cursor takes `limit` rows off those beyond, and leaves at least one. */
  lemma FullPage(page: Page, rows: set<Pos>, desc: bool, start: Option<Pos>, limit: nat)
    requires IsPage(page, rows, desc, start, limit) && page.next.Some?
    ensures limit + |RowsBeyond(rows, desc, page.next)| <= |RowsBeyond(rows, desc, start)| <= |rows|
    ensures |RowsBeyond(rows, desc, page.next)| > 0
  {
    var here, later := RowsBeyond(rows, desc, start), RowsBeyond(rows, desc, page.next);
    var items := set p | p in page.items;
    assert |items| == limit by { OrderedSize(desc, page.items); }
    forall p | p in later ensures p in here && p !in items { LaterRows(page, rows, desc, start, limit, p); }
    assert |items + later| == |items| + |later|;
    Subset(items + later, here);
    Subset(here, rows);
    var q :| q in rows && Ahead(desc, page.next.value, q);
    assert q in later;
  }

  lemma {:induction false} Subset<T>(a: set<T>, b: set<T>)
    requires a <= b
    ensures |a| <= |b|
  {
    if a != {} {
      var x :| x in a;
      Subset(a - {x}, b - {x});
    }
  }

  lemma {:induction false} OrderedSize(desc: bool, s: seq<Pos>)
    requires Ordered(desc, s)
    ensures |set p | p in s| == |s|
  {
    if s != [] {
      var n := |s| - 1;
      OrderedSize(desc, s[..n]);
      if s[n] in s[..n] {
        AheadIsStrictTotal(desc, s[n], s[n], s[n]);
      }
      assert (set p | p in s) == (set p | p in s[..n]) + {s[n]};
    }
  }
}
