/** The client's cursor-following loop over the hosted listing. */
module Iterate {
  import opened Prelude
  import opened ActionLedger
  import opened CodeUnits
  import opened Pagination
  import opened ApiStore

  datatype Served = Served(page: ActionPage) | MalformedCursor

  /** The rows still beyond the cursor: what the loop has left. */
  ghost function Remaining(rows: set<StoredAction>, desc: bool, cursor: Option<Pos>): set<StoredAction> {
    set r | r in rows && Beyond(desc, cursor, PosOf(r))
  }

  ghost predicate Dated(rows: set<StoredAction>, isDate: JsString -> bool) {
    forall r :: r in rows ==> r.createdAt != [] && isDate(r.createdAt) && Bar !in r.createdAt
  }

  /** An empty cursor is no cursor. */
  function Parse(raw: Option<JsString>, isDate: JsString -> bool): Option<Option<Pos>> {
    if raw.None? || raw.value == [] then Some(None)
    else
      var c := DecodeCursor(raw.value, isDate);
      if c.None? then None else Some(c)
  }

  method PageActions(store: MemStore, org: string, status: Option<Status>, limit: Limit, raw: Option<JsString>,
                     isDate: JsString -> bool)
    returns (served: Served)
    requires store.Valid()
    ensures match Parse(raw, isDate)
            case None => served.MalformedCursor?
            case Some(cursor) =>
              served.Served?
                && IsActionPage(served.page, store.Rows(org, status), status.None?, cursor, ClampPageSize(limit))
  {
    var cursor := Parse(raw, isDate);
    if cursor.None? {
      return MalformedCursor;
    }
    if status.Some? {
      var page := store.PageByStatus(org, status.value, limit, cursor.value);
      return Served(page);
    }
    var page := store.PageRecent(org, limit, cursor.value);
    return Served(page);
  }

  /** What one page leaves to do. */
  lemma PageAdvances(page: ActionPage, rows: set<StoredAction>, desc: bool, cursor: Option<Pos>, limit: nat,
                     isDate: JsString -> bool)
    requires IsActionPage(page, rows, desc, cursor, limit) && Dated(rows, isDate)
    requires forall r, s :: r in rows && s in rows && PosOf(r) == PosOf(s) ==> r == s
    ensures Ordered(desc, PosList(page.items)) && forall r :: r in page.items ==> r in Remaining(rows, desc, cursor)
    ensures page.nextCursor.None? ==> forall r :: r in page.items <==> r in Remaining(rows, desc, cursor)
    ensures page.nextCursor.Some? ==>
      exists last :: && Parse(page.nextCursor, isDate) == Some(Some(last))
                     && Splits(page.items, rows, desc, cursor, last)
  {
    var next :| page.nextCursor == Armoured(next)
      && IsPage(Page(PosList(page.items), next), PosSet(rows), desc, cursor, limit);
    forall r | r in page.items ensures r in Remaining(rows, desc, cursor) {
      var i :| 0 <= i < |page.items| && page.items[i] == r;
      assert PosList(page.items)[i] in PosList(page.items);
    }
    if next.None? {
      forall r | r in Remaining(rows, desc, cursor) ensures r in page.items {
        Found(page.items, rows, r);
      }
    } else {
      var last := next.value;
      CursorRoundTrip(last, isDate);
      assert page.items[limit - 1] in page.items;
      SplitsHere(page, rows, desc, cursor, last, limit);
    }
  }

  lemma Found(items: seq<StoredAction>, rows: set<StoredAction>, r: StoredAction)
    requires forall x :: x in items ==> x in rows
    requires forall x, y :: x in rows && y in rows && PosOf(x) == PosOf(y) ==> x == y
    requires r in rows && (PosOf(r) in PosSet(rows) ==> PosOf(r) in PosList(items))
    ensures r in items
  {
    var i :| 0 <= i < |items| && PosList(items)[i] == PosOf(r);
    assert items[i] in items;
  }

  /** The page is what lies beyond the cursor up to `last`. */
  ghost predicate Splits(items: seq<StoredAction>, rows: set<StoredAction>, desc: bool, cursor: Option<Pos>,
                         last: Pos) {
    && (forall r :: r in items <==> r in Remaining(rows, desc, cursor) && !Ahead(desc, last, PosOf(r)))
    && (forall r :: r in Remaining(rows, desc, Some(last)) ==> r in Remaining(rows, desc, cursor))
    && items != []
  }

  lemma SplitsHere(page: ActionPage, rows: set<StoredAction>, desc: bool, cursor: Option<Pos>, last: Pos, limit: nat)
    requires forall r, s :: r in rows && s in rows && PosOf(r) == PosOf(s) ==> r == s
    requires forall r :: r in page.items ==> r in Remaining(rows, desc, cursor)
    requires IsPage(Page(PosList(page.items), Some(last)), PosSet(rows), desc, cursor, limit)
    ensures Splits(page.items, rows, desc, cursor, last)
  {
    var pos := PosList(page.items);
    forall r | r in page.items ensures !Ahead(desc, last, PosOf(r)) {
      var i :| 0 <= i < |page.items| && page.items[i] == r;
      AheadIsStrictTotal(desc, last, pos[i], last);
    }
    forall r | r in Remaining(rows, desc, cursor) && !Ahead(desc, last, PosOf(r)) ensures r in page.items {
      Found(page.items, rows, r);
    }
    forall r | r in Remaining(rows, desc, Some(last)) ensures r in Remaining(rows, desc, cursor) {
      if cursor.Some? {
        assert pos[limit - 1] in pos;
        AheadIsStrictTotal(desc, cursor.value, last, PosOf(r));
      }
    }
  }

  /** Yielded so far: exactly the rows beyond the start and, while there is more to
      come, not beyond the cursor. */
  ghost predicate Halfway(yielded: seq<StoredAction>, rows: set<StoredAction>, desc: bool, from: Option<Pos>,
                          at: Option<Pos>, more: bool) {
    && (forall r :: r in yielded <==> r in Remaining(rows, desc, from) && !(more && Beyond(desc, at, PosOf(r))))
    && (more ==> forall r :: r in Remaining(rows, desc, at) ==> r in Remaining(rows, desc, from))
  }

  lemma Continues(yielded: seq<StoredAction>, items: seq<StoredAction>, rows: set<StoredAction>, desc: bool,
                  from: Option<Pos>, at: Option<Pos>)
    requires Ordered(desc, PosList(yielded)) && Ordered(desc, PosList(items))
    requires Halfway(yielded, rows, desc, from, at, true)
    requires forall r :: r in items ==> r in Remaining(rows, desc, at)
    ensures Ordered(desc, PosList(yielded + items))
  {
    var pos := PosList(yielded + items);
    forall i, j | 0 <= i < j < |pos| ensures Ahead(desc, pos[i], pos[j]) {
      if j < |yielded| {
        assert Ahead(desc, PosList(yielded)[i], PosList(yielded)[j]);
      } else if |yielded| <= i {
        assert Ahead(desc, PosList(items)[i - |yielded|], PosList(items)[j - |yielded|]);
      } else {
        assert yielded[i] in yielded && items[j - |yielded|] in items;
        var r, q := PosOf(yielded[i]), PosOf(items[j - |yielded|]);
        AheadIsStrictTotal(desc, r, at.value, q);
        AheadIsStrictTotal(desc, at.value, r, q);
      }
    }
  }

  lemma ContinuesMore(yielded: seq<StoredAction>, items: seq<StoredAction>, rows: set<StoredAction>, desc: bool,
                      from: Option<Pos>, at: Option<Pos>, last: Pos)
    requires Halfway(yielded, rows, desc, from, at, true) && Splits(items, rows, desc, at, last)
    ensures Halfway(yielded + items, rows, desc, from, Some(last), true)
    ensures Remaining(rows, desc, Some(last)) < Remaining(rows, desc, at)
  {
    assert items[0] in items;
    forall r
      ensures r in yielded + items <==> r in Remaining(rows, desc, from) && !Ahead(desc, last, PosOf(r))
    {
      assert r in yielded + items <==> r in yielded || r in items;
      assert r in Remaining(rows, desc, Some(last)) ==> r in Remaining(rows, desc, at);
      assert r in items ==> r in Remaining(rows, desc, at);
    }
  }

  /** Iterating a listing that does not change yields each of its rows beyond the
      starting cursor once, in order, and stops. */
  method IterateActions(store: MemStore, org: string, status: Option<Status>, limit: Limit, start: Option<JsString>,
                        isDate: JsString -> bool)
    returns (yielded: seq<StoredAction>, malformed: bool)
    requires store.Valid() && Dated(store.Rows(org, status), isDate)
    ensures malformed <==> Parse(start, isDate).None?
    ensures malformed ==> yielded == []
    ensures !malformed ==>
      && Ordered(status.None?, PosList(yielded))
      && forall r ::
           r in yielded
           <==> r in store.Rows(org, status) && Beyond(status.None?, Parse(start, isDate).value, PosOf(r))
  {
    yielded := [];
    ghost var rows := store.Rows(org, status);
    ghost var desc := status.None?;
    ghost var from := if Parse(start, isDate).Some? then Parse(start, isDate).value else None;
    ghost var at := from;
    var cursor := start;
    var more := true;
    while more
      invariant Parse(start, isDate).None? ==> cursor == start && yielded == [] && more
      invariant Parse(start, isDate).Some? && more ==> Parse(cursor, isDate) == Some(at)
      invariant Parse(start, isDate).Some? ==>
                Ordered(desc, PosList(yielded)) && Halfway(yielded, rows, desc, from, at, more)
      decreases more, Remaining(rows, desc, at)
    {
      var served := PageActions(store, org, status, limit, cursor, isDate);
      if served.MalformedCursor? {
        return [], true;
      }
      PageAdvances(served.page, rows, desc, at, ClampPageSize(limit), isDate);
      Continues(yielded, served.page.items, rows, desc, from, at);
      yielded, cursor, more := yielded + served.page.items, served.page.nextCursor, served.page.nextCursor.Some?;
      if more {
        ghost var last :| Parse(cursor, isDate) == Some(Some(last)) && Splits(served.page.items, rows, desc, at, last);
        ContinuesMore(yielded[..|yielded| - |served.page.items|], served.page.items, rows, desc, from, at, last);
        at := Some(last);
      }
    }
    malformed := false;
  }
}
