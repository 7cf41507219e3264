/** The hosted service's in-memory store: action rows by org and key with keyset
    pages over them, and Idempotency-Key records. */
module ApiStore {
  import opened Prelude
  import opened ActionLedger
  import opened CodeUnits
  import opened Pagination
  import opened Sorting

  datatype StoredAction = StoredAction(key: JsString, tool: string, cost: real, status: Status, attempts: nat,
                                       createdAt: JsString, result: Option<Value>, error: Option<string>,
                                         reason: Option<string>)

  datatype TransitionPatch = TransitionPatch(status: Status, incrementAttempts: bool, result: Option<Value>,
                                             error: Option<string>, reason: Option<string>)

  /** `createdAt` is None when it does not parse as a date. */
  datatype IdemRecord = IdemRecord(fingerprint: string, createdAt: Option<int>, statusCode: Option<int>, body: Value)

  function OrNull(v: Value): Value {
    if v == Undefined then Json("null") else v
  }

  datatype ActionPage = ActionPage(items: seq<StoredAction>, nextCursor: Option<JsString>)

  function Patched(row: StoredAction, patch: TransitionPatch): StoredAction {
    row.(status := patch.status,
         attempts := if patch.incrementAttempts then row.attempts + 1 else row.attempts,
         result := if patch.result.Some? then patch.result else row.result,
         error := if patch.error.Some? then patch.error else row.error,
         reason := if patch.reason.Some? then patch.reason else row.reason)
  }

  function AllPatched(row: StoredAction, patches: seq<TransitionPatch>): StoredAction {
    if patches == [] then row
    else Patched(AllPatched(row, patches[..|patches| - 1]), patches[|patches| - 1])
  }

  function Increments(patches: seq<TransitionPatch>): nat {
    if patches == [] then 0
    else Increments(patches[..|patches| - 1]) + if patches[|patches| - 1].incrementAttempts then 1 else 0
  }

  /** From patch k on none carries this. */
  predicate NoResult(patches: seq<TransitionPatch>, k: nat) {
    forall j :: k <= j < |patches| ==> patches[j].result.None?
  }

  predicate NoError(patches: seq<TransitionPatch>, k: nat) {
    forall j :: k <= j < |patches| ==> patches[j].error.None?
  }

  predicate NoReason(patches: seq<TransitionPatch>, k: nat) {
    forall j :: k <= j < |patches| ==> patches[j].reason.None?
  }

  /** After any transitions a row has the last status and counts every attempt it was told
      to; the last result, error and reason given stay; and who it is never changes. */
  lemma {:induction false} PatchesAddUp(row: StoredAction, patches: seq<TransitionPatch>, k: nat)
    requires k < |patches|
    ensures var end := AllPatched(row, patches);
            && end.status == patches[|patches| - 1].status && end.attempts == row.attempts + Increments(patches)
            && end.key == row.key && end.tool == row.tool && end.cost == row.cost && end.createdAt == row.createdAt
            && (patches[k].result.Some? && NoResult(patches, k + 1) ==> end.result == patches[k].result)
            && (patches[k].error.Some? && NoError(patches, k + 1) ==> end.error == patches[k].error)
            && (patches[k].reason.Some? && NoReason(patches, k + 1) ==> end.reason == patches[k].reason)
            && (NoResult(patches, 0) ==> end.result == row.result)
            && (NoError(patches, 0) ==> end.error == row.error)
            && (NoReason(patches, 0) ==> end.reason == row.reason)
  {
    var rest := patches[..|patches| - 1];
    assert forall j :: 0 <= j < |rest| ==> rest[j] == patches[j];
    if rest != [] {
      PatchesAddUp(row, rest, if k < |rest| then k else 0);
    }
  }

  function PosOf(row: StoredAction): Pos {
    Pos(row.createdAt, row.key)
  }

  function PosList(rows: seq<StoredAction>): (r: seq<Pos>)
    ensures |r| == |rows|
    ensures forall i :: 0 <= i < |r| ==> r[i] == PosOf(rows[i])
  {
    seq(|rows|, i requires 0 <= i < |rows| => PosOf(rows[i]))
  }

  /** At or ahead of, in listing order. */
  predicate NotAfter(desc: bool, a: StoredAction, b: StoredAction) {
    !Ahead(desc, PosOf(b), PosOf(a))
  }

  lemma NotAfterIsOrder(desc: bool)
    ensures TotalPreorder((a, b) => NotAfter(desc, a, b))
  {
    forall x: StoredAction, y: StoredAction ensures NotAfter(desc, x, y) || NotAfter(desc, y, x) {
      AheadIsStrictTotal(desc, PosOf(x), PosOf(y), PosOf(x));
    }
    forall x: StoredAction, y: StoredAction, z: StoredAction | NotAfter(desc, x, y) && NotAfter(desc, y, z)
      ensures NotAfter(desc, x, z)
    {
      AheadIsStrictTotal(desc, PosOf(x), PosOf(y), PosOf(z));
      AheadIsStrictTotal(desc, PosOf(z), PosOf(x), PosOf(y));
      AheadIsStrictTotal(desc, PosOf(y), PosOf(z), PosOf(x));
    }
  }

  /** Distinct rows of one org sit at distinct positions, so their sort is strict. */
  lemma SortedIsOrdered(rows: seq<StoredAction>, desc: bool)
    requires SortedBy(rows, (a, b) => NotAfter(desc, a, b)) && NoRepeats(rows)
    requires forall r, s :: r in rows && s in rows && r.key == s.key ==> r == s
    ensures Ordered(desc, PosList(rows))
  {
    NoRepeatsByIndex(rows);
    var pos := PosList(rows);
    forall i, j | 0 <= i < j < |pos| ensures Ahead(desc, pos[i], pos[j]) {
      var le := (a, b) => NotAfter(desc, a, b);
      assert le(rows[i], rows[j]);
      assert rows[i] in rows && rows[j] in rows && rows[i] != rows[j];
      AheadIsStrictTotal(desc, pos[i], pos[j], pos[i]);
    }
  }

  class MemStore {
    var actions: map<(string, JsString), StoredAction>
    var idempotency: map<(string, string), IdemRecord>

    ghost predicate Valid()
      reads this
    {
      forall o, k :: (o, k) in actions ==> actions[(o, k)].key == k
    }

    constructor ()
      ensures Valid() && actions == map[] && idempotency == map[]
    {
      actions := map[];
      idempotency := map[];
    }

    method GetAction(org: string, key: JsString) returns (r: Option<StoredAction>)
      ensures r == if (org, key) in actions then Some(actions[(org, key)]) else None
    {
      r := if (org, key) in actions then Some(actions[(org, key)]) else None;
    }

    method InsertPending(org: string, key: JsString, tool: string, cost: real, now: JsString) returns (inserted: bool)
      requires Valid()
      modifies this`actions
      ensures Valid()
      ensures inserted <==> (org, key) !in old(actions)
      ensures actions
              == if inserted then old(actions)[(org, key) := StoredAction(key, tool, cost, Pending, 0, now, None,
                None, None)]
                         else old(actions)
    {
      if (org, key) in actions {
        return false;
      }
      actions := actions[(org, key) := StoredAction(key, tool, cost, Pending, 0, now, None, None, None)];
      inserted := true;
    }

    method ApplyTransition(org: string, key: JsString, patch: TransitionPatch)
      requires Valid()
      modifies this`actions
      ensures Valid()
      ensures actions
              == if (org, key) in old(actions) then old(actions)[(org, key) := Patched(old(actions)[(org, key)], patch)]
                         else old(actions)
    {
      if (org, key) in actions {
        actions := actions[(org, key) := Patched(actions[(org, key)], patch)];
      }
    }

    // -------------------------------------------------------------- Idempotency-Key records

    /** Claims the key, or returns the record already there. */
    method ClaimIdempotency(org: string, idemKey: string, fingerprint: string, createdAt: Option<int>)
      returns (existing: Option<IdemRecord>)
      modifies this`idempotency
      ensures existing == if (org, idemKey) in old(idempotency) then Some(old(idempotency)[(org, idemKey)]) else None
      ensures idempotency == if existing.Some? then old(idempotency)
                             else old(idempotency)[(org, idemKey) := IdemRecord(fingerprint, createdAt, None,
                               Json("null"))]
    {
      if (org, idemKey) in idempotency {
        return Some(idempotency[(org, idemKey)]);
      }
      idempotency := idempotency[(org, idemKey) := IdemRecord(fingerprint, createdAt, None, Json("null"))];
      existing := None;
    }

    method CompleteIdempotency(org: string, idemKey: string, statusCode: int, body: Value)
      modifies this`idempotency
      ensures var k := (org, idemKey);
              idempotency == if k in old(idempotency)
                             then old(idempotency)[k := old(idempotency)[k].(statusCode := Some(statusCode),
                               body := OrNull(body))]
                             else old(idempotency)
    {
      var k := (org, idemKey);
      if k in idempotency {
        idempotency := idempotency[k := idempotency[k].(statusCode := Some(statusCode), body := OrNull(body))];
      }
    }

    method DeleteIdempotency(org: string, idemKey: string)
      modifies this`idempotency
      ensures idempotency == old(idempotency) - {(org, idemKey)}
    {
      idempotency := idempotency - {(org, idemKey)};
    }

    // -------------------------------------------------------------- pages

    predicate Listed(org: string, status: Option<Status>, k: (string, JsString))
      reads this
    {
      k in actions && k.0 == org && (status.None? || actions[k].status == status.value)
    }

    /** The rows a listing is over. */
    ghost function Rows(org: string, status: Option<Status>): set<StoredAction>
      reads this
    {
      set k | k in actions && Listed(org, status, k) :: actions[k]
    }

    ghost function Positions(org: string, status: Option<Status>): set<Pos>
      reads this
    {
      set k | k in actions && Listed(org, status, k) :: PosOf(actions[k])
    }

    method Select(org: string, status: Option<Status>) returns (rows: seq<StoredAction>)
      requires Valid()
      ensures NoRepeats(rows) && forall r :: r in rows <==> r in Rows(org, status)
    {
      rows := [];
      var rest := actions.Keys;
      while rest != {}
        invariant rest <= actions.Keys && NoRepeats(rows)
        invariant forall r ::
          r in rows <==> exists k :: k in actions && k !in rest && Listed(org, status, k) && actions[k] == r
        decreases rest
      {
        var k :| k in rest;
        if Listed(org, status, k) {
          assert actions[k] !in rows;
          assert multiset(rows + [actions[k]]) == multiset(rows) + multiset{actions[k]};
          rows := rows + [actions[k]];
        }
        rest := rest - {k};
      }
    }

    method AfterCursor(rows: seq<StoredAction>, desc: bool, cursor: Option<Pos>) returns (after: seq<StoredAction>)
      requires Ordered(desc, PosList(rows))
      ensures Ordered(desc, PosList(after))
      ensures forall r :: r in after <==> r in rows && Beyond(desc, cursor, PosOf(r))
    {
      if cursor.None? {
        return rows;
      }
      after := [];
      for i := 0 to |rows|
        invariant Ordered(desc, PosList(after))
        invariant forall r :: r in after <==> r in rows[..i] && Ahead(desc, cursor.value, PosOf(r))
      {
        if Ahead(desc, cursor.value, PosOf(rows[i])) {
          after := after + [rows[i]];
        }
      }
    }

    method Fetch(org: string, status: Option<Status>, desc: bool, limit: Limit, cursor: Option<Pos>)
      returns (page: ActionPage)
      requires Valid()
      ensures IsActionPage(page, Rows(org, status), desc, cursor, ClampPageSize(limit))
    {
      var rows := Select(org, status);
      var sorted := Sort(rows, (a, b) => NotAfter(desc, a, b));
      SortedRows(rows, desc);
      var after := AfterCursor(sorted, desc, cursor);
      var size := ClampPageSize(limit);
      page := BuildActionPage(if |after| > size + 1 then after[..size + 1] else after, size);
      BuildIsActionPage(after, Rows(org, status), desc, cursor, size);
    }

    /** Oldest first. */
    method PageByStatus(org: string, status: Status, limit: Limit, cursor: Option<Pos>) returns (page: ActionPage)
      requires Valid()
      ensures IsActionPage(page, Rows(org, Some(status)), false, cursor, ClampPageSize(limit))
    {
      page := Fetch(org, Some(status), false, limit, cursor);
    }

    /** Newest first. */
    method PageRecent(org: string, limit: Limit, cursor: Option<Pos>) returns (page: ActionPage)
      requires Valid()
      ensures IsActionPage(page, Rows(org, None), true, cursor, ClampPageSize(limit))
    {
      page := Fetch(org, None, true, limit, cursor);
    }
  }

  function Armoured(next: Option<Pos>): Option<JsString> {
    if next.None? then None else Some(EncodeCursor(next.value))
  }

  function BuildActionPage(rows: seq<StoredAction>, limit: nat): ActionPage {
    var hasMore := |rows| > limit;
    var items := if hasMore then rows[..limit] else rows;
    ActionPage(items, if hasMore && items != [] then Some(EncodeCursor(PosOf(items[|items| - 1]))) else None)
  }

  ghost function PosSet(rows: set<StoredAction>): set<Pos> {
    set r | r in rows :: PosOf(r)
  }

  /** A page of records: their positions make a page, and each is a row as stored. */
  ghost predicate IsActionPage(page: ActionPage, rows: set<StoredAction>, desc: bool, cursor: Option<Pos>, limit: nat) {
    && (forall r :: r in page.items ==> r in rows)
    && exists next ::
         && page.nextCursor == Armoured(next)
         && IsPage(Page(PosList(page.items), next), PosSet(rows), desc, cursor, limit)
  }

  lemma SortedRows(rows: seq<StoredAction>, desc: bool)
    requires NoRepeats(rows) && forall r, s :: r in rows && s in rows && r.key == s.key ==> r == s
    ensures var sorted := Sort(rows, (a, b) => NotAfter(desc, a, b));
            Ordered(desc, PosList(sorted)) && forall r :: r in sorted <==> r in rows
  {
    var le := (a, b) => NotAfter(desc, a, b);
    var sorted := Sort(rows, le);
    NotAfterIsOrder(desc);
    SortSorts(rows, le);
    assert NoRepeats(sorted);
    SortedIsOrdered(sorted, desc);
  }

  lemma BuildAgrees(rows: seq<StoredAction>, limit: nat)
    ensures var page, built := BuildActionPage(rows, limit), BuildPage(PosList(rows), limit);
            PosList(page.items) == built.items && page.nextCursor == Armoured(built.next)
  {
  }

  lemma PlacesBeyond(after: seq<StoredAction>, rows: set<StoredAction>, desc: bool, cursor: Option<Pos>)
    requires forall r :: r in after <==> r in rows && Beyond(desc, cursor, PosOf(r))
    ensures forall p :: p in PosList(after) <==> p in PosSet(rows) && Beyond(desc, cursor, p)
  {
    var pos := PosList(after);
    forall p | p in pos ensures p in PosSet(rows) && Beyond(desc, cursor, p) {
      var i :| 0 <= i < |pos| && pos[i] == p;
      assert after[i] in after;
    }
    forall p | p in PosSet(rows) && Beyond(desc, cursor, p) ensures p in pos {
      var r :| r in rows && PosOf(r) == p;
      var i :| 0 <= i < |after| && after[i] == r;
      assert pos[i] == p;
    }
  }

  lemma BuildIsActionPage(after: seq<StoredAction>, rows: set<StoredAction>, desc: bool, cursor: Option<Pos>,
                          limit: nat)
    requires limit > 0 && Ordered(desc, PosList(after))
    requires forall r :: r in after <==> r in rows && Beyond(desc, cursor, PosOf(r))
    ensures IsActionPage(BuildActionPage(if |after| > limit
            + 1 then after[..limit + 1] else after, limit), rows, desc, cursor, limit)
  {
    var fetched := if |after| > limit + 1 then after[..limit + 1] else after;
    var pos := PosList(after);
    PlacesBeyond(after, rows, desc, cursor);
    BuildIsPage(pos, PosSet(rows), desc, cursor, limit);
    assert PosList(fetched) == if |pos| > limit + 1 then pos[..limit + 1] else pos;
    BuildAgrees(fetched, limit);
    var page, built := BuildActionPage(fetched, limit), BuildPage(PosList(fetched), limit);
    assert built == Page(built.items, built.next);
    forall r | r in page.items ensures r in rows {
      assert r in after;
    }
    IsActionPageBy(page, rows, desc, cursor, limit, built.next);
  }

  lemma IsActionPageBy(page: ActionPage, rows: set<StoredAction>, desc: bool, cursor: Option<Pos>, limit: nat,
                       next: Option<Pos>)
    requires forall r :: r in page.items ==> r in rows
    requires page.nextCursor == Armoured(next)
             && IsPage(Page(PosList(page.items), next), PosSet(rows), desc, cursor, limit)
    ensures IsActionPage(page, rows, desc, cursor, limit)
  {
  }
}
