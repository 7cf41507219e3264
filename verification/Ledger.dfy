/** The durable ledger: one row per idempotency key, patched in place, and the
    sums over it that budgets and rate limits read.

    A key is the triple its digest is taken of; the digest itself is opaque and
    collision-free.  `log` is the history of what was inserted, moved and called. */
module ActionLedger {
  import opened Prelude

  datatype Status = Pending | Running | Succeeded | Failed | AwaitingApproval | Approved | Rejected | Denied

  datatype Args = SagaStep(sagaId: string, step: nat) | OtherArgs(canonical: string)
  datatype Key = Key(tool: string, args: Args, scope: Option<string>)

  datatype Reason =
    | Text(s: string)
    | BudgetExceeded(scope: Option<string>, projected: real, limit: real)
    | RateExceeded(scope: Option<string>, count: nat, cap: int, windowMs: int)

  /** What a caller can be thrown. */
  datatype Raise =
    | ApprovalRequired(reason: Reason)
    | DuplicateInFlight
    | ActionRejected(why: Option<Reason>)
    | PolicyDenied(reason: Reason)
    | Failure(message: string)

  datatype Done = Gave(v: Value) | Raised(raise: Raise)

  datatype Row = Row(cost: real, status: Status, result: Value, error: Option<Raise>, reason: Option<Reason>,
                     attempts: nat, createdAt: int)

  datatype Entry =
    | Inserted(key: Key)
    | Moved(key: Key, from: Status, to: Status)
    | Executed(key: Key, given: Value, done: Done)

  datatype Ledger = Ledger(rows: map<Key, Row>, log: seq<Entry>)

  const Empty := Ledger(map[], [])

  /** Statuses that do not count toward budgets and rate limits. */
  predicate Counts(s: Status) {
    s != Failed && s != Denied && s != Rejected
  }

  // ---------------------------------------------------------------- store operations

  function Note(l: Ledger, e: Entry): Ledger {
    l.(log := l.log + [e])
  }

  function InsertPending(l: Ledger, key: Key, cost: real, now: int): Ledger {
    if key in l.rows then l
    else
      Note(l.(rows := l.rows[key := Row(cost, Pending, Undefined, None, None, 0, now)]), Inserted(key))
  }

  /** Overwrite a row, if there is one, and note its change of status. */
  function Patch(l: Ledger, key: Key, patched: Row -> Row): Ledger {
    if key !in l.rows then l
    else
      var r := patched(l.rows[key]);
      Note(l.(rows := l.rows[key := r]), Moved(key, l.rows[key].status, r.status))
  }

  function MarkRunning(l: Ledger, key: Key): Ledger {
    Patch(l, key, (r: Row) => r.(status := Running, attempts := r.attempts + 1))
  }

  function MarkSucceeded(l: Ledger, key: Key, result: Value): Ledger {
    Patch(l, key, (r: Row) => r.(status := Succeeded, result := result))
  }

  function MarkFailed(l: Ledger, key: Key, error: Raise): Ledger {
    Patch(l, key, (r: Row) => r.(status := Failed, error := Some(error)))
  }

  function MarkAwaitingApproval(l: Ledger, key: Key, reason: Reason): Ledger {
    Patch(l, key, (r: Row) => r.(status := AwaitingApproval, reason := Some(reason)))
  }

  function MarkApproved(l: Ledger, key: Key): Ledger {
    Patch(l, key, (r: Row) => r.(status := Approved))
  }

  function MarkRejected(l: Ledger, key: Key, reason: Reason): Ledger {
    Patch(l, key, (r: Row) => r.(status := Rejected, reason := Some(reason)))
  }

  function MarkDenied(l: Ledger, key: Key, reason: Reason): Ledger {
    Patch(l, key, (r: Row) => r.(status := Denied, reason := Some(reason)))
  }

  // ---------------------------------------------------------------- aggregates

  datatype Filter = Filter(scope: Option<string>, tool: Option<string>, since: Option<int>)
  datatype Stats = Stats(count: nat, totalCost: real)

  /** An empty tool name filters nothing. */
  predicate Matches(f: Filter, key: Key, r: Row) {
    && key.scope == f.scope
    && (f.tool.Some? && f.tool.value != "" ==> key.tool == f.tool.value)
    && (f.since.Some? ==> r.createdAt >= f.since.value)
    && Counts(r.status)
  }

  ghost function Matching(rows: map<Key, Row>, f: Filter): set<Key> {
    set k | k in rows && Matches(f, k, rows[k])
  }

  ghost function SumCost(rows: map<Key, Row>, keys: set<Key>): real
    requires keys <= rows.Keys
  {
    if keys == {} then 0.0
    else
      var k :| k in keys;
      rows[k].cost + SumCost(rows, keys - {k})
  }

  ghost function StatsOf(rows: map<Key, Row>, f: Filter): Stats {
    Stats(|Matching(rows, f)|, SumCost(rows, Matching(rows, f)))
  }

  /** The sum does not depend on the order of summation. */
  lemma {:induction false} SumCostTakes(rows: map<Key, Row>, keys: set<Key>, k: Key)
    requires keys <= rows.Keys && k in keys
    ensures SumCost(rows, keys) == rows[k].cost + SumCost(rows, keys - {k})
  {
    var x :| x in keys && SumCost(rows, keys) == rows[x].cost + SumCost(rows, keys - {x});
    if x != k {
      SumCostTakes(rows, keys - {x}, k);
      SumCostTakes(rows, keys - {k}, x);
      assert keys - {x} - {k} == keys - {k} - {x};
    }
  }

  lemma SumCostAdds(rows: map<Key, Row>, keys: set<Key>, k: Key)
    requires keys <= rows.Keys && k in rows && k !in keys
    ensures SumCost(rows, keys + {k}) == rows[k].cost + SumCost(rows, keys)
  {
    SumCostTakes(rows, keys + {k}, k);
    assert keys + {k} - {k} == keys;
  }

  lemma {:induction false} SumCostFrame(rows: map<Key, Row>, rows': map<Key, Row>, keys: set<Key>)
    requires keys <= rows.Keys && keys <= rows'.Keys
    requires forall k :: k in keys ==> rows[k].cost == rows'[k].cost
    ensures SumCost(rows, keys) == SumCost(rows', keys)
  {
    if keys != {} {
      var k :| k in keys;
      SumCostTakes(rows, keys, k);
      SumCostTakes(rows', keys, k);
      SumCostFrame(rows, rows', keys - {k});
    }
  }
}
