/** The in-memory ledger: a map of rows patched in place. */
module LedgerStore {
  import opened Prelude
  import opened ActionLedger

  lemma OneVisited(all: map<Key, Row>, f: Filter, rest: set<Key>, seen: set<Key>, k: Key)
    requires rest <= all.Keys && k in rest && seen == Matching(all, f) - rest
    ensures Matching(all, f) - (rest - {k}) == if Matches(f, k, all[k]) then seen + {k} else seen
    ensures k !in seen && SumCost(all, seen + {k}) == SumCost(all, seen) + all[k].cost
  {
    SumCostAdds(all, seen, k);
  }

  class InMemoryLedger {
    var rows: map<Key, Row>
    ghost var log: seq<Entry>

    ghost function State(): Ledger
      reads this
    {
      Ledger(rows, log)
    }

    constructor ()
      ensures State() == Empty
    {
      rows := map[];
      log := [];
    }

    /** Note that the caller's function was called; the ledger itself is not touched. */
    ghost method NoteExecuted(key: Key, given: Value, done: Done)
      modifies this`log
      ensures State() == Note(old(State()), Executed(key, given, done))
    {
      log := log + [Executed(key, given, done)];
    }

    method Get(key: Key) returns (r: Option<Row>)
      ensures r == if key in State().rows then Some(State().rows[key]) else None
    {
      r := if key in rows then Some(rows[key]) else None;
    }

    /** Only one caller can create the row. */
    method InsertPending(key: Key, cost: real, now: int) returns (inserted: bool)
      modifies this
      ensures inserted == (key !in old(State()).rows)
      ensures State() == ActionLedger.InsertPending(old(State()), key, cost, now)
    {
      if key in rows {
        return false;
      }
      rows := rows[key := Row(cost, Pending, Undefined, None, None, 0, now)];
      log := log + [Inserted(key)];
      inserted := true;
    }

    method Patch(key: Key, patched: Row -> Row)
      modifies this
      ensures State() == ActionLedger.Patch(old(State()), key, patched)
    {
      if key in rows {
        log := log + [Moved(key, rows[key].status, patched(rows[key]).status)];
        rows := rows[key := patched(rows[key])];
      }
    }

    method MarkRunning(key: Key)
      modifies this
      ensures State() == ActionLedger.MarkRunning(old(State()), key)
    {
      Patch(key, (r: Row) => r.(status := Running, attempts := r.attempts + 1));
    }

    method MarkSucceeded(key: Key, result: Value)
      modifies this
      ensures State() == ActionLedger.MarkSucceeded(old(State()), key, result)
    {
      Patch(key, (r: Row) => r.(status := Succeeded, result := result));
    }

    method MarkFailed(key: Key, error: Raise)
      modifies this
      ensures State() == ActionLedger.MarkFailed(old(State()), key, error)
    {
      Patch(key, (r: Row) => r.(status := Failed, error := Some(error)));
    }

    method MarkAwaitingApproval(key: Key, reason: Reason)
      modifies this
      ensures State() == ActionLedger.MarkAwaitingApproval(old(State()), key, reason)
    {
      Patch(key, (r: Row) => r.(status := AwaitingApproval, reason := Some(reason)));
    }

    method MarkApproved(key: Key)
      modifies this
      ensures State() == ActionLedger.MarkApproved(old(State()), key)
    {
      Patch(key, (r: Row) => r.(status := Approved));
    }

    method MarkRejected(key: Key, reason: Reason)
      modifies this
      ensures State() == ActionLedger.MarkRejected(old(State()), key, reason)
    {
      Patch(key, (r: Row) => r.(status := Rejected, reason := Some(reason)));
    }

    method MarkDenied(key: Key, reason: Reason)
      modifies this
      ensures State() == ActionLedger.MarkDenied(old(State()), key, reason)
    {
      Patch(key, (r: Row) => r.(status := Denied, reason := Some(reason)));
    }

    /** Count and cost of the matching rows that still count. */
    method Stats(f: Filter) returns (s: ActionLedger.Stats)
      ensures s == StatsOf(State().rows, f)
    {
      var count := 0;
      var totalCost := 0.0;
      var all := rows;
      var rest := all.Keys;
      ghost var wanted := Matching(all, f);
      ghost var seen: set<Key> := {};
      while rest != {}
        invariant rest <= all.Keys
        invariant seen == wanted - rest
        invariant count == |seen| && totalCost == SumCost(all, seen)
        decreases rest
      {
        var k :| k in rest;
        OneVisited(all, f, rest, seen, k);
        rest := rest - {k};
        if Matches(f, k, all[k]) {
          count := count + 1;
          totalCost := totalCost + all[k].cost;
          seen := seen + {k};
        }
      }
      assert seen == wanted;
      s := ActionLedger.Stats.Stats(count, totalCost);
    }
  }
}
