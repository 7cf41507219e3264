/** An all-time deny-mode budget carried by every run in a scope bounds what the
    scope ever has outstanding or spent. */
module BudgetTheorems {
  import opened Prelude
  import opened ActionLedger
  import opened Policies
  import opened RunSpec
  import opened RunTheorems

  ghost function Spending(l: Ledger, scope: Option<string>): set<Key> {
    Matching(l.rows, Filter(scope, None, None))
  }

  /** Total cost of the rows of the scope that count. */
  ghost function Spent(l: Ledger, scope: Option<string>): real {
    SumCost(l.rows, Spending(l, scope))
  }

  /** A budget over all tools and all time that denies when exceeded. */
  predicate AllTimeDeny(p: Policy, limit: real) {
    && p.Budget? && p.limit == limit && !p.approvalOnExceed
    && (p.windowMs.None? || p.windowMs.value == 0)
    && (p.tool.None? || p.tool.value == "")
  }

  /** Every run in the scope carries the budget, and a key's cost never varies. */
  ghost predicate Governed(req: Request, scope: Option<string>, limit: real, costOf: Key -> real) {
    && req.cost == costOf(req.key) && req.cost >= 0.0
    && (req.key.scope == scope ==> exists i :: 0 <= i < |req.policies| && AllTimeDeny(req.policies[i], limit))
  }

  ghost predicate Priced(l: Ledger, costOf: Key -> real) {
    forall k :: k in l.rows ==> l.rows[k].cost == costOf(k) && costOf(k) >= 0.0
  }

  function Cap(limit: real): real {
    if limit < 0.0 then 0.0 else limit
  }

  /** The one key a run touches, taken out of the sum. */
  ghost function Others(l: Ledger, scope: Option<string>, key: Key): real {
    SumCost(l.rows, Spending(l, scope) - {key})
  }

  ghost predicate Outstanding(l: Ledger, key: Key) {
    key in l.rows && Counts(l.rows[key].status)
  }

  lemma SpentSplits(l: Ledger, scope: Option<string>, key: Key)
    requires key.scope == scope
    ensures Spent(l, scope) == Others(l, scope, key) + if Outstanding(l, key) then l.rows[key].cost else 0.0
  {
    if Outstanding(l, key) {
      SumCostTakes(l.rows, Spending(l, scope), key);
    } else {
      assert Spending(l, scope) - {key} == Spending(l, scope);
    }
  }

  lemma OthersFrame(l: Ledger, l': Ledger, scope: Option<string>, key: Key)
    requires forall k :: k != key ==> RowOf(l', k) == RowOf(l, k)
    ensures Others(l', scope, key) == Others(l, scope, key)
  {
    forall k | k != key ensures k in Spending(l, scope) <==> k in Spending(l', scope) {
      assert RowOf(l', k) == RowOf(l, k);
    }
    var keys := Spending(l, scope) - {key};
    assert keys == Spending(l', scope) - {key};
    forall k | k in keys ensures l.rows[k].cost == l'.rows[k].cost {
      assert RowOf(l', k) == RowOf(l, k);
    }
    SumCostFrame(l.rows, l'.rows, keys);
  }

  ghost function DecisionOf(l: Ledger, req: Request, now: int): Decision {
    Combined(req.policies, Context(req.key, req.cost), l.rows, now)
  }

  /** A run that is not denied fits in the budget. */
  lemma NotDeniedFits(l: Ledger, req: Request, now: int, limit: real, costOf: Key -> real)
    requires Governed(req, req.key.scope, limit, costOf) && !DecisionOf(l, req, now).Deny?
    ensures Spent(l, req.key.scope) + req.cost <= limit
  {
    var i :| 0 <= i < |req.policies| && AllTimeDeny(req.policies[i], limit);
    MostRestrictiveWins(req.policies, Context(req.key, req.cost), l.rows, now);
    var p := req.policies[i];
    var ctx := Context(req.key, req.cost);
    assert !Verdict(p, ctx, l.rows, now).Deny?;
    SameMatches(l.rows, Filter(req.key.scope, p.tool, Window(p.windowMs, now)), Filter(req.key.scope, None, None));
  }

  lemma SameMatches(rows: map<Key, Row>, f: Filter, g: Filter)
    requires f.scope == g.scope && f.since == g.since
    requires (f.tool.None? || f.tool.value == "") && g.tool.None?
    ensures Matching(rows, f) == Matching(rows, g)
  {
  }

  /** The process died after inserting the row of a denied action and before
      marking it denied. */
  ghost predicate DiedBeforeDeny(l: Ledger, req: Request, now: int, budget: nat) {
    req.key !in l.rows && DecisionOf(l, req, now).Deny? && budget == 1
  }

  /** What one run leaves counting for its key. */
  lemma RunOutstanding(l: Ledger, req: Request, now: int, budget: nat)
    ensures var l' := Run(l, req, now, budget).ledger;
            && (Outstanding(l', req.key) && !Outstanding(l, req.key) ==>
                  !DecisionOf(l, req, now).Deny? || DiedBeforeDeny(l, req, now, budget))
            && (DiedBeforeDeny(l, req, now, budget) ==> Outstanding(l', req.key))
            && (req.key in l'.rows ==>
                  l'.rows[req.key].cost == if req.key in l.rows then l.rows[req.key].cost else req.cost)
  {
    RunSettles(l, req, now, budget);
    var decision := DecisionOf(l, req, now);
    if req.key !in l.rows && budget > 0 {
      var inserted := InsertPending(l, req.key, req.cost, now);
      DecideSettles(inserted, req, decision, budget - 1);
    }
  }

  /** One run keeps the scope within the budget unless it died in that window on an
      action the budget has no room for; and then it does not. */
  lemma BudgetKeptExactly(l: Ledger, req: Request, now: int, budget: nat, scope: Option<string>, limit: real,
                          costOf: Key -> real)
    requires Priced(l, costOf) && Governed(req, scope, limit, costOf) && Spent(l, scope) <= Cap(limit)
    ensures var l' := Run(l, req, now, budget).ledger;
            && Priced(l', costOf)
            && (Spent(l', scope) <= Cap(limit)
                <==> !(req.key.scope == scope && DiedBeforeDeny(l, req, now, budget)
                       && Spent(l, scope) + req.cost > Cap(limit)))
  {
    var l' := Run(l, req, now, budget).ledger;
    RunSettles(l, req, now, budget);
    RunOutstanding(l, req, now, budget);
    OthersFrame(l, l', scope, req.key);
    assert Priced(l', costOf) by {
      forall k | k in l'.rows ensures l'.rows[k].cost == costOf(k) && costOf(k) >= 0.0 {
        if k != req.key {
          assert RowOf(l', k) == RowOf(l, k);
        }
      }
    }
    if req.key.scope == scope {
      SpentSplits(l, scope, req.key);
      SpentSplits(l', scope, req.key);
      if !DecisionOf(l, req, now).Deny? {
        NotDeniedFits(l, req, now, limit, costOf);
      }
    } else {
      assert Spending(l, scope) - {req.key} == Spending(l, scope);
      assert Spending(l', scope) - {req.key} == Spending(l', scope);
    }
  }

  lemma ReviewSpends(l: Ledger, l': Ledger, key: Key, scope: Option<string>, costOf: Key -> real)
    requires Priced(l, costOf)
    requires l' == Approve(l, key) || exists reason :: l' == Reject(l, key, reason)
    ensures Priced(l', costOf) && Spent(l', scope) <= Spent(l, scope)
  {
    assert forall k :: k != key ==> RowOf(l', k) == RowOf(l, k);
    OthersFrame(l, l', scope, key);
    if key.scope == scope {
      SpentSplits(l, scope, key);
      SpentSplits(l', scope, key);
    } else {
      assert Spending(l, scope) - {key} == Spending(l, scope);
      assert Spending(l', scope) - {key} == Spending(l', scope);
    }
  }

  /** Every run of the sequence is governed, and none died in the window. */
  ghost predicate Disciplined(ops: seq<Op>, scope: Option<string>, limit: real, costOf: Key -> real) {
    forall i :: 0 <= i < |ops| && ops[i].DoRun? ==>
      && Governed(ops[i].req, scope, limit, costOf)
      && !DiedBeforeDeny(After(Empty, ops[..i]), ops[i].req, ops[i].now, ops[i].budget)
  }

  /** Budget safety over whole runs, retries of failed actions and runs resumed
      after approval included. */
  lemma {:induction false} BudgetNeverExceeded(ops: seq<Op>, scope: Option<string>, limit: real, costOf: Key -> real)
    requires Disciplined(ops, scope, limit, costOf)
    ensures Priced(After(Empty, ops), costOf) && Spent(After(Empty, ops), scope) <= Cap(limit)
  {
    if ops == [] {
      assert Spending(Empty, scope) == {};
    } else {
      var n := |ops| - 1;
      assert forall i :: 0 <= i < n ==> ops[..n][i] == ops[i] && ops[..n][..i] == ops[..i];
      BudgetNeverExceeded(ops[..n], scope, limit, costOf);
      var l := After(Empty, ops[..n]);
      match ops[n]
      case DoRun(req, now, budget) => BudgetKeptExactly(l, req, now, budget, scope, limit, costOf);
      case DoApprove(key) => ReviewSpends(l, Approve(l, key), key, scope, costOf);
      case DoReject(key, reason) => ReviewSpends(l, Reject(l, key, reason), key, scope, costOf);
    }
  }
}
