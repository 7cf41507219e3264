/** Budgets and rate limits over a rolling window, said in terms of the rows' own
    statuses and creation times. */
module WindowTheorems {
  import opened Prelude
  import opened ActionLedger
  import opened Policies
  import opened RunSpec
  import opened RunTheorems
  import opened BudgetTheorems

  /** Not failed, denied or rejected. */
  predicate Live(s: Status) {
    s in {Pending, Running, Succeeded, AwaitingApproval, Approved}
  }

  /** No tool, or an empty name, is every tool. */
  predicate OfTool(key: Key, tool: Option<string>) {
    tool.None? || tool.value == "" || key.tool == tool.value
  }

  /** The live rows of the scope and tool. */
  ghost function Ever(rows: map<Key, Row>, scope: Option<string>, tool: Option<string>): set<Key> {
    set k | k in rows && k.scope == scope && OfTool(k, tool) && Live(rows[k].status)
  }

  /** Those created at or after `since`. */
  ghost function Recent(rows: map<Key, Row>, scope: Option<string>, tool: Option<string>, since: int): set<Key> {
    set k | k in rows && k.scope == scope && OfTool(k, tool) && Live(rows[k].status) && rows[k].createdAt >= since
  }

  ghost function CostSince(l: Ledger, scope: Option<string>, tool: Option<string>, since: int): real {
    SumCost(l.rows, Recent(l.rows, scope, tool, since))
  }

  ghost function CountSince(l: Ledger, scope: Option<string>, tool: Option<string>, since: int): nat {
    |Recent(l.rows, scope, tool, since)|
  }

  // ---------------------------------------------------------------- what one policy decides

  function Refusal(approval: bool, reason: Reason): Decision {
    if approval then RequireApproval(reason) else Deny(reason)
  }

  /** A budget allows a call exactly when the live rows it covers, those created in the
      last windowMs if it has a window, and the call itself cost at most the limit. */
  lemma BudgetRules(p: Policy, ctx: Context, rows: map<Key, Row>, now: int)
    requires p.Budget?
    ensures var covered := if p.windowMs.None? || p.windowMs.value == 0 then Ever(rows, ctx.key.scope, p.tool)
                           else Recent(rows, ctx.key.scope, p.tool, now - p.windowMs.value);
            var projected := SumCost(rows, covered) + ctx.cost;
            Verdict(p, ctx, rows, now)
            == if projected <= p.limit then Allow
               else Refusal(p.approvalOnExceed, BudgetExceeded(ctx.key.scope, projected, p.limit))
  {
    if p.windowMs.None? || p.windowMs.value == 0 {
      assert Matching(rows, Filter(ctx.key.scope, p.tool, None)) == Ever(rows, ctx.key.scope, p.tool);
    } else {
      var since := now - p.windowMs.value;
      assert Matching(rows, Filter(ctx.key.scope, p.tool, Some(since))) == Recent(rows, ctx.key.scope, p.tool, since);
    }
  }

  /** A rate limit allows a call exactly when fewer than its cap of live rows were created
      in the last periodMs. */
  lemma RateRules(p: Policy, ctx: Context, rows: map<Key, Row>, now: int)
    requires p.RateLimit?
    ensures var count := |Recent(rows, ctx.key.scope, p.tool, now - p.periodMs)|;
            Verdict(p, ctx, rows, now)
            == if count < p.cap then Allow
               else Refusal(p.approvalOnExceed, RateExceeded(ctx.key.scope, count, p.cap, p.periodMs))
  {
    var since := now - p.periodMs;
    assert Matching(rows, Filter(ctx.key.scope, p.tool, Some(since))) == Recent(rows, ctx.key.scope, p.tool, since);
  }

  /** What an all-time budget counts is the cost of the scope's live rows. */
  lemma SpentIsLive(l: Ledger, scope: Option<string>)
    ensures Spent(l, scope) == SumCost(l.rows, Ever(l.rows, scope, None))
  {
    assert Spending(l, scope) == Ever(l.rows, scope, None);
  }

  // ---------------------------------------------------------------- what one call adds to a window

  lemma {:induction false} ExecuteDates(l: Ledger, req: Request, attempt: int, last: Raise, budget: nat)
    requires req.key in l.rows
    ensures var l' := Execute(l, req, attempt, last, budget).ledger;
            req.key in l'.rows && l'.rows[req.key].createdAt == l.rows[req.key].createdAt
    decreases req.retries - attempt
  {
    if attempt <= req.retries && budget > 1 && req.execute(attempt).Raised? {
      var called := Note(MarkRunning(l, req.key), Executed(req.key, req.given, req.execute(attempt)));
      ExecuteDates(called, req, attempt + 1, req.execute(attempt).raise, budget - 2);
    }
  }

  /** A row keeps the time it was created at. */
  lemma RunDates(l: Ledger, req: Request, now: int, budget: nat)
    ensures var l' := Run(l, req, now, budget).ledger;
            req.key in l'.rows ==>
              l'.rows[req.key].createdAt == if req.key in l.rows then l.rows[req.key].createdAt else now
  {
    var decision := DecisionOf(l, req, now);
    if req.key !in l.rows {
      if budget > 0 && decision.Allow? {
        ExecuteDates(InsertPending(l, req.key, req.cost, now), req, 0, NoError, budget - 1);
      }
    } else {
      ExecuteDates(l, req, 0, NoError, budget);
    }
  }

  /** From l to l' at most `key` joins the window, and only if `joins`. */
  ghost predicate Adds(l: Ledger, l': Ledger, key: Key, joins: bool, scope: Option<string>, tool: Option<string>,
                       since: int) {
    var before, after := Recent(l.rows, scope, tool, since), Recent(l'.rows, scope, tool, since);
    && (forall k :: k in after ==> k in before || (k == key && joins))
    && (forall k :: k in after && k in before ==> l'.rows[k].cost == l.rows[k].cost)
  }

  lemma RunAdds(l: Ledger, req: Request, now: int, budget: nat, scope: Option<string>, tool: Option<string>, since: int)
    ensures Adds(l, Run(l, req, now, budget).ledger, req.key,
                 req.key.scope == scope && OfTool(req.key, tool)
                 && (!DecisionOf(l, req, now).Deny? || DiedBeforeDeny(l, req, now, budget)), scope, tool, since)
  {
    var l' := Run(l, req, now, budget).ledger;
    RunSettles(l, req, now, budget);
    RunOutstanding(l, req, now, budget);
    RunDates(l, req, now, budget);
    forall k | k in Recent(l'.rows, scope, tool, since) && k != req.key
      ensures k in Recent(l.rows, scope, tool, since) && l'.rows[k].cost == l.rows[k].cost
    {
      assert RowOf(l', k) == RowOf(l, k);
    }
  }

  lemma ReviewAdds(l: Ledger, key: Key, reason: Reason, scope: Option<string>, tool: Option<string>, since: int)
    ensures Adds(l, Approve(l, key), key, false, scope, tool, since)
    ensures Adds(l, Reject(l, key, reason), key, false, scope, tool, since)
  {
  }

  lemma {:induction false} SumWithin(rows: map<Key, Row>, a: set<Key>, b: set<Key>)
    requires a <= b <= rows.Keys && forall k :: k in b ==> rows[k].cost >= 0.0
    ensures SumCost(rows, a) <= SumCost(rows, b)
  {
    if b != {} {
      var k :| k in b;
      SumCostTakes(rows, b, k);
      if k in a {
        SumCostTakes(rows, a, k);
        SumWithin(rows, a - {k}, b - {k});
      } else {
        SumWithin(rows, a, b - {k});
      }
    }
  }

  lemma AddedCost(l: Ledger, l': Ledger, key: Key, joins: bool, scope: Option<string>, tool: Option<string>, since: int,
                  costOf: Key -> real)
    requires Priced(l, costOf) && Priced(l', costOf) && Adds(l, l', key, joins, scope, tool, since)
    ensures CostSince(l', scope, tool, since)
         <= CostSince(l, scope, tool, since)
            + if joins && key !in Recent(l.rows, scope, tool, since) && key in l'.rows then costOf(key) else 0.0
  {
    var before, after := Recent(l.rows, scope, tool, since), Recent(l'.rows, scope, tool, since);
    var rest := after - {key};
    if key in after {
      SumCostTakes(l'.rows, after, key);
    } else {
      assert rest == after;
    }
    if key in before {
      SumCostTakes(l.rows, before, key);
      SumWithin(l.rows, rest, before - {key});
    } else {
      SumWithin(l.rows, rest, before);
    }
    SumCostFrame(l.rows, l'.rows, rest);
  }

  lemma {:induction false} SizeWithin<T>(a: set<T>, b: set<T>)
    requires a <= b
    ensures |a| <= |b|
  {
    if a != {} {
      var x :| x in a;
      SizeWithin(a - {x}, b - {x});
    }
  }

  lemma AddedCount(l: Ledger, l': Ledger, key: Key, joins: bool, scope: Option<string>, tool: Option<string>,
                   since: int)
    requires Adds(l, l', key, joins, scope, tool, since)
    ensures CountSince(l', scope, tool, since) <= CountSince(l, scope, tool, since) + if joins then 1 else 0
  {
    var before, after := Recent(l.rows, scope, tool, since), Recent(l'.rows, scope, tool, since);
    SizeWithin(after, if joins then before + {key} else before);
  }

  /** A shorter window holds less. */
  lemma LaterIsLess(l: Ledger, scope: Option<string>, tool: Option<string>, since: int, later: int, costOf: Key -> real)
    requires Priced(l, costOf) && since <= later
    ensures CostSince(l, scope, tool, later) <= CostSince(l, scope, tool, since)
    ensures CountSince(l, scope, tool, later) <= CountSince(l, scope, tool, since)
  {
    SumWithin(l.rows, Recent(l.rows, scope, tool, later), Recent(l.rows, scope, tool, since));
    SizeWithin(Recent(l.rows, scope, tool, later), Recent(l.rows, scope, tool, since));
  }

  // ---------------------------------------------------------------- windowed budgets over whole runs

  /** The run carries this deny-mode budget, if it is of the scope and tool. */
  ghost predicate Capped(req: Request, scope: Option<string>, tool: Option<string>, limit: real, windowMs: int,
                         costOf: Key -> real) {
    && req.cost == costOf(req.key) && req.cost >= 0.0
    && (req.key.scope == scope && OfTool(req.key, tool) ==>
          exists i :: 0 <= i < |req.policies| && req.policies[i] == Budget(limit, Some(windowMs), tool, false))
  }

  /** A run that carries such a budget and is not denied leaves room for itself: the live
      rows of the last windowMs and the run cost at most the limit. */
  lemma NotDeniedFitsWindow(l: Ledger, req: Request, now: int, tool: Option<string>, limit: real, windowMs: int, i: nat)
    requires i < |req.policies| && req.policies[i] == Budget(limit, Some(windowMs), tool, false) && windowMs != 0
    requires !DecisionOf(l, req, now).Deny?
    ensures CostSince(l, req.key.scope, tool, now - windowMs) + req.cost <= limit
  {
    var ctx := Context(req.key, req.cost);
    MostRestrictiveWins(req.policies, ctx, l.rows, now);
    assert !Verdict(req.policies[i], ctx, l.rows, now).Deny?;
    BudgetRules(req.policies[i], ctx, l.rows, now);
  }

  lemma RunPriced(l: Ledger, req: Request, now: int, budget: nat, costOf: Key -> real)
    requires Priced(l, costOf) && req.cost == costOf(req.key) && req.cost >= 0.0
    ensures Priced(Run(l, req, now, budget).ledger, costOf)
  {
    var l' := Run(l, req, now, budget).ledger;
    RunSettles(l, req, now, budget);
    RunOutstanding(l, req, now, budget);
    forall k | k in l'.rows ensures l'.rows[k].cost == costOf(k) && costOf(k) >= 0.0 {
      if k != req.key {
        assert RowOf(l', k) == RowOf(l, k);
      }
    }
  }

  /** A run that is not denied found room in the window it looked at, so in every later one. */
  lemma RoomLeft(l: Ledger, req: Request, at: int, tool: Option<string>, limit: real, windowMs: int,
                 costOf: Key -> real, now: int)
    requires Priced(l, costOf) && Capped(req, req.key.scope, tool, limit, windowMs, costOf) && OfTool(req.key, tool)
    requires windowMs != 0 && at <= now && !DecisionOf(l, req, at).Deny?
    ensures CostSince(l, req.key.scope, tool, now - windowMs) + req.cost <= limit
  {
    var i :| 0 <= i < |req.policies| && req.policies[i] == Budget(limit, Some(windowMs), tool, false);
    NotDeniedFitsWindow(l, req, at, tool, limit, windowMs, i);
    LaterIsLess(l, req.key.scope, tool, at - windowMs, now - windowMs, costOf);
  }

  lemma RoomHeld(l: Ledger, l': Ledger, key: Key, joins: bool, scope: Option<string>, tool: Option<string>,
                 since: int, costOf: Key -> real, limit: real)
    requires Priced(l, costOf) && Priced(l', costOf) && Adds(l, l', key, joins, scope, tool, since)
    requires CostSince(l, scope, tool, since) <= Cap(limit)
    requires joins ==> CostSince(l, scope, tool, since) + costOf(key) <= limit
    ensures CostSince(l', scope, tool, since) <= Cap(limit)
  {
    AddedCost(l, l', key, joins, scope, tool, since, costOf);
  }

  /** Every run carries the budget, none died between inserting a row it denies and
      denying it, and none is later than `now`. */
  ghost predicate Rolling(ops: seq<Op>, scope: Option<string>, tool: Option<string>, limit: real, windowMs: int,
                          costOf: Key -> real, now: int) {
    forall i :: 0 <= i < |ops| && ops[i].DoRun? ==>
      && Capped(ops[i].req, scope, tool, limit, windowMs, costOf) && ops[i].now <= now
      && !DiedBeforeDeny(After(Empty, ops[..i]), ops[i].req, ops[i].now, ops[i].budget)
  }

  function KeyOf(op: Op): Key {
    match op
    case DoRun(req, _, _) => req.key
    case DoApprove(key) => key
    case DoReject(key, _) => key
  }

  /** The operation is a run of the scope and tool that is not denied. */
  ghost predicate Joins(l: Ledger, op: Op, scope: Option<string>, tool: Option<string>) {
    op.DoRun? && op.req.key.scope == scope && OfTool(op.req.key, tool) && !DecisionOf(l, op.req, op.now).Deny?
  }

  ghost predicate Survives(l: Ledger, op: Op) {
    op.DoRun? ==> !DiedBeforeDeny(l, op.req, op.now, op.budget)
  }

  lemma OpAdds(l: Ledger, op: Op, scope: Option<string>, tool: Option<string>, since: int)
    requires Survives(l, op)
    ensures Adds(l, Apply(l, op), KeyOf(op), Joins(l, op, scope, tool), scope, tool, since)
  {
    match op
    case DoRun(req, at, budget) => RunAdds(l, req, at, budget, scope, tool, since);
    case DoApprove(key) => ReviewAdds(l, key, Text(""), scope, tool, since);
    case DoReject(key, reason) => ReviewAdds(l, key, reason, scope, tool, since);
  }

  lemma OpPriced(l: Ledger, op: Op, costOf: Key -> real)
    requires Priced(l, costOf) && (op.DoRun? ==> op.req.cost == costOf(op.req.key) && op.req.cost >= 0.0)
    ensures Priced(Apply(l, op), costOf)
  {
    match op
    case DoRun(req, at, budget) => RunPriced(l, req, at, budget, costOf);
    case DoApprove(key) =>
    case DoReject(key, reason) =>
  }

  lemma OpKeepsWindow(l: Ledger, op: Op, l': Ledger, scope: Option<string>, tool: Option<string>, limit: real,
                      windowMs: int, costOf: Key -> real, now: int)
    requires Priced(l, costOf) && Priced(l', costOf) && windowMs != 0
    requires CostSince(l, scope, tool, now - windowMs) <= Cap(limit)
    requires op.DoRun? ==> Capped(op.req, scope, tool, limit, windowMs, costOf) && op.now <= now
    requires Adds(l, l', KeyOf(op), Joins(l, op, scope, tool), scope, tool, now - windowMs)
    ensures CostSince(l', scope, tool, now - windowMs) <= Cap(limit)
  {
    if Joins(l, op, scope, tool) {
      RoomLeft(l, op.req, op.now, tool, limit, windowMs, costOf, now);
    }
    RoomHeld(l, l', KeyOf(op), Joins(l, op, scope, tool), scope, tool, now - windowMs, costOf, limit);
  }

  lemma OpHoldsWindow(l: Ledger, op: Op, scope: Option<string>, tool: Option<string>, limit: real, windowMs: int,
                      costOf: Key -> real, now: int)
    requires Priced(l, costOf) && Survives(l, op) && windowMs != 0
    requires CostSince(l, scope, tool, now - windowMs) <= Cap(limit)
    requires op.DoRun? ==> Capped(op.req, scope, tool, limit, windowMs, costOf) && op.now <= now
    ensures Priced(Apply(l, op), costOf) && CostSince(Apply(l, op), scope, tool, now - windowMs) <= Cap(limit)
  {
    var l' := Apply(l, op);
    assert Priced(l', costOf) by { OpPriced(l, op, costOf); }
    assert Adds(l, l', KeyOf(op), Joins(l, op, scope, tool), scope, tool, now - windowMs) by {
      OpAdds(l, op, scope, tool, now - windowMs);
    }
    OpKeepsWindow(l, op, l', scope, tool, limit, windowMs, costOf, now);
  }

  /** A rolling budget holds at every moment: whatever was run, approved and rejected,
      the live rows created in the last windowMs never cost more than the limit. */
  lemma {:induction false} WindowNeverExceeded(ops: seq<Op>, scope: Option<string>, tool: Option<string>, limit: real,
                                               windowMs: int, costOf: Key -> real, now: int)
    requires Rolling(ops, scope, tool, limit, windowMs, costOf, now) && windowMs != 0
    ensures Priced(After(Empty, ops), costOf)
            && CostSince(After(Empty, ops), scope, tool, now - windowMs) <= Cap(limit)
  {
    if ops == [] {
      assert Recent(Empty.rows, scope, tool, now - windowMs) == {};
    } else {
      var n := |ops| - 1;
      assert forall i :: 0 <= i < n ==> ops[..n][i] == ops[i] && ops[..n][..i] == ops[..i];
      WindowNeverExceeded(ops[..n], scope, tool, limit, windowMs, costOf, now);
      OpHoldsWindow(After(Empty, ops[..n]), ops[n], scope, tool, limit, windowMs, costOf, now);
    }
  }

  // ---------------------------------------------------------------- rate limits over whole runs

  ghost predicate Paced(req: Request, scope: Option<string>, tool: Option<string>, cap: int, periodMs: int) {
    req.key.scope == scope && OfTool(req.key, tool) ==>
      exists i :: 0 <= i < |req.policies| && req.policies[i] == RateLimit(cap, periodMs, tool, false)
  }

  ghost predicate Limited(ops: seq<Op>, scope: Option<string>, tool: Option<string>, cap: int, periodMs: int,
                          now: int) {
    forall i :: 0 <= i < |ops| && ops[i].DoRun? ==>
      && Paced(ops[i].req, scope, tool, cap, periodMs) && ops[i].now <= now
      && !DiedBeforeDeny(After(Empty, ops[..i]), ops[i].req, ops[i].now, ops[i].budget)
  }

  lemma OpKeepsRate(l: Ledger, op: Op, l': Ledger, scope: Option<string>, tool: Option<string>, cap: int,
                    periodMs: int, now: int)
    requires CountSince(l, scope, tool, now - periodMs) <= if cap < 0 then 0 else cap
    requires op.DoRun? ==> Paced(op.req, scope, tool, cap, periodMs) && op.now <= now
    requires Adds(l, l', KeyOf(op), Joins(l, op, scope, tool), scope, tool, now - periodMs)
    ensures CountSince(l', scope, tool, now - periodMs) <= if cap < 0 then 0 else cap
  {
    AddedCount(l, l', KeyOf(op), Joins(l, op, scope, tool), scope, tool, now - periodMs);
    if Joins(l, op, scope, tool) {
      RateRoom(l, op.req, op.now, tool, cap, periodMs, now);
    }
  }

  lemma OpHoldsRate(l: Ledger, op: Op, scope: Option<string>, tool: Option<string>, cap: int, periodMs: int, now: int)
    requires CountSince(l, scope, tool, now - periodMs) <= (if cap < 0 then 0 else cap) && Survives(l, op)
    requires op.DoRun? ==> Paced(op.req, scope, tool, cap, periodMs) && op.now <= now
    ensures CountSince(Apply(l, op), scope, tool, now - periodMs) <= if cap < 0 then 0 else cap
  {
    OpAdds(l, op, scope, tool, now - periodMs);
    OpKeepsRate(l, op, Apply(l, op), scope, tool, cap, periodMs, now);
  }

  /** A run that is not denied found the window it looked at not full. */
  lemma RateRoom(l: Ledger, req: Request, at: int, tool: Option<string>, cap: int, periodMs: int, now: int)
    requires Paced(req, req.key.scope, tool, cap, periodMs) && OfTool(req.key, tool) && at <= now
    requires !DecisionOf(l, req, at).Deny?
    ensures CountSince(l, req.key.scope, tool, now - periodMs) < cap
  {
    var i :| 0 <= i < |req.policies| && req.policies[i] == RateLimit(cap, periodMs, tool, false);
    var ctx := Context(req.key, req.cost);
    MostRestrictiveWins(req.policies, ctx, l.rows, at);
    RateRules(req.policies[i], ctx, l.rows, at);
    assert !Verdict(req.policies[i], ctx, l.rows, at).Deny?;
    SizeWithin(Recent(l.rows, req.key.scope, tool, now - periodMs), Recent(l.rows, req.key.scope, tool, at - periodMs));
  }

  /** A rate limit holds at every moment: the live rows created in the last periodMs are
      never more than its cap. */
  lemma {:induction false} RateNeverExceeded(ops: seq<Op>, scope: Option<string>, tool: Option<string>, cap: int,
                                             periodMs: int, now: int)
    requires Limited(ops, scope, tool, cap, periodMs, now)
    ensures CountSince(After(Empty, ops), scope, tool, now - periodMs) <= if cap < 0 then 0 else cap
  {
    if ops == [] {
      assert Recent(Empty.rows, scope, tool, now - periodMs) == {};
    } else {
      var n := |ops| - 1;
      assert forall i :: 0 <= i < n ==> ops[..n][i] == ops[i] && ops[..n][..i] == ops[..i];
      RateNeverExceeded(ops[..n], scope, tool, cap, periodMs, now);
      OpHoldsRate(After(Empty, ops[..n]), ops[n], scope, tool, cap, periodMs, now);
    }
  }
}
