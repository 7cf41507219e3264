/** Policies and their most-restrictive-wins evaluation. */
module Policies {
  import opened Prelude
  import opened ActionLedger
  import opened LedgerStore

  datatype Context = Context(key: Key, cost: real)

  datatype Decision = Allow | Deny(reason: Reason) | RequireApproval(reason: Reason)

  /** requireApprovalWhen and denyWhen are `When`. */
  datatype Policy =
    | When(test: Context -> bool, verdict: Decision)
    | Budget(limit: real, windowMs: Option<int>, tool: Option<string>, approvalOnExceed: bool)
    | RateLimit(cap: int, periodMs: int, tool: Option<string>, approvalOnExceed: bool)

  /** A missing or zero window means an all-time budget. */
  function Window(windowMs: Option<int>, now: int): Option<int> {
    if windowMs.Some? && windowMs.value != 0 then Some(now - windowMs.value) else None
  }

  function Exceeded(approval: bool, reason: Reason): Decision {
    if approval then RequireApproval(reason) else Deny(reason)
  }

  ghost function Verdict(p: Policy, ctx: Context, rows: map<Key, Row>, now: int): Decision {
    match p
    case When(test, verdict) => if test(ctx) then verdict else Allow
    case Budget(limit, windowMs, tool, approval) =>
      var projected := StatsOf(rows, Filter(ctx.key.scope, tool, Window(windowMs, now))).totalCost + ctx.cost;
      if projected > limit then Exceeded(approval, BudgetExceeded(ctx.key.scope, projected, limit)) else Allow
    case RateLimit(cap, periodMs, tool, approval) =>
      var count := StatsOf(rows, Filter(ctx.key.scope, tool, Some(now - periodMs))).count;
      if count >= cap then Exceeded(approval, RateExceeded(ctx.key.scope, count, cap, periodMs)) else Allow
  }

  /** The first deny wins; otherwise the first approval requirement; otherwise allow. */
  ghost function Combined(policies: seq<Policy>, ctx: Context, rows: map<Key, Row>, now: int): Decision
    decreases |policies|
  {
    if policies == [] then Allow
    else
      var d := Verdict(policies[0], ctx, rows, now);
      if d.Deny? then d
      else
        var rest := Combined(policies[1..], ctx, rows, now);
        if rest.Deny? || d.Allow? then rest else d
  }

  /** Deny exactly when some policy denies; approval exactly when none denies and
      some asks for it. */
  lemma {:induction false} MostRestrictiveWins(policies: seq<Policy>, ctx: Context, rows: map<Key, Row>, now: int)
    ensures Combined(policies, ctx, rows, now).Deny?
      <==> exists i :: 0 <= i < |policies| && Verdict(policies[i], ctx, rows, now).Deny?
    ensures Combined(policies, ctx, rows, now).Allow?
      <==> forall i :: 0 <= i < |policies| ==> Verdict(policies[i], ctx, rows, now).Allow?
  {
    if policies != [] {
      MostRestrictiveWins(policies[1..], ctx, rows, now);
      assert forall i :: 1 <= i < |policies| ==> policies[i] == policies[1..][i - 1];
      assert forall i :: 0 <= i < |policies| - 1 ==> policies[1..][i] == policies[i + 1];
    }
  }

  /** The first denial is the decision; without one, the first approval requirement is. */
  lemma {:induction false} FirstOfItsKindWins(policies: seq<Policy>, ctx: Context, rows: map<Key, Row>,
                                              now: int, i: nat)
    requires i < |policies|
    ensures (Verdict(policies[i], ctx, rows, now).Deny?
             && forall j :: 0 <= j < i ==> !Verdict(policies[j], ctx, rows, now).Deny?) ==>
            Combined(policies, ctx, rows, now) == Verdict(policies[i], ctx, rows, now)
    ensures (Verdict(policies[i], ctx, rows, now).RequireApproval?
             && (forall j :: 0 <= j < i ==> Verdict(policies[j], ctx, rows, now).Allow?)
             && forall j :: 0 <= j < |policies| ==> !Verdict(policies[j], ctx, rows, now).Deny?) ==>
            Combined(policies, ctx, rows, now) == Verdict(policies[i], ctx, rows, now)
  {
    assert forall j :: 1 <= j < |policies| ==> policies[j] == policies[1..][j - 1];
    assert forall j :: 0 <= j < |policies| - 1 ==> policies[1..][j] == policies[j + 1];
    MostRestrictiveWins(policies[1..], ctx, rows, now);
    if i > 0 {
      FirstOfItsKindWins(policies[1..], ctx, rows, now, i - 1);
    }
  }

  method Evaluate(p: Policy, ctx: Context, ledger: InMemoryLedger, now: int) returns (d: Decision)
    ensures d == Verdict(p, ctx, ledger.State().rows, now)
  {
    match p
    case When(test, verdict) => d := if test(ctx) then verdict else Allow;
    case Budget(limit, windowMs, tool, approval) =>
      var s := ledger.Stats(Filter(ctx.key.scope, tool, Window(windowMs, now)));
      var projected := s.totalCost + ctx.cost;
      d := if projected > limit then Exceeded(approval, BudgetExceeded(ctx.key.scope, projected, limit)) else Allow;
    case RateLimit(cap, periodMs, tool, approval) =>
      var s := ledger.Stats(Filter(ctx.key.scope, tool, Some(now - periodMs)));
      d := if s.count >= cap then Exceeded(approval, RateExceeded(ctx.key.scope, s.count, cap, periodMs)) else Allow;
  }

  lemma {:induction false} CombinedSplit(a: seq<Policy>, b: seq<Policy>, ctx: Context, rows: map<Key, Row>, now: int)
    ensures Combined(a + b, ctx, rows, now)
         == var d := Combined(a, ctx, rows, now);
            if d.Deny? then d
            else
              var rest := Combined(b, ctx, rows, now);
              if rest.Deny? || d.Allow? then rest else d
  {
    if a == [] {
      assert a + b == b;
    } else {
      CombinedSplit(a[1..], b, ctx, rows, now);
      assert (a + b)[1..] == a[1..] + b;
    }
  }

  method EvaluatePolicies(policies: seq<Policy>, ctx: Context, ledger: InMemoryLedger, now: int) returns (d: Decision)
    ensures d == Combined(policies, ctx, ledger.State().rows, now)
  {
    var approval := Allow;
    for i := 0 to |policies|
      invariant !approval.Deny? && approval == Combined(policies[..i], ctx, ledger.State().rows, now)
    {
      assert policies[..i + 1] == policies[..i] + [policies[i]];
      CombinedSplit(policies[..i], [policies[i]], ctx, ledger.State().rows, now);
      assert [policies[i]][1..] == [];
      var decision := Evaluate(policies[i], ctx, ledger, now);
      if decision.Deny? {
        assert policies == policies[..i + 1] + policies[i + 1..];
        CombinedSplit(policies[..i + 1], policies[i + 1..], ctx, ledger.State().rows, now);
        return decision;
      }
      if decision.RequireApproval? && approval.Allow? {
        approval := decision;
      }
    }
    assert policies[..|policies|] == policies;
    d := approval;
  }
}
