/** Running a tool call once, durably, subject to policy: `Run`, `Approve` and
    `Reject` as functions on the ledger.  `budget` is the number of ledger writes
    and calls of the caller's function the process performs before it dies. */
module RunSpec {
  import opened Prelude
  import opened ActionLedger
  import opened Policies

  /** One call of run().  `execute(k)` is what attempt k of the caller's function
      does when given `given`. */
  datatype Request = Request(key: Key, cost: real, retries: int, policies: seq<Policy>, given: Value,
    execute: int -> Done)

  datatype End = Got(v: Value) | Threw(raise: Raise) | Crashed
  datatype Ran = Ran(ledger: Ledger, end: End, left: nat)

  function ReasonOr(r: Option<Reason>, default: string): Reason {
    if r.Some? then r.value else Text(default)
  }

  /** The retry loop. */
  function Execute(l: Ledger, req: Request, attempt: int, last: Raise, budget: nat): Ran
    decreases req.retries - attempt
  {
    if budget == 0 then Ran(l, Crashed, 0)
    else if attempt > req.retries then Ran(MarkFailed(l, req.key, last), Threw(last), budget - 1)
    else
      var running := MarkRunning(l, req.key);
      if budget == 1 then Ran(running, Crashed, 0)
      else
        var done := req.execute(attempt);
        var called := Note(running, Executed(req.key, req.given, done));
        match done
        case Raised(raise) => Execute(called, req, attempt + 1, raise, budget - 2)
        case Gave(v) =>
          if budget == 2 then Ran(called, Crashed, 0)
          else Ran(MarkSucceeded(called, req.key, v), Got(v), budget - 3)
  }

  const NoError := Failure("undefined")

  /** Act on the policies' decision for a claimed key. */
  function Decide(l: Ledger, req: Request, decision: Decision, budget: nat): Ran {
    match decision
    case Deny(reason) =>
      if budget == 0 then Ran(l, Crashed, 0)
      else Ran(MarkDenied(l, req.key, reason), Threw(PolicyDenied(reason)), budget - 1)
    case RequireApproval(reason) =>
      if budget == 0 then Ran(l, Crashed, 0)
      else Ran(MarkAwaitingApproval(l, req.key, reason), Threw(ApprovalRequired(reason)), budget - 1)
    case Allow => Execute(l, req, 0, NoError, budget)
  }

  ghost function Run(l: Ledger, req: Request, now: int, budget: nat): Ran {
    var decision := Combined(req.policies, Context(req.key, req.cost), l.rows, now);
    if req.key !in l.rows then
      if budget == 0 then Ran(l, Crashed, 0)
      else Decide(InsertPending(l, req.key, req.cost, now), req, decision, budget - 1)
    else
      var row := l.rows[req.key];
      match row.status
      case Succeeded => Ran(l, Got(row.result), budget)
      case Approved => Execute(l, req, 0, NoError, budget)
      case AwaitingApproval => Ran(l, Threw(ApprovalRequired(ReasonOr(row.reason, "approval required"))), budget)
      case Rejected => Ran(l, Threw(ActionRejected(row.reason)), budget)
      case Denied => Ran(l, Threw(PolicyDenied(ReasonOr(row.reason, "denied by policy"))), budget)
      case Pending => Ran(l, Threw(DuplicateInFlight), budget)
      case Running => Ran(l, Threw(DuplicateInFlight), budget)
      case Failed => Decide(l, req, decision, budget)
  }

  datatype Review = Reviewed | NoSuchAction | NotAwaiting(status: Status)

  function ReviewOf(l: Ledger, key: Key): Review {
    if key !in l.rows then NoSuchAction
    else if l.rows[key].status != AwaitingApproval then NotAwaiting(l.rows[key].status)
    else Reviewed
  }

  function Approve(l: Ledger, key: Key): Ledger {
    if ReviewOf(l, key).Reviewed? then MarkApproved(l, key) else l
  }

  function Reject(l: Ledger, key: Key, reason: Reason): Ledger {
    if ReviewOf(l, key).Reviewed? then MarkRejected(l, key, reason) else l
  }
}

/** The program's own loops over the in-memory ledger. */
module Runner {
  import opened ActionLedger
  import opened LedgerStore
  import opened Policies
  import opened RunSpec

  method Execute(ledger: InMemoryLedger, req: Request, budget: nat) returns (end: End, left: nat)
    modifies ledger
    ensures Ran(ledger.State(), end, left) == RunSpec.Execute(old(ledger.State()), req, 0, NoError, budget)
  {
    var attempt := 0;
    var last := NoError;
    left := budget;
    while attempt <= req.retries
      invariant RunSpec.Execute(ledger.State(), req, attempt, last, left)
             == RunSpec.Execute(old(ledger.State()), req, 0, NoError, budget)
    {
      if left == 0 {
        return Crashed, 0;
      }
      ledger.MarkRunning(req.key);
      if left == 1 {
        return Crashed, 0;
      }
      var done := req.execute(attempt);
      ledger.NoteExecuted(req.key, req.given, done);
      left := left - 2;
      match done {
        case Gave(v) =>
          if left == 0 {
            return Crashed, 0;
          }
          ledger.MarkSucceeded(req.key, v);
          return Got(v), left - 1;
        case Raised(raise) =>
          last := raise;
          attempt := attempt + 1;
      }
    }
    if left == 0 {
      return Crashed, 0;
    }
    ledger.MarkFailed(req.key, last);
    return Threw(last), left - 1;
  }

  method Run(ledger: InMemoryLedger, req: Request, now: int, budget: nat) returns (end: End, left: nat)
    modifies ledger
    ensures Ran(ledger.State(), end, left) == RunSpec.Run(old(ledger.State()), req, now, budget)
  {
    left := budget;
    var existing := ledger.Get(req.key);
    if existing.Some? {
      var row := existing.value;
      match row.status {
        case Succeeded => return Got(row.result), left;
        case Approved =>
          end, left := Execute(ledger, req, left);
          return;
        case AwaitingApproval => return Threw(ApprovalRequired(ReasonOr(row.reason, "approval required"))), left;
        case Rejected => return Threw(ActionRejected(row.reason)), left;
        case Denied => return Threw(PolicyDenied(ReasonOr(row.reason, "denied by policy"))), left;
        case Pending => return Threw(DuplicateInFlight), left;
        case Running => return Threw(DuplicateInFlight), left;
        case Failed =>
      }
    }
    var decision := EvaluatePolicies(req.policies, Context(req.key, req.cost), ledger, now);
    if existing.None? {
      if left == 0 {
        return Crashed, 0;
      }
      var claimed := ledger.InsertPending(req.key, req.cost, now);
      left := left - 1;
    }
    match decision {
      case Deny(reason) =>
        if left == 0 {
          return Crashed, 0;
        }
        ledger.MarkDenied(req.key, reason);
        return Threw(PolicyDenied(reason)), left - 1;
      case RequireApproval(reason) =>
        if left == 0 {
          return Crashed, 0;
        }
        ledger.MarkAwaitingApproval(req.key, reason);
        return Threw(ApprovalRequired(reason)), left - 1;
      case Allow =>
        end, left := Execute(ledger, req, left);
    }
  }

  method Approve(ledger: InMemoryLedger, key: Key) returns (r: Review)
    modifies ledger
    ensures r == ReviewOf(old(ledger.State()), key)
    ensures ledger.State() == RunSpec.Approve(old(ledger.State()), key)
  {
    var rec := ledger.Get(key);
    if rec.None? {
      return NoSuchAction;
    }
    if rec.value.status != AwaitingApproval {
      return NotAwaiting(rec.value.status);
    }
    ledger.MarkApproved(key);
    r := Reviewed;
  }

  method Reject(ledger: InMemoryLedger, key: Key, reason: Reason) returns (r: Review)
    modifies ledger
    ensures r == ReviewOf(old(ledger.State()), key)
    ensures ledger.State() == RunSpec.Reject(old(ledger.State()), key, reason)
  {
    var rec := ledger.Get(key);
    if rec.None? {
      return NoSuchAction;
    }
    if rec.value.status != AwaitingApproval {
      return NotAwaiting(rec.value.status);
    }
    ledger.MarkRejected(key, reason);
    r := Reviewed;
  }
}
