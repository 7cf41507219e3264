/** What run() answers, and how often it calls its function: a run that survives makes
    exactly the attempts it should, and its answer is the row it leaves. */
module RunAnswers {
  import opened Prelude
  import opened ActionLedger
  import opened Policies
  import opened RunSpec
  import opened RunTheorems

  // ---------------------------------------------------------------- what a row carries

  /** How often a history marks its row running. */
  function Starts(h: seq<Entry>): nat {
    if h == [] then 0
    else
      var e := h[|h| - 1];
      Starts(h[..|h| - 1]) + if e.Moved? && e.to == Running then 1 else 0
  }

  lemma StartsSnoc(h: seq<Entry>, e: Entry)
    ensures Starts(h + [e]) == Starts(h) + if e.Moved? && e.to == Running then 1 else 0
  {
    assert (h + [e])[..|h|] == h;
  }

  /** A row that is refused, parked or failed says why, and counts its attempts. */
  ghost predicate Explained(l: Ledger, key: Key) {
    key in l.rows ==>
      var row := l.rows[key];
      && (row.status in {AwaitingApproval, Denied, Rejected} ==> row.reason.Some?)
      && (row.status == Failed ==> row.error.Some?)
      && row.attempts == Starts(HistoryOf(l.log, key))
  }

  lemma ExplainedMove(l: Ledger, key: Key, patched: Row -> Row)
    requires Explained(l, key) && key in l.rows
    requires var row := patched(l.rows[key]);
             && (row.status in {AwaitingApproval, Denied, Rejected} ==> row.reason.Some?)
             && (row.status == Failed ==> row.error.Some?)
             && row.attempts == l.rows[key].attempts + if row.status == Running then 1 else 0
    ensures Explained(Patch(l, key, patched), key)
  {
    var h, e := HistoryOf(l.log, key), Moved(key, l.rows[key].status, patched(l.rows[key]).status);
    HistorySnoc(l.log, e, key);
    StartsSnoc(h, e);
  }

  lemma ExplainedCall(l: Ledger, key: Key, given: Value, done: Done)
    requires Explained(l, key)
    ensures Explained(Note(l, Executed(key, given, done)), key)
  {
    var h, e := HistoryOf(l.log, key), Executed(key, given, done);
    HistorySnoc(l.log, e, key);
    StartsSnoc(h, e);
  }

  lemma ExplainedInsert(l: Ledger, key: Key, cost: real, now: int)
    requires key !in l.rows && Starts(HistoryOf(l.log, key)) == 0
    ensures Explained(InsertPending(l, key, cost, now), key)
  {
    var h := HistoryOf(l.log, key);
    HistorySnoc(l.log, Inserted(key), key);
    StartsSnoc(h, Inserted(key));
  }

  lemma {:induction false} NeverStarted(h: seq<Entry>)
    requires Statuses(h) == []
    ensures Starts(h) == 0
  {
    if h != [] {
      NeverStarted(h[..|h| - 1]);
    }
  }

  // ---------------------------------------------------------------- how an answer is read off the row

  /** What a run that did not die answers, by the row it leaves. */
  ghost predicate Reads(l: Ledger, r: Ran, key: Key) {
    && key in r.ledger.rows
    && var row := r.ledger.rows[key];
       match row.status
       case Succeeded => r.end == Got(row.result)
       case AwaitingApproval => row.reason.Some? && r.end == Threw(ApprovalRequired(row.reason.value))
       case Rejected => row.reason.Some? && r.end == Threw(ActionRejected(row.reason))
       case Denied => row.reason.Some? && r.end == Threw(PolicyDenied(row.reason.value))
       case Failed => row.error.Some? && r.end == Threw(row.error.value)
       case Pending => r.end == Threw(DuplicateInFlight) && r.ledger == l
       case Running => r.end == Threw(DuplicateInFlight) && r.ledger == l
       case Approved => false
  }

  lemma MarksExplained(l: Ledger, key: Key, last: Raise, v: Value)
    requires Explained(l, key) && key in l.rows
    ensures Explained(MarkRunning(l, key), key) && key in MarkRunning(l, key).rows
    ensures Explained(MarkFailed(l, key, last), key) && Explained(MarkSucceeded(l, key, v), key)
  {
    ExplainedMove(l, key, (row: Row) => row.(status := Running, attempts := row.attempts + 1));
    ExplainedMove(l, key, (row: Row) => row.(status := Failed, error := Some(last)));
    ExplainedMove(l, key, (row: Row) => row.(status := Succeeded, result := v));
  }

  /** One attempt, once the row is marked running. */
  lemma ExecuteTurn(l: Ledger, req: Request, attempt: int, last: Raise, budget: nat)
    requires budget > 0
    ensures Execute(l, req, attempt, last, budget)
         == if attempt > req.retries then Ran(MarkFailed(l, req.key, last), Threw(last), budget - 1)
            else if budget == 1 then Ran(MarkRunning(l, req.key), Crashed, 0)
            else
              var called := Note(MarkRunning(l, req.key), Executed(req.key, req.given, req.execute(attempt)));
              match req.execute(attempt)
              case Raised(raise) => Execute(called, req, attempt + 1, raise, budget - 2)
              case Gave(v) =>
                if budget == 2 then Ran(called, Crashed, 0)
                else Ran(MarkSucceeded(called, req.key, v), Got(v), budget - 3)
  {
  }

  /** This attempt is made, survived, and fails: the loop goes round. */
  predicate GoesRound(req: Request, attempt: int, budget: nat) {
    attempt <= req.retries && budget > 1 && req.execute(attempt).Raised?
  }

  /** The ledger after the row is marked running and the function called. */
  function Called(l: Ledger, req: Request, attempt: int): Ledger {
    Note(MarkRunning(l, req.key), Executed(req.key, req.given, req.execute(attempt)))
  }

  lemma LoopsOn(l: Ledger, req: Request, attempt: int, last: Raise, budget: nat, r: Ran)
    requires GoesRound(req, attempt, budget) && r == Execute(l, req, attempt, last, budget)
    ensures r == Execute(Called(l, req, attempt), req, attempt + 1, req.execute(attempt).raise, budget - 2)
  {
  }

  lemma CalledExplained(l: Ledger, req: Request, attempt: int)
    requires req.key in l.rows && Explained(l, req.key)
    ensures req.key in Called(l, req, attempt).rows && Explained(Called(l, req, attempt), req.key)
  {
    MarksExplained(l, req.key, NoError, Undefined);
    ExplainedCall(MarkRunning(l, req.key), req.key, req.given, req.execute(attempt));
  }

  /** The last turn of the loop. */
  lemma LastReads(l: Ledger, req: Request, attempt: int, last: Raise, budget: nat, before: Ledger, r: Ran)
    requires req.key in l.rows && Explained(l, req.key) && r == Execute(l, req, attempt, last, budget)
    requires !GoesRound(req, attempt, budget)
    ensures Explained(r.ledger, req.key)
    ensures !r.end.Crashed? ==> Reads(before, r, req.key)
  {
    if budget > 0 {
      ExecuteTurn(l, req, attempt, last, budget);
      if attempt <= req.retries && budget > 1 {
        assert Explained(Called(l, req, attempt), req.key) by { CalledExplained(l, req, attempt); }
        MarksExplained(Called(l, req, attempt), req.key, last, req.execute(attempt).v);
      } else {
        MarksExplained(l, req.key, last, Undefined);
      }
    }
  }

  lemma {:induction false} ExecuteReads(l: Ledger, req: Request, attempt: int, last: Raise, budget: nat, before: Ledger,
                                        r: Ran)
    requires req.key in l.rows && Explained(l, req.key) && r == Execute(l, req, attempt, last, budget)
    ensures Explained(r.ledger, req.key)
    ensures !r.end.Crashed? ==> Reads(before, r, req.key)
    decreases req.retries - attempt
  {
    if GoesRound(req, attempt, budget) {
      LoopsOn(l, req, attempt, last, budget, r);
      CalledExplained(l, req, attempt);
      ExecuteReads(Called(l, req, attempt), req, attempt + 1, req.execute(attempt).raise, budget - 2, before, r);
    } else {
      LastReads(l, req, attempt, last, budget, before, r);
    }
  }

  lemma DecideReads(l: Ledger, req: Request, decision: Decision, budget: nat, before: Ledger, r: Ran)
    requires req.key in l.rows && Explained(l, req.key) && r == Decide(l, req, decision, budget)
    ensures Explained(r.ledger, req.key)
    ensures !r.end.Crashed? ==> Reads(before, r, req.key)
  {
    match decision
    case Deny(reason) =>
      ExplainedMove(l, req.key, (row: Row) => row.(status := Denied, reason := Some(reason)));
    case RequireApproval(reason) =>
      ExplainedMove(l, req.key, (row: Row) => row.(status := AwaitingApproval, reason := Some(reason)));
    case Allow => ExecuteReads(l, req, 0, NoError, budget, before, r);
  }

  /** A row that is neither failed nor approved answers for itself. */
  lemma LookReads(l: Ledger, req: Request, now: int, budget: nat)
    requires req.key in l.rows && Explained(l, req.key)
    requires l.rows[req.key].status != Failed && l.rows[req.key].status != Approved
    ensures Run(l, req, now, budget).ledger == l && Reads(l, Run(l, req, now, budget), req.key)
  {
  }

  /** A new row is inserted, and then decided on. */
  lemma NewReads(l: Ledger, req: Request, decision: Decision, now: int, budget: nat, r: Ran)
    requires KeySound(l, req.key) && req.key !in l.rows
    requires r == Decide(InsertPending(l, req.key, req.cost, now), req, decision, budget)
    ensures Explained(r.ledger, req.key)
    ensures !r.end.Crashed? ==> Reads(l, r, req.key)
  {
    NeverStarted(HistoryOf(l.log, req.key));
    ExplainedInsert(l, req.key, req.cost, now);
    DecideReads(InsertPending(l, req.key, req.cost, now), req, decision, budget, l, r);
  }

  lemma RunReads(l: Ledger, req: Request, now: int, budget: nat, r: Ran)
    requires KeySound(l, req.key) && Explained(l, req.key) && r == Run(l, req, now, budget)
    ensures Explained(r.ledger, req.key)
    ensures !r.end.Crashed? ==> Reads(l, r, req.key)
  {
    var decision := Combined(req.policies, Context(req.key, req.cost), l.rows, now);
    if req.key !in l.rows {
      if budget > 0 {
        NewReads(l, req, decision, now, budget - 1, r);
      }
    } else if l.rows[req.key].status == Failed {
      DecideReads(l, req, decision, budget, l, r);
    } else if l.rows[req.key].status == Approved {
      ExecuteReads(l, req, 0, NoError, budget, l, r);
    } else {
      LookReads(l, req, now, budget);
    }
  }

  // ---------------------------------------------------------------- over whole runs

  ghost predicate AllExplained(l: Ledger) {
    forall key :: Explained(l, key)
  }

  /** A key that a call does not touch. */
  lemma ExplainedFrame(l: Ledger, l': Ledger, key: Key, given: Value)
    requires AllExplained(l) && Touches(l, l', key, given) && Explained(l', key)
    ensures AllExplained(l')
  {
    forall k ensures Explained(l', k) {
      assert Explained(l, k);
      if k != key {
        assert RowOf(l', k) == RowOf(l, k);
        HistoryFrame(l.log, l'.log, key, k);
      }
    }
  }

  lemma ReviewExplained(l: Ledger, key: Key, reason: Reason)
    requires Explained(l, key)
    ensures Explained(Approve(l, key), key) && Explained(Reject(l, key, reason), key)
  {
    if ReviewOf(l, key).Reviewed? {
      ExplainedMove(l, key, (row: Row) => row.(status := Approved));
      ExplainedMove(l, key, (row: Row) => row.(status := Rejected, reason := Some(reason)));
    }
  }

  lemma ApplyExplained(l: Ledger, op: Op)
    requires Sound(l) && AllExplained(l)
    ensures AllExplained(Apply(l, op))
  {
    match op
    case DoRun(req, now, budget) =>
      assert KeySound(l, req.key) && Explained(l, req.key);
      RunReads(l, req, now, budget, Run(l, req, now, budget));
      RunSettles(l, req, now, budget);
      ExplainedFrame(l, Apply(l, op), req.key, req.given);
    case DoApprove(key) =>
      assert Explained(l, key);
      ReviewTouches(l, key, Text(""));
      ReviewExplained(l, key, Text(""));
      ExplainedFrame(l, Apply(l, op), key, Undefined);
    case DoReject(key, reason) =>
      assert Explained(l, key);
      ReviewTouches(l, key, reason);
      ReviewExplained(l, key, reason);
      ExplainedFrame(l, Apply(l, op), key, Undefined);
  }

  lemma {:induction false} AfterExplained(ops: seq<Op>)
    ensures AllExplained(After(Empty, ops))
  {
    if ops != [] {
      var n := |ops| - 1;
      AfterExplained(ops[..n]);
      AfterKeeps(Empty, ops[..n]);
      ApplyExplained(After(Empty, ops[..n]), ops[n]);
    }
  }

  /** After any calls, a run that does not die answers what the row it leaves says: the
      stored result of a succeeded row, the stored reason of one parked, rejected or
      denied, the stored error of a failed one, and a duplicate for one that somebody
      else is at or died at, which it leaves alone. */
  lemma AnswerNamesRow(ops: seq<Op>, req: Request, now: int, budget: nat)
    requires !Run(After(Empty, ops), req, now, budget).end.Crashed?
    ensures Reads(After(Empty, ops), Run(After(Empty, ops), req, now, budget), req.key)
  {
    AfterExplained(ops);
    AfterKeeps(Empty, ops);
    assert KeySound(After(Empty, ops), req.key) && Explained(After(Empty, ops), req.key);
    RunReads(After(Empty, ops), req, now, budget, Run(After(Empty, ops), req, now, budget));
  }

  /** A row's attempt count is the number of times it was marked running. */
  lemma AttemptsAreCounted(ops: seq<Op>, key: Key)
    ensures var l := After(Empty, ops);
            key in l.rows ==> l.rows[key].attempts == Starts(HistoryOf(l.log, key))
  {
    AfterExplained(ops);
    assert Explained(After(Empty, ops), key);
  }

  // ---------------------------------------------------------------- exactly the attempts it should make

  /** What the calls of a key's function did, in order. */
  function CallsOf(log: seq<Entry>, key: Key): seq<Done> {
    if log == [] then []
    else
      var e := log[|log| - 1];
      CallsOf(log[..|log| - 1], key) + if e.Executed? && e.key == key then [e.done] else []
  }

  lemma CallsSnoc(log: seq<Entry>, e: Entry, key: Key)
    ensures CallsOf(log + [e], key) == CallsOf(log, key) + if e.Executed? && e.key == key then [e.done] else []
  {
    assert (log + [e])[..|log|] == log;
  }

  /** Attempt after attempt until one returns, or retries + 1 of them have failed. */
  ghost predicate Made(req: Request, from: int, made: seq<Done>) {
    && (forall i :: 0 <= i < |made| ==> from + i <= req.retries && made[i] == req.execute(from + i))
    && (forall i :: 0 <= i < |made| - 1 ==> made[i].Raised?)
    && (from + |made| <= req.retries ==> made != [] && made[|made| - 1].Gave?)
  }

  /** How a call that made these attempts ends. */
  function EndAfter(made: seq<Done>, last: Raise): End {
    if made == [] then Threw(last)
    else
      match made[|made| - 1]
      case Gave(v) => Got(v)
      case Raised(raise) => Threw(raise)
  }

  function Tries(from: int, to: int): nat {
    if from > to then 0 else to - from + 1
  }

  lemma MadeMore(req: Request, from: int, done: Done, rest: seq<Done>)
    requires from <= req.retries && done == req.execute(from) && done.Raised? && Made(req, from + 1, rest)
    ensures Made(req, from, [done] + rest) && forall last :: EndAfter([done] + rest, last) == EndAfter(rest, done.raise)
  {
  }

  lemma {:induction false} ExecuteCalls(l: Ledger, req: Request, attempt: int, last: Raise, budget: nat, r: Ran)
    returns (made: seq<Done>)
    requires req.key in l.rows && budget >= 2 * Tries(attempt, req.retries) + 1
    requires r == Execute(l, req, attempt, last, budget)
    ensures Made(req, attempt, made) && CallsOf(r.ledger.log, req.key) == CallsOf(l.log, req.key) + made
    ensures r.end == EndAfter(made, last) && r.left >= budget - (2 * Tries(attempt, req.retries) + 1)
    decreases req.retries - attempt
  {
    if GoesRound(req, attempt, budget) {
      LoopsOn(l, req, attempt, last, budget, r);
      CalledOnce(l, req, attempt);
      var done := req.execute(attempt);
      var rest := ExecuteCalls(Called(l, req, attempt), req, attempt + 1, done.raise, budget - 2, r);
      MadeMore(req, attempt, done, rest);
      made := [done] + rest;
      Regroup(CallsOf(l.log, req.key), [done], rest);
    } else {
      made := LastCalls(l, req, attempt, last, budget, r);
    }
  }

  lemma CalledOnce(l: Ledger, req: Request, attempt: int)
    requires req.key in l.rows
    ensures var called := Called(l, req, attempt);
            && req.key in called.rows && called.rows[req.key].status == Running
            && CallsOf(called.log, req.key) == CallsOf(l.log, req.key) + [req.execute(attempt)]
  {
    CallsSnoc(l.log, Moved(req.key, l.rows[req.key].status, Running), req.key);
    CallsSnoc(MarkRunning(l, req.key).log, Executed(req.key, req.given, req.execute(attempt)), req.key);
  }

  lemma LastCalls(l: Ledger, req: Request, attempt: int, last: Raise, budget: nat, r: Ran)
    returns (made: seq<Done>)
    requires req.key in l.rows && budget >= 2 * Tries(attempt, req.retries) + 1 && !GoesRound(req, attempt, budget)
    requires r == Execute(l, req, attempt, last, budget)
    ensures Made(req, attempt, made) && CallsOf(r.ledger.log, req.key) == CallsOf(l.log, req.key) + made
    ensures r.end == EndAfter(made, last) && r.left >= budget - (2 * Tries(attempt, req.retries) + 1)
  {
    ExecuteTurn(l, req, attempt, last, budget);
    if attempt > req.retries {
      made := [];
      CallsSnoc(l.log, Moved(req.key, l.rows[req.key].status, Failed), req.key);
    } else {
      made := [req.execute(attempt)];
      CalledOnce(l, req, attempt);
      CallsSnoc(Called(l, req, attempt).log, Moved(req.key, Running, Succeeded), req.key);
    }
  }

  /** A key with no row, or a failed one: the policies are asked. */
  predicate Asked(l: Ledger, key: Key) {
    key !in l.rows || l.rows[key].status == Failed
  }

  ghost function Ruling(l: Ledger, req: Request, now: int, i: nat): Decision
    requires i < |req.policies|
  {
    Verdict(req.policies[i], Context(req.key, req.cost), l.rows, now)
  }

  /** The row is approved, or every policy allows the call. */
  ghost predicate MayCall(l: Ledger, req: Request, now: int) {
    || (req.key in l.rows && l.rows[req.key].status == Approved)
    || (Asked(l, req.key) && forall i :: 0 <= i < |req.policies| ==> Ruling(l, req, now, i).Allow?)
  }

  lemma AllRulings(l: Ledger, req: Request, now: int)
    ensures Combined(req.policies, Context(req.key, req.cost), l.rows, now).Allow?
      <==> forall i :: 0 <= i < |req.policies| ==> Ruling(l, req, now, i).Allow?
  {
    var ctx := Context(req.key, req.cost);
    MostRestrictiveWins(req.policies, ctx, l.rows, now);
    assert forall i :: 0 <= i < |req.policies| ==> Ruling(l, req, now, i) == Verdict(req.policies[i], ctx, l.rows, now);
  }

  /** More than a run can use up. */
  function Enough(req: Request): nat {
    2 * Tries(0, req.retries) + 2
  }

  lemma DecidedCalls(l: Ledger, req: Request, decision: Decision, budget: nat, r: Ran) returns (made: seq<Done>)
    requires req.key in l.rows && budget >= Enough(req) - 1 && r == Decide(l, req, decision, budget)
    ensures r.left >= budget - (Enough(req) - 1) && !r.end.Crashed?
    ensures CallsOf(r.ledger.log, req.key) == CallsOf(l.log, req.key) + made
    ensures if decision.Allow? then Made(req, 0, made) && r.end == EndAfter(made, NoError) else made == []
  {
    match decision
    case Deny(reason) =>
      made := [];
      CallsSnoc(l.log, Moved(req.key, l.rows[req.key].status, Denied), req.key);
    case RequireApproval(reason) =>
      made := [];
      CallsSnoc(l.log, Moved(req.key, l.rows[req.key].status, AwaitingApproval), req.key);
    case Allow => made := ExecuteCalls(l, req, 0, NoError, budget, r);
  }

  /** A run with enough writes and calls survives.  If its row is approved or its policies
      all allow it, it calls its function attempt by attempt until one returns or
      retries + 1 have failed, and ends as the last of them did; otherwise it does not call
      it at all. */
  lemma RunMakesItsAttempts(l: Ledger, req: Request, now: int, budget: nat) returns (made: seq<Done>)
    requires budget >= Enough(req)
    ensures var r := Run(l, req, now, budget);
            && !r.end.Crashed? && r.left >= budget - Enough(req)
            && CallsOf(r.ledger.log, req.key) == CallsOf(l.log, req.key) + made
            && (MayCall(l, req, now) ==> Made(req, 0, made) && r.end == EndAfter(made, NoError))
            && (!MayCall(l, req, now) ==> made == [])
  {
    var decision := Combined(req.policies, Context(req.key, req.cost), l.rows, now);
    AllRulings(l, req, now);
    made := RunCalls(l, req, now, budget, decision, Run(l, req, now, budget));
  }

  lemma RunCalls(l: Ledger, req: Request, now: int, budget: nat, decision: Decision, r: Ran) returns (made: seq<Done>)
    requires budget >= Enough(req) && r == Run(l, req, now, budget)
    requires decision == Combined(req.policies, Context(req.key, req.cost), l.rows, now)
    ensures !r.end.Crashed? && r.left >= budget - Enough(req)
    ensures CallsOf(r.ledger.log, req.key) == CallsOf(l.log, req.key) + made
    ensures if (req.key in l.rows && l.rows[req.key].status == Approved) || (Asked(l, req.key) && decision.Allow?)
            then Made(req, 0, made) && r.end == EndAfter(made, NoError) else made == []
  {
    if req.key !in l.rows {
      CallsSnoc(l.log, Inserted(req.key), req.key);
      made := DecidedCalls(InsertPending(l, req.key, req.cost, now), req, decision, budget - 1, r);
    } else if l.rows[req.key].status == Failed {
      made := DecidedCalls(l, req, decision, budget, r);
    } else if l.rows[req.key].status == Approved {
      made := ExecuteCalls(l, req, 0, NoError, budget, r);
    } else {
      made := [];
    }
  }

  /** The first denial refuses the call for its reason; without one, the first approval
      requirement parks it for its reason. */
  lemma FirstRulingDecides(l: Ledger, req: Request, now: int, budget: nat, i: nat)
    requires Asked(l, req.key) && i < |req.policies| && budget >= 2
    requires if Ruling(l, req, now, i).Deny? then forall j :: 0 <= j < i ==> !Ruling(l, req, now, j).Deny?
             else && Ruling(l, req, now, i).RequireApproval?
                  && (forall j :: 0 <= j < i ==> Ruling(l, req, now, j).Allow?)
                  && forall j :: 0 <= j < |req.policies| ==> !Ruling(l, req, now, j).Deny?
    ensures var r := Run(l, req, now, budget);
            var ruling := Ruling(l, req, now, i);
            && req.key in r.ledger.rows && r.ledger.rows[req.key].reason == Some(ruling.reason)
            && (ruling.Deny? ==>
                  r.end == Threw(PolicyDenied(ruling.reason)) && r.ledger.rows[req.key].status == Denied)
            && (ruling.RequireApproval? ==>
                  r.end == Threw(ApprovalRequired(ruling.reason))
                    && r.ledger.rows[req.key].status == AwaitingApproval)
  {
    var ctx := Context(req.key, req.cost);
    assert forall j :: 0 <= j < |req.policies| ==> Ruling(l, req, now, j) == Verdict(req.policies[j], ctx, l.rows, now);
    FirstOfItsKindWins(req.policies, ctx, l.rows, now, i);
  }

  /** A decision on a parked call is obeyed: once rejected, every run of it is
      refused for the reason given and calls nothing; once approved, the next run
      makes its attempts whatever its policies would say. */
  lemma ReviewIsObeyed(l: Ledger, req: Request, reason: Reason, now: int, budget: nat) returns (made: seq<Done>)
    requires req.key in l.rows && l.rows[req.key].status == AwaitingApproval && budget >= Enough(req)
    ensures var rejected := Reject(l, req.key, reason);
            Run(rejected, req, now, budget) == Ran(rejected, Threw(ActionRejected(Some(reason))), budget)
    ensures var approved := Approve(l, req.key);
            var r := Run(approved, req, now, budget);
            && Made(req, 0, made) && r.end == EndAfter(made, NoError)
            && CallsOf(r.ledger.log, req.key) == CallsOf(l.log, req.key) + made
  {
    CallsSnoc(l.log, Moved(req.key, AwaitingApproval, Approved), req.key);
    made := RunMakesItsAttempts(Approve(l, req.key), req, now, budget);
  }

  /** A condition policy speaks exactly when its test holds of the call: a new or failed
      action one of them denies is refused without being called, and one whose policies are
      all conditions that do not hold is called. */
  lemma ConditionsDecide(l: Ledger, req: Request, now: int, budget: nat) returns (made: seq<Done>)
    requires Asked(l, req.key) && budget >= Enough(req)
    ensures var ctx := Context(req.key, req.cost);
            var r := Run(l, req, now, budget);
            && ((exists i :: 0 <= i < |req.policies| && Denies(req.policies[i], ctx)) ==>
                  && CallsOf(r.ledger.log, req.key) == CallsOf(l.log, req.key)
                  && req.key in r.ledger.rows && r.ledger.rows[req.key].status == Denied)
            && ((forall i :: 0 <= i < |req.policies| ==> Silent(req.policies[i], ctx)) ==>
                  Made(req, 0, made) && CallsOf(r.ledger.log, req.key) == CallsOf(l.log, req.key) + made)
  {
    var ctx := Context(req.key, req.cost);
    MostRestrictiveWins(req.policies, ctx, l.rows, now);
    made := RunMakesItsAttempts(l, req, now, budget);
    if i :| 0 <= i < |req.policies| && Denies(req.policies[i], ctx) {
      assert Verdict(req.policies[i], ctx, l.rows, now).Deny?;
      DeniedIsDenied(l, req, now, budget);
      assert !MayCall(l, req, now) by { assert Ruling(l, req, now, i).Deny?; }
    }
    if forall i :: 0 <= i < |req.policies| ==> Silent(req.policies[i], ctx) {
      forall i | 0 <= i < |req.policies| ensures Ruling(l, req, now, i).Allow? {
        assert Silent(req.policies[i], ctx);
      }
    }
  }

  /** It is a condition that holds, and denies. */
  predicate Denies(p: Policy, ctx: Context) {
    p.When? && p.verdict.Deny? && p.test(ctx)
  }

  predicate Silent(p: Policy, ctx: Context) {
    p.When? && !p.test(ctx)
  }

  lemma DeniedIsDenied(l: Ledger, req: Request, now: int, budget: nat)
    requires Asked(l, req.key) && budget >= 2
    requires Combined(req.policies, Context(req.key, req.cost), l.rows, now).Deny?
    ensures var r := Run(l, req, now, budget);
            req.key in r.ledger.rows && r.ledger.rows[req.key].status == Denied
  {
  }
}
