/** What any sequence of run, approve and reject calls keeps, each run possibly cut
    short by a crash: every status change is one the server allows, and each key's
    function finishes successfully at most once. */
module RunTheorems {
  import opened Prelude
  import opened ActionLedger
  import opened Policies
  import opened RunSpec
  import opened ActionMachine

  // ---------------------------------------------------------------- one key's history

  /** The log entries about one key. */
  ghost function HistoryOf(log: seq<Entry>, key: Key): seq<Entry> {
    if log == [] then []
    else
      var e := log[|log| - 1];
      HistoryOf(log[..|log| - 1], key) + if e.key == key then [e] else []
  }

  ghost function RowOf(l: Ledger, key: Key): Option<Row> {
    if key in l.rows then Some(l.rows[key]) else None
  }

  /** The statuses a history went through. */
  ghost function Statuses(h: seq<Entry>): seq<Status> {
    if h == [] then []
    else
      var e := h[|h| - 1];
      Statuses(h[..|h| - 1]) + if e.Inserted? then [Pending] else if e.Moved? then [e.to] else []
  }

  ghost function Latest(h: seq<Entry>): Option<Status> {
    var t := Statuses(h);
    if t == [] then None else Some(t[|t| - 1])
  }

  predicate IsSuccess(e: Entry) {
    e.Executed? && e.done.Gave?
  }

  ghost predicate NotDone(h: seq<Entry>) {
    forall j :: 0 <= j < |h| ==> !IsSuccess(h[j])
  }

  ghost predicate DidGive(h: seq<Entry>, v: Value) {
    exists j :: 0 <= j < |h| && IsSuccess(h[j]) && h[j].done.v == v
  }

  // ---------------------------------------------------------------- the invariant

  /** If the entry at j is a call of the function, the row was running at that moment. */
  ghost predicate RanRunning(h: seq<Entry>, j: nat)
    requires j < |h|
  {
    h[j].Executed? ==> Latest(h[..j]) == Some(Running)
  }

  /** The row is what the history says, and every move in it was allowed. */
  ghost predicate Tracks(row: Option<Row>, h: seq<Entry>) {
    && Latest(h) == (if row.Some? then Some(row.value.status) else None)
    && Lawful(Statuses(h))
    && forall j :: 0 <= j < |h| ==> RanRunning(h, j)
  }

  /** After a successful call the function is never called again; the row is then
      succeeded with that value, or still running after a crash. */
  ghost predicate Once(row: Option<Row>, h: seq<Entry>) {
    && (forall i, j :: 0 <= i < j < |h| && IsSuccess(h[i]) ==> !h[j].Executed?)
    && (forall i :: 0 <= i < |h| && IsSuccess(h[i]) ==>
          row.Some? && (row.value.status == Running || row.value.status == Succeeded))
    && (row.Some? && row.value.status == Succeeded ==> DidGive(h, row.value.result))
  }

  ghost predicate KeySound(l: Ledger, key: Key) {
    Tracks(RowOf(l, key), HistoryOf(l.log, key)) && Once(RowOf(l, key), HistoryOf(l.log, key))
  }

  ghost predicate Sound(l: Ledger) {
    forall key :: KeySound(l, key)
  }

  lemma HistorySnoc(log: seq<Entry>, e: Entry, key: Key)
    ensures HistoryOf(log + [e], key) == HistoryOf(log, key) + if e.key == key then [e] else []
  {
    assert (log + [e])[..|log|] == log;
  }

  /** Appending one entry to a key's history. */
  lemma TracksSnoc(row: Option<Row>, row': Option<Row>, h: seq<Entry>, e: Entry)
    requires Tracks(row, h)
    requires e.Inserted? ==> row.None? && row'.Some? && row'.value.status == Pending
    requires e.Moved? ==> row.Some? && row'.Some? && row'.value.status == e.to && Allowed(row.value.status, e.to)
    requires e.Executed? ==> row' == row && row.Some? && row.value.status == Running
    ensures Tracks(row', h + [e])
  {
    var h' := h + [e];
    assert h'[..|h|] == h;
    forall j | 0 <= j < |h'| ensures RanRunning(h', j) {
      if j < |h| {
        assert RanRunning(h, j) && h'[..j] == h[..j];
      }
    }
  }

  // ---------------------------------------------------------------- single writes

  /** A first entry: the row is pending, and nothing was called before. */
  lemma InsertedOnce(row: Option<Row>, h: seq<Entry>, e: Entry)
    requires Tracks(None, h) && Once(None, h) && e.Inserted?
    requires row.Some? && row.value.status == Pending
    ensures Tracks(row, h + [e]) && Once(row, h + [e]) && NotDone(h + [e])
  {
    TracksSnoc(None, row, h, e);
    assert NotDone(h + [e]);
  }

  lemma MoveKeeps(l: Ledger, l': Ledger, key: Key, to: Status)
    requires KeySound(l, key) && key in l.rows && Allowed(l.rows[key].status, to)
    requires l'.log == l.log + [Moved(key, l.rows[key].status, to)]
    requires key in l'.rows && l'.rows[key].status == to
    requires if to
             == Succeeded then DidGive(HistoryOf(l.log, key), l'.rows[key].result) else NotDone(HistoryOf(l.log, key))
    ensures KeySound(l', key)
    ensures to != Succeeded ==> NotDone(HistoryOf(l'.log, key))
  {
    var e := Moved(key, l.rows[key].status, to);
    var h := HistoryOf(l.log, key);
    HistorySnoc(l.log, e, key);
    TracksSnoc(RowOf(l, key), RowOf(l', key), h, e);
    if to == Succeeded {
      var j :| 0 <= j < |h| && IsSuccess(h[j]) && h[j].done.v == l'.rows[key].result;
      assert (h + [e])[j] == h[j];
    }
  }

  lemma CallKeeps(l: Ledger, key: Key, given: Value, done: Done)
    requires KeySound(l, key) && key in l.rows && l.rows[key].status == Running && NotDone(HistoryOf(l.log, key))
    ensures var l' := Note(l, Executed(key, given, done));
            && KeySound(l', key)
            && (done.Raised? ==> NotDone(HistoryOf(l'.log, key)))
            && (done.Gave? ==> DidGive(HistoryOf(l'.log, key), done.v))
  {
    var e := Executed(key, given, done);
    var h := HistoryOf(l.log, key);
    var l' := Note(l, e);
    assert HistoryOf(l'.log, key) == h + [e] by { HistorySnoc(l.log, e, key); }
    assert Tracks(RowOf(l', key), h + [e]) by { TracksSnoc(RowOf(l, key), RowOf(l, key), h, e); }
    CalledOnce(RowOf(l', key), h, e);
  }

  /** A first successful call, or one more failed one. */
  lemma CalledOnce(row: Option<Row>, h: seq<Entry>, e: Entry)
    requires Once(row, h) && NotDone(h) && e.Executed? && row.Some? && row.value.status == Running
    ensures Once(row, h + [e])
    ensures e.done.Raised? ==> NotDone(h + [e])
    ensures e.done.Gave? ==> DidGive(h + [e], e.done.v)
  {
    assert (h + [e])[|h|] == e;
  }

  // ---------------------------------------------------------------- one call

  /** A call touches one row and appends entries about that key only. */
  ghost predicate Touches(l: Ledger, l': Ledger, key: Key, given: Value) {
    && l.log <= l'.log
    && (forall j :: |l.log| <= j < |l'.log| ==>
          l'.log[j].key == key && (l'.log[j].Executed? ==> l'.log[j].given == given))
    && (forall k :: k != key ==> RowOf(l', k) == RowOf(l, k))
    && (key in l.rows ==> key in l'.rows && l'.rows[key].cost == l.rows[key].cost)
  }

  /** How a call leaves its row. */
  ghost predicate Settled(l: Ledger, r: Ran, req: Request) {
    && Touches(l, r.ledger, req.key, req.given)
    && (r.end.Got? <==> req.key in r.ledger.rows && r.ledger.rows[req.key].status == Succeeded)
    && (r.end.Got? ==> r.ledger.rows[req.key].result == r.end.v)
  }

  lemma {:induction false} HistoryFrame(log: seq<Entry>, log': seq<Entry>, key: Key, other: Key)
    requires log <= log' && other != key
    requires forall j :: |log| <= j < |log'| ==> log'[j].key == key
    ensures HistoryOf(log', other) == HistoryOf(log, other)
    decreases |log'|
  {
    if |log'| == |log| {
      assert log' == log;
    } else {
      HistoryFrame(log, log'[..|log'| - 1], key, other);
    }
  }

  lemma SettledKeeps(l: Ledger, r: Ran, req: Request)
    requires Sound(l) && Settled(l, r, req) && KeySound(r.ledger, req.key)
    ensures Sound(r.ledger)
  {
    TouchesKeeps(l, r.ledger, req.key, req.given);
  }

  lemma {:induction false} ExecuteSettles(l: Ledger, req: Request, attempt: int, last: Raise, budget: nat)
    requires req.key in l.rows && l.rows[req.key].status != Succeeded
    ensures Settled(l, Execute(l, req, attempt, last, budget), req)
    decreases req.retries - attempt
  {
    if attempt <= req.retries && budget > 1 && req.execute(attempt).Raised? {
      var called := Note(MarkRunning(l, req.key), Executed(req.key, req.given, req.execute(attempt)));
      ExecuteSettles(called, req, attempt + 1, req.execute(attempt).raise, budget - 2);
    }
  }

  /** A key whose function may still be called. */
  ghost predicate Open(l: Ledger, key: Key) {
    KeySound(l, key) && key in l.rows && NotDone(HistoryOf(l.log, key))
  }

  lemma FailKeeps(l: Ledger, key: Key, last: Raise)
    requires Open(l, key) && Allowed(l.rows[key].status, Failed)
    ensures KeySound(MarkFailed(l, key, last), key)
  {
    MoveKeeps(l, MarkFailed(l, key, last), key, Failed);
  }

  lemma StartKeeps(l: Ledger, key: Key)
    requires Open(l, key) && Allowed(l.rows[key].status, Running)
    ensures Open(MarkRunning(l, key), key) && MarkRunning(l, key).rows[key].status == Running
  {
    MoveKeeps(l, MarkRunning(l, key), key, Running);
  }

  lemma {:induction false} ExecuteKeeps(l: Ledger, req: Request, attempt: int, last: Raise, budget: nat)
    requires Open(l, req.key)
    requires l.rows[req.key].status in {Pending, Failed, Approved, Running}
    ensures KeySound(Execute(l, req, attempt, last, budget).ledger, req.key)
    decreases req.retries - attempt
  {
    if budget == 0 {
    } else if attempt > req.retries {
      FailKeeps(l, req.key, last);
    } else {
      StartKeeps(l, req.key);
      if budget > 1 {
        AttemptKeeps(MarkRunning(l, req.key), req, attempt, budget);
      }
      ExecuteIs(l, req, attempt, last, budget);
    }
  }

  /** What one attempt leaves when the process survives its start. */
  function Attempted(running: Ledger, req: Request, attempt: int, budget: nat): Ledger
    requires budget > 1
  {
    var done := req.execute(attempt);
    var called := Note(running, Executed(req.key, req.given, done));
    match done
    case Raised(raise) => Execute(called, req, attempt + 1, raise, budget - 2).ledger
    case Gave(v) => if budget == 2 then called else MarkSucceeded(called, req.key, v)
  }

  lemma ExecuteIs(l: Ledger, req: Request, attempt: int, last: Raise, budget: nat)
    requires budget > 0 && attempt <= req.retries
    ensures Execute(l, req, attempt, last, budget).ledger
         == if budget == 1 then MarkRunning(l, req.key) else Attempted(MarkRunning(l, req.key), req, attempt, budget)
  {
  }

  /** The rest of one attempt, once the row is marked running. */
  lemma {:induction false} AttemptKeeps(running: Ledger, req: Request, attempt: int, budget: nat)
    requires Open(running, req.key) && running.rows[req.key].status == Running && budget > 1 && attempt <= req.retries
    ensures KeySound(Attempted(running, req, attempt, budget), req.key)
    decreases req.retries - attempt, 0
  {
    var done := req.execute(attempt);
    var called := Note(running, Executed(req.key, req.given, done));
    CallKeeps(running, req.key, req.given, done);
    match done
    case Raised(raise) =>
      ExecuteKeeps(called, req, attempt + 1, raise, budget - 2);
      SameSound(Execute(called, req, attempt + 1, raise, budget - 2).ledger,
                Attempted(running, req, attempt, budget), req.key);
    case Gave(v) =>
      var kept := MarkSucceeded(called, req.key, v);
      assert KeySound(kept, req.key) by { MoveKeeps(called, kept, req.key, Succeeded); }
      SameSound(if budget == 2 then called else kept, Attempted(running, req, attempt, budget), req.key);
  }

  lemma DecideSettles(l: Ledger, req: Request, decision: Decision, budget: nat)
    requires req.key in l.rows && l.rows[req.key].status != Succeeded
    ensures Settled(l, Decide(l, req, decision, budget), req)
  {
    if decision.Allow? {
      ExecuteSettles(l, req, 0, NoError, budget);
    }
  }

  lemma DecideKeeps(l: Ledger, req: Request, decision: Decision, budget: nat)
    requires Open(l, req.key)
    requires l.rows[req.key].status == Pending || l.rows[req.key].status == Failed
    ensures KeySound(Decide(l, req, decision, budget).ledger, req.key)
  {
    match decision
    case Deny(reason) => MoveKeeps(l, MarkDenied(l, req.key, reason), req.key, Denied);
    case RequireApproval(reason) => MoveKeeps(l, MarkAwaitingApproval(l, req.key, reason), req.key, AwaitingApproval);
    case Allow => ExecuteKeeps(l, req, 0, NoError, budget);
  }

  lemma RunSettles(l: Ledger, req: Request, now: int, budget: nat)
    ensures Settled(l, Run(l, req, now, budget), req)
  {
    var decision := Combined(req.policies, Context(req.key, req.cost), l.rows, now);
    if req.key !in l.rows {
      if budget > 0 {
        DecideSettles(InsertPending(l, req.key, req.cost, now), req, decision, budget - 1);
      }
    } else if l.rows[req.key].status == Failed {
      DecideSettles(l, req, decision, budget);
    } else if l.rows[req.key].status == Approved {
      ExecuteSettles(l, req, 0, NoError, budget);
    }
  }

  lemma OpenUnlessRun(l: Ledger, key: Key)
    requires KeySound(l, key) && key in l.rows && l.rows[key].status != Running && l.rows[key].status != Succeeded
    ensures Open(l, key)
  {
  }

  lemma RunIs(l: Ledger, req: Request, now: int, budget: nat)
    ensures var decision := Combined(req.policies, Context(req.key, req.cost), l.rows, now);
            Run(l, req, now, budget).ledger
            == if req.key !in l.rows then
                 if budget == 0 then l
                 else Decide(InsertPending(l, req.key, req.cost, now), req, decision, budget - 1).ledger
               else if l.rows[req.key].status == Failed then Decide(l, req, decision, budget).ledger
               else if l.rows[req.key].status == Approved then Execute(l, req, 0, NoError, budget).ledger
               else l
  {
  }

  lemma RunKeeps(l: Ledger, req: Request, now: int, budget: nat)
    requires KeySound(l, req.key)
    ensures KeySound(Run(l, req, now, budget).ledger, req.key)
  {
    RunIs(l, req, now, budget);
    RunKeepsBy(l, req, now, budget, Combined(req.policies, Context(req.key, req.cost), l.rows, now),
      Run(l, req, now, budget).ledger);
  }

  lemma RunKeepsBy(l: Ledger, req: Request, now: int, budget: nat, decision: Decision, l': Ledger)
    requires KeySound(l, req.key)
    requires l' == if req.key !in l.rows then
                     if budget == 0 then l
                     else Decide(InsertPending(l, req.key, req.cost, now), req, decision, budget - 1).ledger
                   else if l.rows[req.key].status == Failed then Decide(l, req, decision, budget).ledger
                   else if l.rows[req.key].status == Approved then Execute(l, req, 0, NoError, budget).ledger
                   else l
    ensures KeySound(l', req.key)
  {
    if req.key !in l.rows && budget > 0 {
      InsertedKeeps(l, req, now, decision, budget - 1);
      SameSound(Decide(InsertPending(l, req.key, req.cost, now), req, decision, budget - 1).ledger, l', req.key);
    } else if req.key in l.rows && l.rows[req.key].status == Failed {
      OpenUnlessRun(l, req.key);
      DecideKeeps(l, req, decision, budget);
      SameSound(Decide(l, req, decision, budget).ledger, l', req.key);
    } else if req.key in l.rows && l.rows[req.key].status == Approved {
      OpenUnlessRun(l, req.key);
      ExecuteKeeps(l, req, 0, NoError, budget);
      SameSound(Execute(l, req, 0, NoError, budget).ledger, l', req.key);
    } else {
      SameSound(l, l', req.key);
    }
  }

  lemma InsertedKeeps(l: Ledger, req: Request, now: int, decision: Decision, budget: nat)
    requires KeySound(l, req.key) && req.key !in l.rows
    ensures KeySound(Decide(InsertPending(l, req.key, req.cost, now), req, decision, budget).ledger, req.key)
  {
    var l1 := InsertPending(l, req.key, req.cost, now);
    var e, h := Inserted(req.key), HistoryOf(l.log, req.key);
    assert HistoryOf(l1.log, req.key) == h + [e] by { HistorySnoc(l.log, e, req.key); }
    InsertedOnce(RowOf(l1, req.key), h, e);
    DecideKeeps(l1, req, decision, budget);
  }

  lemma SameSound(l: Ledger, l': Ledger, key: Key)
    requires KeySound(l, key) && l' == l
    ensures KeySound(l', key)
  {
  }

  lemma ReviewTouches(l: Ledger, key: Key, reason: Reason)
    ensures Touches(l, Approve(l, key), key, Undefined) && Touches(l, Reject(l, key, reason), key, Undefined)
  {
  }

  lemma ReviewSettles(l: Ledger, key: Key, reason: Reason)
    requires KeySound(l, key)
    ensures KeySound(Approve(l, key), key) && Touches(l, Approve(l, key), key, Undefined)
    ensures KeySound(Reject(l, key, reason), key) && Touches(l, Reject(l, key, reason), key, Undefined)
  {
    ReviewTouches(l, key, reason);
    if ReviewOf(l, key).Reviewed? {
      OpenUnlessRun(l, key);
      assert KeySound(Approve(l, key), key) by { ReviewMoves(l, MarkApproved(l, key), key, Approved); }
      assert KeySound(Reject(l, key, reason), key) by { ReviewMoves(l, MarkRejected(l, key, reason), key, Rejected); }
    }
  }

  lemma ReviewMoves(l: Ledger, l': Ledger, key: Key, to: Status)
    requires Open(l, key) && l.rows[key].status == AwaitingApproval && (to == Approved || to == Rejected)
    requires l'.log == l.log + [Moved(key, AwaitingApproval, to)] && key in l'.rows && l'.rows[key].status == to
    ensures KeySound(l', key)
  {
    MoveKeeps(l, l', key, to);
  }

  // ---------------------------------------------------------------- whole runs

  datatype Op =
    | DoRun(req: Request, now: int, budget: nat)
    | DoApprove(key: Key)
    | DoReject(key: Key, reason: Reason)

  ghost function Apply(l: Ledger, op: Op): Ledger {
    match op
    case DoRun(req, now, budget) => Run(l, req, now, budget).ledger
    case DoApprove(key) => Approve(l, key)
    case DoReject(key, reason) => Reject(l, key, reason)
  }

  ghost function After(l: Ledger, ops: seq<Op>): Ledger {
    if ops == [] then l else Apply(After(l, ops[..|ops| - 1]), ops[|ops| - 1])
  }

  lemma TouchesKeeps(l: Ledger, l': Ledger, key: Key, given: Value)
    requires Sound(l) && Touches(l, l', key, given) && KeySound(l', key)
    ensures Sound(l')
  {
    forall k ensures KeySound(l', k) {
      if k != key {
        assert KeySound(l, k);
        HistoryFrame(l.log, l'.log, key, k);
      }
    }
  }

  lemma ApplyKeeps(l: Ledger, op: Op)
    requires Sound(l)
    ensures Sound(Apply(l, op))
  {
    match op
    case DoRun(req, now, budget) =>
      RunSettles(l, req, now, budget);
      RunKeeps(l, req, now, budget);
      SettledKeeps(l, Run(l, req, now, budget), req);
    case DoApprove(key) =>
      ReviewSettles(l, key, Text(""));
      TouchesKeeps(l, Approve(l, key), key, Undefined);
    case DoReject(key, reason) =>
      ReviewSettles(l, key, reason);
      TouchesKeeps(l, Reject(l, key, reason), key, Undefined);
  }

  lemma {:induction false} AfterKeeps(l: Ledger, ops: seq<Op>)
    requires Sound(l)
    ensures Sound(After(l, ops))
  {
    if ops != [] {
      AfterKeeps(l, ops[..|ops| - 1]);
      ApplyKeeps(After(l, ops[..|ops| - 1]), ops[|ops| - 1]);
    }
  }

  /** Each key's function finishes successfully at most once, is never called again
      after that, and a succeeded row holds exactly the value it returned. */
  lemma SucceedsAtMostOnce(ops: seq<Op>, key: Key, i: nat, j: nat)
    requires var h := HistoryOf(After(Empty, ops).log, key); i < j < |h| && IsSuccess(h[i])
    ensures var l := After(Empty, ops);
            var h := HistoryOf(l.log, key);
            && !h[j].Executed?
            && key in l.rows
            && (l.rows[key].status == Succeeded ==> l.rows[key].result == h[i].done.v)
  {
    AfterKeeps(Empty, ops);
    assert KeySound(After(Empty, ops), key);
  }

  /** run() returns a value exactly when the row it leaves is succeeded, and that
      value is the one the key's function returned. */
  lemma RunReturnsStoredResult(ops: seq<Op>, req: Request, now: int, budget: nat)
    ensures var r := Run(After(Empty, ops), req, now, budget);
            && (r.end.Got? <==> req.key in r.ledger.rows && r.ledger.rows[req.key].status == Succeeded)
            && (r.end.Got? ==> r.ledger.rows[req.key].result == r.end.v
                               && DidGive(HistoryOf(r.ledger.log, req.key), r.end.v))
  {
    AfterKeeps(Empty, ops);
    assert KeySound(After(Empty, ops), req.key);
    RunSettles(After(Empty, ops), req, now, budget);
    RunKeeps(After(Empty, ops), req, now, budget);
  }

  /** The SDK refines the server's machine: every key's statuses start at pending
      and move only as the server allows; its function is called only while the
      row is running; a terminal status is final; and nothing runs or succeeds
      after waiting for approval without having been approved in between. */
  lemma RunRefinesMachine(ops: seq<Op>, key: Key)
    ensures var l := After(Empty, ops);
            var h := HistoryOf(l.log, key);
            var t := Statuses(h);
            && Lawful(t)
            && Latest(h) == (if key in l.rows then Some(l.rows[key].status) else None)
            && (forall j :: 0 <= j < |h| ==> RanRunning(h, j))
            && (forall i :: 0 <= i < |t| - 1 ==> !Terminal(t[i]))
            && (forall i, j ::
                  0 <= i < j < |t| && t[i] == AwaitingApproval && (t[j] == Running || t[j] == Succeeded) ==>
                    exists m :: i < m < j && t[m] == Approved)
  {
    AfterKeeps(Empty, ops);
    assert KeySound(After(Empty, ops), key);
    var t := Statuses(HistoryOf(After(Empty, ops).log, key));
    forall i | 0 <= i < |t| - 1 ensures !Terminal(t[i]) {
      GateAndTerminals(t, i, i + 1);
    }
    forall i, j | 0 <= i < j < |t| && t[i] == AwaitingApproval && (t[j] == Running || t[j] == Succeeded)
      ensures exists m :: i < m < j && t[m] == Approved
    {
      GateAndTerminals(t, i, j);
    }
  }
}
