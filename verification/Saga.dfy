/** The saga coordinator, seen from one saga: a forward pass over the ledger, a
    reverse-order compensation, and resumption after a crash at any write. */
module SagaSpec {
  import opened Prelude
  import opened ActionLedger
  import opened Policies
  import opened RunSpec

  datatype SagaStatus =
    | SagaRunning
    | SagaAwaitingStep
    | SagaSucceeded
    | SagaCompensating
    | SagaCompensated
    | SagaCompensationFailed

  datatype StepStatus = StepSucceeded | StepCompensated | StepCompensationFailed

  datatype SagaRecord = SagaRecord(status: SagaStatus, currentStep: nat, failedStep: Option<string>,
    error: Option<Raise>)
  datatype StepRecord = StepRecord(name: string, status: StepStatus, output: Value, error: Option<Raise>)

  /** A step's definition; `undo` says whether it has a compensation. */
  datatype StepDef = StepDef(name: string, undo: bool, retries: int, compensationRetries: int, cost: real,
    policies: seq<Policy>)

  /** A saga instance: stable id, scope and steps. */
  datatype Saga = Saga(name: string, sagaId: string, scope: string, steps: seq<StepDef>)

  /** What one call meets outside: each step's do and undo by (step, attempt), and the clock. */
  datatype World = World(doStep: (nat, int) -> Done, undoStep: (nat, int) -> Done, clock: nat -> int)

  datatype State = State(saga: Option<SagaRecord>, recs: map<nat, StepRecord>, ledger: Ledger)

  datatype Answer =
    | Completed(outputs: map<string, Value>)
    | Paused(raise: Raise)
    | Aborted(failedStep: string, cause: Raise, compensated: seq<string>)
    | CompensationError(failedStep: string, cause: Raise, failures: seq<(string, Raise)>)
    | Died

  datatype Result = Result(state: State, out: Answer, left: nat)

  // ---------------------------------------------------------------- keys and requests

  function ToolOf(saga: Saga, step: string): string {
    "saga:" + saga.name + ":" + step
  }

  function DoKey(saga: Saga, i: nat): Key
    requires i < |saga.steps|
  {
    Key(ToolOf(saga, saga.steps[i].name), SagaStep(saga.sagaId, i), Some(saga.scope))
  }

  function UndoKey(saga: Saga, i: nat, name: string): Key {
    Key(ToolOf(saga, name) + ":undo", SagaStep(saga.sagaId, i), Some(saga.scope))
  }

  function DoRequest(saga: Saga, world: World, i: nat): Request
    requires i < |saga.steps|
  {
    var d := saga.steps[i];
    Request(DoKey(saga, i), d.cost, d.retries, d.policies, Undefined, attempt => world.doStep(i, attempt))
  }

  /** undo is handed the recorded output; what it returns is discarded. */
  function UndoRequest(saga: Saga, world: World, i: nat, rec: StepRecord): Request
    requires i < |saga.steps|
  {
    Request(UndoKey(saga, i, rec.name), 0.0, saga.steps[i].compensationRetries, [], rec.output,
            attempt => if world.undoStep(i, attempt).Gave? then Gave(Undefined) else world.undoStep(i, attempt))
  }

  // ---------------------------------------------------------------- store operations

  function SetSagaStatus(s: State, status: SagaStatus, failedStep: Option<string>, error: Option<Raise>): State {
    match s.saga
    case None => s
    case Some(r) =>
      s.(saga := Some(r.(status := status,
                         error := if error.None? then r.error else error,
                         failedStep := if failedStep.None? then r.failedStep else failedStep)))
  }

  function SetCurrentStep(s: State, i: nat): State {
    match s.saga
    case None => s
    case Some(r) => s.(saga := Some(r.(currentStep := i)))
  }

  function RecordStep(s: State, i: nat, rec: StepRecord): State {
    s.(recs := s.recs[i := rec])
  }

  /** Outputs by step name, in step order. */
  function Collect(recs: map<nat, StepRecord>, n: nat): map<string, Value> {
    if n == 0 then map[]
    else
      var m := Collect(recs, n - 1);
      if n - 1 in recs then m[recs[n - 1].name := recs[n - 1].output] else m
  }

  predicate ToUndo(rec: StepRecord) {
    rec.status == StepSucceeded || rec.status == StepCompensationFailed
  }

  /** The steps to undo, latest first. */
  function UndoOrder(recs: map<nat, StepRecord>, n: nat): seq<nat> {
    if n == 0 then []
    else (if n - 1 in recs && ToUndo(recs[n - 1]) then [n - 1] else []) + UndoOrder(recs, n - 1)
  }

  function CompensatedNames(recs: map<nat, StepRecord>, n: nat): seq<string> {
    if n == 0 then []
    else
      CompensatedNames(recs, n - 1)
      + if n - 1 in recs && recs[n - 1].status == StepCompensated then [recs[n - 1].name] else []
  }

  // ---------------------------------------------------------------- the passes

  predicate Pauses(raise: Raise) {
    raise.ApprovalRequired? || raise.DuplicateInFlight?
  }

  ghost function Forward(s: State, saga: Saga, world: World, i: nat, outputs: map<string, Value>, budget: nat): Result
    decreases |saga.steps| - i, 1
  {
    if i >= |saga.steps| then
      if budget == 0 then Result(s, Died, 0)
      else Result(SetSagaStatus(s, SagaSucceeded, None, None), Completed(outputs), budget - 1)
    else
      React(s, saga, world, i, outputs, Run(s.ledger, DoRequest(saga, world, i), world.clock(i), budget))
  }

  /** What follows one step's run(). */
  ghost function React(s: State, saga: Saga, world: World, i: nat, outputs: map<string, Value>, r: Ran): Result
    requires i < |saga.steps|
    decreases |saga.steps| - i, 0
  {
    var name := saga.steps[i].name;
    var s1 := s.(ledger := r.ledger);
    match r.end
    case Crashed => Result(s1, Died, 0)
    case Got(v) =>
      if r.left == 0 then Result(s1, Died, 0)
      else
        var s2 := RecordStep(s1, i, StepRecord(name, StepSucceeded, v, None));
        if r.left == 1 then Result(s2, Died, 0)
        else Forward(SetCurrentStep(s2, i + 1), saga, world, i + 1, outputs[name := v], r.left - 2)
    case Threw(raise) =>
      if Pauses(raise) then Pause(s1, i, name, raise, r.left)
      else Compensate(s1, saga, world, name, raise, r.left)
  }

  function Pause(s: State, i: nat, name: string, raise: Raise, budget: nat): Result {
    if budget == 0 then Result(s, Died, 0)
    else if budget == 1 then Result(SetCurrentStep(s, i), Died, 0)
    else Result(SetSagaStatus(SetCurrentStep(s, i), SagaAwaitingStep, Some(name), Some(raise)), Paused(raise),
      budget - 2)
  }

  ghost function Compensate(s: State, saga: Saga, world: World, failedStep: string, cause: Raise, budget: nat): Result {
    if budget == 0 then Result(s, Died, 0)
    else
      var s1 := SetSagaStatus(s, SagaCompensating, Some(failedStep), Some(cause));
      UndoAll(s1, saga, world, UndoOrder(s1.recs, |s1.recs|), failedStep, cause, [], [], budget - 1)
  }

  ghost function UndoAll(s: State, saga: Saga, world: World, todo: seq<nat>, failedStep: string, cause: Raise,
                         compensated: seq<string>, failures: seq<(string, Raise)>, budget: nat): Result
    decreases |todo|
  {
    if todo == [] then
      if budget == 0 then Result(s, Died, 0)
      else if failures != [] then
        Result(SetSagaStatus(s, SagaCompensationFailed, Some(failedStep), Some(cause)),
               CompensationError(failedStep, cause, failures), budget - 1)
      else
        Result(SetSagaStatus(s, SagaCompensated, Some(failedStep), Some(cause)),
               Aborted(failedStep, cause, compensated), budget - 1)
    else if todo[0] !in s.recs then UndoAll(s, saga, world, todo[1..], failedStep, cause, compensated, failures, budget)
    else
      var name := s.recs[todo[0]].name;
      var u := UndoOne(s, saga, world, todo[0], budget);
      match u.end
      case Crashed => Result(u.state, Died, 0)
      case Got(_) =>
        UndoAll(u.state, saga, world, todo[1..], failedStep, cause, compensated + [name], failures, u.left)
      case Threw(raise) =>
        UndoAll(u.state, saga, world, todo[1..], failedStep, cause, compensated, failures + [(name, raise)], u.left)
  }

  /** How one step went. */
  datatype Stage = Stage(state: State, end: End, left: nat)

  /** Undo one recorded step and record how that went. */
  ghost function UndoOne(s: State, saga: Saga, world: World, i: nat, budget: nat): Stage
    requires i in s.recs
  {
    var rec := s.recs[i];
    if i >= |saga.steps| || !saga.steps[i].undo then
      if budget == 0 then Stage(s, Crashed, 0)
      else Stage(RecordStep(s, i, rec.(status := StepCompensated)), Got(Undefined), budget - 1)
    else
      var r := Run(s.ledger, UndoRequest(saga, world, i, rec), world.clock(i), budget);
      var s1 := s.(ledger := r.ledger);
      if r.end.Crashed? || r.left == 0 then Stage(s1, Crashed, 0)
      else if r.end.Got? then Stage(RecordStep(s1, i, rec.(status := StepCompensated)), r.end, r.left - 1)
      else
        Stage(RecordStep(s1, i, rec.(status := StepCompensationFailed, error := Some(r.end.raise))), r.end, r.left - 1)
  }

  function StepOr(failedStep: Option<string>): string {
    if failedStep.Some? then failedStep.value else "?"
  }

  function CauseOr(error: Option<Raise>, default: string): Raise {
    if error.Some? then error.value else Failure(default)
  }

  ghost function Begin(s: State, saga: Saga, world: World, budget: nat): Result {
    if budget == 0 then Result(s, Died, 0)
    else
      var s1 := SetSagaStatus(s, SagaRunning, None, None);
      Forward(s1, saga, world, 0, Collect(s1.recs, |s1.recs|), budget - 1)
  }

  /** Start, or resume from the persisted status. */
  ghost function RunSaga(s: State, saga: Saga, world: World, budget: nat): Result {
    match s.saga
    case None =>
      if budget == 0 then Result(s, Died, 0)
      else Begin(s.(saga := Some(SagaRecord(SagaRunning, 0, None, None))), saga, world, budget - 1)
    case Some(r) =>
      match r.status
      case SagaSucceeded => Result(s, Completed(Collect(s.recs, |s.recs|)), budget)
      case SagaCompensated =>
        Result(s,
          Aborted(StepOr(r.failedStep), CauseOr(r.error, "previously aborted"),
            CompensatedNames(s.recs, |s.recs|)), budget)
      case SagaCompensating =>
        Compensate(s, saga, world, StepOr(r.failedStep), CauseOr(r.error, "resumed rollback"), budget)
      case SagaCompensationFailed =>
        Compensate(s, saga, world, StepOr(r.failedStep), CauseOr(r.error, "resumed rollback"), budget)
      case SagaRunning => Begin(s, saga, world, budget)
      case SagaAwaitingStep => Begin(s, saga, world, budget)
  }
}

/** What every run of a saga keeps across its two stores, with crashes anywhere and
    one driver at a time. */
module SagaTheorems {
  import opened Prelude
  import opened ActionLedger
  import opened Policies
  import opened RunSpec
  import opened RunTheorems
  import opened SagaSpec

  // ---------------------------------------------------------------- the invariant

  ghost predicate Holds(l: Ledger, key: Key, status: Status) {
    key in l.rows && l.rows[key].status == status
  }

  ghost function UndoHistory(s: State, saga: Saga, i: nat): seq<Entry>
    requires i < |saga.steps|
  {
    HistoryOf(s.ledger.log, UndoKey(saga, i, saga.steps[i].name))
  }

  /** Both stores agree about step i: a recorded step is one the ledger holds as
      succeeded, with the same output; a step beyond the first unrecorded one was
      never attempted; undo was only ever called with the recorded output. */
  ghost predicate StepOk(s: State, saga: Saga, i: nat)
    requires i < |saga.steps|
  {
    var name := saga.steps[i].name;
    && KeySound(s.ledger, DoKey(saga, i))
    && KeySound(s.ledger, UndoKey(saga, i, name))
    && (i in s.recs ==>
          && s.recs[i].name == name
          && Holds(s.ledger, DoKey(saga, i), Succeeded)
          && s.ledger.rows[DoKey(saga, i)].result == s.recs[i].output
          && (s.recs[i].status == StepCompensated && saga.steps[i].undo ==>
                Holds(s.ledger, UndoKey(saga, i, name), Succeeded)))
    && (i > |s.recs| ==> DoKey(saga, i) !in s.ledger.rows)
    && (i !in s.recs ==> UndoHistory(s, saga, i) == [])
    && (i in s.recs ==> HandedOnly(UndoHistory(s, saga, i), s.recs[i].output))
    && DoFirst(s.ledger.log, DoKey(saga, i), UndoKey(saga, i, name))
  }

  /** Before position q the function of `key` returned v. */
  ghost predicate ReturnedBefore(log: seq<Entry>, q: nat, key: Key, v: Value) {
    exists p :: 0 <= p < q && p < |log| && IsSuccess(log[p]) && log[p].key == key && log[p].done.v == v
  }

  /** In the order of the log: undo is called only after do returned what undo is handed. */
  ghost predicate DoFirst(log: seq<Entry>, do: Key, undo: Key) {
    forall q :: 0 <= q < |log| && log[q].Executed? && log[q].key == undo ==> ReturnedBefore(log, q, do, log[q].given)
  }

  lemma ReturnedGrows(log: seq<Entry>, log': seq<Entry>, q: nat, q': nat, key: Key, v: Value)
    requires log <= log' && q <= q' && ReturnedBefore(log, q, key, v)
    ensures ReturnedBefore(log', q', key, v)
  {
    var p :| 0 <= p < q && p < |log| && IsSuccess(log[p]) && log[p].key == key && log[p].done.v == v;
    assert log'[p] == log[p];
  }

  lemma DoFirstGrows(log: seq<Entry>, log': seq<Entry>, do: Key, undo: Key, v: Value)
    requires log <= log' && DoFirst(log, do, undo)
    requires forall q :: |log| <= q < |log'| && log'[q].Executed? && log'[q].key == undo ==> log'[q].given == v
    requires (exists q :: |log| <= q < |log'| && log'[q].Executed? && log'[q].key == undo) ==>
             ReturnedBefore(log, |log|, do, v)
    ensures DoFirst(log', do, undo)
  {
    forall q | 0 <= q < |log'| && log'[q].Executed?
      && log'[q].key == undo ensures ReturnedBefore(log', q, do, log'[q].given) {
      if q < |log| {
        assert log'[q] == log[q];
        ReturnedGrows(log, log', q, q, do, log[q].given);
      } else {
        ReturnedGrows(log, log', |log|, q, do, v);
      }
    }
  }

  /** Calls about other keys. */
  lemma DoFirstFrame(log: seq<Entry>, log': seq<Entry>, do: Key, undo: Key, key: Key)
    requires log <= log' && DoFirst(log, do, undo) && key != undo
    requires forall q :: |log| <= q < |log'| ==> log'[q].key == key
    ensures DoFirst(log', do, undo)
  {
    DoFirstGrows(log, log', do, undo, Undefined);
  }

  /** What a key's history shows, the log shows. */
  lemma {:induction false} GaveInLog(log: seq<Entry>, key: Key, v: Value)
    requires DidGive(HistoryOf(log, key), v)
    ensures ReturnedBefore(log, |log|, key, v)
  {
    var h := HistoryOf(log, key);
    var j :| 0 <= j < |h| && IsSuccess(h[j]) && h[j].done.v == v;
    var n := |log| - 1;
    var earlier := HistoryOf(log[..n], key);
    if j < |earlier| {
      assert earlier[j] == h[j];
      GaveInLog(log[..n], key, v);
      ReturnedGrows(log[..n], log, n, |log|, key, v);
    } else {
      assert h[j] == log[n];
    }
  }

  /** Every call in the history was handed this payload. */
  ghost predicate HandedOnly(h: seq<Entry>, given: Value) {
    forall j :: 0 <= j < |h| && h[j].Executed? ==> h[j].given == given
  }

  ghost predicate Prefix(recs: map<nat, StepRecord>) {
    forall k: nat :: k in recs <==> k < |recs|
  }

  ghost predicate Base(s: State, saga: Saga) {
    && Prefix(s.recs) && |s.recs| <= |saga.steps|
    && forall i: nat :: i < |saga.steps| ==> StepOk(s, saga, i)
  }

  /** No undo was ever called, not even attempted. */
  ghost predicate NoUndo(s: State, saga: Saga) {
    forall i: nat :: i < |saga.steps| ==> UndoHistory(s, saga, i) == []
  }

  ghost predicate AllAre(recs: map<nat, StepRecord>, status: StepStatus) {
    forall k :: k in recs ==> recs[k].status == status
  }

  ghost predicate AllUndone(recs: map<nat, StepRecord>) {
    forall k :: k in recs ==> recs[k].status == StepCompensated || recs[k].status == StepCompensationFailed
  }

  /** Some step failed for good: it is the first unrecorded one, and nothing later
      was attempted. */
  ghost predicate Blocked(s: State, saga: Saga) {
    var m := |s.recs|;
    && m < |saga.steps|
    && DoKey(saga, m) in s.ledger.rows
    && s.ledger.rows[DoKey(saga, m)].status in {Failed, Denied, Rejected}
  }

  ghost predicate Phase(s: State, saga: Saga) {
    match s.saga
    case None => s.recs == map[] && NoUndo(s, saga)
    case Some(r) =>
      match r.status
      case SagaRunning => AllAre(s.recs, StepSucceeded) && NoUndo(s, saga)
      case SagaAwaitingStep => AllAre(s.recs, StepSucceeded) && NoUndo(s, saga)
      case SagaSucceeded => |s.recs| == |saga.steps| && AllAre(s.recs, StepSucceeded) && NoUndo(s, saga)
      case SagaCompensating => Blocked(s, saga)
      case SagaCompensated => Blocked(s, saga) && AllAre(s.recs, StepCompensated)
      case SagaCompensationFailed =>
        Blocked(s, saga) && AllUndone(s.recs) && exists k :: k in s.recs && s.recs[k].status == StepCompensationFailed
  }

  ghost predicate Inv(s: State, saga: Saga) {
    Base(s, saga) && Phase(s, saga)
  }

  // ---------------------------------------------------------------- keys never collide

  lemma KeysApart(saga: Saga, i: nat, j: nat)
    requires i < |saga.steps| && j < |saga.steps|
    ensures i != j ==> DoKey(saga, i) != DoKey(saga, j)
    ensures i != j ==> UndoKey(saga, i, saga.steps[i].name) != UndoKey(saga, j, saga.steps[j].name)
    ensures DoKey(saga, i) != UndoKey(saga, j, saga.steps[j].name)
  {
    if i == j {
      var tool := ToolOf(saga, saga.steps[i].name);
      assert |tool + ":undo"| == |tool| + 5;
    }
  }

  /** Step i does not notice a call about some other key. */
  lemma StepFrame(s: State, s': State, saga: Saga, i: nat, key: Key, given: Value)
    requires i < |saga.steps| && StepOk(s, saga, i)
    requires key != DoKey(saga, i) && key != UndoKey(saga, i, saga.steps[i].name)
    requires Touches(s.ledger, s'.ledger, key, given) && s'.recs == s.recs
    ensures StepOk(s', saga, i) && UndoHistory(s', saga, i) == UndoHistory(s, saga, i)
  {
    HistoryFrame(s.ledger.log, s'.ledger.log, key, DoKey(saga, i));
    HistoryFrame(s.ledger.log, s'.ledger.log, key, UndoKey(saga, i, saga.steps[i].name));
    assert RowOf(s'.ledger, DoKey(saga, i)) == RowOf(s.ledger, DoKey(saga, i));
    assert RowOf(s'.ledger, UndoKey(saga, i, saga.steps[i].name))
      == RowOf(s.ledger, UndoKey(saga, i, saga.steps[i].name));
    DoFirstFrame(s.ledger.log, s'.ledger.log, DoKey(saga, i), UndoKey(saga, i, saga.steps[i].name), key);
  }

  // ---------------------------------------------------------------- running one action

  /** A run that throws leaves the row terminal or retryable, or pauses. */
  lemma {:induction false} ExecuteThrows(l: Ledger, req: Request, attempt: int, last: Raise, budget: nat)
    requires req.key in l.rows
    ensures var r := Execute(l, req, attempt, last, budget);
            r.end.Threw? ==> Holds(r.ledger, req.key, Failed)
    decreases req.retries - attempt
  {
    if attempt <= req.retries && budget > 1 && req.execute(attempt).Raised? {
      var called := Note(MarkRunning(l, req.key), Executed(req.key, req.given, req.execute(attempt)));
      ExecuteThrows(called, req, attempt + 1, req.execute(attempt).raise, budget - 2);
    }
  }

  lemma RunThrows(l: Ledger, req: Request, now: int, budget: nat)
    ensures var r := Run(l, req, now, budget);
            r.end.Threw? && !Pauses(r.end.raise) ==>
              req.key in r.ledger.rows && r.ledger.rows[req.key].status in {Failed, Denied, Rejected}
  {
    var decision := Combined(req.policies, Context(req.key, req.cost), l.rows, now);
    if req.key !in l.rows {
      if budget > 0 && decision.Allow? {
        ExecuteThrows(InsertPending(l, req.key, req.cost, now), req, 0, NoError, budget - 1);
      }
    } else if l.rows[req.key].status == Approved || (l.rows[req.key].status == Failed && decision.Allow?) {
      ExecuteThrows(l, req, 0, NoError, budget);
    }
  }

  /** Running step i of the forward pass, i being recorded already or next. */
  lemma DoStepKeeps(s: State, saga: Saga, world: World, i: nat, budget: nat)
    requires Base(s, saga) && NoUndo(s, saga) && i <= |s.recs| && i < |saga.steps|
    ensures var r := Run(s.ledger, DoRequest(saga, world, i), world.clock(i), budget);
            var s' := s.(ledger := r.ledger);
            && Base(s', saga) && NoUndo(s', saga)
            && (r.end.Got? ==>
              Holds(r.ledger, DoKey(saga, i), Succeeded) && r.ledger.rows[DoKey(saga, i)].result == r.end.v)
            && (r.end.Got? && i in s.recs ==> r.end.v == s.recs[i].output)
            && (r.end.Threw? && !Pauses(r.end.raise) ==> Blocked(s', saga))
  {
    var req := DoRequest(saga, world, i);
    var r := Run(s.ledger, req, world.clock(i), budget);
    var s' := s.(ledger := r.ledger);
    assert StepOk(s, saga, i);
    RunSettles(s.ledger, req, world.clock(i), budget);
    RunKeeps(s.ledger, req, world.clock(i), budget);
    RunThrows(s.ledger, req, world.clock(i), budget);
    forall j: nat | j < |saga.steps| ensures StepOk(s', saga, j) && UndoHistory(s', saga, j) == [] {
      assert StepOk(s, saga, j);
      KeysApart(saga, i, j);
      if j != i {
        StepFrame(s, s', saga, j, req.key, req.given);
      } else {
        DoneStepOk(s, s', saga, i, req);
      }
    }
  }

  /** What running step i's do leaves of step i. */
  lemma DoneStepOk(s: State, s': State, saga: Saga, i: nat, req: Request)
    requires i < |saga.steps| && i <= |s.recs| && StepOk(s, saga, i) && req.key == DoKey(saga, i)
    requires s'.recs == s.recs && Touches(s.ledger, s'.ledger, req.key, req.given) && KeySound(s'.ledger, req.key)
    requires i in s.recs ==> Holds(s'.ledger, req.key, Succeeded) && s'.ledger.rows[req.key].result == s.recs[i].output
    ensures StepOk(s', saga, i) && UndoHistory(s', saga, i) == UndoHistory(s, saga, i)
  {
    var undo := UndoKey(saga, i, saga.steps[i].name);
    KeysApart(saga, i, i);
    HistoryFrame(s.ledger.log, s'.ledger.log, req.key, undo);
    DoFirstFrame(s.ledger.log, s'.ledger.log, req.key, undo, req.key);
    assert RowOf(s'.ledger, undo) == RowOf(s.ledger, undo);
  }

  /** Recording a step the ledger holds as succeeded with that output. */
  lemma RecordKeeps(s: State, saga: Saga, i: nat, v: Value)
    requires Base(s, saga) && AllAre(s.recs, StepSucceeded) && NoUndo(s, saga)
    requires i <= |s.recs| && i < |saga.steps|
    requires Holds(s.ledger, DoKey(saga, i), Succeeded) && s.ledger.rows[DoKey(saga, i)].result == v
    ensures var s' := RecordStep(s, i, StepRecord(saga.steps[i].name, StepSucceeded, v, None));
            && Base(s', saga) && AllAre(s'.recs, StepSucceeded) && NoUndo(s', saga)
            && |s'.recs| == (if i < |s.recs| then |s.recs| else |s.recs| + 1)
  {
    var s' := RecordStep(s, i, StepRecord(saga.steps[i].name, StepSucceeded, v, None));
    forall j: nat | j < |saga.steps| ensures StepOk(s', saga, j) && UndoHistory(s', saga, j) == [] {
      assert StepOk(s, saga, j) && UndoHistory(s, saga, j) == [];
    }
  }

  // ---------------------------------------------------------------- the undo pass

  ghost predicate Descending(todo: seq<nat>) {
    forall x, y :: 0 <= x < y < |todo| ==> todo[x] > todo[y]
  }

  lemma {:induction false} UndoOrderIs(recs: map<nat, StepRecord>, n: nat)
    ensures var todo := UndoOrder(recs, n);
            && Descending(todo)
            && (forall k :: k in todo <==> k < n && k in recs && ToUndo(recs[k]))
  {
    if n > 0 {
      UndoOrderIs(recs, n - 1);
      var rest := UndoOrder(recs, n - 1);
      assert forall y :: 0 <= y < |rest| ==> rest[y] in rest;
    }
  }

  /** Handled so far: everything not on the list is compensated, or stuck with a failure noted. */
  ghost predicate Progress(recs: map<nat, StepRecord>, todo: seq<nat>, failures: seq<(string, Raise)>) {
    && Descending(todo)
    && (forall k :: k in todo ==> k in recs)
    && (forall k :: k in recs && k !in todo ==>
          recs[k].status == StepCompensated || (recs[k].status == StepCompensationFailed && failures != []))
    && (failures != [] ==> exists k :: k in recs && k !in todo && recs[k].status == StepCompensationFailed)
  }

  ghost predicate RollingBack(s: State, saga: Saga) {
    Base(s, saga) && Blocked(s, saga) && s.saga.Some? && s.saga.value.status == SagaCompensating
  }

  lemma UndoStepKeeps(s: State, saga: Saga, world: World, i: nat, budget: nat)
    requires RollingBack(s, saga) && i in s.recs
    ensures var r := Run(s.ledger, UndoRequest(saga, world, i, s.recs[i]), world.clock(i), budget);
            var s' := s.(ledger := r.ledger);
            && RollingBack(s', saga)
            && (r.end.Got? ==> Holds(r.ledger, UndoKey(saga, i, s.recs[i].name), Succeeded))
  {
    var req := UndoRequest(saga, world, i, s.recs[i]);
    var r := Run(s.ledger, req, world.clock(i), budget);
    var s' := s.(ledger := r.ledger);
    assert StepOk(s, saga, i);
    RunSettles(s.ledger, req, world.clock(i), budget);
    RunKeeps(s.ledger, req, world.clock(i), budget);
    forall j: nat | j < |saga.steps| ensures StepOk(s', saga, j) {
      assert StepOk(s, saga, j);
      KeysApart(saga, j, i);
      if j != i {
        KeysApart(saga, i, j);
        StepFrame(s, s', saga, j, req.key, req.given);
      } else {
        UndoneStepOk(s, s', saga, i, r, req);
      }
    }
    KeysApart(saga, |s.recs|, i);
    assert RowOf(s'.ledger, DoKey(saga, |s.recs|)) == RowOf(s.ledger, DoKey(saga, |s.recs|));
  }

  lemma UndoneStepOk(s: State, s': State, saga: Saga, i: nat, r: Ran, req: Request)
    requires i < |saga.steps| && i in s.recs && StepOk(s, saga, i)
    requires req.key == UndoKey(saga, i, saga.steps[i].name) && req.given == s.recs[i].output
    requires Touches(s.ledger, r.ledger, req.key, req.given) && KeySound(r.ledger, req.key)
    requires Holds(s.ledger, req.key, Succeeded) ==> Holds(r.ledger, req.key, Succeeded)
    requires s' == s.(ledger := r.ledger)
    ensures StepOk(s', saga, i)
  {
    KeysApart(saga, i, i);
    HistoryFrame(s.ledger.log, r.ledger.log, req.key, DoKey(saga, i));
    assert RowOf(s'.ledger, DoKey(saga, i)) == RowOf(s.ledger, DoKey(saga, i));
    GivenGrows(s.ledger.log, r.ledger.log, req.key, req.given);
    GaveInLog(s.ledger.log, DoKey(saga, i), req.given);
    DoFirstGrows(s.ledger.log, r.ledger.log, DoKey(saga, i), req.key, req.given);
  }

  /** The calls a run adds to its key's history are all handed its payload. */
  lemma {:induction false} GivenGrows(log: seq<Entry>, log': seq<Entry>, key: Key, given: Value)
    requires log <= log' && HandedOnly(HistoryOf(log, key), given)
    requires forall j :: |log| <= j < |log'| ==> log'[j].key == key && (log'[j].Executed? ==> log'[j].given == given)
    ensures HandedOnly(HistoryOf(log', key), given)
    decreases |log'|
  {
    if |log'| == |log| {
      assert log' == log;
    } else {
      GivenGrows(log, log'[..|log'| - 1], key, given);
    }
  }

  lemma MarkUndone(s: State, saga: Saga, i: nat, rec: StepRecord)
    requires RollingBack(s, saga) && i in s.recs
    requires rec.name == s.recs[i].name && rec.output == s.recs[i].output
    requires rec.status == StepCompensated && saga.steps[i].undo ==>
             Holds(s.ledger, UndoKey(saga, i, rec.name), Succeeded)
    ensures RollingBack(RecordStep(s, i, rec), saga)
  {
    var s' := RecordStep(s, i, rec);
    assert |s'.recs| == |s.recs|;
    forall j: nat | j < |saga.steps| ensures StepOk(s', saga, j) {
      assert StepOk(s, saga, j);
      assert UndoHistory(s', saga, j) == UndoHistory(s, saga, j);
    }
  }

  /** A status change touches neither the records nor the ledger. */
  lemma StatusBase(s: State, saga: Saga, status: SagaStatus, failedStep: Option<string>, error: Option<Raise>)
    requires Base(s, saga)
    ensures var s' := SetSagaStatus(s, status, failedStep, error);
            Base(s', saga) && s'.recs == s.recs && s'.ledger == s.ledger
  {
    var s' := SetSagaStatus(s, status, failedStep, error);
    forall j: nat | j < |saga.steps| ensures StepOk(s', saga, j) {
      assert StepOk(s, saga, j);
      assert UndoHistory(s', saga, j) == UndoHistory(s, saga, j);
    }
  }

  /** Settling the first step of the list. */
  lemma ProgressStep(recs: map<nat, StepRecord>, todo: seq<nat>, failures: seq<(string, Raise)>, rec: StepRecord,
                     failures': seq<(string, Raise)>)
    requires Progress(recs, todo, failures) && todo != []
    requires (rec.status == StepCompensated && failures' == failures)
          || (rec.status == StepCompensationFailed && failures' != [])
    ensures Progress(recs[todo[0] := rec], todo[1..], failures')
  {
    var i := todo[0];
    var recs' := recs[i := rec];
    assert todo == [i] + todo[1..];
    forall k | k in todo[1..] ensures k in todo && k != i {
      var x :| 0 <= x < |todo[1..]| && todo[1..][x] == k;
      assert todo[x + 1] == k && todo[0] > todo[x + 1];
    }
    if failures' != [] {
      if rec.status == StepCompensationFailed {
        assert i in recs' && i !in todo[1..];
      } else {
        var k :| k in recs && k !in todo && recs[k].status == StepCompensationFailed;
        assert k in recs' && k !in todo[1..] && recs'[k].status == StepCompensationFailed;
      }
    }
  }

  lemma UndoDone(s: State, saga: Saga, failedStep: string, cause: Raise, failures: seq<(string, Raise)>)
    requires RollingBack(s, saga) && Progress(s.recs, [], failures)
    ensures failures != [] ==> Inv(SetSagaStatus(s, SagaCompensationFailed, Some(failedStep), Some(cause)), saga)
    ensures failures == [] ==> Inv(SetSagaStatus(s, SagaCompensated, Some(failedStep), Some(cause)), saga)
  {
    StatusBase(s, saga, SagaCompensationFailed, Some(failedStep), Some(cause));
    StatusBase(s, saga, SagaCompensated, Some(failedStep), Some(cause));
  }

  lemma UndoOneKeeps(s: State, saga: Saga, world: World, i: nat, budget: nat)
    requires RollingBack(s, saga) && i in s.recs
    ensures var u := UndoOne(s, saga, world, i, budget);
            && RollingBack(u.state, saga)
            && (!u.end.Crashed? ==> exists rec ::
                  (u.state.recs == s.recs[i := rec]
                   && rec.status == (if u.end.Got? then StepCompensated else StepCompensationFailed)))
  {
    var rec := s.recs[i];
    var done := rec.(status := StepCompensated);
    assert i < |saga.steps|;
    if !saga.steps[i].undo {
      MarkUndone(s, saga, i, done);
    } else {
      var r := Run(s.ledger, UndoRequest(saga, world, i, rec), world.clock(i), budget);
      var s1 := s.(ledger := r.ledger);
      UndoStepKeeps(s, saga, world, i, budget);
      if r.end.Crashed? || r.left == 0 {
      } else if r.end.Got? {
        MarkUndone(s1, saga, i, done);
      } else {
        MarkUndone(s1, saga, i, rec.(status := StepCompensationFailed, error := Some(r.end.raise)));
      }
    }
  }

  lemma {:induction false} UndoAllKeeps(s: State, saga: Saga, world: World, todo: seq<nat>, failedStep: string,
                                        cause: Raise,
                                        compensated: seq<string>, failures: seq<(string, Raise)>, budget: nat)
    requires RollingBack(s, saga) && Progress(s.recs, todo, failures)
    ensures Inv(UndoAll(s, saga, world, todo, failedStep, cause, compensated, failures, budget).state, saga)
    decreases |todo|
  {
    if todo == [] {
      UndoDone(s, saga, failedStep, cause, failures);
    } else {
      assert todo[0] in todo;
      var name := s.recs[todo[0]].name;
      var u := UndoOne(s, saga, world, todo[0], budget);
      UndoOneKeeps(s, saga, world, todo[0], budget);
      if !u.end.Crashed? {
        var rec :| u.state.recs == s.recs[todo[0] := rec]
          && rec.status == (if u.end.Got? then StepCompensated else StepCompensationFailed);
        if u.end.Got? {
          ProgressStep(s.recs, todo, failures, rec, failures);
          UndoAllKeeps(u.state, saga, world, todo[1..], failedStep, cause, compensated + [name], failures, u.left);
        } else {
          var noted := failures + [(name, u.end.raise)];
          ProgressStep(s.recs, todo, failures, rec, noted);
          UndoAllKeeps(u.state, saga, world, todo[1..], failedStep, cause, compensated, noted, u.left);
        }
      }
    }
  }

  lemma CompensateIs(s: State, s1: State, saga: Saga, world: World, todo: seq<nat>, failedStep: string, cause: Raise,
                     budget: nat)
    requires budget > 0 && s1 == SetSagaStatus(s, SagaCompensating, Some(failedStep), Some(cause))
    requires todo == UndoOrder(s1.recs, |s1.recs|)
    ensures Compensate(s, saga, world, failedStep, cause, budget)
         == UndoAll(s1, saga, world, todo, failedStep, cause, [], [], budget - 1)
  {
  }

  lemma RollbackStarts(s: State, saga: Saga, failedStep: string, cause: Raise)
    requires Inv(s, saga) && Blocked(s, saga) && s.saga.Some?
    ensures var s1 := SetSagaStatus(s, SagaCompensating, Some(failedStep), Some(cause));
            RollingBack(s1, saga) && s1.recs == s.recs
  {
    StatusBase(s, saga, SagaCompensating, Some(failedStep), Some(cause));
  }

  lemma AllStillToUndo(s: State, saga: Saga)
    requires Base(s, saga)
    ensures Progress(s.recs, UndoOrder(s.recs, |s.recs|), [])
  {
    UndoOrderIs(s.recs, |s.recs|);
  }

  lemma RollbackKeeps(s: State, saga: Saga, world: World, failedStep: string, cause: Raise, budget: nat, r: Result)
    requires RollingBack(s, saga)
    requires r == UndoAll(s, saga, world, UndoOrder(s.recs, |s.recs|), failedStep, cause, [], [], budget)
    ensures Inv(r.state, saga)
  {
    AllStillToUndo(s, saga);
    UndoAllKeeps(s, saga, world, UndoOrder(s.recs, |s.recs|), failedStep, cause, [], [], budget);
  }

  lemma CompensateKeeps(s: State, saga: Saga, world: World, failedStep: string, cause: Raise, budget: nat)
    requires Inv(s, saga) && Blocked(s, saga) && s.saga.Some?
    ensures Inv(Compensate(s, saga, world, failedStep, cause, budget).state, saga)
  {
    if budget > 0 {
      var s1 := SetSagaStatus(s, SagaCompensating, Some(failedStep), Some(cause));
      RollbackStarts(s, saga, failedStep, cause);
      CompensateIs(s, s1, saga, world, UndoOrder(s1.recs, |s1.recs|), failedStep, cause, budget);
      RollbackKeeps(s1, saga, world, failedStep, cause, budget - 1,
        Compensate(s, saga, world, failedStep, cause, budget));
    }
  }

  // ---------------------------------------------------------------- the forward pass

  ghost predicate GoingForward(s: State, saga: Saga) {
    && Base(s, saga) && AllAre(s.recs, StepSucceeded) && NoUndo(s, saga)
    && s.saga.Some? && s.saga.value.status == SagaRunning
  }

  lemma CurrentStepKeeps(s: State, saga: Saga, i: nat)
    requires GoingForward(s, saga)
    ensures GoingForward(SetCurrentStep(s, i), saga)
  {
    var s' := SetCurrentStep(s, i);
    forall j: nat | j < |saga.steps| ensures StepOk(s', saga, j) && UndoHistory(s', saga, j) == [] {
      assert StepOk(s, saga, j) && UndoHistory(s, saga, j) == [];
    }
  }

  lemma StatusQuiet(s: State, saga: Saga, status: SagaStatus, failedStep: Option<string>, error: Option<Raise>)
    requires Base(s, saga) && NoUndo(s, saga)
    ensures NoUndo(SetSagaStatus(s, status, failedStep, error), saga)
  {
    var s' := SetSagaStatus(s, status, failedStep, error);
    forall j: nat | j < |saga.steps| ensures UndoHistory(s', saga, j) == [] {
      assert UndoHistory(s, saga, j) == [];
    }
  }

  lemma PauseKeeps(s: State, saga: Saga, i: nat, name: string, raise: Raise, budget: nat)
    requires GoingForward(s, saga)
    ensures Inv(Pause(s, i, name, raise, budget).state, saga)
  {
    CurrentStepKeeps(s, saga, i);
    StatusBase(SetCurrentStep(s, i), saga, SagaAwaitingStep, Some(name), Some(raise));
    StatusQuiet(SetCurrentStep(s, i), saga, SagaAwaitingStep, Some(name), Some(raise));
  }

  /** One committed step: run, record, advance. */
  lemma AdvanceKeeps(s: State, saga: Saga, i: nat, v: Value)
    requires GoingForward(s, saga) && i <= |s.recs| && i < |saga.steps|
    requires Holds(s.ledger, DoKey(saga, i), Succeeded) && s.ledger.rows[DoKey(saga, i)].result == v
    ensures var s2 := RecordStep(s, i, StepRecord(saga.steps[i].name, StepSucceeded, v, None));
            && GoingForward(s2, saga)
            && GoingForward(SetCurrentStep(s2, i + 1), saga)
            && i + 1 <= |s2.recs|
  {
    RecordKeeps(s, saga, i, v);
    CurrentStepKeeps(RecordStep(s, i, StepRecord(saga.steps[i].name, StepSucceeded, v, None)), saga, i + 1);
  }

  /** The state after one step's run(), ready for what follows. */
  ghost predicate Ready(s1: State, saga: Saga, i: nat, end: End)
    requires i < |saga.steps|
  {
    && Inv(s1, saga) && s1.saga.Some?
    && (end.Got? ==>
          var s2 := RecordStep(s1, i, StepRecord(saga.steps[i].name, StepSucceeded, end.v, None));
          Inv(s2, saga) && GoingForward(SetCurrentStep(s2, i + 1), saga) && i + 1 <= |s2.recs|)
    && (end.Threw? && Pauses(end.raise) ==> GoingForward(s1, saga))
    && (end.Threw? && !Pauses(end.raise) ==> Blocked(s1, saga))
  }

  lemma ForwardStep(s: State, saga: Saga, world: World, i: nat, budget: nat)
    requires GoingForward(s, saga) && i <= |s.recs| && i < |saga.steps|
    ensures var r := Run(s.ledger, DoRequest(saga, world, i), world.clock(i), budget);
            Ready(s.(ledger := r.ledger), saga, i, r.end)
  {
    var r := Run(s.ledger, DoRequest(saga, world, i), world.clock(i), budget);
    var s1 := s.(ledger := r.ledger);
    DoStepKeeps(s, saga, world, i, budget);
    assert GoingForward(s1, saga);
    if r.end.Got? {
      AdvanceKeeps(s1, saga, i, r.end.v);
    }
  }

  lemma {:induction false} ForwardKeeps(s: State, saga: Saga, world: World, i: nat, outputs: map<string, Value>,
                                        budget: nat)
    requires GoingForward(s, saga) && i <= |s.recs|
    ensures Inv(Forward(s, saga, world, i, outputs, budget).state, saga)
    decreases |saga.steps| - i, 1
  {
    if i >= |saga.steps| {
      StatusBase(s, saga, SagaSucceeded, None, None);
      StatusQuiet(s, saga, SagaSucceeded, None, None);
    } else {
      ForwardStep(s, saga, world, i, budget);
      ReactKeeps(s, saga, world, i, outputs, Run(s.ledger, DoRequest(saga, world, i), world.clock(i), budget));
    }
  }

  lemma {:induction false} ReactKeeps(s: State, saga: Saga, world: World, i: nat, outputs: map<string, Value>, r: Ran)
    requires i < |saga.steps| && Ready(s.(ledger := r.ledger), saga, i, r.end)
    ensures Inv(React(s, saga, world, i, outputs, r).state, saga)
    decreases |saga.steps| - i, 0
  {
    var name := saga.steps[i].name;
    var s1 := s.(ledger := r.ledger);
    var end := React(s, saga, world, i, outputs, r);
    match r.end
    case Crashed =>
    case Got(v) =>
      if r.left > 1 {
        var s2 := SetCurrentStep(RecordStep(s1, i, StepRecord(name, StepSucceeded, v, None)), i + 1);
        ForwardKeeps(s2, saga, world, i + 1, outputs[name := v], r.left - 2);
        SameInv(Forward(s2, saga, world, i + 1, outputs[name := v], r.left - 2), end, saga);
      }
    case Threw(raise) =>
      if Pauses(raise) {
        PauseKeeps(s1, saga, i, name, raise, r.left);
        SameInv(Pause(s1, i, name, raise, r.left), end, saga);
      } else {
        CompensateKeeps(s1, saga, world, name, raise, r.left);
        SameInv(Compensate(s1, saga, world, name, raise, r.left), end, saga);
      }
  }

  lemma SameInv(r: Result, r': Result, saga: Saga)
    requires Inv(r.state, saga) && r' == r
    ensures Inv(r'.state, saga)
  {
  }

  lemma BeginKeeps(s: State, saga: Saga, world: World, budget: nat)
    requires Inv(s, saga) && s.saga.Some? && s.saga.value.status in {SagaRunning, SagaAwaitingStep}
    ensures Inv(Begin(s, saga, world, budget).state, saga)
  {
    if budget > 0 {
      var s1 := SetSagaStatus(s, SagaRunning, None, None);
      StatusBase(s, saga, SagaRunning, None, None);
      StatusQuiet(s, saga, SagaRunning, None, None);
      ForwardKeeps(s1, saga, world, 0, Collect(s1.recs, |s1.recs|), budget - 1);
    }
  }

  lemma RunSagaKeeps(s: State, saga: Saga, world: World, budget: nat)
    requires Inv(s, saga)
    ensures Inv(RunSaga(s, saga, world, budget).state, saga)
  {
    match s.saga
    case None =>
      if budget > 0 {
        var s1 := s.(saga := Some(SagaRecord(SagaRunning, 0, None, None)));
        assert Inv(s1, saga) by {
          forall j: nat | j < |saga.steps| ensures StepOk(s1, saga, j) && UndoHistory(s1, saga, j) == [] {
            assert StepOk(s, saga, j) && UndoHistory(s, saga, j) == [];
          }
        }
        BeginKeeps(s1, saga, world, budget - 1);
      }
    case Some(r) =>
      match r.status
      case SagaSucceeded =>
      case SagaCompensated =>
      case SagaCompensating =>
        CompensateKeeps(s, saga, world, StepOr(r.failedStep), CauseOr(r.error, "resumed rollback"), budget);
      case SagaCompensationFailed =>
        CompensateKeeps(s, saga, world, StepOr(r.failedStep), CauseOr(r.error, "resumed rollback"), budget);
      case SagaRunning => BeginKeeps(s, saga, world, budget);
      case SagaAwaitingStep => BeginKeeps(s, saga, world, budget);
  }

  // ---------------------------------------------------------------- the rest of the ledger's users

  predicate Foreign(saga: Saga, key: Key) {
    forall i: nat :: i < |saga.steps| ==> key != DoKey(saga, i) && key != UndoKey(saga, i, saga.steps[i].name)
  }

  /** Anyone may use the ledger for other keys, and reviewers may decide on any key. */
  ghost predicate Permitted(saga: Saga, op: Op) {
    op.DoRun? ==> Foreign(saga, op.req.key)
  }

  lemma OutsideKeeps(s: State, saga: Saga, op: Op)
    requires Inv(s, saga) && Permitted(saga, op)
    ensures Inv(s.(ledger := Apply(s.ledger, op)), saga)
  {
    var s' := s.(ledger := Apply(s.ledger, op));
    match op
    case DoRun(req, now, budget) =>
      RunSettles(s.ledger, req, now, budget);
      forall j: nat | j < |saga.steps| ensures StepOk(s', saga, j)
        && UndoHistory(s', saga, j) == UndoHistory(s, saga, j) {
        StepFrame(s, s', saga, j, req.key, req.given);
      }
      if |s.recs| < |saga.steps| {
        assert RowOf(s'.ledger, DoKey(saga, |s.recs|)) == RowOf(s.ledger, DoKey(saga, |s.recs|));
      }
    case DoApprove(key) =>
      if ReviewOf(s.ledger, key).Reviewed? {
        MovedKeeps(s, s', saga, key, Approved, Text(""));
      }
    case DoReject(key, reason) =>
      if ReviewOf(s.ledger, key).Reviewed? {
        MovedKeeps(s, s', saga, key, Rejected, reason);
      }
  }

  /** A reviewer's decision on a key awaiting approval. */
  lemma MovedKeeps(s: State, s': State, saga: Saga, key: Key, to: Status, reason: Reason)
    requires Inv(s, saga) && Holds(s.ledger, key, AwaitingApproval)
    requires to == Approved || to == Rejected
    requires s'.ledger == if to == Approved then Approve(s.ledger, key) else Reject(s.ledger, key, reason)
    requires s' == s.(ledger := s'.ledger)
    ensures Inv(s', saga)
  {
    assert forall k :: k != key ==> RowOf(s'.ledger, k) == RowOf(s.ledger, k);
    forall j: nat | j < |saga.steps|
      ensures StepOk(s', saga, j)
      ensures UndoHistory(s, saga, j) == [] ==> UndoHistory(s', saga, j) == []
    {
      ReviewedStepOk(s, s', saga, j, key, to, reason);
    }
  }

  lemma ReviewedStepOk(s: State, s': State, saga: Saga, j: nat, key: Key, to: Status, reason: Reason)
    requires j < |saga.steps| && StepOk(s, saga, j) && Holds(s.ledger, key, AwaitingApproval)
    requires to == Approved || to == Rejected
    requires s'.ledger == if to == Approved then Approve(s.ledger, key) else Reject(s.ledger, key, reason)
    requires s' == s.(ledger := s'.ledger)
    ensures StepOk(s', saga, j)
    ensures UndoHistory(s, saga, j) == [] ==> UndoHistory(s', saga, j) == []
  {
    ReviewTouches(s.ledger, key, reason);
    if key == DoKey(saga, j) {
      ReviewSettles(s.ledger, key, reason);
      ReviewedDo(s, s', saga, j);
    } else if key == UndoKey(saga, j, saga.steps[j].name) {
      ReviewSettles(s.ledger, key, reason);
      HistorySnoc(s.ledger.log, Moved(key, AwaitingApproval, to), key);
      ReviewedUndo(s, s', saga, j, Moved(key, AwaitingApproval, to));
    } else {
      StepFrame(s, s', saga, j, key, Undefined);
    }
  }

  lemma ReviewedDo(s: State, s': State, saga: Saga, j: nat)
    requires j < |saga.steps| && StepOk(s, saga, j) && Holds(s.ledger, DoKey(saga, j), AwaitingApproval)
    requires Touches(s.ledger, s'.ledger, DoKey(saga, j), Undefined) && KeySound(s'.ledger, DoKey(saga, j))
    requires s'.recs == s.recs
    ensures StepOk(s', saga, j) && UndoHistory(s', saga, j) == UndoHistory(s, saga, j)
  {
    KeysApart(saga, j, j);
    OtherKey(s.ledger, s'.ledger, DoKey(saga, j), UndoKey(saga, j, saga.steps[j].name));
    DoFirstFrame(s.ledger.log, s'.ledger.log, DoKey(saga, j), UndoKey(saga, j, saga.steps[j].name), DoKey(saga, j));
  }

  lemma ReviewedUndo(s: State, s': State, saga: Saga, j: nat, e: Entry)
    requires j < |saga.steps| && StepOk(s, saga, j)
    requires var u := UndoKey(saga, j, saga.steps[j].name);
             && Holds(s.ledger, u, AwaitingApproval)
             && Touches(s.ledger, s'.ledger, u, Undefined) && KeySound(s'.ledger, u)
             && HistoryOf(s'.ledger.log, u) == HistoryOf(s.ledger.log, u) + [e]
    requires s'.recs == s.recs && e.Moved? && s'.ledger.log == s.ledger.log + [e]
    ensures StepOk(s', saga, j) && UndoHistory(s, saga, j) != []
  {
    KeysApart(saga, j, j);
    OtherKey(s.ledger, s'.ledger, UndoKey(saga, j, saga.steps[j].name), DoKey(saga, j));
    DoFirstGrows(s.ledger.log, s'.ledger.log, DoKey(saga, j), UndoKey(saga, j, saga.steps[j].name), Undefined);
  }

  lemma OtherKey(l: Ledger, l': Ledger, key: Key, other: Key)
    requires Touches(l, l', key, Undefined) && other != key && KeySound(l, other)
    ensures KeySound(l', other) && RowOf(l', other) == RowOf(l, other)
            && HistoryOf(l'.log, other) == HistoryOf(l.log, other)
  {
    HistoryFrame(l.log, l'.log, key, other);
  }
}
