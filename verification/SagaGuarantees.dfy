/** The saga's promises over any sequence of run and resume calls with crashes,
    interleaved with any other use of the ledger and any reviewer decisions. */
module SagaGuarantees {
  import opened Prelude
  import opened ActionLedger
  import opened RunSpec
  import opened RunTheorems
  import opened SagaSpec
  import opened SagaTheorems

  datatype Action = DoSaga(world: World, budget: nat) | Outside(op: Op)

  const Nothing := State(None, map[], Empty)

  ghost function Step(s: State, saga: Saga, a: Action): State {
    match a
    case DoSaga(world, budget) => RunSaga(s, saga, world, budget).state
    case Outside(op) => s.(ledger := RunTheorems.Apply(s.ledger, op))
  }

  ghost function Reach(saga: Saga, actions: seq<Action>): State {
    if actions == [] then Nothing
    else Step(Reach(saga, actions[..|actions| - 1]), saga, actions[|actions| - 1])
  }

  ghost predicate Legal(saga: Saga, actions: seq<Action>) {
    forall a :: a in actions && a.Outside? ==> Permitted(saga, a.op)
  }

  lemma NothingInv(saga: Saga)
    ensures Inv(Nothing, saga)
  {
  }

  lemma {:induction false} ReachKeeps(saga: Saga, actions: seq<Action>)
    requires Legal(saga, actions)
    ensures Inv(Reach(saga, actions), saga)
  {
    if actions == [] {
      NothingInv(saga);
    } else {
      var n := |actions| - 1;
      assert forall a :: a in actions[..n] ==> a in actions;
      ReachKeeps(saga, actions[..n]);
      assert actions[n] in actions;
      match actions[n]
      case DoSaga(world, budget) => RunSagaKeeps(Reach(saga, actions[..n]), saga, world, budget);
      case Outside(op) => OutsideKeeps(Reach(saga, actions[..n]), saga, op);
    }
  }

  /** Records and ledger agree: the records are a contiguous prefix of the steps,
      each naming its step and holding the output the ledger holds. */
  ghost predicate RecordsAgree(s: State, saga: Saga) {
    && Prefix(s.recs) && |s.recs| <= |saga.steps|
    && (forall i: nat :: i in s.recs ==>
          && s.recs[i].name == saga.steps[i].name
          && Holds(s.ledger, DoKey(saga, i), Succeeded)
          && s.ledger.rows[DoKey(saga, i)].result == s.recs[i].output)
  }

  /** Every step the ledger holds as succeeded is recorded, except possibly the next one. */
  ghost predicate CommitsRecorded(s: State, saga: Saga) {
    forall i: nat :: i < |saga.steps| && Holds(s.ledger, DoKey(saga, i), Succeeded) ==> i <= |s.recs|
  }

  ghost predicate AllCommitsRecorded(s: State, saga: Saga) {
    forall i: nat :: i < |saga.steps| && Holds(s.ledger, DoKey(saga, i), Succeeded) ==> i in s.recs
  }

  predicate RollbackBegan(s: State) {
    s.saga.Some? && s.saga.value.status in {SagaCompensating, SagaCompensated, SagaCompensationFailed}
  }

  lemma InvAgrees(s: State, saga: Saga)
    requires Inv(s, saga)
    ensures RecordsAgree(s, saga) && CommitsRecorded(s, saga)
  {
    forall i: nat | i in s.recs
      ensures && s.recs[i].name == saga.steps[i].name
              && Holds(s.ledger, DoKey(saga, i), Succeeded)
              && s.ledger.rows[DoKey(saga, i)].result == s.recs[i].output
    {
      assert StepOk(s, saga, i);
    }
    forall i: nat | i < |saga.steps| && Holds(s.ledger, DoKey(saga, i), Succeeded) ensures i <= |s.recs| {
      assert StepOk(s, saga, i);
    }
  }

  lemma BlockedIsNotCommitted(s: State, saga: Saga)
    requires Base(s, saga) && Blocked(s, saga)
    ensures AllCommitsRecorded(s, saga)
  {
    forall i: nat | i < |saga.steps| && Holds(s.ledger, DoKey(saga, i), Succeeded) ensures i in s.recs {
      assert StepOk(s, saga, i);
    }
  }

  /** The two stores after any run of calls and crashes; once a rollback has begun no
      committed step lacks a record, so the rollback misses none. */
  lemma StoresAgree(saga: Saga, actions: seq<Action>)
    requires Legal(saga, actions)
    ensures var s := Reach(saga, actions);
            && RecordsAgree(s, saga) && CommitsRecorded(s, saga)
            && (RollbackBegan(s) ==> AllCommitsRecorded(s, saga))
  {
    ReachKeeps(saga, actions);
    var s := Reach(saga, actions);
    InvAgrees(s, saga);
    if RollbackBegan(s) {
      BlockedIsNotCommitted(s, saga);
    }
  }

  /** Each step's do and each step's undo finish successfully at most once and are
      never called after that; undo is called only for a step whose do succeeded, after
      it did, and is handed exactly that output. */
  lemma DoAndUndoAtMostOnce(saga: Saga, actions: seq<Action>, i: nat)
    requires Legal(saga, actions) && i < |saga.steps|
    ensures var s := Reach(saga, actions);
            var d := HistoryOf(s.ledger.log, DoKey(saga, i));
            var u := UndoHistory(s, saga, i);
            && (forall x, y :: 0 <= x < y < |d| && IsSuccess(d[x]) ==> !d[y].Executed?)
            && (forall x, y :: 0 <= x < y < |u| && IsSuccess(u[x]) ==> !u[y].Executed?)
            && (forall x :: 0 <= x < |u| && u[x].Executed? ==>
                  && Holds(s.ledger, DoKey(saga, i), Succeeded)
                  && u[x].given == s.ledger.rows[DoKey(saga, i)].result
                  && DidGive(d, u[x].given))
            && DoFirst(s.ledger.log, DoKey(saga, i), UndoKey(saga, i, saga.steps[i].name))
  {
    ReachKeeps(saga, actions);
    assert StepOk(Reach(saga, actions), saga, i);
  }

  /** All or nothing: a succeeded saga has every step recorded and never called an
      undo; a compensated one has every recorded step compensated, its undo having
      succeeded if it has one; a stuck one has only compensated and stuck steps, and
      the next rollback takes exactly the stuck ones, latest first. */
  lemma AllOrNothing(saga: Saga, actions: seq<Action>)
    requires Legal(saga, actions)
    requires Reach(saga, actions).saga.Some?
    ensures var s := Reach(saga, actions);
            var status := s.saga.value.status;
            && (status == SagaSucceeded ==>
                  && |s.recs| == |saga.steps| && AllAre(s.recs, StepSucceeded)
                  && forall i: nat :: i < |saga.steps| ==> UndoHistory(s, saga, i) == [])
            && (status == SagaCompensated ==>
                  && AllAre(s.recs, StepCompensated)
                  && forall i: nat :: i < |saga.steps| && i in s.recs && saga.steps[i].undo ==>
                       Holds(s.ledger, UndoKey(saga, i, saga.steps[i].name), Succeeded))
            && (status == SagaCompensationFailed ==>
                  var todo := UndoOrder(s.recs, |s.recs|);
                  && AllUndone(s.recs) && todo != [] && Descending(todo)
                  && forall k :: k in todo <==> k in s.recs && s.recs[k].status == StepCompensationFailed)
  {
    ReachKeeps(saga, actions);
    var s := Reach(saga, actions);
    UndoOrderIs(s.recs, |s.recs|);
    forall i: nat | i < |saga.steps| && i in s.recs && saga.steps[i].undo && s.recs[i].status == StepCompensated
      ensures Holds(s.ledger, UndoKey(saga, i, saga.steps[i].name), Succeeded)
    {
      assert StepOk(s, saga, i);
    }
    if s.saga.value.status == SagaCompensationFailed {
      var k :| k in s.recs && s.recs[k].status == StepCompensationFailed;
      assert k in UndoOrder(s.recs, |s.recs|);
    }
  }

  // ---------------------------------------------------------------- order of one rollback pass

  predicate OfStep(e: Entry, saga: Saga, i: nat) {
    e.key.args == SagaStep(saga.sagaId, i)
  }

  ghost predicate Listed(e: Entry, saga: Saga, todo: seq<nat>) {
    exists i: nat :: i in todo && OfStep(e, saga, i)
  }

  /** From `from` on, the log is about listed steps only, in the list's order. */
  ghost predicate InOrder(log: seq<Entry>, from: nat, saga: Saga, todo: seq<nat>) {
    && (forall p :: from <= p < |log| ==> Listed(log[p], saga, todo))
    && (forall p, q, i: nat, j: nat ::
          from <= p < q < |log| && OfStep(log[p], saga, i) && OfStep(log[q], saga, j) ==> j <= i)
  }

  lemma UndoOneLog(s: State, saga: Saga, world: World, i: nat, budget: nat)
    requires i in s.recs
    ensures var u := UndoOne(s, saga, world, i, budget);
            && s.ledger.log <= u.state.ledger.log
            && (forall p :: |s.ledger.log| <= p < |u.state.ledger.log| ==> OfStep(u.state.ledger.log[p], saga, i))
            && u.state.recs.Keys == s.recs.Keys
  {
    if i < |saga.steps| && saga.steps[i].undo {
      RunSettles(s.ledger, UndoRequest(saga, world, i, s.recs[i]), world.clock(i), budget);
    }
  }

  /** Entries about the first listed step, then about the rest in order. */
  lemma InOrderJoins(log: seq<Entry>, mid: seq<Entry>, log': seq<Entry>, saga: Saga, todo: seq<nat>)
    requires todo != [] && log <= mid <= log'
    requires forall k :: k in todo[1..] ==> k in todo && k < todo[0]
    requires forall p :: |log| <= p < |mid| ==> OfStep(mid[p], saga, todo[0])
    requires InOrder(log', |mid|, saga, todo[1..])
    ensures InOrder(log', |log|, saga, todo)
  {
    assert todo[0] in todo;
    forall p | |log| <= p < |log'| ensures Listed(log'[p], saga, todo) {
      if p < |mid| {
        assert OfStep(mid[p], saga, todo[0]);
      } else {
        assert Listed(log'[p], saga, todo[1..]);
      }
    }
    forall p, q, i: nat, j: nat | |log| <= p < q < |log'| && OfStep(log'[p], saga, i)
      && OfStep(log'[q], saga, j) ensures j <= i {
      if p < |mid| {
        assert OfStep(mid[p], saga, todo[0]);
        assert if q < |mid| then OfStep(mid[q], saga, todo[0]) else Listed(log'[q], saga, todo[1..]);
      }
    }
  }

  /** One pass undoes the listed steps in the listed order and nothing else. */
  lemma {:induction false} UndoAllInOrder(s: State, saga: Saga, world: World, todo: seq<nat>, failedStep: string,
                                          cause: Raise,
                                          compensated: seq<string>, failures: seq<(string, Raise)>, budget: nat)
    requires Descending(todo)
    ensures var log := UndoAll(s, saga, world, todo, failedStep, cause, compensated, failures, budget).state.ledger.log;
            s.ledger.log <= log && InOrder(log, |s.ledger.log|, saga, todo)
    decreases |todo|
  {
    if todo != [] {
      assert todo == [todo[0]] + todo[1..];
      assert Descending(todo[1..]);
      assert forall k :: k in todo[1..] ==> k in todo && k < todo[0] by {
        assert forall x :: 0 <= x < |todo[1..]| ==> todo[1..][x] == todo[x + 1];
      }
      if todo[0] !in s.recs {
        UndoAllInOrder(s, saga, world, todo[1..], failedStep, cause, compensated, failures, budget);
      } else {
        var name := s.recs[todo[0]].name;
        var u := UndoOne(s, saga, world, todo[0], budget);
        UndoOneLog(s, saga, world, todo[0], budget);
        var log := UndoAll(s, saga, world, todo, failedStep, cause, compensated, failures, budget).state.ledger.log;
        match u.end {
          case Crashed =>
          case Got(_) =>
            UndoAllInOrder(u.state, saga, world, todo[1..], failedStep, cause, compensated + [name], failures, u.left);
          case Threw(raise) =>
            UndoAllInOrder(u.state, saga, world, todo[1..], failedStep, cause, compensated,
                           failures + [(name, raise)], u.left);
        }
        InOrderJoins(s.ledger.log, u.state.ledger.log, log, saga, todo);
      }
    }
  }

  /** The entry is about a step that was committed or stuck. */
  ghost predicate Undoable(e: Entry, s: State, saga: Saga) {
    exists i: nat :: i in s.recs && ToUndo(s.recs[i]) && OfStep(e, saga, i)
  }

  lemma ListedIsUndoable(s: State, saga: Saga, todo: seq<nat>, log: seq<Entry>, from: nat)
    requires InOrder(log, from, saga, todo)
    requires forall k :: k in todo ==> k in s.recs && ToUndo(s.recs[k])
    ensures forall p :: from <= p < |log| ==> Undoable(log[p], s, saga)
  {
    forall p | from <= p < |log| ensures Undoable(log[p], s, saga) {
      assert Listed(log[p], saga, todo);
    }
  }

  /** What a rollback from s adds to the log: only entries about steps that were
      committed or stuck, later steps before earlier ones. */
  ghost predicate LatestFirst(s: State, saga: Saga, log: seq<Entry>) {
    && s.ledger.log <= log
    && (forall p :: |s.ledger.log| <= p < |log| ==> Undoable(log[p], s, saga))
    && (forall p, q, i: nat, j: nat ::
          |s.ledger.log| <= p < q < |log| && OfStep(log[p], saga, i) && OfStep(log[q], saga, j) ==> j <= i)
  }

  lemma PassIsLatestFirst(s: State, s1: State, saga: Saga, world: World, failedStep: string, cause: Raise,
                          budget: nat, r: Result)
    requires s1.recs == s.recs && s1.ledger == s.ledger
    requires r == UndoAll(s1, saga, world, UndoOrder(s1.recs, |s1.recs|), failedStep, cause, [], [], budget)
    ensures LatestFirst(s, saga, r.state.ledger.log)
  {
    var todo := UndoOrder(s1.recs, |s1.recs|);
    UndoOrderIs(s1.recs, |s1.recs|);
    UndoAllInOrder(s1, saga, world, todo, failedStep, cause, [], [], budget);
    ListedIsUndoable(s, saga, todo, r.state.ledger.log, |s.ledger.log|);
  }

  /** A rollback pass calls undo latest step first, each step's attempts together,
      and only for steps that were committed or stuck when it began. */
  lemma RollbackIsLifo(s: State, saga: Saga, world: World, failedStep: string, cause: Raise, budget: nat)
    ensures LatestFirst(s, saga, Compensate(s, saga, world, failedStep, cause, budget).state.ledger.log)
  {
    if budget > 0 {
      var s1 := SetSagaStatus(s, SagaCompensating, Some(failedStep), Some(cause));
      CompensateIs(s, s1, saga, world, UndoOrder(s1.recs, |s1.recs|), failedStep, cause, budget);
      PassIsLatestFirst(s, s1, saga, world, failedStep, cause, budget - 1,
        Compensate(s, saga, world, failedStep, cause, budget));
    }
  }

  // ---------------------------------------------------------------- what one rollback retries

  ghost predicate Called(log: seq<Entry>, from: nat, key: Key) {
    exists p :: from <= p < |log| && log[p].Executed? && log[p].key == key
  }

  /** run() would go on to call the key's function, with no policies in the way. */
  ghost predicate OpenToRun(l: Ledger, key: Key) {
    key !in l.rows || l.rows[key].status == Failed || l.rows[key].status == Approved
  }

  lemma ExecuteCalls(l: Ledger, req: Request, budget: nat)
    requires req.key in l.rows && l.rows[req.key].status != Succeeded
    requires !Execute(l, req, 0, NoError, budget).end.Crashed?
    ensures Called(Execute(l, req, 0, NoError, budget).ledger.log, |l.log|, req.key) <==> req.retries >= 0
  {
    var r := Execute(l, req, 0, NoError, budget);
    if req.retries >= 0 {
      var done := req.execute(0);
      var called := Note(MarkRunning(l, req.key), Executed(req.key, req.given, done));
      assert called.log[|l.log| + 1] == Executed(req.key, req.given, done);
      if done.Raised? {
        ExecuteSettles(called, req, 1, done.raise, budget - 2);
      }
      assert called.log <= r.ledger.log;
      assert r.ledger.log[|l.log| + 1] == called.log[|l.log| + 1];
    } else {
      assert r.ledger.log == l.log + [Moved(req.key, l.rows[req.key].status, Failed)];
    }
  }

  lemma CalledGrows(log: seq<Entry>, log': seq<Entry>, from: nat, key: Key)
    requires log <= log' && from <= |log|
    ensures Called(log', from, key) <==> Called(log, from, key) || Called(log', |log|, key)
  {
    if Called(log, from, key) {
      var p :| from <= p < |log| && log[p].Executed? && log[p].key == key;
      assert log'[p] == log[p];
    }
    if Called(log', from, key) && !Called(log', |log|, key) {
      var p :| from <= p < |log'| && log'[p].Executed? && log'[p].key == key;
      assert p < |log| && log[p] == log'[p];
    }
  }

  /** One undo's run(), not cut short: its function is called exactly when its row is open
      and it has attempts at all; a row left pending or running refuses it for good. */
  lemma UndoRuns(l: Ledger, req: Request, now: int, budget: nat)
    requires req.policies == [] && !Run(l, req, now, budget).end.Crashed?
    ensures var r := Run(l, req, now, budget);
            && (Called(r.ledger.log, |l.log|, req.key) <==> OpenToRun(l, req.key) && req.retries >= 0)
            && (req.key in l.rows && l.rows[req.key].status in {Pending, Running} ==>
                  r.ledger == l && r.end == Threw(DuplicateInFlight))
  {
    var r := Run(l, req, now, budget);
    if req.key !in l.rows {
      var inserted := InsertPending(l, req.key, req.cost, now);
      ExecuteCalls(inserted, req, budget - 1);
      ExecuteSettles(inserted, req, 0, NoError, budget - 1);
      assert inserted.log <= r.ledger.log && !Called(inserted.log, |l.log|, req.key);
      CalledGrows(inserted.log, r.ledger.log, |l.log|, req.key);
    } else if OpenToRun(l, req.key) {
      ExecuteCalls(l, req, budget);
    }
  }

  /** One step of the pass, not cut short. */
  ghost predicate UndoneWell(s: State, saga: Saga, i: nat, u: Stage)
    requires i in s.recs && i < |saga.steps|
  {
    var key := UndoKey(saga, i, s.recs[i].name);
    && s.ledger.log <= u.state.ledger.log
    && (saga.steps[i].undo ==>
          (Called(u.state.ledger.log, |s.ledger.log|, key)
           <==> OpenToRun(s.ledger, key) && saga.steps[i].compensationRetries >= 0))
    && (saga.steps[i].undo && key in s.ledger.rows && s.ledger.rows[key].status in {Pending, Running} ==>
          u.state.ledger == s.ledger && u.end == Threw(DuplicateInFlight))
  }

  lemma UndoOneWell(s: State, saga: Saga, world: World, i: nat, budget: nat)
    requires i in s.recs && i < |saga.steps| && !UndoOne(s, saga, world, i, budget).end.Crashed?
    ensures UndoneWell(s, saga, i, UndoOne(s, saga, world, i, budget))
  {
    if saga.steps[i].undo {
      UndoRuns(s.ledger, UndoRequest(saga, world, i, s.recs[i]), world.clock(i), budget);
    }
    UndoOneLog(s, saga, world, i, budget);
  }

  /** What one step of the pass leaves of the records and of the other steps' rows. */
  lemma UndoOneRecords(s: State, saga: Saga, world: World, i: nat, budget: nat)
    requires i in s.recs && !UndoOne(s, saga, world, i, budget).end.Crashed?
    ensures var u := UndoOne(s, saga, world, i, budget);
            var rec := s.recs[i];
            && u.state.recs == s.recs[i := match u.end
                                           case Threw(raise) => rec.(status := StepCompensationFailed,
                                             error := Some(raise))
                                           case _ => rec.(status := StepCompensated)]
            && (forall key :: key != UndoKey(saga, i, rec.name) ==> RowOf(u.state.ledger, key) == RowOf(s.ledger, key))
  {
    if i < |saga.steps| && saga.steps[i].undo {
      RunSettles(s.ledger, UndoRequest(saga, world, i, s.recs[i]), world.clock(i), budget);
    }
  }

  /** What a pass over `todo` leaves of step i. */
  ghost predicate Retried(s: State, saga: Saga, todo: seq<nat>, i: nat, end: State)
    requires i in s.recs && i < |saga.steps| && saga.steps[i].undo
  {
    var key := UndoKey(saga, i, s.recs[i].name);
    && s.ledger.log <= end.ledger.log
    && (Called(end.ledger.log, |s.ledger.log|, key)
        <==> i in todo && OpenToRun(s.ledger, key) && saga.steps[i].compensationRetries >= 0)
    && (i in todo && key in s.ledger.rows && s.ledger.rows[key].status in {Pending, Running} ==>
          i in end.recs && end.recs[i].status == StepCompensationFailed
            && RowOf(end.ledger, key) == RowOf(s.ledger, key))
    && (i !in todo ==> i in end.recs && end.recs[i] == s.recs[i] && RowOf(end.ledger, key) == RowOf(s.ledger, key))
  }

  lemma RetriedJoins(s: State, saga: Saga, todo: seq<nat>, i: nat, u: Stage, end: State)
    requires i in s.recs && i < |saga.steps| && saga.steps[i].undo && Descending(todo) && todo != []
    requires todo[0] in s.recs && todo[0] < |saga.steps| && i in u.state.recs
    requires s.ledger.log <= u.state.ledger.log
    requires forall p :: |s.ledger.log| <= p < |u.state.ledger.log| ==> OfStep(u.state.ledger.log[p], saga, todo[0])
    requires todo[0] == i ==>
      && UndoneWell(s, saga, i, u) && u.state.recs[i].name == s.recs[i].name
      && u.state.recs[i].status == if u.end.Threw? then StepCompensationFailed else StepCompensated
    requires todo[0] != i ==>
      u.state.recs[i] == s.recs[i]
      && RowOf(u.state.ledger, UndoKey(saga, i, s.recs[i].name)) == RowOf(s.ledger, UndoKey(saga, i, s.recs[i].name))
    requires Retried(u.state, saga, todo[1..], i, end)
    ensures Retried(s, saga, todo, i, end)
  {
    var key := UndoKey(saga, i, s.recs[i].name);
    CalledGrows(u.state.ledger.log, end.ledger.log, |s.ledger.log|, key);
    assert i in todo <==> todo[0] == i || i in todo[1..];
    assert todo[0] == i ==> i !in todo[1..];
    assert todo[0] != i ==> !Called(u.state.ledger.log, |s.ledger.log|, key);
  }

  lemma {:induction false} UndoAllRetries(s: State, saga: Saga, world: World, todo: seq<nat>, failedStep: string,
                                          cause: Raise,
                                          compensated: seq<string>, failures: seq<(string, Raise)>, budget: nat, i: nat)
    requires Descending(todo) && (forall k :: k in todo ==> k in s.recs && k < |saga.steps|)
    requires i in s.recs && i < |saga.steps| && saga.steps[i].undo
    requires !UndoAll(s, saga, world, todo, failedStep, cause, compensated, failures, budget).out.Died?
    ensures Retried(s, saga, todo, i,
            UndoAll(s, saga, world, todo, failedStep, cause, compensated, failures, budget).state)
    decreases |todo|
  {
    var r := UndoAll(s, saga, world, todo, failedStep, cause, compensated, failures, budget);
    if todo != [] {
      var j := todo[0];
      assert j in todo && Descending(todo[1..]) && forall k :: k in todo[1..] ==> k in todo;
      var name := s.recs[j].name;
      var u := UndoOne(s, saga, world, j, budget);
      UndoOneLog(s, saga, world, j, budget);
      UndoOneWell(s, saga, world, j, budget);
      UndoOneRecords(s, saga, world, j, budget);
      match u.end {
        case Got(_) =>
          UndoAllRetries(u.state, saga, world, todo[1..], failedStep, cause, compensated + [name], failures, u.left, i);
        case Threw(raise) =>
          UndoAllRetries(u.state, saga, world, todo[1..], failedStep, cause, compensated,
                         failures + [(name, raise)], u.left, i);
      }
      RetriedJoins(s, saga, todo, i, u, r.state);
    }
  }

  lemma PassRetries(s: State, s1: State, saga: Saga, world: World, failedStep: string, cause: Raise, budget: nat,
                    i: nat, r: Result)
    requires s1.recs == s.recs && s1.ledger == s.ledger && |s.recs| <= |saga.steps| && Prefix(s.recs)
    requires i in s.recs && saga.steps[i].undo && ToUndo(s.recs[i])
    requires r == UndoAll(s1, saga, world, UndoOrder(s1.recs, |s1.recs|), failedStep, cause, [], [], budget)
             && !r.out.Died?
    ensures Retried(s, saga, UndoOrder(s.recs, |s.recs|), i, r.state) && i in UndoOrder(s.recs, |s.recs|)
  {
    var todo := UndoOrder(s1.recs, |s1.recs|);
    UndoOrderIs(s1.recs, |s1.recs|);
    UndoAllRetries(s1, saga, world, todo, failedStep, cause, [], [], budget, i);
  }

  lemma CompensateRetries(s: State, saga: Saga, world: World, failedStep: string, cause: Raise, budget: nat, i: nat,
                          r: Result)
    requires |s.recs| <= |saga.steps| && Prefix(s.recs) && i in s.recs && saga.steps[i].undo && ToUndo(s.recs[i])
    requires r == Compensate(s, saga, world, failedStep, cause, budget) && !r.out.Died?
    ensures Retried(s, saga, UndoOrder(s.recs, |s.recs|), i, r.state) && i in UndoOrder(s.recs, |s.recs|)
  {
    var s1 := SetSagaStatus(s, SagaCompensating, Some(failedStep), Some(cause));
    CompensateIs(s, s1, saga, world, UndoOrder(s1.recs, |s1.recs|), failedStep, cause, budget);
    PassRetries(s, s1, saga, world, failedStep, cause, budget - 1, i, r);
  }

  ghost predicate Stuck(s: State, saga: Saga, i: nat) {
    && s.saga.Some? && s.saga.value.status == SagaCompensationFailed
    && i < |saga.steps| && saga.steps[i].undo && i in s.recs && s.recs[i].status == StepCompensationFailed
  }

  ghost predicate RetriedOrStuck(s: State, saga: Saga, i: nat, end: State)
    requires i < |saga.steps|
  {
    var key := UndoKey(saga, i, saga.steps[i].name);
    && (Called(end.ledger.log, |s.ledger.log|, key)
        <==> OpenToRun(s.ledger, key) && saga.steps[i].compensationRetries >= 0)
    && (key in s.ledger.rows && s.ledger.rows[key].status in {Pending, Running} ==>
          i in end.recs && end.recs[i].status == StepCompensationFailed)
  }

  lemma StuckRetried(s: State, saga: Saga, world: World, budget: nat, i: nat, r: Result)
    requires Inv(s, saga) && Stuck(s, saga, i) && r == RunSaga(s, saga, world, budget) && !r.out.Died?
    ensures RetriedOrStuck(s, saga, i, r.state)
  {
    assert StepOk(s, saga, i);
    var rec := s.saga.value;
    CompensateRetries(s, saga, world, StepOr(rec.failedStep), CauseOr(rec.error, "resumed rollback"), budget, i, r);
  }

  /** The next call on a stuck saga, if it does not die, calls the undo of a stuck step
      exactly when the undo's row is open and it has attempts; an undo that died under way
      has left its row pending or running, is not called, and stays stuck. */
  lemma StuckStepsAreRetried(saga: Saga, actions: seq<Action>, world: World, budget: nat, i: nat)
    requires Legal(saga, actions) && Stuck(Reach(saga, actions), saga, i)
    requires !RunSaga(Reach(saga, actions), saga, world, budget).out.Died?
    ensures RetriedOrStuck(Reach(saga, actions), saga, i, RunSaga(Reach(saga, actions), saga, world, budget).state)
  {
    ReachKeeps(saga, actions);
    var s := Reach(saga, actions);
    StuckRetried(s, saga, world, budget, i, RunSaga(s, saga, world, budget));
  }

  // ---------------------------------------------------------------- an undo that stays stuck

  /** A new key whose function returns, or fails, at its only attempt. */
  lemma FirstRun(l: Ledger, req: Request, now: int, budget: nat)
    requires req.key !in l.rows && req.policies == [] && req.retries == 0 && budget >= 4
    ensures var r := Run(l, req, now, budget);
            && r.left == budget - 4 && req.key in r.ledger.rows
            && (forall key :: key != req.key ==> RowOf(r.ledger, key) == RowOf(l, key))
            && match req.execute(0)
               case Gave(v) => r.end == Got(v)
               case Raised(raise) => r.end == Threw(raise)
  {
    var inserted := InsertPending(l, req.key, req.cost, now);
    var called := Note(MarkRunning(inserted, req.key), Executed(req.key, req.given, req.execute(0)));
    assert Run(l, req, now, budget) == Execute(inserted, req, 0, NoError, budget - 1);
    if req.execute(0).Raised? {
      var raise := req.execute(0).raise;
      assert Execute(called, req, 1, raise, budget - 3)
        == Ran(MarkFailed(called, req.key, raise), Threw(raise), budget - 4);
    }
  }

  /** A new key whose run dies right after marking its row running. */
  lemma RunDiesRunning(l: Ledger, req: Request, now: int)
    requires req.key !in l.rows && req.policies == [] && req.retries >= 0
    ensures var r := Run(l, req, now, 2);
            r.end.Crashed? && req.key in r.ledger.rows && r.ledger.rows[req.key].status == Running
  {
  }

  /** Two steps without policies or retries, the first with an undo. */
  predicate TwoSteps(saga: Saga) {
    && |saga.steps| == 2 && saga.steps[0].undo && saga.steps[0].compensationRetries >= 0
    && saga.steps[0].retries == 0 && saga.steps[0].policies == []
    && saga.steps[1].retries == 0 && saga.steps[1].policies == []
  }

  /** The rollback has begun, and step 0 is recorded; its undo's row is running. */
  ghost predicate UndoDied(s: State, saga: Saga)
    requires |saga.steps| == 2
  {
    && s.saga.Some? && s.saga.value.status == SagaCompensating
    && s.recs.Keys == {0} && s.recs[0].name == saga.steps[0].name && ToUndo(s.recs[0])
    && Holds(s.ledger, UndoKey(saga, 0, saga.steps[0].name), Running)
  }

  /** Rolling back the one recorded step with three writes left dies in its undo. */
  lemma RollbackDies(s: State, saga: Saga, world: World, failedStep: string, cause: Raise, r: Result)
    requires TwoSteps(saga) && s.saga.Some? && s.recs.Keys == {0}
    requires s.recs[0].name == saga.steps[0].name && ToUndo(s.recs[0])
    requires UndoKey(saga, 0, saga.steps[0].name) !in s.ledger.rows
    requires r == Compensate(s, saga, world, failedStep, cause, 3)
    ensures UndoDied(r.state, saga)
  {
    var s1 := SetSagaStatus(s, SagaCompensating, Some(failedStep), Some(cause));
    assert |s.recs| == 1 by { assert |s.recs.Keys| == 1; }
    assert UndoOrder(s1.recs, 1) == [0] + UndoOrder(s1.recs, 0);
    CompensateIs(s, s1, saga, world, [0], failedStep, cause, 3);
    RunDiesRunning(s1.ledger, UndoRequest(saga, world, 0, s1.recs[0]), world.clock(0));
    assert UndoOne(s1, saga, world, 0, 2).end.Crashed?;
  }

  /** The second step fails with seven writes left. */
  lemma SecondStepFails(s: State, saga: Saga, world: World, outputs: map<string, Value>, r: Result)
    requires TwoSteps(saga) && s.saga.Some? && s.recs.Keys == {0}
    requires s.recs[0].name == saga.steps[0].name && ToUndo(s.recs[0])
    requires UndoKey(saga, 0, saga.steps[0].name) !in s.ledger.rows && DoKey(saga, 1) !in s.ledger.rows
    requires world.doStep(1, 0).Raised? && !Pauses(world.doStep(1, 0).raise)
    requires r == Forward(s, saga, world, 1, outputs, 7)
    ensures UndoDied(r.state, saga)
  {
    var ran := Run(s.ledger, DoRequest(saga, world, 1), world.clock(1), 7);
    FirstRun(s.ledger, DoRequest(saga, world, 1), world.clock(1), 7);
    KeysApart(saga, 1, 0);
    assert RowOf(ran.ledger, UndoKey(saga, 0, saga.steps[0].name))
      == RowOf(s.ledger, UndoKey(saga, 0, saga.steps[0].name));
    var s1 := s.(ledger := ran.ledger);
    assert r == React(s, saga, world, 1, outputs, ran);
    assert r == Compensate(s1, saga, world, saga.steps[1].name, ran.end.raise, 3);
    RollbackDies(s1, saga, world, saga.steps[1].name, ran.end.raise, r);
  }

  /** A first call that dies in the undo: fifteen writes and calls. */
  lemma FirstCallDies(saga: Saga, world: World, r: Result)
    requires TwoSteps(saga) && world.doStep(0, 0).Gave?
    requires world.doStep(1, 0).Raised? && !Pauses(world.doStep(1, 0).raise)
    requires r == RunSaga(Nothing, saga, world, 15)
    ensures UndoDied(r.state, saga)
  {
    var s := Nothing.(saga := Some(SagaRecord(SagaRunning, 0, None, None)));
    var req := DoRequest(saga, world, 0);
    var ran := Run(s.ledger, req, world.clock(0), 13);
    FirstRun(s.ledger, req, world.clock(0), 13);
    assert r == Forward(s, saga, world, 0, map[], 13);
    assert r == React(s, saga, world, 0, map[], ran);
    var s1 := SetCurrentStep(RecordStep(s.(ledger := ran.ledger), 0,
      StepRecord(saga.steps[0].name, StepSucceeded, ran.end.v, None)), 1);
    assert r == Forward(s1, saga, world, 1, map[saga.steps[0].name := ran.end.v], 7);
    KeysApart(saga, 0, 1);
    KeysApart(saga, 0, 0);
    assert RowOf(ran.ledger, UndoKey(saga, 0, saga.steps[0].name))
      == RowOf(s.ledger, UndoKey(saga, 0, saga.steps[0].name));
    assert RowOf(ran.ledger, DoKey(saga, 1)) == RowOf(s.ledger, DoKey(saga, 1));
    SecondStepFails(s1, saga, world, map[saga.steps[0].name := ran.end.v], r);
  }

  /** The next call finds the undo's row running, and the step is stuck. */
  lemma SecondCallSticks(s: State, saga: Saga, world: World, r: Result)
    requires TwoSteps(saga) && UndoDied(s, saga) && r == RunSaga(s, saga, world, 3)
    ensures Stuck(r.state, saga, 0) && Holds(r.state.ledger, UndoKey(saga, 0, saga.steps[0].name), Running)
  {
    var rec := s.saga.value;
    var failedStep, cause := StepOr(rec.failedStep), CauseOr(rec.error, "resumed rollback");
    var s1 := SetSagaStatus(s, SagaCompensating, Some(failedStep), Some(cause));
    assert |s.recs| == 1 by { assert |s.recs.Keys| == 1; }
    assert UndoOrder(s1.recs, 1) == [0] + UndoOrder(s1.recs, 0);
    CompensateIs(s, s1, saga, world, [0], failedStep, cause, 3);
    var u := UndoOne(s1, saga, world, 0, 2);
    UndoRuns(s1.ledger, UndoRequest(saga, world, 0, s1.recs[0]), world.clock(0), 2);
    assert u.end == Threw(DuplicateInFlight) && u.left == 1 && u.state.ledger == s1.ledger;
    assert [0][1..] == [];
  }

  /** It happens: a first call dies in the undo of its first step; the second call leaves
      that step stuck; and no later call that does not die ever calls its undo again. */
  lemma DeadUndoStaysStuck(saga: Saga, world: World, later: World, budget: nat)
    requires TwoSteps(saga) && world.doStep(0, 0).Gave?
    requires world.doStep(1, 0).Raised? && !Pauses(world.doStep(1, 0).raise)
    ensures var s := Reach(saga, [DoSaga(world, 15), DoSaga(world, 3)]);
            var r := RunSaga(s, saga, later, budget);
            && Stuck(s, saga, 0)
            && (!r.out.Died? ==>
                  !Called(r.state.ledger.log, |s.ledger.log|, UndoKey(saga, 0, saga.steps[0].name))
                  && 0 in r.state.recs && r.state.recs[0].status == StepCompensationFailed)
  {
    var actions := [DoSaga(world, 15), DoSaga(world, 3)];
    assert actions[..1] == [DoSaga(world, 15)] && actions[..1][..0] == [];
    assert Reach(saga, []) == Nothing;
    var s1 := Reach(saga, actions[..1]);
    FirstCallDies(saga, world, RunSaga(Nothing, saga, world, 15));
    SecondCallSticks(s1, saga, world, RunSaga(s1, saga, world, 3));
    if !RunSaga(Reach(saga, actions), saga, later, budget).out.Died? {
      StuckStepsAreRetried(saga, actions, later, budget, 0);
    }
  }

  // ---------------------------------------------------------------- the lists in the answers

  function NamesOf(todo: seq<nat>, recs: map<nat, StepRecord>): seq<string>
    requires forall k :: k in todo ==> k in recs
  {
    if todo == [] then [] else [recs[todo[0]].name] + NamesOf(todo[1..], recs)
  }

  /** The listed steps whose records are stuck, each with its recorded error. */
  function StuckOf(todo: seq<nat>, recs: map<nat, StepRecord>): seq<(string, Raise)> {
    if todo == [] then []
    else
      var k := todo[0];
      (if k in recs && recs[k].status == StepCompensationFailed
        && recs[k].error.Some? then [(recs[k].name, recs[k].error.value)]
       else [])
      + StuckOf(todo[1..], recs)
  }

  lemma {:induction false} NamesFrame(todo: seq<nat>, recs: map<nat, StepRecord>, recs': map<nat, StepRecord>)
    requires forall k :: k in todo ==> k in recs && k in recs' && recs'[k].name == recs[k].name
    ensures NamesOf(todo, recs') == NamesOf(todo, recs)
  {
    if todo != [] {
      NamesFrame(todo[1..], recs, recs');
    }
  }

  /** What the lists hold when the pass is over, given what they held when it began. */
  ghost predicate Lists(recs: map<nat, StepRecord>, todo: seq<nat>, compensated: seq<string>,
                        failures: seq<(string, Raise)>, r: Result)
    requires forall k :: k in todo ==> k in recs
  {
    && (r.out.Aborted? ==> failures == [] && r.out.compensated == compensated + NamesOf(todo, recs))
    && (r.out.CompensationError? ==> r.out.failures == failures + StuckOf(todo, r.state.recs))
    && (forall k :: k in recs && k !in todo ==> k in r.state.recs && r.state.recs[k] == recs[k])
  }

  lemma ListsJoin(recs: map<nat, StepRecord>, todo: seq<nat>, compensated: seq<string>,
                  failures: seq<(string, Raise)>, r: Result, rec: StepRecord)
    requires Descending(todo) && todo != [] && forall k :: k in todo ==> k in recs
    requires rec.name == recs[todo[0]].name
    requires rec.status == StepCompensated || (rec.status == StepCompensationFailed && rec.error.Some?)
    requires if rec.status
             == StepCompensated then Lists(recs[todo[0] := rec], todo[1..], compensated + [rec.name], failures, r)
             else Lists(recs[todo[0] := rec], todo[1..], compensated, failures + [(rec.name, rec.error.value)], r)
    ensures Lists(recs, todo, compensated, failures, r)
  {
    var j := todo[0];
    var recs' := recs[j := rec];
    assert j !in todo[1..] && forall k :: k in todo <==> k == j || k in todo[1..];
    NamesFrame(todo[1..], recs, recs');
    assert r.state.recs[j] == rec;
    if rec.status == StepCompensated {
      Regroup(compensated, [rec.name], NamesOf(todo[1..], recs));
    } else {
      Regroup(failures, [(rec.name, rec.error.value)], StuckOf(todo[1..], r.state.recs));
    }
  }

  lemma {:induction false} UndoAllLists(s: State, saga: Saga, world: World, todo: seq<nat>, failedStep: string,
                                        cause: Raise,
                                        compensated: seq<string>, failures: seq<(string, Raise)>, budget: nat)
    requires Descending(todo) && forall k :: k in todo ==> k in s.recs
    requires !UndoAll(s, saga, world, todo, failedStep, cause, compensated, failures, budget).out.Died?
    ensures Lists(s.recs, todo, compensated, failures,
                  UndoAll(s, saga, world, todo, failedStep, cause, compensated, failures, budget))
    decreases |todo|
  {
    var r := UndoAll(s, saga, world, todo, failedStep, cause, compensated, failures, budget);
    if todo != [] {
      var j := todo[0];
      assert j in todo && Descending(todo[1..]) && forall k :: k in todo[1..] ==> k in todo;
      var name := s.recs[j].name;
      var u := UndoOne(s, saga, world, j, budget);
      UndoOneRecords(s, saga, world, j, budget);
      match u.end {
        case Got(_) =>
          UndoAllLists(u.state, saga, world, todo[1..], failedStep, cause, compensated + [name], failures, u.left);
        case Threw(raise) =>
          UndoAllLists(u.state, saga, world, todo[1..], failedStep, cause, compensated, failures + [(name, raise)],
                       u.left);
      }
      ListsJoin(s.recs, todo, compensated, failures, r, u.state.recs[j]);
    }
  }

  /** An abort lists all the steps there were to undo, latest first; a compensation error
      lists exactly those of them left stuck, latest first, each with the error recorded
      for it. */
  ghost predicate ListsSteps(recs: map<nat, StepRecord>, failedStep: string, cause: Raise, r: Result) {
    var todo := UndoOrder(recs, |recs|);
    && (forall k :: k in todo ==> k in recs)
    && (r.out.Aborted? ==> r.out == Aborted(failedStep, cause, NamesOf(todo, recs)))
    && (r.out.CompensationError? ==> r.out == CompensationError(failedStep, cause, StuckOf(todo, r.state.recs)))
  }

  /** What a rollback that did not die answers lists the steps as it left them. */
  lemma RollbackListsSteps(s: State, saga: Saga, world: World, failedStep: string, cause: Raise, budget: nat)
    requires !Compensate(s, saga, world, failedStep, cause, budget).out.Died?
    ensures ListsSteps(s.recs, failedStep, cause, Compensate(s, saga, world, failedStep, cause, budget))
  {
    var s1 := SetSagaStatus(s, SagaCompensating, Some(failedStep), Some(cause));
    CompensateIs(s, s1, saga, world, UndoOrder(s1.recs, |s1.recs|), failedStep, cause, budget);
    PassLists(s1, saga, world, failedStep, cause, budget - 1, Compensate(s, saga, world, failedStep, cause, budget));
  }

  lemma PassLists(s: State, saga: Saga, world: World, failedStep: string, cause: Raise, budget: nat, r: Result)
    requires r == UndoAll(s, saga, world, UndoOrder(s.recs, |s.recs|), failedStep, cause, [], [], budget)
             && !r.out.Died?
    ensures ListsSteps(s.recs, failedStep, cause, r)
  {
    var todo := UndoOrder(s.recs, |s.recs|);
    UndoOrderIs(s.recs, |s.recs|);
    UndoAllLists(s, saga, world, todo, failedStep, cause, [], [], budget);
    UndoAllNames(s, saga, world, todo, failedStep, cause, [], [], budget);
  }

  lemma {:induction false} UndoAllNames(s: State, saga: Saga, world: World, todo: seq<nat>, failedStep: string,
                                        cause: Raise,
                                        compensated: seq<string>, failures: seq<(string, Raise)>, budget: nat)
    ensures var out := UndoAll(s, saga, world, todo, failedStep, cause, compensated, failures, budget).out;
            && (out.Aborted? ==> out.failedStep == failedStep && out.cause == cause)
            && (out.CompensationError? ==> out.failedStep == failedStep && out.cause == cause)
    decreases |todo|
  {
    if todo != [] {
      if todo[0] !in s.recs {
        UndoAllNames(s, saga, world, todo[1..], failedStep, cause, compensated, failures, budget);
      } else {
        var name := s.recs[todo[0]].name;
        var u := UndoOne(s, saga, world, todo[0], budget);
        match u.end
        case Crashed =>
        case Got(_) =>
          UndoAllNames(u.state, saga, world, todo[1..], failedStep, cause, compensated + [name], failures, u.left);
        case Threw(raise) =>
          UndoAllNames(u.state, saga, world, todo[1..], failedStep, cause, compensated, failures + [(name, raise)],
                       u.left);
      }
    }
  }

  // ---------------------------------------------------------------- what the caller is told

  /** The answer given and the status left agree. */
  ghost predicate Truthful(r: Result, n: nat) {
    match r.out
    case Died => true
    case Paused(_) => r.state.saga.Some? && r.state.saga.value.status == SagaAwaitingStep
    case Aborted(_, _, _) => r.state.saga.Some? && r.state.saga.value.status == SagaCompensated
    case CompensationError(_, _, failures) =>
      failures != [] && r.state.saga.Some? && r.state.saga.value.status == SagaCompensationFailed
    case Completed(outputs) =>
      r.state.saga.Some? && r.state.saga.value.status == SagaSucceeded && outputs == Collect(r.state.recs, n)
  }

  lemma {:induction false} UndoAllTruthful(s: State, saga: Saga, world: World, todo: seq<nat>, failedStep: string,
                                           cause: Raise,
                                           compensated: seq<string>, failures: seq<(string, Raise)>, budget: nat,
                                             n: nat)
    requires s.saga.Some?
    ensures Truthful(UndoAll(s, saga, world, todo, failedStep, cause, compensated, failures, budget), n)
    decreases |todo|
  {
    if todo != [] {
      if todo[0] !in s.recs {
        UndoAllTruthful(s, saga, world, todo[1..], failedStep, cause, compensated, failures, budget, n);
      } else {
        var name := s.recs[todo[0]].name;
        var u := UndoOne(s, saga, world, todo[0], budget);
        match u.end
        case Crashed =>
        case Got(_) =>
          UndoAllTruthful(u.state, saga, world, todo[1..], failedStep, cause, compensated + [name], failures,
                          u.left, n);
        case Threw(raise) =>
          UndoAllTruthful(u.state, saga, world, todo[1..], failedStep, cause, compensated,
                          failures + [(name, raise)], u.left, n);
      }
    }
  }

  lemma {:induction false} CollectFrame(recs: map<nat, StepRecord>, recs': map<nat, StepRecord>, n: nat)
    requires forall k: nat :: k < n ==> (k in recs <==> k in recs') && (k in recs ==> recs[k] == recs'[k])
    ensures Collect(recs, n) == Collect(recs', n)
  {
    if n > 0 {
      CollectFrame(recs, recs', n - 1);
    }
  }

  /** Every name collected up to n is that of some record below n. */
  lemma {:induction false} CollectNames(recs: map<nat, StepRecord>, n: nat)
    ensures forall name :: name in Collect(recs, n) <==> exists k: nat :: k < n && k in recs && recs[k].name == name
  {
    if n > 0 {
      CollectNames(recs, n - 1);
    }
  }

  /** The outputs in hand at step i: those of the steps so far, over leftovers of
      records that the rest of the pass will overwrite. */
  ghost predicate OutputsSoFar(s: State, saga: Saga, i: nat, base: map<string, Value>, outputs: map<string, Value>) {
    && s.saga.Some? && i <= |saga.steps|
    && (forall k: nat :: k < i ==> k in s.recs && s.recs[k].name == saga.steps[k].name)
    && (forall name :: name in base ==> exists k: nat :: k < |saga.steps| && saga.steps[k].name == name)
    && outputs == base + Collect(s.recs, i)
  }

  lemma OutputsAtEnd(s: State, saga: Saga, base: map<string, Value>, outputs: map<string, Value>)
    requires OutputsSoFar(s, saga, |saga.steps|, base, outputs)
    ensures outputs == Collect(s.recs, |saga.steps|)
  {
    CollectNames(s.recs, |saga.steps|);
    forall name | name in base ensures name in Collect(s.recs, |saga.steps|) {
      var k: nat :| k < |saga.steps| && saga.steps[k].name == name;
      assert s.recs[k].name == name;
    }
  }

  lemma CollectAdvance(recs: map<nat, StepRecord>, i: nat, rec: StepRecord)
    ensures Collect(recs[i := rec], i + 1) == Collect(recs, i)[rec.name := rec.output]
  {
    CollectFrame(recs, recs[i := rec], i);
  }

  lemma OutputsAdvance(s: State, saga: Saga, i: nat, base: map<string, Value>, outputs: map<string, Value>, v: Value,
                       s': State)
    requires i < |saga.steps| && OutputsSoFar(s, saga, i, base, outputs)
    requires s'.saga.Some? && s'.recs == s.recs[i := StepRecord(saga.steps[i].name, StepSucceeded, v, None)]
    ensures OutputsSoFar(s', saga, i + 1, base, outputs[saga.steps[i].name := v])
  {
    var name := saga.steps[i].name;
    CollectAdvance(s.recs, i, StepRecord(name, StepSucceeded, v, None));
    assert outputs[name := v] == base + Collect(s.recs, i)[name := v];
    forall k: nat | k < i + 1 ensures k in s'.recs && s'.recs[k].name == saga.steps[k].name {
      if k < i {
        assert k in s.recs;
      }
    }
  }

  lemma {:induction false} ForwardTruthful(s: State, saga: Saga, world: World, i: nat, base: map<string, Value>,
                                           outputs: map<string, Value>, budget: nat)
    requires OutputsSoFar(s, saga, i, base, outputs)
    ensures Truthful(Forward(s, saga, world, i, outputs, budget), |saga.steps|)
    decreases |saga.steps| - i, 1
  {
    if i >= |saga.steps| {
      OutputsAtEnd(s, saga, base, outputs);
    } else {
      ReactTruthful(s, saga, world, i, base, outputs, Run(s.ledger, DoRequest(saga, world, i), world.clock(i), budget));
    }
  }

  lemma {:induction false} ReactTruthful(s: State, saga: Saga, world: World, i: nat, base: map<string, Value>,
                                         outputs: map<string, Value>, r: Ran)
    requires i < |saga.steps| && OutputsSoFar(s, saga, i, base, outputs)
    ensures Truthful(React(s, saga, world, i, outputs, r), |saga.steps|)
    decreases |saga.steps| - i, 0
  {
    var name := saga.steps[i].name;
    var s1 := s.(ledger := r.ledger);
    match r.end
    case Crashed =>
    case Got(v) =>
      if r.left > 1 {
        var s2 := SetCurrentStep(RecordStep(s1, i, StepRecord(name, StepSucceeded, v, None)), i + 1);
        OutputsAdvance(s, saga, i, base, outputs, v, s2);
        ForwardTruthful(s2, saga, world, i + 1, base, outputs[name := v], r.left - 2);
      }
    case Threw(raise) =>
      if !Pauses(raise) {
        CompensateTruthful(s1, saga, world, name, raise, r.left, |saga.steps|);
      }
  }

  lemma CompensateTruthful(s: State, saga: Saga, world: World, failedStep: string, cause: Raise, budget: nat, n: nat)
    requires s.saga.Some?
    ensures Truthful(Compensate(s, saga, world, failedStep, cause, budget), n)
  {
    if budget > 0 {
      var s1 := SetSagaStatus(s, SagaCompensating, Some(failedStep), Some(cause));
      UndoAllTruthful(s1, saga, world, UndoOrder(s1.recs, |s1.recs|), failedStep, cause, [], [], budget - 1, n);
    }
  }

  lemma BeginTruthful(s: State, saga: Saga, world: World, budget: nat)
    requires s.saga.Some? && RecordsAgree(s, saga)
    ensures Truthful(Begin(s, saga, world, budget), |saga.steps|)
  {
    if budget > 0 {
      var s1 := SetSagaStatus(s, SagaRunning, None, None);
      var base := Collect(s1.recs, |s1.recs|);
      CollectNames(s1.recs, |s1.recs|);
      forall name | name in base ensures exists k: nat :: k < |saga.steps| && saga.steps[k].name == name {
        var k: nat :| k < |s1.recs| && k in s1.recs && s1.recs[k].name == name;
        assert saga.steps[k].name == name;
      }
      assert base + Collect(s1.recs, 0) == base;
      ForwardTruthful(s1, saga, world, 0, base, base, budget - 1);
    }
  }

  lemma RunSagaTruthful(s: State, saga: Saga, world: World, budget: nat)
    requires Inv(s, saga)
    ensures Truthful(RunSaga(s, saga, world, budget), |saga.steps|)
  {
    InvAgrees(s, saga);
    match s.saga
    case None =>
      if budget > 0 {
        BeginTruthful(s.(saga := Some(SagaRecord(SagaRunning, 0, None, None))), saga, world, budget - 1);
      }
    case Some(rec) =>
      match rec.status
      case SagaSucceeded =>
      case SagaCompensated =>
      case SagaRunning => BeginTruthful(s, saga, world, budget);
      case SagaAwaitingStep => BeginTruthful(s, saga, world, budget);
      case SagaCompensating =>
        CompensateTruthful(s, saga, world, StepOr(rec.failedStep), CauseOr(rec.error, "resumed rollback"), budget,
          |saga.steps|);
      case SagaCompensationFailed =>
        CompensateTruthful(s, saga, world, StepOr(rec.failedStep), CauseOr(rec.error, "resumed rollback"), budget,
          |saga.steps|);
  }

  /** Whatever run() or resume() answers is what it left behind: `completed` comes
      with the recorded outputs of all steps, an abort with a compensated saga, a
      compensation error with a stuck one. */
  lemma AnswerMatchesState(saga: Saga, actions: seq<Action>, world: World, budget: nat)
    requires Legal(saga, actions)
    ensures var r := RunSaga(Reach(saga, actions), saga, world, budget);
            Truthful(r, |saga.steps|) && (r.out.Completed? ==> |r.state.recs| == |saga.steps|)
  {
    ReachKeeps(saga, actions);
    RunSagaKeeps(Reach(saga, actions), saga, world, budget);
    RunSagaTruthful(Reach(saga, actions), saga, world, budget);
  }
}
