/** What a saga call that survives decides: which failures pause it, which roll it back,
    and what it goes on answering. */
module SagaProgress {
  import opened Prelude
  import opened ActionLedger
  import opened Policies
  import opened RunSpec
  import opened RunTheorems
  import opened RunAnswers
  import opened SagaSpec
  import opened SagaTheorems
  import opened SagaGuarantees

  // ---------------------------------------------------------------- the ledger under a saga

  ghost predicate Fine(l: Ledger) {
    Sound(l) && AllExplained(l)
  }

  lemma FineRun(l: Ledger, req: Request, now: int, budget: nat, r: Ran)
    requires Fine(l) && r == Run(l, req, now, budget)
    ensures Fine(r.ledger)
    ensures !r.end.Crashed? ==> Reads(l, r, req.key)
  {
    var op := DoRun(req, now, budget);
    assert r.ledger == RunTheorems.Apply(l, op);
    RunTheorems.ApplyKeeps(l, op);
    ApplyExplained(l, op);
    assert KeySound(l, req.key) && Explained(l, req.key);
    RunReads(l, req, now, budget, r);
  }

  lemma FineUndo(s: State, saga: Saga, world: World, i: nat, budget: nat)
    requires Fine(s.ledger) && i in s.recs
    ensures Fine(UndoOne(s, saga, world, i, budget).state.ledger)
  {
    if i < |saga.steps| && saga.steps[i].undo {
      var req := UndoRequest(saga, world, i, s.recs[i]);
      FineRun(s.ledger, req, world.clock(i), budget, Run(s.ledger, req, world.clock(i), budget));
    }
  }

  // ---------------------------------------------------------------- what a row says of its step

  /** The function failed with a refusal of some action of its own. */
  predicate RefusedInside(row: Row) {
    match row.error
    case Some(ApprovalRequired(_)) => true
    case Some(DuplicateInFlight) => true
    case _ => false
  }

  /** Nothing is decided yet: the row waits for a reviewer or another call, or its function
      failed with just such a refusal from an action of its own. */
  predicate Undecided(row: Row) {
    row.status in {AwaitingApproval, Pending, Running} || (row.status == Failed && RefusedInside(row))
  }

  /** Refused for good, or failed by itself. */
  predicate GivenUp(row: Row) {
    row.status in {Denied, Rejected} || (row.status == Failed && !RefusedInside(row))
  }

  /** What the step's caller is thrown. */
  predicate Blames(row: Row, raise: Raise) {
    match row.status
    case AwaitingApproval => row.reason.Some? && raise == ApprovalRequired(row.reason.value)
    case Rejected => raise == ActionRejected(row.reason)
    case Denied => row.reason.Some? && raise == PolicyDenied(row.reason.value)
    case Failed => row.error == Some(raise)
    case Pending => raise == DuplicateInFlight
    case Running => raise == DuplicateInFlight
    case _ => false
  }

  lemma ThrownIsRead(l: Ledger, r: Ran, key: Key)
    requires Reads(l, r, key) && r.end.Threw?
    ensures key in r.ledger.rows && Blames(r.ledger.rows[key], r.end.raise)
    ensures Pauses(r.end.raise) <==> Undecided(r.ledger.rows[key])
    ensures !Pauses(r.end.raise) <==> GivenUp(r.ledger.rows[key])
  {
  }

  // ---------------------------------------------------------------- a rollback leaves the failed step's row

  /** The records name their steps. */
  ghost predicate Named(s: State, saga: Saga) {
    forall i: nat :: i in s.recs ==> i < |saga.steps| && s.recs[i].name == saga.steps[i].name
  }

  lemma UndoOneLeaves(s: State, saga: Saga, world: World, i: nat, budget: nat, m: nat)
    requires Named(s, saga) && i in s.recs && m < |saga.steps|
    ensures var u := UndoOne(s, saga, world, i, budget);
            && Named(u.state, saga) && u.state.recs.Keys == s.recs.Keys
            && RowOf(u.state.ledger, DoKey(saga, m)) == RowOf(s.ledger, DoKey(saga, m))
  {
    KeysApart(saga, m, i);
    if saga.steps[i].undo {
      RunSettles(s.ledger, UndoRequest(saga, world, i, s.recs[i]), world.clock(i), budget);
    }
  }

  /** A rollback pass, whatever becomes of it. */
  ghost predicate Leaves(s: State, saga: Saga, m: nat, r: Result)
    requires m < |saga.steps|
  {
    && r.state.recs.Keys == s.recs.Keys && Fine(r.state.ledger)
    && RowOf(r.state.ledger, DoKey(saga, m)) == RowOf(s.ledger, DoKey(saga, m))
  }

  lemma {:induction false} UndoAllLeaves(s: State, saga: Saga, world: World, todo: seq<nat>, failedStep: string,
                                         cause: Raise, compensated: seq<string>, failures: seq<(string, Raise)>,
                                         budget: nat, m: nat)
    requires Named(s, saga) && Fine(s.ledger) && m < |saga.steps|
    ensures Leaves(s, saga, m, UndoAll(s, saga, world, todo, failedStep, cause, compensated, failures, budget))
    decreases |todo|
  {
    if todo != [] {
      if todo[0] !in s.recs {
        UndoAllLeaves(s, saga, world, todo[1..], failedStep, cause, compensated, failures, budget, m);
      } else {
        var name := s.recs[todo[0]].name;
        var u := UndoOne(s, saga, world, todo[0], budget);
        UndoOneLeaves(s, saga, world, todo[0], budget, m);
        FineUndo(s, saga, world, todo[0], budget);
        match u.end
        case Crashed =>
        case Got(_) =>
          UndoAllLeaves(u.state, saga, world, todo[1..], failedStep, cause, compensated + [name], failures, u.left, m);
        case Threw(raise) =>
          UndoAllLeaves(u.state, saga, world, todo[1..], failedStep, cause, compensated, failures + [(name, raise)],
                        u.left, m);
      }
    }
  }

  lemma CompensateLeaves(s: State, saga: Saga, world: World, failedStep: string, cause: Raise, budget: nat, m: nat,
                         r: Result)
    requires Named(s, saga) && Fine(s.ledger) && m < |saga.steps|
    requires r == Compensate(s, saga, world, failedStep, cause, budget)
    ensures Leaves(s, saga, m, r)
  {
    if budget > 0 {
      var s1 := SetSagaStatus(s, SagaCompensating, Some(failedStep), Some(cause));
      UndoAllLeaves(s1, saga, world, UndoOrder(s1.recs, |s1.recs|), failedStep, cause, [], [], budget - 1, m);
    }
  }

  // ---------------------------------------------------------------- what a forward call decides

  /** The answer of a forward call, by what it leaves of the first unrecorded step. */
  ghost predicate Decided(saga: Saga, r: Result) {
    var m := |r.state.recs|;
    match r.out
    case Died => true
    case Completed(_) => m == |saga.steps|
    case Paused(raise) =>
      && StandsAt(saga, r.state, m) && Undecided(r.state.ledger.rows[DoKey(saga, m)])
      && Blamed(saga, r.state, m, saga.steps[m].name, raise) && r.state.saga.value.currentStep == m
    case Aborted(failedStep, cause, _) =>
      && StandsAt(saga, r.state, m) && GivenUp(r.state.ledger.rows[DoKey(saga, m)])
      && Blamed(saga, r.state, m, failedStep, cause)
    case CompensationError(failedStep, cause, _) =>
      && StandsAt(saga, r.state, m) && GivenUp(r.state.ledger.rows[DoKey(saga, m)])
      && Blamed(saga, r.state, m, failedStep, cause)
  }

  ghost predicate StandsAt(saga: Saga, s: State, m: nat) {
    m < |saga.steps| && DoKey(saga, m) in s.ledger.rows
  }

  /** The caller is told, and the saga's row remembers, that step m is to blame and why. */
  ghost predicate Blamed(saga: Saga, s: State, m: nat, failedStep: string, cause: Raise)
    requires StandsAt(saga, s, m)
  {
    && failedStep == saga.steps[m].name && Blames(s.ledger.rows[DoKey(saga, m)], cause)
    && s.saga.Some? && s.saga.value.failedStep == Some(failedStep) && s.saga.value.error == Some(cause)
  }

  lemma {:induction false} UndoAllBlames(s: State, saga: Saga, world: World, todo: seq<nat>, failedStep: string,
                                         cause: Raise, compensated: seq<string>, failures: seq<(string, Raise)>,
                                         budget: nat)
    requires s.saga.Some? && s.saga.value.failedStep == Some(failedStep) && s.saga.value.error == Some(cause)
    ensures var r := UndoAll(s, saga, world, todo, failedStep, cause, compensated, failures, budget);
            && r.state.saga.Some? && r.state.saga.value.failedStep == Some(failedStep)
            && r.state.saga.value.error == Some(cause)
            && (r.out.Died? || r.out.Aborted? || r.out.CompensationError?)
            && (r.out.Aborted? ==> r.out.failedStep == failedStep && r.out.cause == cause)
            && (r.out.CompensationError? ==> r.out.failedStep == failedStep && r.out.cause == cause)
    decreases |todo|
  {
    if todo != [] {
      if todo[0] !in s.recs {
        UndoAllBlames(s, saga, world, todo[1..], failedStep, cause, compensated, failures, budget);
      } else {
        var name := s.recs[todo[0]].name;
        var u := UndoOne(s, saga, world, todo[0], budget);
        match u.end
        case Crashed =>
        case Got(_) =>
          UndoAllBlames(u.state, saga, world, todo[1..], failedStep, cause, compensated + [name], failures, u.left);
        case Threw(raise) =>
          UndoAllBlames(u.state, saga, world, todo[1..], failedStep, cause, compensated, failures + [(name, raise)],
                        u.left);
      }
    }
  }

  /** What a rollback answers and remembers. */
  ghost predicate Rolled(r: Result, failedStep: string, cause: Raise) {
    && (r.out.Died? || r.out.Aborted? || r.out.CompensationError?)
    && (!r.out.Died? ==>
          && r.state.saga.Some? && r.state.saga.value.failedStep == Some(failedStep)
          && r.state.saga.value.error == Some(cause))
    && (r.out.Aborted? ==> r.out.failedStep == failedStep && r.out.cause == cause)
    && (r.out.CompensationError? ==> r.out.failedStep == failedStep && r.out.cause == cause)
  }

  lemma CompensateBlames(s: State, saga: Saga, world: World, failedStep: string, cause: Raise, budget: nat, r: Result)
    requires s.saga.Some? && r == Compensate(s, saga, world, failedStep, cause, budget)
    ensures Rolled(r, failedStep, cause)
  {
    if budget > 0 {
      var s1 := SetSagaStatus(s, SagaCompensating, Some(failedStep), Some(cause));
      UndoAllBlames(s1, saga, world, UndoOrder(s1.recs, |s1.recs|), failedStep, cause, [], [], budget - 1);
    }
  }

  /** A recorded step does not throw. */
  lemma RecordedReturns(s: State, saga: Saga, world: World, i: nat, budget: nat)
    requires Base(s, saga) && i in s.recs && i < |saga.steps|
    ensures !Run(s.ledger, DoRequest(saga, world, i), world.clock(i), budget).end.Threw?
  {
    assert StepOk(s, saga, i);
  }

  lemma BaseNamed(s: State, saga: Saga)
    requires Base(s, saga)
    ensures Named(s, saga)
  {
    forall i: nat | i in s.recs ensures i < |saga.steps| && s.recs[i].name == saga.steps[i].name {
      assert StepOk(s, saga, i);
    }
  }

  /** Step m threw: the call pauses or rolls back. */
  lemma ThrownDecides(s1: State, saga: Saga, world: World, m: nat, raise: Raise, budget: nat, r: Result)
    requires Base(s1, saga) && Fine(s1.ledger) && s1.saga.Some? && m == |s1.recs| && StandsAt(saga, s1, m)
    requires Blames(s1.ledger.rows[DoKey(saga, m)], raise)
    requires Pauses(raise) <==> Undecided(s1.ledger.rows[DoKey(saga, m)])
    requires r == if Pauses(raise) then Pause(s1, m, saga.steps[m].name, raise, budget)
                  else Compensate(s1, saga, world, saga.steps[m].name, raise, budget)
    ensures Decided(saga, r) && Fine(r.state.ledger)
  {
    if !Pauses(raise) {
      BaseNamed(s1, saga);
      CompensateLeaves(s1, saga, world, saga.steps[m].name, raise, budget, m, r);
      CompensateBlames(s1, saga, world, saga.steps[m].name, raise, budget, r);
      assert |r.state.recs| == |r.state.recs.Keys| == |s1.recs.Keys| == m;
      assert RowOf(r.state.ledger, DoKey(saga, m)) == RowOf(s1.ledger, DoKey(saga, m));
    }
  }

  lemma {:induction false} ForwardDecides(s: State, saga: Saga, world: World, i: nat, outputs: map<string, Value>,
                                          budget: nat, r: Result)
    requires GoingForward(s, saga) && i <= |s.recs| && Fine(s.ledger)
    requires r == Forward(s, saga, world, i, outputs, budget)
    ensures Decided(saga, r) && Fine(r.state.ledger)
    decreases |saga.steps| - i, 1
  {
    if i < |saga.steps| {
      var req := DoRequest(saga, world, i);
      var ran := Run(s.ledger, req, world.clock(i), budget);
      ForwardStep(s, saga, world, i, budget);
      FineRun(s.ledger, req, world.clock(i), budget, ran);
      if i in s.recs {
        RecordedReturns(s, saga, world, i, budget);
      }
      if ran.end.Threw? {
        ThrownIsRead(s.ledger, ran, req.key);
      }
      ReactDecides(s, saga, world, i, outputs, ran, r);
    }
  }

  /** Step i's run, as the forward pass finds it. */
  ghost predicate Reacting(s: State, saga: Saga, i: nat, ran: Ran)
    requires i < |saga.steps|
  {
    && Ready(s.(ledger := ran.ledger), saga, i, ran.end) && Fine(ran.ledger)
    && (ran.end.Threw? ==>
          && i == |s.recs| && StandsAt(saga, s.(ledger := ran.ledger), i)
          && Blames(ran.ledger.rows[DoKey(saga, i)], ran.end.raise)
          && (Pauses(ran.end.raise) <==> Undecided(ran.ledger.rows[DoKey(saga, i)])))
  }

  lemma {:induction false} ReactDecides(s: State, saga: Saga, world: World, i: nat, outputs: map<string, Value>,
                                        ran: Ran, r: Result)
    requires i < |saga.steps| && Reacting(s, saga, i, ran) && r == React(s, saga, world, i, outputs, ran)
    ensures Decided(saga, r) && Fine(r.state.ledger)
    decreases |saga.steps| - i, 0
  {
    var s1 := s.(ledger := ran.ledger);
    match ran.end
    case Crashed =>
    case Threw(raise) => ThrownDecides(s1, saga, world, i, raise, ran.left, r);
    case Got(v) =>
      if ran.left > 1 {
        var name := saga.steps[i].name;
        var s2 := SetCurrentStep(RecordStep(s1, i, StepRecord(name, StepSucceeded, v, None)), i + 1);
        ForwardDecides(s2, saga, world, i + 1, outputs[name := v], ran.left - 2, r);
      }
  }

  predicate GoesForward(s: State) {
    s.saga.None? || s.saga.value.status in {SagaRunning, SagaAwaitingStep}
  }

  lemma BeginDecides(s: State, saga: Saga, world: World, budget: nat, r: Result)
    requires Inv(s, saga) && Fine(s.ledger) && s.saga.Some? && GoesForward(s) && r == Begin(s, saga, world, budget)
    ensures Decided(saga, r) && Fine(r.state.ledger)
  {
    if budget > 0 {
      var s1 := SetSagaStatus(s, SagaRunning, None, None);
      StatusBase(s, saga, SagaRunning, None, None);
      StatusQuiet(s, saga, SagaRunning, None, None);
      ForwardDecides(s1, saga, world, 0, Collect(s1.recs, |s1.recs|), budget - 1, r);
    }
  }

  lemma CreatedInv(s: State, saga: Saga)
    requires Inv(s, saga) && s.saga.None?
    ensures Inv(s.(saga := Some(SagaRecord(SagaRunning, 0, None, None))), saga)
  {
    var s1 := s.(saga := Some(SagaRecord(SagaRunning, 0, None, None)));
    forall j: nat | j < |saga.steps| ensures StepOk(s1, saga, j) && UndoHistory(s1, saga, j) == [] {
      assert StepOk(s, saga, j) && UndoHistory(s, saga, j) == [];
    }
  }

  lemma RunSagaDecides(s: State, saga: Saga, world: World, budget: nat, r: Result)
    requires Inv(s, saga) && Fine(s.ledger) && r == RunSaga(s, saga, world, budget)
    ensures Fine(r.state.ledger)
    ensures GoesForward(s) ==> Decided(saga, r)
    ensures !GoesForward(s) ==> !r.out.Paused?
  {
    match s.saga
    case None =>
      if budget > 0 {
        CreatedInv(s, saga);
        BeginDecides(s.(saga := Some(SagaRecord(SagaRunning, 0, None, None))), saga, world, budget - 1, r);
      }
    case Some(rec) =>
      if GoesForward(s) {
        BeginDecides(s, saga, world, budget, r);
      } else if rec.status == SagaCompensating || rec.status == SagaCompensationFailed {
        var failedStep, cause := StepOr(rec.failedStep), CauseOr(rec.error, "resumed rollback");
        CompensateBlames(s, saga, world, failedStep, cause, budget, r);
        BaseNamed(s, saga);
        CompensateLeaves(s, saga, world, failedStep, cause, budget, |s.recs|, r);
      }
  }

  lemma {:induction false} ReachFine(saga: Saga, actions: seq<Action>)
    requires Legal(saga, actions)
    ensures Inv(Reach(saga, actions), saga) && Fine(Reach(saga, actions).ledger)
  {
    ReachKeeps(saga, actions);
    if actions != [] {
      var n := |actions| - 1;
      assert forall a :: a in actions[..n] ==> a in actions;
      ReachFine(saga, actions[..n]);
      var s := Reach(saga, actions[..n]);
      match actions[n]
      case DoSaga(world, budget) => RunSagaDecides(s, saga, world, budget, RunSaga(s, saga, world, budget));
      case Outside(op) =>
        RunTheorems.ApplyKeeps(s.ledger, op);
        ApplyExplained(s.ledger, op);
    }
  }

  /** Which failures pause a saga and which roll it back.  A call that goes forward and
      does not die completes exactly when every step is recorded; it pauses exactly when
      the row of the first unrecorded step is undecided; and it rolls back, blaming that
      step for what its row says, exactly when the row is failed for good, denied or
      rejected. */
  lemma PausesExactly(saga: Saga, actions: seq<Action>, world: World, budget: nat)
    requires Legal(saga, actions) && GoesForward(Reach(saga, actions))
    requires !RunSaga(Reach(saga, actions), saga, world, budget).out.Died?
    ensures var r := RunSaga(Reach(saga, actions), saga, world, budget);
            var m := |r.state.recs|;
            && Decided(saga, r)
            && (r.out.Completed? <==> m == |saga.steps|)
            && (r.out.Paused?
                <==> StandsAt(saga, r.state, m) && Undecided(r.state.ledger.rows[DoKey(saga, m)]))
            && (r.out.Aborted? || r.out.CompensationError?
                <==> StandsAt(saga, r.state, m) && GivenUp(r.state.ledger.rows[DoKey(saga, m)]))
  {
    ReachFine(saga, actions);
    RunSagaDecides(Reach(saga, actions), saga, world, budget, RunSaga(Reach(saga, actions), saga, world, budget));
  }

  /** The one failure that does not roll back: a step whose function itself ends with such
      a refusal leaves its row failed, and the saga paused. */
  lemma RefusedInsidePauses(saga: Saga, world: World)
    requires |saga.steps| == 1 && saga.steps[0].retries == 0 && saga.steps[0].policies == []
    requires world.doStep(0, 0) == Raised(DuplicateInFlight)
    ensures var r := RunSaga(Nothing, saga, world, 8);
            && r.out == Paused(DuplicateInFlight)
            && DoKey(saga, 0) in r.state.ledger.rows && r.state.ledger.rows[DoKey(saga, 0)].status == Failed
  {
    var s := Nothing.(saga := Some(SagaRecord(SagaRunning, 0, None, None)));
    var req := DoRequest(saga, world, 0);
    var inserted := InsertPending(s.ledger, req.key, req.cost, world.clock(0));
    var called := RunAnswers.Called(inserted, req, 0);
    var ran := Run(s.ledger, req, world.clock(0), 6);
    assert ran == Execute(inserted, req, 0, NoError, 5);
    assert ran == Execute(called, req, 1, DuplicateInFlight, 3);
    assert ran == Ran(MarkFailed(called, req.key, DuplicateInFlight), Threw(DuplicateInFlight), 2);
    assert RunSaga(Nothing, saga, world, 8) == Forward(s, saga, world, 0, map[], 6);
    assert RunSaga(Nothing, saga, world, 8) == React(s, saga, world, 0, map[], ran);
  }

  // ---------------------------------------------------------------- answers are repeated

  function StepNames(saga: Saga, n: nat): seq<string>
    requires n <= |saga.steps|
  {
    seq(n, i requires 0 <= i < n => saga.steps[i].name)
  }

  lemma {:induction false} AllCompensated(recs: map<nat, StepRecord>, saga: Saga, n: nat)
    requires n <= |saga.steps|
    requires forall i: nat :: i < n ==>
      i in recs && recs[i].name == saga.steps[i].name && recs[i].status == StepCompensated
    ensures CompensatedNames(recs, n) == StepNames(saga, n)
  {
    if n > 0 {
      AllCompensated(recs, saga, n - 1);
      assert StepNames(saga, n) == StepNames(saga, n - 1) + [saga.steps[n - 1].name];
    }
  }

  /** A saga once rolled back goes on answering so, blaming the same step for the same
      reason and naming every step it had recorded, whatever becomes of the ledger. */
  lemma AbortIsRepeated(saga: Saga, actions: seq<Action>, world: World, budget: nat, l: Ledger, later: World, more: nat)
    requires Legal(saga, actions) && RunSaga(Reach(saga, actions), saga, world, budget).out.Aborted?
    ensures var r := RunSaga(Reach(saga, actions), saga, world, budget);
            var s := r.state.(ledger := l);
            && |s.recs| < |saga.steps|
            && RunSaga(s, saga, later, more)
               == Result(s, Aborted(r.out.failedStep, r.out.cause, StepNames(saga, |s.recs|)), more)
  {
    ReachFine(saga, actions);
    var s0 := Reach(saga, actions);
    var r := RunSaga(s0, saga, world, budget);
    RunSagaDecides(s0, saga, world, budget, r);
    RunSagaKeeps(s0, saga, world, budget);
    RunSagaTruthful(s0, saga, world, budget);
    BaseNamed(r.state, saga);
    AllCompensated(r.state.recs, saga, |r.state.recs|);
    RememberedBlame(s0, saga, world, budget, r);
  }

  /** Whom an abort blames, a later look at the saga's row blames. */
  lemma RememberedBlame(s: State, saga: Saga, world: World, budget: nat, r: Result)
    requires r == RunSaga(s, saga, world, budget) && r.out.Aborted? && r.state.saga.Some?
    requires GoesForward(s) ==> Decided(saga, r)
    ensures StepOr(r.state.saga.value.failedStep) == r.out.failedStep
    ensures CauseOr(r.state.saga.value.error, "previously aborted") == r.out.cause
  {
    if s.saga.Some? && s.saga.value.status in {SagaCompensating, SagaCompensationFailed} {
      var rec := s.saga.value;
      CompensateBlames(s, saga, world, StepOr(rec.failedStep), CauseOr(rec.error, "resumed rollback"), budget, r);
    }
  }

  /** A completed saga goes on answering with the same outputs. */
  lemma CompletionIsRepeated(saga: Saga, actions: seq<Action>, world: World, budget: nat, l: Ledger, later: World,
                             more: nat)
    requires Legal(saga, actions) && RunSaga(Reach(saga, actions), saga, world, budget).out.Completed?
    ensures var r := RunSaga(Reach(saga, actions), saga, world, budget);
            var s := r.state.(ledger := l);
            RunSaga(s, saga, later, more) == Result(s, r.out, more)
  {
    AnswerMatchesState(saga, actions, world, budget);
  }

  /** A rollback that is taken up again blames the same step for the same reason. */
  lemma RollbackIsRepeated(saga: Saga, s: State, world: World, failedStep: string, cause: Raise, budget: nat,
                           l: Ledger, later: World, more: nat)
    requires Rolled(RunSaga(s, saga, world, budget), failedStep, cause)
    requires RunSaga(s, saga, world, budget).out.CompensationError?
    requires Truthful(RunSaga(s, saga, world, budget), |saga.steps|)
    ensures Rolled(RunSaga(RunSaga(s, saga, world, budget).state.(ledger := l), saga, later, more), failedStep, cause)
  {
    var s1 := RunSaga(s, saga, world, budget).state.(ledger := l);
    CompensateBlames(s1, saga, later, failedStep, cause, more, RunSaga(s1, saga, later, more));
  }

  // ---------------------------------------------------------------- what the outputs are

  /** The latest of the first n records by this name. */
  ghost predicate LatestOf(recs: map<nat, StepRecord>, n: nat, name: string, k: nat) {
    && k < n && k in recs && recs[k].name == name
    && forall j: nat :: k < j < n && j in recs ==> recs[j].name != name
  }

  lemma {:induction false} CollectsLatest(recs: map<nat, StepRecord>, n: nat, name: string)
    ensures name in Collect(recs, n) <==> exists k: nat :: k < n && k in recs && recs[k].name == name
    ensures name in Collect(recs, n) ==>
      exists k: nat :: LatestOf(recs, n, name, k) && Collect(recs, n)[name] == recs[k].output
  {
    if n > 0 {
      CollectsLatest(recs, n - 1, name);
      if n - 1 in recs && recs[n - 1].name == name {
        assert LatestOf(recs, n, name, n - 1);
      } else if name in Collect(recs, n - 1) {
        var k: nat :| LatestOf(recs, n - 1, name, k) && Collect(recs, n - 1)[name] == recs[k].output;
        assert LatestOf(recs, n, name, k);
      }
    }
  }

  lemma OneLatest(recs: map<nat, StepRecord>, n: nat, name: string, k: nat, j: nat)
    requires LatestOf(recs, n, name, k) && LatestOf(recs, n, name, j)
    ensures k == j
  {
  }

  /** A completed saga answers, under each step's name, what the ledger holds that the
      last step of that name returned, and nothing under any other name. */
  lemma OutputsAreResults(saga: Saga, actions: seq<Action>, world: World, budget: nat, i: nat)
    requires Legal(saga, actions) && RunSaga(Reach(saga, actions), saga, world, budget).out.Completed?
    requires i < |saga.steps| && forall j :: i < j < |saga.steps| ==> saga.steps[j].name != saga.steps[i].name
    ensures var r := RunSaga(Reach(saga, actions), saga, world, budget);
            && (forall name :: name in r.out.outputs ==>
                  exists k :: 0 <= k < |saga.steps| && saga.steps[k].name == name)
            && saga.steps[i].name in r.out.outputs
            && Holds(r.state.ledger, DoKey(saga, i), Succeeded)
            && r.out.outputs[saga.steps[i].name] == r.state.ledger.rows[DoKey(saga, i)].result
  {
    AnswerMatchesState(saga, actions, world, budget);
    ReachKeeps(saga, actions);
    RunSagaKeeps(Reach(saga, actions), saga, world, budget);
    OutputsOf(saga, RunSaga(Reach(saga, actions), saga, world, budget), i);
  }

  lemma OutputsOf(saga: Saga, r: Result, i: nat)
    requires Inv(r.state, saga) && |r.state.recs| == |saga.steps| && i < |saga.steps|
    requires r.out == Completed(Collect(r.state.recs, |saga.steps|))
    requires forall j :: i < j < |saga.steps| ==> saga.steps[j].name != saga.steps[i].name
    ensures forall name :: name in r.out.outputs ==> exists k :: 0 <= k < |saga.steps| && saga.steps[k].name == name
    ensures saga.steps[i].name in r.out.outputs && Holds(r.state.ledger, DoKey(saga, i), Succeeded)
    ensures r.out.outputs[saga.steps[i].name] == r.state.ledger.rows[DoKey(saga, i)].result
  {
    var recs, n := r.state.recs, |saga.steps|;
    BaseNamed(r.state, saga);
    assert StepOk(r.state, saga, i);
    forall name | name in r.out.outputs ensures exists k :: 0 <= k < n && saga.steps[k].name == name {
      CollectsLatest(recs, n, name);
    }
    CollectsLatest(recs, n, saga.steps[i].name);
    assert LatestOf(recs, n, saga.steps[i].name, i);
    var k: nat :| LatestOf(recs, n, saga.steps[i].name, k) && r.out.outputs[saga.steps[i].name] == recs[k].output;
    OneLatest(recs, n, saga.steps[i].name, k, i);
  }

  // ---------------------------------------------------------------- enough writes to survive

  /** More than rolling the listed steps back can use up. */
  function UndoPrice(saga: Saga, n: nat): nat
    requires n <= |saga.steps|
  {
    if n == 0 then 0 else 2 * Tries(0, saga.steps[n - 1].compensationRetries) + 3 + UndoPrice(saga, n - 1)
  }

  function DoPrice(saga: Saga, i: nat): nat
    requires i <= |saga.steps|
    decreases |saga.steps| - i
  {
    if i == |saga.steps| then 0 else 2 * Tries(0, saga.steps[i].retries) + 4 + DoPrice(saga, i + 1)
  }

  /** More writes and calls than any one call of the saga can use up. */
  function Ample(saga: Saga): nat {
    DoPrice(saga, 0) + UndoPrice(saga, |saga.steps|) + 5
  }

  lemma UndoOneSurvives(s: State, saga: Saga, world: World, i: nat, budget: nat)
    requires i in s.recs && i < |saga.steps| && budget >= 2 * Tries(0, saga.steps[i].compensationRetries) + 3
    ensures var u := UndoOne(s, saga, world, i, budget);
            && !u.end.Crashed? && u.state.recs.Keys == s.recs.Keys
            && u.left >= budget - (2 * Tries(0, saga.steps[i].compensationRetries) + 3)
  {
    if saga.steps[i].undo {
      var made := RunMakesItsAttempts(s.ledger, UndoRequest(saga, world, i, s.recs[i]), world.clock(i), budget);
    }
  }

  /** One turn of the pass over a listed step. */
  lemma UndoTurn(s: State, saga: Saga, world: World, todo: seq<nat>, failedStep: string, cause: Raise,
                 compensated: seq<string>, failures: seq<(string, Raise)>, budget: nat)
    returns (compensated': seq<string>, failures': seq<(string, Raise)>)
    requires todo != [] && todo[0] in s.recs && !UndoOne(s, saga, world, todo[0], budget).end.Crashed?
    ensures var u := UndoOne(s, saga, world, todo[0], budget);
            UndoAll(s, saga, world, todo, failedStep, cause, compensated, failures, budget)
            == UndoAll(u.state, saga, world, todo[1..], failedStep, cause, compensated', failures', u.left)
  {
    var u := UndoOne(s, saga, world, todo[0], budget);
    compensated', failures' := compensated, failures;
    match u.end
    case Got(_) => compensated' := compensated + [s.recs[todo[0]].name];
    case Threw(raise) => failures' := failures + [(s.recs[todo[0]].name, raise)];
  }

  lemma {:induction false} UndoAllSurvives(s: State, saga: Saga, world: World, n: nat, recs: map<nat, StepRecord>,
                                           failedStep: string, cause: Raise, compensated: seq<string>,
                                           failures: seq<(string, Raise)>, budget: nat, r: Result)
    requires n <= |saga.steps| && recs.Keys == s.recs.Keys && budget > UndoPrice(saga, n)
    requires r == UndoAll(s, saga, world, UndoOrder(recs, n), failedStep, cause, compensated, failures, budget)
    ensures !r.out.Died?
    decreases n
  {
    if n > 0 {
      if n - 1 in recs && ToUndo(recs[n - 1]) {
        var todo := UndoOrder(recs, n);
        var u := UndoOne(s, saga, world, n - 1, budget);
        assert todo[0] == n - 1 && todo[1..] == UndoOrder(recs, n - 1);
        UndoOneSurvives(s, saga, world, n - 1, budget);
        var compensated', failures' := UndoTurn(s, saga, world, todo, failedStep, cause, compensated, failures, budget);
        UndoAllSurvives(u.state, saga, world, n - 1, recs, failedStep, cause, compensated', failures', u.left, r);
      } else {
        assert UndoOrder(recs, n) == UndoOrder(recs, n - 1);
        UndoAllSurvives(s, saga, world, n - 1, recs, failedStep, cause, compensated, failures, budget, r);
      }
    }
  }

  lemma UndoPriceGrows(saga: Saga, n: nat)
    requires n <= |saga.steps|
    ensures UndoPrice(saga, n) <= UndoPrice(saga, |saga.steps|)
    decreases |saga.steps| - n
  {
    if n < |saga.steps| {
      UndoPriceGrows(saga, n + 1);
    }
  }

  lemma CompensateSurvives(s: State, saga: Saga, world: World, failedStep: string, cause: Raise, budget: nat, r: Result)
    requires |s.recs| <= |saga.steps| && budget >= UndoPrice(saga, |saga.steps|) + 2
    requires r == Compensate(s, saga, world, failedStep, cause, budget)
    ensures !r.out.Died?
  {
    var s1 := SetSagaStatus(s, SagaCompensating, Some(failedStep), Some(cause));
    UndoPriceGrows(saga, |s1.recs|);
    UndoAllSurvives(s1, saga, world, |s1.recs|, s1.recs, failedStep, cause, [], [], budget - 1, r);
  }

  lemma {:induction false} ForwardSurvives(s: State, saga: Saga, world: World, i: nat, outputs: map<string, Value>,
                                           budget: nat, r: Result)
    requires GoingForward(s, saga) && i <= |s.recs| && i <= |saga.steps|
    requires budget >= DoPrice(saga, i) + UndoPrice(saga, |saga.steps|) + 2
    requires r == Forward(s, saga, world, i, outputs, budget)
    ensures !r.out.Died?
    decreases |saga.steps| - i, 1
  {
    if i < |saga.steps| {
      var req := DoRequest(saga, world, i);
      var ran := Run(s.ledger, req, world.clock(i), budget);
      var made := RunMakesItsAttempts(s.ledger, req, world.clock(i), budget);
      ForwardStep(s, saga, world, i, budget);
      ReactSurvives(s, saga, world, i, outputs, ran, r);
    }
  }

  lemma {:induction false} ReactSurvives(s: State, saga: Saga, world: World, i: nat, outputs: map<string, Value>,
                                         ran: Ran, r: Result)
    requires i < |saga.steps| && Ready(s.(ledger := ran.ledger), saga, i, ran.end) && !ran.end.Crashed?
    requires |s.recs| <= |saga.steps| && ran.left >= DoPrice(saga, i + 1) + UndoPrice(saga, |saga.steps|) + 4
    requires r == React(s, saga, world, i, outputs, ran)
    ensures !r.out.Died?
    decreases |saga.steps| - i, 0
  {
    var s1 := s.(ledger := ran.ledger);
    match ran.end
    case Threw(raise) =>
      if !Pauses(raise) {
        CompensateSurvives(s1, saga, world, saga.steps[i].name, raise, ran.left, r);
      }
    case Got(v) =>
      var name := saga.steps[i].name;
      var s2 := SetCurrentStep(RecordStep(s1, i, StepRecord(name, StepSucceeded, v, None)), i + 1);
      ForwardSurvives(s2, saga, world, i + 1, outputs[name := v], ran.left - 2, r);
  }

  lemma BeginSurvives(s: State, saga: Saga, world: World, budget: nat, r: Result)
    requires Inv(s, saga) && s.saga.Some? && GoesForward(s) && budget >= Ample(saga) - 1
    requires r == Begin(s, saga, world, budget)
    ensures !r.out.Died?
  {
    var s1 := SetSagaStatus(s, SagaRunning, None, None);
    StatusBase(s, saga, SagaRunning, None, None);
    StatusQuiet(s, saga, SagaRunning, None, None);
    ForwardSurvives(s1, saga, world, 0, Collect(s1.recs, |s1.recs|), budget - 1, r);
  }

  /** With ample writes every call of a saga comes to an answer. */
  lemma AmpleCallsAnswer(saga: Saga, actions: seq<Action>, world: World, budget: nat)
    requires Legal(saga, actions) && budget >= Ample(saga)
    ensures !RunSaga(Reach(saga, actions), saga, world, budget).out.Died?
  {
    ReachFine(saga, actions);
    CallSurvives(Reach(saga, actions), saga, world, budget, RunSaga(Reach(saga, actions), saga, world, budget));
  }

  lemma CallSurvives(s: State, saga: Saga, world: World, budget: nat, r: Result)
    requires Inv(s, saga) && budget >= Ample(saga) && r == RunSaga(s, saga, world, budget)
    ensures !r.out.Died?
  {
    match s.saga
    case None =>
      CreatedInv(s, saga);
      BeginSurvives(s.(saga := Some(SagaRecord(SagaRunning, 0, None, None))), saga, world, budget - 1, r);
    case Some(rec) =>
      if GoesForward(s) {
        BeginSurvives(s, saga, world, budget, r);
      } else if rec.status in {SagaCompensating, SagaCompensationFailed} {
        CompensateSurvives(s, saga, world, StepOr(rec.failedStep), CauseOr(rec.error, "resumed rollback"), budget, r);
      }
  }
}
