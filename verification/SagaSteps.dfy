/** What happens to one step of a saga is what run() does with a request made from its
    definition. */
module SagaSteps {
  import opened Prelude
  import opened ActionLedger
  import opened RunSpec
  import opened RunTheorems
  import opened RunAnswers
  import opened SagaSpec
  import opened SagaTheorems
  import opened SagaGuarantees
  import opened SagaProgress

  /** The row and the calls of a key are as they were. */
  ghost predicate KeyKept(l: Ledger, l': Ledger, key: Key) {
    RowOf(l', key) == RowOf(l, key) && CallsOf(l'.log, key) == CallsOf(l.log, key)
  }

  lemma {:induction false} CallsFrame(log: seq<Entry>, log': seq<Entry>, key: Key, other: Key)
    requires log <= log' && other != key
    requires forall j :: |log| <= j < |log'| ==> log'[j].key == key
    ensures CallsOf(log', other) == CallsOf(log, other)
    decreases |log'|
  {
    if |log'| == |log| {
      assert log' == log;
    } else {
      CallsFrame(log, log'[..|log'| - 1], key, other);
    }
  }

  lemma RunKeepsOthers(l: Ledger, req: Request, now: int, budget: nat, key: Key)
    requires key != req.key
    ensures KeyKept(l, Run(l, req, now, budget).ledger, key)
  {
    RunSettles(l, req, now, budget);
    CallsFrame(l.log, Run(l, req, now, budget).ledger.log, req.key, key);
  }

  lemma {:induction false} UndoAllKeepsKey(s: State, saga: Saga, world: World, todo: seq<nat>, failedStep: string,
                                           cause: Raise, compensated: seq<string>, failures: seq<(string, Raise)>,
                                           budget: nat, key: Key)
    requires Named(s, saga) && forall k :: k in todo && k < |saga.steps| ==> key != UndoKey(saga, k, saga.steps[k].name)
    ensures var r := UndoAll(s, saga, world, todo, failedStep, cause, compensated, failures, budget);
            KeyKept(s.ledger, r.state.ledger, key)
    decreases |todo|
  {
    if todo != [] {
      assert forall k :: k in todo[1..] ==> k in todo;
      if todo[0] !in s.recs {
        UndoAllKeepsKey(s, saga, world, todo[1..], failedStep, cause, compensated, failures, budget, key);
      } else {
        var u := UndoOne(s, saga, world, todo[0], budget);
        UndoOneKeepsKey(s, saga, world, todo[0], budget, key);
        if !u.end.Crashed? {
          var compensated', failures' := UndoTurn(s, saga, world, todo, failedStep, cause, compensated,
                                                  failures, budget);
          UndoAllKeepsKey(u.state, saga, world, todo[1..], failedStep, cause, compensated', failures', u.left, key);
        }
      }
    }
  }

  lemma UndoOneKeepsKey(s: State, saga: Saga, world: World, i: nat, budget: nat, key: Key)
    requires Named(s, saga) && i in s.recs && key != UndoKey(saga, i, saga.steps[i].name)
    ensures var u := UndoOne(s, saga, world, i, budget);
            KeyKept(s.ledger, u.state.ledger, key) && Named(u.state, saga) && u.state.recs.Keys == s.recs.Keys
  {
    UndoOneLeaves(s, saga, world, i, budget, i);
    if saga.steps[i].undo {
      RunKeepsOthers(s.ledger, UndoRequest(saga, world, i, s.recs[i]), world.clock(i), budget, key);
    }
  }

  lemma CompensateKeepsKey(s: State, saga: Saga, world: World, failedStep: string, cause: Raise, budget: nat, m: nat,
                           r: Result)
    requires Named(s, saga) && m < |saga.steps| && r == Compensate(s, saga, world, failedStep, cause, budget)
    ensures KeyKept(s.ledger, r.state.ledger, DoKey(saga, m))
  {
    if budget > 0 {
      var s1 := SetSagaStatus(s, SagaCompensating, Some(failedStep), Some(cause));
      forall k: nat | k < |saga.steps| ensures DoKey(saga, m) != UndoKey(saga, k, saga.steps[k].name) {
        KeysApart(saga, m, k);
      }
      UndoAllKeepsKey(s1, saga, world, UndoOrder(s1.recs, |s1.recs|), failedStep, cause, [], [], budget - 1,
                      DoKey(saga, m));
    }
  }

  /** Later steps, and whatever follows them, leave step m's row and calls alone. */
  lemma {:induction false} ForwardKeepsKey(s: State, saga: Saga, world: World, i: nat, outputs: map<string, Value>,
                                           budget: nat, m: nat, r: Result)
    requires GoingForward(s, saga) && m < i <= |s.recs| && m < |saga.steps|
    requires r == Forward(s, saga, world, i, outputs, budget)
    ensures KeyKept(s.ledger, r.state.ledger, DoKey(saga, m))
    decreases |saga.steps| - i, 1
  {
    if i < |saga.steps| {
      var req := DoRequest(saga, world, i);
      var ran := Run(s.ledger, req, world.clock(i), budget);
      ForwardStep(s, saga, world, i, budget);
      KeysApart(saga, m, i);
      RunKeepsOthers(s.ledger, req, world.clock(i), budget, DoKey(saga, m));
      ReactKeepsKey(s, saga, world, i, outputs, ran, m, r);
    }
  }

  lemma {:induction false} ReactKeepsKey(s: State, saga: Saga, world: World, i: nat, outputs: map<string, Value>,
                                         ran: Ran, m: nat, r: Result)
    requires m <= i < |saga.steps| && Ready(s.(ledger := ran.ledger), saga, i, ran.end)
    requires r == React(s, saga, world, i, outputs, ran)
    ensures KeyKept(ran.ledger, r.state.ledger, DoKey(saga, m))
    decreases |saga.steps| - i, 0
  {
    var s1 := s.(ledger := ran.ledger);
    match ran.end
    case Crashed =>
    case Threw(raise) =>
      if !Pauses(raise) {
        BaseNamed(s1, saga);
        CompensateKeepsKey(s1, saga, world, saga.steps[i].name, raise, ran.left, m, r);
      }
    case Got(v) =>
      if ran.left > 1 {
        var name := saga.steps[i].name;
        var s2 := SetCurrentStep(RecordStep(s1, i, StepRecord(name, StepSucceeded, v, None)), i + 1);
        ForwardKeepsKey(s2, saga, world, i + 1, outputs[name := v], ran.left - 2, m, r);
      }
  }

  /** The request step m of the saga is defined by. */
  ghost predicate AsDefined(q: Request, saga: Saga, world: World, m: nat)
    requires m < |saga.steps|
  {
    var d := saga.steps[m];
    && q.key == Key("saga:" + saga.name + ":" + d.name, SagaStep(saga.sagaId, m), Some(saga.scope))
    && q.cost == d.cost && q.retries == d.retries && q.policies == d.policies
    && forall k :: q.execute(k) == world.doStep(m, k)
  }

  /** What the call leaves of step m is what run() with request q, from ledger l, leaves. */
  ghost predicate RunAs(l: Ledger, q: Request, now: int, b: nat, end: Ledger) {
    && b >= Enough(q)
    && var ran := Run(l, q, now, b).ledger;
       RowOf(end, q.key) == RowOf(ran, q.key) && CallsOf(end.log, q.key) == CallsOf(ran.log, q.key)
  }

  /** The call ran step m of the saga as it is defined, on ledger l. */
  ghost predicate StepRan(l: Ledger, saga: Saga, world: World, m: nat, end: Ledger)
    requires m < |saga.steps|
  {
    exists q: Request, b: nat :: AsDefined(q, saga, world, m) && RunAs(l, q, world.clock(m), b, end)
  }

  /** A step already recorded costs a look at the ledger and two writes. */
  lemma SkipsRecorded(s: State, saga: Saga, world: World, i: nat, outputs: map<string, Value>, budget: nat, r: Result)
    returns (s2: State, outputs': map<string, Value>)
    requires GoingForward(s, saga) && i in s.recs && i < |saga.steps| && budget >= 2
    requires r == Forward(s, saga, world, i, outputs, budget)
    ensures GoingForward(s2, saga) && |s2.recs| == |s.recs| && s2.ledger == s.ledger
    ensures r == Forward(s2, saga, world, i + 1, outputs', budget - 2)
  {
    assert StepOk(s, saga, i);
    var v := s.recs[i].output;
    AdvanceKeeps(s, saga, i, v);
    var s1 := RecordStep(s, i, StepRecord(saga.steps[i].name, StepSucceeded, v, None));
    assert s1.recs.Keys == s.recs.Keys;
    s2, outputs' := SetCurrentStep(s1, i + 1), outputs[saga.steps[i].name := v];
    assert Run(s.ledger, DoRequest(saga, world, i), world.clock(i), budget) == Ran(s.ledger, Got(v), budget);
    assert s.(ledger := s.ledger) == s;
  }

  /** The pass stands at step i with the ledger l, n steps recorded, and ends as r. */
  ghost predicate Passing(s: State, saga: Saga, world: World, i: nat, outputs: map<string, Value>, budget: nat,
                          l: Ledger, n: nat, r: Result) {
    && GoingForward(s, saga) && |s.recs| == n && s.ledger == l && i <= n < |saga.steps| && budget >= DoPrice(saga, i)
    && r == Forward(s, saga, world, i, outputs, budget)
  }

  lemma PassesRecorded(s: State, saga: Saga, world: World, i: nat, outputs: map<string, Value>, budget: nat,
                       l: Ledger, n: nat, r: Result)
    returns (s2: State, outputs': map<string, Value>)
    requires Passing(s, saga, world, i, outputs, budget, l, n, r) && i < n
    ensures budget >= 2 && Passing(s2, saga, world, i + 1, outputs', budget - 2, l, n, r)
  {
    s2, outputs' := SkipsRecorded(s, saga, world, i, outputs, budget, r);
  }

  /** The pass gets to the first unrecorded step with the ledger as it found it. */
  lemma {:induction false} PassesAll(s: State, saga: Saga, world: World, i: nat, outputs: map<string, Value>,
                                     budget: nat, l: Ledger, n: nat, r: Result)
    returns (end: State, outputs': map<string, Value>, left: nat)
    requires i <= n && Passing(s, saga, world, i, outputs, budget, l, n, r)
    ensures Passing(end, saga, world, n, outputs', left, l, n, r)
    decreases n - i
  {
    if i < n {
      var next, more := PassesRecorded(s, saga, world, i, outputs, budget, l, n, r);
      end, outputs', left := PassesAll(next, saga, world, i + 1, more, budget - 2, l, n, r);
    } else {
      end, outputs', left := s, outputs, budget;
    }
  }

  lemma RunsNext(s: State, saga: Saga, world: World, outputs: map<string, Value>, budget: nat, r: Result)
    requires GoingForward(s, saga) && |s.recs| < |saga.steps| && budget >= DoPrice(saga, |s.recs|)
    requires r == Forward(s, saga, world, |s.recs|, outputs, budget)
    ensures StepRan(s.ledger, saga, world, |s.recs|, r.state.ledger)
  {
    var m := |s.recs|;
    var q := DoRequest(saga, world, m);
    var ran := Run(s.ledger, q, world.clock(m), budget);
    ForwardStep(s, saga, world, m, budget);
    ReactKeepsKey(s, saga, world, m, outputs, ran, m, r);
    assert AsDefined(q, saga, world, m);
    assert RunAs(s.ledger, q, world.clock(m), budget, r.state.ledger);
  }

  /** A call that goes forward runs the first unrecorded step as it is defined: under its
      own key, with its own cost, retries, policies and function, on the ledger as the call
      found it.  What run() does is then what happens to it. */
  lemma NextStepIsRun(saga: Saga, actions: seq<Action>, world: World, budget: nat)
    requires Legal(saga, actions) && budget >= Ample(saga)
    requires GoesForward(Reach(saga, actions)) && |Reach(saga, actions).recs| < |saga.steps|
    ensures var s := Reach(saga, actions);
            var r := RunSaga(s, saga, world, budget);
            StepRan(s.ledger, saga, world, |s.recs|, r.state.ledger)
  {
    ReachFine(saga, actions);
    var s := Reach(saga, actions);
    var r := RunSaga(s, saga, world, budget);
    if s.saga.None? {
      CreatedInv(s, saga);
      BeginReachesNext(s.(saga := Some(SagaRecord(SagaRunning, 0, None, None))), saga, world, budget - 1, r);
    } else {
      BeginReachesNext(s, saga, world, budget, r);
    }
  }

  lemma BeginReachesNext(s: State, saga: Saga, world: World, budget: nat, r: Result)
    requires Inv(s, saga) && s.saga.Some? && GoesForward(s) && |s.recs| < |saga.steps| && budget >= Ample(saga) - 1
    requires r == Begin(s, saga, world, budget)
    ensures StepRan(s.ledger, saga, world, |s.recs|, r.state.ledger)
  {
    var s1 := SetSagaStatus(s, SagaRunning, None, None);
    StatusBase(s, saga, SagaRunning, None, None);
    StatusQuiet(s, saga, SagaRunning, None, None);
    PassReachesNext(s1, saga, world, Collect(s1.recs, |s1.recs|), budget - 1, r);
  }

  lemma PassReachesNext(s: State, saga: Saga, world: World, outputs: map<string, Value>, budget: nat, r: Result)
    requires GoingForward(s, saga) && |s.recs| < |saga.steps| && budget >= DoPrice(saga, 0)
    requires r == Forward(s, saga, world, 0, outputs, budget)
    ensures StepRan(s.ledger, saga, world, |s.recs|, r.state.ledger)
  {
    var end, more, left := PassesAll(s, saga, world, 0, outputs, budget, s.ledger, |s.recs|, r);
    RunsNext(end, saga, world, more, left, r);
  }

  /** The request step i is undone by: no policies, no cost, and what undo returns is dropped. */
  ghost predicate UndoneAs(q: Request, saga: Saga, world: World, i: nat, output: Value)
    requires i < |saga.steps|
  {
    var d := saga.steps[i];
    && q.key == Key("saga:" + saga.name + ":" + d.name + ":undo", SagaStep(saga.sagaId, i), Some(saga.scope))
    && q.cost == 0.0 && q.retries == d.compensationRetries && q.policies == [] && q.given == output
    && forall k :: q.execute(k) == if world.undoStep(i, k).Gave? then Gave(Undefined) else world.undoStep(i, k)
  }

  /** Step i is undone by such a run, from a ledger that held of it what l holds. */
  ghost predicate UndoRan(l: Ledger, saga: Saga, world: World, i: nat, output: Value, end: Ledger)
    requires i < |saga.steps|
  {
    exists l0: Ledger, q: Request, b: nat ::
      && UndoneAs(q, saga, world, i, output) && KeyKept(l, l0, q.key)
      && RunsTo(l0, q, world.clock(i), b, end)
  }

  ghost predicate RunsTo(l0: Ledger, q: Request, now: int, b: nat, end: Ledger) {
    KeyKept(Run(l0, q, now, b).ledger, end, q.key)
  }

  lemma UndoRanLater(l: Ledger, l1: Ledger, saga: Saga, world: World, i: nat, output: Value, end: Ledger)
    requires i < |saga.steps| && UndoRan(l1, saga, world, i, output, end)
    requires KeyKept(l, l1, UndoKey(saga, i, saga.steps[i].name))
    ensures UndoRan(l, saga, world, i, output, end)
  {
    var l0: Ledger, q: Request, b: nat :| && UndoneAs(q, saga, world, i, output) && KeyKept(l1, l0, q.key)
                                          && RunsTo(l0, q, world.clock(i), b, end);
    assert q.key == UndoKey(saga, i, saga.steps[i].name);
    assert KeyKept(l, l0, q.key);
  }

  lemma UndoOneRan(s: State, saga: Saga, world: World, i: nat, budget: nat, end: Ledger)
    requires Named(s, saga) && i in s.recs && saga.steps[i].undo
    requires KeyKept(UndoOne(s, saga, world, i, budget).state.ledger, end, UndoKey(saga, i, saga.steps[i].name))
    ensures UndoRan(s.ledger, saga, world, i, s.recs[i].output, end)
  {
    var q := UndoRequest(saga, world, i, s.recs[i]);
    assert UndoneAs(q, saga, world, i, s.recs[i].output);
    assert KeyKept(s.ledger, s.ledger, q.key) && RunsTo(s.ledger, q, world.clock(i), budget, end);
  }

  lemma {:induction false} UndoAllRan(s: State, saga: Saga, world: World, todo: seq<nat>, failedStep: string,
                                      cause: Raise, compensated: seq<string>, failures: seq<(string, Raise)>,
                                      budget: nat, i: nat, r: Result)
    requires Named(s, saga) && Descending(todo) && (forall k :: k in todo ==> k in s.recs)
    requires i in todo && i < |saga.steps| && saga.steps[i].undo
    requires r == UndoAll(s, saga, world, todo, failedStep, cause, compensated, failures, budget) && !r.out.Died?
    ensures UndoRan(s.ledger, saga, world, i, s.recs[i].output, r.state.ledger)
    decreases |todo|
  {
    var j, key := todo[0], UndoKey(saga, i, saga.steps[i].name);
    var u := UndoOne(s, saga, world, j, budget);
    assert Descending(todo[1..]) && forall k :: k in todo[1..] ==> k in todo && k < j;
    UndoOneLeaves(s, saga, world, j, budget, j);
    UndoOneRecords(s, saga, world, j, budget);
    var compensated', failures' := UndoTurn(s, saga, world, todo, failedStep, cause, compensated, failures, budget);
    forall k: nat | k < |saga.steps| && k != i ensures key != UndoKey(saga, k, saga.steps[k].name) {
      KeysApart(saga, i, k);
    }
    if j == i {
      UndoAllKeepsKey(u.state, saga, world, todo[1..], failedStep, cause, compensated', failures', u.left, key);
      UndoOneRan(s, saga, world, i, budget, r.state.ledger);
    } else {
      UndoOneKeepsKey(s, saga, world, j, budget, key);
      UndoAllRan(u.state, saga, world, todo[1..], failedStep, cause, compensated', failures', u.left, i, r);
      UndoRanLater(s.ledger, u.state.ledger, saga, world, i, s.recs[i].output, r.state.ledger);
    }
  }

  /** A rollback that does not die runs the undo of every step that was committed or stuck
      as it is defined: under its own key, handed the recorded output, with the step's
      compensation retries and no policies. */
  lemma EveryUndoIsRun(s: State, saga: Saga, world: World, failedStep: string, cause: Raise, budget: nat, i: nat)
    requires Named(s, saga) && Prefix(s.recs) && i in s.recs && ToUndo(s.recs[i]) && saga.steps[i].undo
    requires !Compensate(s, saga, world, failedStep, cause, budget).out.Died?
    ensures UndoRan(s.ledger, saga, world, i, s.recs[i].output,
                    Compensate(s, saga, world, failedStep, cause, budget).state.ledger)
  {
    CompensateRan(s, saga, world, failedStep, cause, budget, i, Compensate(s, saga, world, failedStep, cause, budget));
  }

  lemma CompensateRan(s: State, saga: Saga, world: World, failedStep: string, cause: Raise, budget: nat, i: nat,
                      r: Result)
    requires Named(s, saga) && Prefix(s.recs) && i in s.recs && ToUndo(s.recs[i]) && saga.steps[i].undo
    requires r == Compensate(s, saga, world, failedStep, cause, budget) && !r.out.Died?
    ensures UndoRan(s.ledger, saga, world, i, s.recs[i].output, r.state.ledger)
  {
    var s1 := SetSagaStatus(s, SagaCompensating, Some(failedStep), Some(cause));
    var todo := UndoOrder(s1.recs, |s1.recs|);
    CompensateIs(s, s1, saga, world, todo, failedStep, cause, budget);
    PassRan(s1, saga, world, todo, failedStep, cause, budget - 1, i, r);
  }

  lemma PassRan(s: State, saga: Saga, world: World, todo: seq<nat>, failedStep: string, cause: Raise, budget: nat,
                i: nat, r: Result)
    requires Named(s, saga) && Prefix(s.recs) && i in s.recs && ToUndo(s.recs[i]) && saga.steps[i].undo
    requires todo == UndoOrder(s.recs, |s.recs|)
    requires r == UndoAll(s, saga, world, todo, failedStep, cause, [], [], budget) && !r.out.Died?
    ensures UndoRan(s.ledger, saga, world, i, s.recs[i].output, r.state.ledger)
  {
    assert Descending(todo) && i in todo && forall k :: k in todo ==> k in s.recs by {
      UndoOrderIs(s.recs, |s.recs|);
    }
    UndoAllRan(s, saga, world, todo, failedStep, cause, [], [], budget, i, r);
  }
}
