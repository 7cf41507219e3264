/** The coordinator itself: loops over the two in-memory stores. */
module SagaRunner {
  import opened Prelude
  import opened ActionLedger
  import opened LedgerStore
  import opened RunSpec
  import Runner
  import opened SagaSpec
  import opened SagaStore
  import opened SagaTheorems
  import opened Sorting

  /** With contiguous records, the listing is the records in order. */
  lemma {:induction false} ListsAll(out: seq<(nat, StepRecord)>, recs: map<nat, StepRecord>, n: nat)
    requires Lists(out, recs) && Prefix(recs) && n <= |recs|
    ensures |out| == |recs|
    ensures forall i :: 0 <= i < n ==> out[i] == (i, recs[i])
  {
    var keys := set a | 0 <= a < |out| :: out[a].0;
    assert forall i :: i in recs ==> i in keys by {
      forall i | i in recs ensures i in keys {
        var a :| 0 <= a < |out| && out[a] == (i, recs[i]);
      }
    }
    assert keys == recs.Keys;
    Distinct(out, |out|);
    assert keys == FirstKeys(out, |out|);
    forall i | 0 <= i < n ensures out[i] == (i, recs[i]) {
      IndexIs(out, recs, i);
    }
  }

  function FirstKeys(out: seq<(nat, StepRecord)>, n: nat): set<nat>
    requires n <= |out|
  {
    set a | 0 <= a < n :: out[a].0
  }

  lemma {:induction false} Distinct(out: seq<(nat, StepRecord)>, n: nat)
    requires n <= |out| && forall a, b :: 0 <= a < b < |out| ==> out[a].0 < out[b].0
    ensures |FirstKeys(out, n)| == n
  {
    if n > 0 {
      Distinct(out, n - 1);
      assert FirstKeys(out, n) == FirstKeys(out, n - 1) + {out[n - 1].0};
    }
  }

  lemma {:induction false} IndexIs(out: seq<(nat, StepRecord)>, recs: map<nat, StepRecord>, i: nat)
    requires Lists(out, recs) && Prefix(recs) && i < |out|
    ensures i in recs && out[i] == (i, recs[i])
  {
    if i > 0 {
      IndexIs(out, recs, i - 1);
    }
    assert out[i].0 in recs;
    assert i in recs;
    var a :| 0 <= a < |out| && out[a] == (i, recs[i]);
    if a < i {
      IndexIs(out, recs, a);
    }
  }

  function Indices(todo: seq<(nat, StepRecord)>): (r: seq<nat>)
    ensures |r| == |todo|
    ensures forall x :: 0 <= x < |r| ==> r[x] == todo[x].0
  {
    seq(|todo|, x requires 0 <= x < |todo| => todo[x].0)
  }

  /** Those still to undo, latest first. */
  method Undoable(list: seq<(nat, StepRecord)>, ghost recs: map<nat, StepRecord>) returns (todo: seq<(nat, StepRecord)>)
    requires forall i :: 0 <= i < |list| ==> i in recs && list[i] == (i, recs[i])
    ensures Indices(todo) == UndoOrder(recs, |list|)
    ensures forall x :: 0 <= x < |todo| ==> todo[x] in list
  {
    todo := [];
    for i := 0 to |list|
      invariant Indices(todo) == UndoOrder(recs, i)
      invariant forall x :: 0 <= x < |todo| ==> todo[x] in list && todo[x].0 < i
    {
      if ToUndo(list[i].1) {
        InsertFirst(todo, list[i]);
        todo := Insert(todo, list[i], Later);
      }
    }
  }

  lemma InsertFirst(todo: seq<(nat, StepRecord)>, x: (nat, StepRecord))
    requires forall k :: 0 <= k < |todo| ==> todo[k].0 < x.0
    ensures Insert(todo, x, Later) == [x] + todo
    ensures Indices([x] + todo) == [x.0] + Indices(todo)
  {
    assert todo == [] || Later(x, todo[0]);
    var a, b := Indices([x] + todo), [x.0] + Indices(todo);
    assert |a| == |b|;
    assert forall k :: 0 <= k < |a| ==> a[k] == b[k];
  }

  /** A step that has committed is recorded, and the saga moves on. */
  function Recorded(s1: State, saga: Saga, i: nat, v: Value, budget: nat): Stage
    requires i < |saga.steps|
  {
    var s2 := RecordStep(s1, i, StepRecord(saga.steps[i].name, StepSucceeded, v, None));
    if budget == 0 then Stage(s1, Crashed, 0)
    else if budget == 1 then Stage(s2, Crashed, 0)
    else Stage(SetCurrentStep(s2, i + 1), Got(v), budget - 2)
  }

  /** What one step of the forward pass leaves. */
  ghost function Stepped(s: State, saga: Saga, world: World, i: nat, budget: nat): Stage
    requires i < |saga.steps|
  {
    var r := RunSpec.Run(s.ledger, DoRequest(saga, world, i), world.clock(i), budget);
    var s1 := s.(ledger := r.ledger);
    match r.end
    case Crashed => Stage(s1, Crashed, 0)
    case Threw(_) => Stage(s1, r.end, r.left)
    case Got(v) => Recorded(s1, saga, i, v, r.left)
  }

  /** What follows once step i has gone as it did. */
  ghost function AfterStep(s: State, saga: Saga, world: World, i: nat, outputs: map<string, Value>, end: End,
                           left: nat): Result
    requires i < |saga.steps|
  {
    match end
    case Crashed => Result(s, Died, 0)
    case Got(v) => SagaSpec.Forward(s, saga, world, i + 1, outputs[saga.steps[i].name := v], left)
    case Threw(raise) =>
      if Pauses(raise) then Pause(s, i, saga.steps[i].name, raise, left)
      else SagaSpec.Compensate(s, saga, world, saga.steps[i].name, raise, left)
  }

  lemma SteppedReacts(s: State, s': State, saga: Saga, world: World, i: nat, outputs: map<string, Value>, budget: nat,
                      end: End, left: nat)
    requires i < |saga.steps| && Stage(s', end, left) == Stepped(s, saga, world, i, budget)
    ensures SagaSpec.Forward(s, saga, world, i, outputs, budget) == AfterStep(s', saga, world, i, outputs, end, left)
  {
  }

  lemma UndoAllStep(s: State, saga: Saga, world: World, todo: seq<(nat, StepRecord)>, k: nat, failedStep: string,
                    cause: Raise, compensated: seq<string>, failures: seq<(string, Raise)>, budget: nat)
    requires k < |todo| && todo[k].0 in s.recs && s.recs[todo[k].0].name == todo[k].1.name
    ensures UndoAll(s, saga, world, Indices(todo)[k..], failedStep, cause, compensated, failures, budget)
         == var u := UndoOne(s, saga, world, todo[k].0, budget);
            match u.end
            case Crashed => Result(u.state, Died, 0)
            case Got(_) =>
              UndoAll(u.state, saga, world, Indices(todo)[k + 1..], failedStep, cause, compensated
                + [todo[k].1.name], failures, u.left)
            case Threw(raise) =>
              UndoAll(u.state, saga, world, Indices(todo)[k + 1..], failedStep, cause, compensated, failures
                + [(todo[k].1.name, raise)], u.left)
  {
    assert Indices(todo)[k..][1..] == Indices(todo)[k + 1..];
  }

  lemma BeginIs(s: State, saga: Saga, world: World, budget: nat)
    ensures Begin(s, saga, world, budget)
         == if budget == 0 then Result(s, Died, 0)
            else SagaSpec.Forward(SetSagaStatus(s, SagaRunning, None, None), saga, world, 0,
                                  Collect(s.recs, |s.recs|), budget - 1)
  {
  }

  lemma ForwardEnds(s: State, saga: Saga, world: World, outputs: map<string, Value>, budget: nat)
    ensures SagaSpec.Forward(s, saga, world, |saga.steps|, outputs, budget)
         == if budget == 0 then Result(s, Died, 0)
            else Result(SetSagaStatus(s, SagaSucceeded, None, None), Completed(outputs), budget - 1)
  {
  }

  lemma PrefixGrows(recs: map<nat, StepRecord>, i: nat, rec: StepRecord)
    requires Prefix(recs) && i <= |recs|
    ensures var recs' := recs[i := rec];
            Prefix(recs') && |recs'| == if i < |recs| then |recs| else i + 1
  {
    var recs' := recs[i := rec];
    if i < |recs| {
      assert recs'.Keys == recs.Keys;
    } else {
      assert i !in recs;
    }
  }

  class SagaCoordinator {
    const name: string
    const ledger: InMemoryLedger
    const store: InMemorySagaStore
    var steps: seq<StepDef>

    constructor (name: string, ledger: InMemoryLedger, store: InMemorySagaStore)
      ensures this.name == name && this.ledger == ledger && this.store == store && steps == []
    {
      this.name := name;
      this.ledger := ledger;
      this.store := store;
      steps := [];
    }

    method Step(def: StepDef)
      modifies this
      ensures steps == old(steps) + [def]
    {
      steps := steps + [def];
    }

    function Def(id: string, scope: string): Saga
      reads this
    {
      Saga(name, id, scope, steps)
    }

    /** Both halves of one saga's state. */
    ghost function Now(id: string): State
      reads store, ledger
    {
      store.View(id).(ledger := ledger.State())
    }

    ghost predicate Contiguous(id: string)
      reads store
    {
      Prefix(store.View(id).recs)
    }

    method CollectOutputs(id: string) returns (outputs: map<string, Value>)
      requires Contiguous(id)
      ensures outputs == Collect(store.View(id).recs, |store.View(id).recs|)
    {
      var list := store.GetSteps(id);
      ghost var recs := store.View(id).recs;
      ListsAll(list, recs, |recs|);
      outputs := map[];
      for i := 0 to |list|
        invariant outputs == Collect(recs, i)
      {
        outputs := outputs[list[i].1.name := list[i].1.output];
      }
    }

    method CompensatedSteps(id: string) returns (names: seq<string>)
      requires Contiguous(id)
      ensures names == CompensatedNames(store.View(id).recs, |store.View(id).recs|)
    {
      var list := store.GetSteps(id);
      ghost var recs := store.View(id).recs;
      ListsAll(list, recs, |recs|);
      names := [];
      for i := 0 to |list|
        invariant names == CompensatedNames(recs, i)
      {
        if list[i].1.status == StepCompensated {
          names := names + [list[i].1.name];
        }
      }
    }

    method Run(id: string, scopeOption: Option<string>, world: World, budget: nat) returns (out: Answer, left: nat)
      requires Contiguous(id)
      modifies ledger, store
      ensures var scope := if scopeOption.Some? then scopeOption.value else id;
              Result(Now(id), out, left) == RunSaga(old(Now(id)), old(Def(id, scope)), world, budget)
      ensures Contiguous(id)
      ensures forall other :: other != id ==> store.View(other) == old(store.View(other))
    {
      var scope := if scopeOption.Some? then scopeOption.value else id;
      var existing := store.GetSaga(id);
      if existing.None? {
        if budget == 0 {
          return Died, 0;
        }
        existing := store.CreateSaga(id);
        out, left := Forward(id, scope, world, budget - 1);
        return;
      }
      out, left := Continue(id, scope, world, existing.value, budget);
    }

    /** An existing saga: go on from its persisted status. */
    method Continue(id: string, scope: string, world: World, s: SagaRecord, budget: nat)
      returns (out: Answer, left: nat)
      requires Contiguous(id) && store.View(id).saga == Some(s)
      modifies ledger, store
      ensures Result(Now(id), out, left) == RunSaga(old(Now(id)), old(Def(id, scope)), world, budget)
      ensures Contiguous(id)
      ensures forall other :: other != id ==> store.View(other) == old(store.View(other))
    {
      match s.status {
        case SagaSucceeded =>
          var outputs := CollectOutputs(id);
          return Completed(outputs), budget;
        case SagaCompensated =>
          var names := CompensatedSteps(id);
          return Aborted(StepOr(s.failedStep), CauseOr(s.error, "previously aborted"), names), budget;
        case SagaCompensating =>
          out, left := Compensate(id, scope, world, StepOr(s.failedStep), CauseOr(s.error, "resumed rollback"), budget);
        case SagaCompensationFailed =>
          out, left := Compensate(id, scope, world, StepOr(s.failedStep), CauseOr(s.error, "resumed rollback"), budget);
        case SagaRunning => out, left := Forward(id, scope, world, budget);
        case SagaAwaitingStep => out, left := Forward(id, scope, world, budget);
      }
    }

    method Forward(id: string, scope: string, world: World, budget: nat) returns (out: Answer, left: nat)
      requires Contiguous(id)
      modifies ledger, store
      ensures Result(Now(id), out, left) == Begin(old(Now(id)), old(Def(id, scope)), world, budget)
      ensures Contiguous(id)
      ensures forall other :: other != id ==> store.View(other) == old(store.View(other))
    {
      BeginIs(Now(id), Def(id, scope), world, budget);
      if budget == 0 {
        return Died, 0;
      }
      out, left := Pass(id, scope, world, budget - 1, Now(id), Def(id, scope));
    }

    /** The forward pass, from marking the saga running on. */
    method Pass(id: string, scope: string, world: World, budget: nat, ghost s: State, ghost saga: Saga)
      returns (out: Answer, left: nat)
      requires Contiguous(id) && s == Now(id) && saga == Def(id, scope)
      modifies ledger, store
      ensures Result(Now(id), out, left)
           == SagaSpec.Forward(SetSagaStatus(s, SagaRunning, None, None), saga, world, 0, Collect(s.recs, |s.recs|),
                budget)
      ensures Contiguous(id)
      ensures forall other :: other != id ==> store.View(other) == old(store.View(other))
    {
      var outputs := Enter(id);
      out, left := Drive(id, scope, world, outputs, budget, SetSagaStatus(s, SagaRunning, None, None), saga);
    }

    /** Mark the saga running and load the recorded outputs. */
    method Enter(id: string) returns (outputs: map<string, Value>)
      requires Contiguous(id)
      modifies store
      ensures Now(id) == SetSagaStatus(old(Now(id)), SagaRunning, None, None) && Contiguous(id)
      ensures outputs == Collect(old(Now(id)).recs, |old(Now(id)).recs|)
      ensures forall other :: other != id ==> store.View(other) == old(store.View(other))
    {
      store.SetSagaStatus(id, SagaRunning, None, None);
      outputs := CollectOutputs(id);
    }

    /** The forward pass over the state and the saga as they are. */
    method Drive(id: string, scope: string, world: World, recorded: map<string, Value>, budget: nat,
                 ghost s: State, ghost saga: Saga)
      returns (out: Answer, left: nat)
      requires Contiguous(id) && s == Now(id) && saga == Def(id, scope)
      modifies ledger, store
      ensures Result(Now(id), out, left) == SagaSpec.Forward(s, saga, world, 0, recorded, budget)
      ensures Contiguous(id)
      ensures forall other :: other != id ==> store.View(other) == old(store.View(other))
    {
      out, left := Loop(id, scope, world, recorded, budget,
        SagaSpec.Forward(Now(id), Def(id, scope), world, 0, recorded, budget));
    }

    /** The forward loop, which ends as promised. */
    method Loop(id: string, scope: string, world: World, recorded: map<string, Value>, budget: nat,
                ghost promised: Result)
      returns (out: Answer, left: nat)
      requires Contiguous(id)
      requires promised == SagaSpec.Forward(Now(id), Def(id, scope), world, 0, recorded, budget)
      modifies ledger, store
      ensures Result(Now(id), out, left) == promised
      ensures Contiguous(id)
      ensures forall other :: other != id ==> store.View(other) == old(store.View(other))
    {
      var outputs := recorded;
      left := budget;
      var i := 0;
      while i < |steps|
        invariant Contiguous(id) && i <= |steps| && i <= |store.View(id).recs|
        invariant SagaSpec.Forward(Now(id), Def(id, scope), world, i, outputs, left) == promised
        invariant forall other :: other != id ==> store.View(other) == old(store.View(other))
      {
        var step := steps[i];
        var end, rest := Advance(id, scope, world, i, outputs, left);
        if !end.Got? {
          out, left := Halt(id, scope, world, i, outputs, end, rest);
          return;
        }
        outputs, left := outputs[step.name := end.v], rest;
        i := i + 1;
      }
      ForwardEnds(Now(id), Def(id, scope), world, outputs, left);
      out, left := Succeed(id, outputs, left);
    }

    method Succeed(id: string, outputs: map<string, Value>, budget: nat) returns (out: Answer, left: nat)
      modifies store
      ensures Result(Now(id), out, left)
           == if budget == 0 then Result(old(Now(id)), Died, 0)
              else Result(SetSagaStatus(old(Now(id)), SagaSucceeded, None, None), Completed(outputs), budget - 1)
      ensures store.View(id).recs == old(store.View(id).recs)
      ensures forall other :: other != id ==> store.View(other) == old(store.View(other))
    {
      if budget == 0 {
        return Died, 0;
      }
      store.SetSagaStatus(id, SagaSucceeded, None, None);
      return Completed(outputs), budget - 1;
    }

    /** The pass does not go on from step i. */
    method Halt(id: string, scope: string, world: World, i: nat, ghost outputs: map<string, Value>, end: End,
                budget: nat)
      returns (out: Answer, left: nat)
      requires i < |steps| && Contiguous(id) && !end.Got?
      modifies ledger, store
      ensures Result(Now(id), out, left) == AfterStep(old(Now(id)), old(Def(id, scope)), world, i, outputs, end, budget)
      ensures Contiguous(id)
      ensures forall other :: other != id ==> store.View(other) == old(store.View(other))
    {
      if end.Crashed? {
        return Died, 0;
      }
      out, left := Fail(id, scope, world, i, end.raise, budget);
    }

    /** A step threw: pause on approval or a call in flight, otherwise roll back. */
    method Fail(id: string, scope: string, world: World, i: nat, raise: Raise, budget: nat)
      returns (out: Answer, left: nat)
      requires i < |steps| && Contiguous(id)
      modifies ledger, store
      ensures Result(Now(id), out, left)
           == if Pauses(raise) then Pause(old(Now(id)), i, steps[i].name, raise, budget)
              else SagaSpec.Compensate(old(Now(id)), old(Def(id, scope)), world, steps[i].name, raise, budget)
      ensures Contiguous(id)
      ensures forall other :: other != id ==> store.View(other) == old(store.View(other))
    {
      if Pauses(raise) {
        out, left := Park(id, i, steps[i].name, raise, budget);
      } else {
        out, left := Compensate(id, scope, world, steps[i].name, raise, budget);
      }
    }

    method Commit(id: string, i: nat, rec: StepRecord)
      requires Contiguous(id) && i <= |store.View(id).recs|
      modifies store
      ensures store.View(id) == RecordStep(old(store.View(id)), i, rec)
      ensures Contiguous(id) && i < |store.View(id).recs|
      ensures forall other :: other != id ==> store.View(other) == old(store.View(other))
    {
      PrefixGrows(store.View(id).recs, i, rec);
      store.RecordStep(id, i, rec);
    }

    /** Record a committed step and move on. */
    method Record(id: string, i: nat, v: Value, budget: nat, ghost scope: string) returns (end: End, left: nat)
      requires i < |steps| && Contiguous(id) && i <= |store.View(id).recs|
      modifies store
      ensures Stage(Now(id), end, left) == Recorded(old(Now(id)), old(Def(id, scope)), i, v, budget)
      ensures Contiguous(id)
      ensures end.Got? ==> i < |store.View(id).recs|
      ensures forall other :: other != id ==> store.View(other) == old(store.View(other))
    {
      if budget == 0 {
        return Crashed, 0;
      }
      Commit(id, i, StepRecord(steps[i].name, StepSucceeded, v, None));
      if budget == 1 {
        return Crashed, 0;
      }
      store.SetCurrentStep(id, i + 1);
      return Got(v), budget - 2;
    }

    /** Run one step, and once it has committed record it and move on. */
    method Attempt(id: string, scope: string, world: World, i: nat, budget: nat) returns (end: End, left: nat)
      requires i < |steps| && Contiguous(id) && i <= |store.View(id).recs|
      modifies ledger, store
      ensures Stage(Now(id), end, left) == Stepped(old(Now(id)), old(Def(id, scope)), world, i, budget)
      ensures Contiguous(id)
      ensures end.Got? ==> i < |store.View(id).recs|
      ensures forall other :: other != id ==> store.View(other) == old(store.View(other))
    {
      end, left := Runner.Run(ledger, DoRequest(Def(id, scope), world, i), world.clock(i), budget);
      match end {
        case Crashed => left := 0;
        case Threw(_) =>
        case Got(v) => end, left := Record(id, i, v, left, scope);
      }
    }

    /** The same, seen as one turn of the forward pass. */
    method Advance(id: string, scope: string, world: World, i: nat, ghost outputs: map<string, Value>, budget: nat)
      returns (end: End, left: nat)
      requires i < |steps| && Contiguous(id) && i <= |store.View(id).recs|
      modifies ledger, store
      ensures SagaSpec.Forward(old(Now(id)), old(Def(id, scope)), world, i, outputs, budget)
           == AfterStep(Now(id), Def(id, scope), world, i, outputs, end, left)
      ensures Contiguous(id)
      ensures end.Got? ==> i < |store.View(id).recs|
      ensures forall other :: other != id ==> store.View(other) == old(store.View(other))
    {
      end, left := Attempt(id, scope, world, i, budget);
      SteppedReacts(old(Now(id)), Now(id), Def(id, scope), world, i, outputs, budget, end, left);
    }

    method Park(id: string, i: nat, stepName: string, raise: Raise, budget: nat) returns (out: Answer, left: nat)
      modifies store
      ensures Result(Now(id), out, left) == Pause(old(Now(id)), i, stepName, raise, budget)
      ensures store.View(id).recs == old(store.View(id).recs)
      ensures forall other :: other != id ==> store.View(other) == old(store.View(other))
    {
      if budget == 0 {
        return Died, 0;
      }
      store.SetCurrentStep(id, i);
      if budget == 1 {
        return Died, 0;
      }
      store.SetSagaStatus(id, SagaAwaitingStep, Some(stepName), Some(raise));
      return Paused(raise), budget - 2;
    }

    method Compensate(id: string, scope: string, world: World, failedStep: string, cause: Raise, budget: nat)
      returns (out: Answer, left: nat)
      requires Contiguous(id)
      modifies ledger, store
      ensures Result(Now(id), out, left)
              == SagaSpec.Compensate(old(Now(id)), old(Def(id, scope)), world, failedStep, cause, budget)
      ensures Contiguous(id)
      ensures forall other :: other != id ==> store.View(other) == old(store.View(other))
    {
      if budget == 0 {
        return Died, 0;
      }
      ghost var promised := SagaSpec.Compensate(Now(id), Def(id, scope), world, failedStep, cause, budget);
      var todo := Turn(id, scope, world, failedStep, cause, budget, promised);
      out, left := Undo(id, scope, world, todo, failedStep, cause, budget - 1);
    }

    method Undo(id: string, scope: string, world: World, todo: seq<(nat, StepRecord)>, failedStep: string,
                cause: Raise, budget: nat)
      returns (out: Answer, left: nat)
      requires Listed(id, todo, 0) && Descending(Indices(todo))
      modifies ledger, store
      ensures Result(Now(id), out, left)
           == UndoAll(old(Now(id)), old(Def(id, scope)), world, Indices(todo), failedStep, cause, [], [], budget)
      ensures store.View(id).recs.Keys == old(store.View(id).recs.Keys)
      ensures forall other :: other != id ==> store.View(other) == old(store.View(other))
    {
      out, left := Rollback(id, scope, world, todo, failedStep, cause, budget,
                            UndoAll(Now(id), Def(id, scope), world, Indices(todo), failedStep, cause, [], [], budget));
    }

    /** Mark the saga compensating and load what there is to undo. */
    method Turn(id: string, ghost scope: string, ghost world: World, failedStep: string, cause: Raise,
                ghost budget: nat, ghost promised: Result)
      returns (todo: seq<(nat, StepRecord)>)
      requires Contiguous(id) && budget > 0
      requires promised == SagaSpec.Compensate(Now(id), Def(id, scope), world, failedStep, cause, budget)
      modifies store
      ensures promised == UndoAll(Now(id), Def(id, scope), world, Indices(todo), failedStep, cause, [], [], budget - 1)
      ensures Now(id) == SetSagaStatus(old(Now(id)), SagaCompensating, Some(failedStep), Some(cause)) && Contiguous(id)
      ensures Indices(todo) == UndoOrder(Now(id).recs, |Now(id).recs|) && Descending(Indices(todo))
      ensures Listed(id, todo, 0)
      ensures forall other :: other != id ==> store.View(other) == old(store.View(other))
    {
      store.SetSagaStatus(id, SagaCompensating, Some(failedStep), Some(cause));
      todo := Pick(id);
      CompensateIs(old(Now(id)), Now(id), Def(id, scope), world, Indices(todo), failedStep, cause, budget);
    }

    method Pick(id: string) returns (todo: seq<(nat, StepRecord)>)
      requires Contiguous(id)
      ensures Indices(todo) == UndoOrder(store.View(id).recs, |store.View(id).recs|) && Descending(Indices(todo))
      ensures Listed(id, todo, 0)
    {
      ghost var recs := store.View(id).recs;
      var list := store.GetSteps(id);
      ListsAll(list, recs, |recs|);
      todo := Undoable(list, recs);
      UndoOrderIs(recs, |recs|);
    }

    /** The records of the steps from k on are as listed. */
    ghost predicate Listed(id: string, todo: seq<(nat, StepRecord)>, k: nat)
      reads store
    {
      forall x :: k <= x < |todo| ==> todo[x].0 in store.View(id).recs && store.View(id).recs[todo[x].0] == todo[x].1
    }

    /** Undo the listed steps, then settle the saga; it ends as promised. */
    method Rollback(id: string, scope: string, world: World, todo: seq<(nat, StepRecord)>, failedStep: string,
                    cause: Raise, budget: nat, ghost promised: Result)
      returns (out: Answer, left: nat)
      requires Listed(id, todo, 0) && Descending(Indices(todo))
      requires promised == UndoAll(Now(id), Def(id, scope), world, Indices(todo), failedStep, cause, [], [], budget)
      modifies ledger, store
      ensures Result(Now(id), out, left) == promised
      ensures store.View(id).recs.Keys == old(store.View(id).recs.Keys)
      ensures forall other :: other != id ==> store.View(other) == old(store.View(other))
    {
      var died, compensated, failures, rest := UndoEach(id, scope, world, todo, failedStep, cause, budget, promised);
      if died || rest == 0 {
        return Died, 0;
      }
      if failures != [] {
        store.SetSagaStatus(id, SagaCompensationFailed, Some(failedStep), Some(cause));
        return CompensationError(failedStep, cause, failures), rest - 1;
      }
      store.SetSagaStatus(id, SagaCompensated, Some(failedStep), Some(cause));
      return Aborted(failedStep, cause, compensated), rest - 1;
    }

    /** Undo the listed steps in turn, whatever becomes of each. */
    method UndoEach(id: string, scope: string, world: World, todo: seq<(nat, StepRecord)>, ghost failedStep: string,
                    ghost cause: Raise, budget: nat, ghost promised: Result)
      returns (died: bool, compensated: seq<string>, failures: seq<(string, Raise)>, left: nat)
      requires Listed(id, todo, 0) && Descending(Indices(todo))
      requires promised == UndoAll(Now(id), Def(id, scope), world, Indices(todo), failedStep, cause, [], [], budget)
      modifies ledger, store
      ensures promised == if died then Result(Now(id), Died, 0)
                          else UndoAll(Now(id), Def(id, scope), world, [], failedStep, cause, compensated,
                            failures, left)
      ensures store.View(id).recs.Keys == old(store.View(id).recs.Keys)
      ensures forall other :: other != id ==> store.View(other) == old(store.View(other))
    {
      assert Indices(todo)[0..] == Indices(todo);
      died, compensated, failures, left := false, [], [], budget;
      for k := 0 to |todo|
        invariant Listed(id, todo, k) && store.View(id).recs.Keys == old(store.View(id).recs.Keys)
        invariant promised
                  == UndoAll(Now(id), Def(id, scope), world, Indices(todo)[k..], failedStep, cause, compensated,
                    failures, left)
        invariant forall other :: other != id ==> store.View(other) == old(store.View(other))
      {
        UndoAllStep(Now(id), Def(id, scope), world, todo, k, failedStep, cause, compensated, failures, left);
        var end, rest := UndoListed(id, scope, world, todo, k, left);
        match end {
          case Crashed => return true, compensated, failures, 0;
          case Got(_) => compensated := compensated + [todo[k].1.name];
          case Threw(raise) => failures := failures + [(todo[k].1.name, raise)];
        }
        left := rest;
      }
      assert Indices(todo)[|todo|..] == [];
    }

    method UndoListed(id: string, scope: string, world: World, todo: seq<(nat, StepRecord)>, k: nat, budget: nat)
      returns (end: End, left: nat)
      requires Listed(id, todo, k) && Descending(Indices(todo)) && k < |todo|
      modifies ledger, store
      ensures Stage(Now(id), end, left) == UndoOne(old(Now(id)), old(Def(id, scope)), world, todo[k].0, budget)
      ensures Listed(id, todo, k + 1) && store.View(id).recs.Keys == old(store.View(id).recs.Keys)
      ensures forall other :: other != id ==> store.View(other) == old(store.View(other))
    {
      assert forall x :: k < x < |todo| ==> Indices(todo)[k] > Indices(todo)[x];
      end, left := UndoStep(id, scope, world, todo[k].0, todo[k].1, budget);
    }

    method UndoStep(id: string, scope: string, world: World, i: nat, rec: StepRecord, budget: nat)
      returns (end: End, left: nat)
      requires i in store.View(id).recs && store.View(id).recs[i] == rec
      modifies ledger, store
      ensures Stage(Now(id), end, left) == UndoOne(old(Now(id)), old(Def(id, scope)), world, i, budget)
      ensures store.View(id).recs.Keys == old(store.View(id).recs.Keys)
      ensures forall k :: k != i && k in store.View(id).recs ==> store.View(id).recs[k] == old(store.View(id).recs)[k]
      ensures forall other :: other != id ==> store.View(other) == old(store.View(other))
    {
      if i >= |steps| || !steps[i].undo {
        if budget == 0 {
          return Crashed, 0;
        }
        store.RecordStep(id, i, rec.(status := StepCompensated));
        return Got(Undefined), budget - 1;
      }
      end, left := Runner.Run(ledger, UndoRequest(Def(id, scope), world, i, rec), world.clock(i), budget);
      if end.Crashed? || left == 0 {
        return Crashed, 0;
      }
      if end.Got? {
        store.RecordStep(id, i, rec.(status := StepCompensated));
      } else {
        store.RecordStep(id, i, rec.(status := StepCompensationFailed, error := Some(end.raise)));
      }
      left := left - 1;
    }
  }
}
