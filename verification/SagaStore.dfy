/** The in-memory saga store: sagas by id, step records by id and index. */
module SagaStore {
  import opened Prelude
  import opened ActionLedger
  import opened SagaSpec
  import opened Sorting

  predicate Later(a: (nat, StepRecord), b: (nat, StepRecord)) {
    a.0 >= b.0
  }

  predicate Sooner(a: (nat, StepRecord), b: (nat, StepRecord)) {
    a.0 <= b.0
  }

  /** The records in index order, each once. */
  ghost predicate Lists(out: seq<(nat, StepRecord)>, recs: map<nat, StepRecord>) {
    && (forall a, b :: 0 <= a < b < |out| ==> out[a].0 < out[b].0)
    && (forall a :: 0 <= a < |out| ==> out[a].0 in recs && recs[out[a].0] == out[a].1)
    && (forall i :: i in recs ==> (i, recs[i]) in out)
  }

  ghost function StepsOf(steps: map<(string, nat), StepRecord>, id: string): (r: map<nat, StepRecord>)
    ensures forall i: nat :: i in r <==> (id, i) in steps
    ensures forall i: nat :: i in r ==> r[i] == steps[(id, i)]
  {
    var indices := set k | k in steps && k.0 == id :: k.1;
    assert forall i: nat :: (id, i) in steps ==> (id, i).1 in indices;
    map i | i in indices :: steps[(id, i)]
  }

  lemma SameSteps(a: map<nat, StepRecord>, b: map<nat, StepRecord>)
    requires forall k: nat :: k in a <==> k in b
    requires forall k: nat :: k in a && k in b ==> a[k] == b[k]
    ensures a == b
  {
    assert a.Keys == b.Keys;
  }

  lemma StepsOfUpdate(steps: map<(string, nat), StepRecord>, id: string, i: nat, rec: StepRecord)
    ensures StepsOf(steps[(id, i) := rec], id) == StepsOf(steps, id)[i := rec]
    ensures forall other :: other != id ==> StepsOf(steps[(id, i) := rec], other) == StepsOf(steps, other)
  {
    var steps' := steps[(id, i) := rec];
    SameSteps(StepsOf(steps', id), StepsOf(steps, id)[i := rec]);
    forall other | other != id ensures StepsOf(steps', other) == StepsOf(steps, other) {
      SameSteps(StepsOf(steps', other), StepsOf(steps, other));
    }
  }

  class InMemorySagaStore {
    var sagas: map<string, SagaRecord>
    var steps: map<(string, nat), StepRecord>

    /** One saga's half of the state; the other half is in the ledger. */
    ghost function View(id: string): State
      reads this
    {
      State(if id in sagas then Some(sagas[id]) else None, StepsOf(steps, id), Empty)
    }

    constructor ()
      ensures forall id :: View(id) == State(None, map[], Empty)
    {
      sagas := map[];
      steps := map[];
      new;
      forall id ensures StepsOf(steps, id) == map[] {
        SameSteps(StepsOf(steps, id), map[]);
      }
    }

    method GetSaga(id: string) returns (r: Option<SagaRecord>)
      ensures r == View(id).saga
    {
      r := if id in sagas then Some(sagas[id]) else None;
    }

    /** Creates the saga unless it exists; then the existing record is returned. */
    method CreateSaga(id: string) returns (existing: Option<SagaRecord>)
      modifies this
      ensures existing == old(View(id)).saga
      ensures View(id)
              == old(View(id)).(saga := if existing.None? then Some(SagaRecord(SagaRunning, 0, None,
                None)) else existing)
      ensures forall other :: other != id ==> View(other) == old(View(other))
    {
      if id in sagas {
        return Some(sagas[id]);
      }
      sagas := sagas[id := SagaRecord(SagaRunning, 0, None, None)];
      existing := None;
    }

    method SetSagaStatus(id: string, status: SagaStatus, failedStep: Option<string>, error: Option<Raise>)
      modifies this
      ensures View(id) == SagaSpec.SetSagaStatus(old(View(id)), status, failedStep, error)
      ensures forall other :: other != id ==> View(other) == old(View(other))
    {
      if id in sagas {
        var r := sagas[id].(status := status);
        if error.Some? {
          r := r.(error := error);
        }
        if failedStep.Some? {
          r := r.(failedStep := failedStep);
        }
        sagas := sagas[id := r];
      }
    }

    method SetCurrentStep(id: string, currentStep: nat)
      modifies this
      ensures View(id) == SagaSpec.SetCurrentStep(old(View(id)), currentStep)
      ensures forall other :: other != id ==> View(other) == old(View(other))
    {
      if id in sagas {
        sagas := sagas[id := sagas[id].(currentStep := currentStep)];
      }
    }

    /** Insert or overwrite. */
    method RecordStep(id: string, stepIndex: nat, rec: StepRecord)
      modifies this
      ensures View(id) == SagaSpec.RecordStep(old(View(id)), stepIndex, rec)
      ensures forall other :: other != id ==> View(other) == old(View(other))
    {
      StepsOfUpdate(steps, id, stepIndex, rec);
      steps := steps[(id, stepIndex) := rec];
    }

    method GetSteps(id: string) returns (out: seq<(nat, StepRecord)>)
      ensures Lists(out, View(id).recs)
    {
      out := [];
      ghost var recs := View(id).recs;
      var rest := steps.Keys;
      while rest != {}
        invariant rest <= steps.Keys
        invariant SortedBy(out, Sooner)
        invariant NoTwice(out)
        invariant forall p :: p in out <==> p.0 in recs && recs[p.0] == p.1 && (id, p.0) !in rest
        decreases rest
      {
        var k :| k in rest;
        rest := rest - {k};
        if k.0 == id {
          Extend(out, (k.1, steps[k]));
          out := Insert(out, (k.1, steps[k]), Sooner);
        }
      }
      Strict(out);
    }
  }

  ghost predicate NoTwice(out: seq<(nat, StepRecord)>) {
    forall a, b :: 0 <= a < b < |out| ==> out[a].0 != out[b].0
  }

  lemma SoonerIsOrder()
    ensures TotalPreorder(Sooner)
  {
  }

  lemma Strict(out: seq<(nat, StepRecord)>)
    requires SortedBy(out, Sooner) && NoTwice(out)
    ensures forall a, b :: 0 <= a < b < |out| ==> out[a].0 < out[b].0
  {
    forall a, b | 0 <= a < b < |out| ensures out[a].0 < out[b].0 {
      assert Sooner(out[a], out[b]);
    }
  }

  lemma {:induction false} InsertNoTwice(out: seq<(nat, StepRecord)>, x: (nat, StepRecord))
    requires NoTwice(out) && forall a :: 0 <= a < |out| ==> out[a].0 != x.0
    ensures NoTwice(Insert(out, x, Sooner))
  {
    if out != [] && !Sooner(x, out[0]) {
      InsertNoTwice(out[1..], x);
      var tail := Insert(out[1..], x, Sooner);
      forall b | 0 <= b < |tail| ensures tail[b].0 != out[0].0 {
        InsertMembers(out[1..], x, Sooner);
        assert tail[b] in tail;
      }
    }
  }

  lemma Extend(out: seq<(nat, StepRecord)>, x: (nat, StepRecord))
    requires SortedBy(out, Sooner) && NoTwice(out)
    requires forall p :: p in out ==> p.0 != x.0
    ensures var more := Insert(out, x, Sooner);
            SortedBy(more, Sooner) && NoTwice(more) && forall p :: p in more <==> p == x || p in out
  {
    SoonerIsOrder();
    InsertSorts(out, x, Sooner);
    InsertMembers(out, x, Sooner);
    assert forall a :: 0 <= a < |out| ==> out[a] in out;
    InsertNoTwice(out, x);
  }
}
