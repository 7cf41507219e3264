/** The hosted service's writes: reserve, insert, transition, reconcile. */
module ActionService {
  import opened Prelude
  import opened ActionLedger
  import opened ActionMachine
  import opened Billing
  import opened CodeUnits
  import opened ApiStore
  import opened UsageSpec

  ghost function StatusesOf(actions: map<(string, JsString), StoredAction>, org: string): (r: map<JsString, Status>)
    ensures forall k :: k in r <==> (org, k) in actions
    ensures forall k :: k in r ==> r[k] == actions[(org, k)].status
  {
    var keys := set p | p in actions && p.0 == org :: p.1;
    assert forall k :: (org, k) in actions ==> (org, k).1 in keys;
    map k | k in keys :: actions[(org, k)].status
  }

  lemma StatusesOfUpdate(actions: map<(string, JsString), StoredAction>, org: string, key: JsString, row: StoredAction)
    ensures StatusesOf(actions[(org, key) := row], org) == StatusesOf(actions, org)[key := row.status]
  {
    var a, b := StatusesOf(actions[(org, key) := row], org), StatusesOf(actions, org)[key := row.status];
    assert a.Keys == b.Keys;
  }

  class Service {
    const store: MemStore
    const meter: UsageMeter
    const planOf: string -> Option<string>
    const period: string

    constructor (store: MemStore, meter: UsageMeter, planOf: string -> Option<string>, period: string)
      ensures this.store == store && this.meter == meter && this.planOf == planOf && this.period == period
    {
      this.store := store;
      this.meter := meter;
      this.planOf := planOf;
      this.period := period;
    }

    ghost function Rows(org: string): map<JsString, Status>
      reads store
    {
      StatusesOf(store.actions, org)
    }

    /** One org's counter and rows. */
    ghost function Seen(org: string): Usage
      reads store, meter.store
    {
      Usage(meter.store.Used(org, period), Rows(org), 0)
    }

    ghost predicate OthersKept(org: string, before: map<(string, JsString), StoredAction>,
                               after: map<(string, JsString), StoredAction>) {
      forall p: (string, JsString) :: p.0 != org ==>
        (p in after <==> p in before) && (p in after ==> after[p] == before[p])
    }

    method InsertPending(org: string, key: Option<JsString>, tool: string, cost: real, now: JsString, storeThrows: bool)
      returns (answer: Answer)
      requires store.Valid()
      modifies store, meter.store
      ensures store.Valid()
      ensures answer == InsertAnswer(old(Seen(org)), planOf(org), key, tool, storeThrows)
      ensures Seen(org) == Apply(old(Seen(org)), planOf(org), Insert(key, tool, storeThrows)).(denied := 0)
      ensures store.actions == if answer != Answer.Inserted then old(store.actions)
                               else old(store.actions)[(org, key.value) :=
                                 StoredAction(key.value, tool, cost, Pending, 0, now, None, None, None)]
      ensures OthersKept(org, old(store.actions), store.actions)
      ensures forall o :: o != org ==> meter.store.Used(o, period) == old(meter.store.Used(o, period))
    {
      if key.None? || tool == "" {
        return BadRequest;
      }
      var allowed := meter.Reserve(org, planOf(org), period);
      if !allowed {
        return QuotaExceeded;
      }
      if storeThrows {
        meter.Release(org, period);
        return StoreFailed;
      }
      var inserted := store.InsertPending(org, key.value, tool, cost, now);
      if !inserted {
        meter.Release(org, period);
        return Duplicate;
      }
      StatusesOfUpdate(old(store.actions), org, key.value, store.actions[(org, key.value)]);
      answer := Answer.Inserted;
    }

    method ReconcileUsage(org: string, from: Status, to: Status)
      modifies meter.store
      ensures meter.store.Used(org, period)
           == old(meter.store.Used(org, period))
              + (if Counts(from) && !Counts(to) then -1
                 else if !Counts(from) && Counts(to)
                   && Admits(planOf(org), old(meter.store.Used(org, period)) + 1) then 1
                 else 0)
      ensures forall o :: o != org ==> meter.store.Used(o, period) == old(meter.store.Used(o, period))
    {
      if Counts(from) && !Counts(to) {
        meter.Release(org, period);
      } else if !Counts(from) && Counts(to) {
        var ignored := meter.Reserve(org, planOf(org), period);
      }
    }

    method Transition(org: string, key: JsString, patch: TransitionPatch) returns (answer: Answer)
      requires store.Valid()
      modifies store, meter.store
      ensures store.Valid()
      ensures answer == MoveAnswer(old(Seen(org)), key, patch.status)
      ensures Seen(org) == Apply(old(Seen(org)), planOf(org), Move(key, patch.status)).(denied := 0)
      ensures answer != Answer.Moved ==> store.actions == old(store.actions)
      ensures answer == Answer.Moved ==>
              store.actions == old(store.actions)[(org, key) := Patched(old(store.actions)[(org, key)], patch)]
      ensures forall o :: o != org ==> meter.store.Used(o, period) == old(meter.store.Used(o, period))
    {
      var current := store.GetAction(org, key);
      if current.None? {
        return Missing;
      }
      var from := current.value.status;
      if !Allowed(from, patch.status) {
        return Illegal(from);
      }
      ApplyAndReconcile(org, key, from, patch);
      answer := Answer.Moved;
    }

    method ApplyAndReconcile(org: string, key: JsString, from: Status, patch: TransitionPatch)
      requires store.Valid() && (org, key) in store.actions && store.actions[(org, key)].status == from
      requires Allowed(from, patch.status)
      modifies store, meter.store
      ensures store.Valid()
      ensures Seen(org) == Apply(old(Seen(org)), planOf(org), Move(key, patch.status)).(denied := 0)
      ensures store.actions == old(store.actions)[(org, key) := Patched(old(store.actions)[(org, key)], patch)]
      ensures forall o :: o != org ==> meter.store.Used(o, period) == old(meter.store.Used(o, period))
    {
      store.ApplyTransition(org, key, patch);
      ReconcileUsage(org, from, patch.status);
      StatusesOfUpdate(old(store.actions), org, key, store.actions[(org, key)]);
    }
  }
}
