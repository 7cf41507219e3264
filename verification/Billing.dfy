/** Plans, the in-memory usage counters and the meter that reserves slots on them. */
module Billing {
  import opened Prelude

  /** None is no limit. */
  function PlanLimit(plan: Option<string>): Option<nat> {
    if plan == Some("pro") then Some(100000)
    else if plan == Some("scale") then None
    else Some(1000)
  }

  predicate AllowOverage(plan: Option<string>) {
    plan == Some("pro") || plan == Some("scale")
  }

  /** A plan whose reservations can be denied. */
  predicate HardCapped(plan: Option<string>) {
    PlanLimit(plan).Some? && !AllowOverage(plan)
  }

  /** Whether the reservation that brought the counter to `next` stands. */
  predicate Admits(plan: Option<string>, next: int) {
    !(PlanLimit(plan).Some? && next > PlanLimit(plan).value && !AllowOverage(plan))
  }

  /** Only the free plan, and every plan name not on the list, is hard capped, at 1000. */
  lemma CappedPlans(plan: Option<string>, next: int)
    ensures HardCapped(plan) <==> plan != Some("pro") && plan != Some("scale")
    ensures HardCapped(plan) ==> (Admits(plan, next) <==> next <= 1000)
    ensures !HardCapped(plan) ==> Admits(plan, next)
  {
  }

  class MemUsageStore {
    var counts: map<(string, string), int>

    constructor ()
      ensures forall org, period :: Used(org, period) == 0
    {
      counts := map[];
    }

    ghost function Used(org: string, period: string): int
      reads this
    {
      if (org, period) in counts then counts[(org, period)] else 0
    }

    method Increment(org: string, period: string, delta: int) returns (next: int)
      modifies this
      ensures next == Used(org, period) == old(Used(org, period)) + delta
      ensures forall o, p :: (o, p) != (org, period) ==> Used(o, p) == old(Used(o, p))
    {
      next := (if (org, period) in counts then counts[(org, period)] else 0) + delta;
      counts := counts[(org, period) := next];
    }

    method Get(org: string, period: string) returns (used: int)
      ensures used == Used(org, period)
    {
      used := if (org, period) in counts then counts[(org, period)] else 0;
    }
  }

  class UsageMeter {
    const store: MemUsageStore

    constructor (store: MemUsageStore)
      ensures this.store == store
    {
      this.store := store;
    }

    /** With nobody else about, a slot is taken unless a hard-capped plan has none left;
        the counter moves exactly when it is, and no other counter moves. */
    method Reserve(org: string, plan: Option<string>, period: string) returns (allowed: bool)
      modifies store
      ensures allowed <==> HardCapped(plan) ==> old(store.Used(org, period)) < PlanLimit(plan).value
      ensures store.Used(org, period) == old(store.Used(org, period)) + if allowed then 1 else 0
      ensures forall o, p :: (o, p) != (org, period) ==> store.Used(o, p) == old(store.Used(o, p))
    {
      var next := store.Increment(org, period, 1);
      if !Admits(plan, next) {
        var back := store.Increment(org, period, -1);
        return false;
      }
      return true;
    }

    method Release(org: string, period: string)
      modifies store
      ensures store.Used(org, period) == old(store.Used(org, period)) - 1
      ensures forall o, p :: (o, p) != (org, period) ==> store.Used(o, p) == old(store.Used(o, p))
    {
      var next := store.Increment(org, period, -1);
    }
  }
}
