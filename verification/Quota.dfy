/** Many insertPending calls of one org in one period at once: increment, check,
    roll back or hold, insert, refund.  Each store operation is one step and any call
    may take the next one. */
module Quota {
  import opened Prelude
  import opened Billing

  datatype Pc =
    | Arriving                    // about to increment the counter
    | RollingBack                 // over the limit: about to decrement
    | Admitted                    // holds a slot, about to insert the row
    | Refunding                   // found a duplicate, or the store threw: about to decrement
    | Created                     // its row exists and holds the slot
    | Leaving                     // its row stopped counting: about to decrement
    | Refunded                    // its row exists and holds no slot
    | Finished(denied: bool)

  /** `rows` maps each key to the call that created its row. */
  datatype State = State(counter: int, pcs: seq<Pc>, rows: map<string, nat>)

  /** A call's next step; `stumbles` is the store throwing on insert, or a created
      row ceasing to count. */
  function Step(s: State, plan: Option<string>, keys: seq<string>, t: nat, stumbles: bool): State
    requires |s.pcs| == |keys| && t < |keys|
  {
    match s.pcs[t]
    case Arriving =>
      State(s.counter + 1, s.pcs[t := if Admits(plan, s.counter + 1) then Admitted else RollingBack], s.rows)
    case RollingBack => State(s.counter - 1, s.pcs[t := Finished(true)], s.rows)
    case Admitted =>
      if stumbles || keys[t] in s.rows then s.(pcs := s.pcs[t := Refunding])
      else s.(pcs := s.pcs[t := Created], rows := s.rows[keys[t] := t])
    case Refunding => State(s.counter - 1, s.pcs[t := Finished(false)], s.rows)
    case Created => if stumbles then s.(pcs := s.pcs[t := Leaving]) else s
    case Leaving => State(s.counter - 1, s.pcs[t := Refunded], s.rows)
    case Refunded => s
    case Finished(_) => s
  }

  type Schedule = seq<(nat, bool)>

  function Exec(plan: Option<string>, keys: seq<string>, schedule: Schedule): (s: State)
    requires forall i :: 0 <= i < |schedule| ==> schedule[i].0 < |keys|
    ensures |s.pcs| == |keys|
  {
    if schedule == [] then State(0, seq(|keys|, _ => Arriving), map[])
    else
      var n := |schedule| - 1;
      Step(Exec(plan, keys, schedule[..n]), plan, keys, schedule[n].0, schedule[n].1)
  }

  // ---------------------------------------------------------------- counting calls

  predicate Holds(pc: Pc) {
    pc.Admitted? || pc.Refunding? || pc.Created? || pc.Leaving?
  }

  predicate Waits(pc: Pc) {
    pc.RollingBack?
  }

  predicate Stays(pc: Pc) {
    pc.Created?
  }

  function Count(pcs: seq<Pc>, p: Pc -> bool): nat {
    if pcs == [] then 0 else Count(pcs[..|pcs| - 1], p) + if p(pcs[|pcs| - 1]) then 1 else 0
  }

  lemma {:induction false} CountSet(pcs: seq<Pc>, t: nat, pc: Pc, p: Pc -> bool)
    requires t < |pcs|
    ensures Count(pcs[t := pc], p) == Count(pcs, p) - (if p(pcs[t]) then 1 else 0) + if p(pc) then 1 else 0
  {
    var n := |pcs| - 1;
    if t == n {
      assert pcs[t := pc][..n] == pcs[..n];
    } else {
      assert pcs[t := pc][..n] == pcs[..n][t := pc];
      CountSet(pcs[..n], t, pc, p);
    }
  }

  lemma {:induction false} CountNone(pcs: seq<Pc>, p: Pc -> bool)
    requires forall t :: 0 <= t < |pcs| ==> !p(pcs[t])
    ensures Count(pcs, p) == 0
  {
    if pcs != [] {
      CountNone(pcs[..|pcs| - 1], p);
    }
  }

  lemma {:induction false} CountWithin(pcs: seq<Pc>, p: Pc -> bool, q: Pc -> bool)
    requires forall pc :: p(pc) ==> q(pc)
    ensures Count(pcs, p) <= Count(pcs, q)
  {
    if pcs != [] {
      CountWithin(pcs[..|pcs| - 1], p, q);
    }
  }

  function Where(pcs: seq<Pc>, p: Pc -> bool): set<nat> {
    set t: nat | t < |pcs| && p(pcs[t])
  }

  lemma {:induction false} CountIsSize(pcs: seq<Pc>, p: Pc -> bool)
    ensures Count(pcs, p) == |Where(pcs, p)|
  {
    if pcs != [] {
      var n := |pcs| - 1;
      CountIsSize(pcs[..n], p);
      assert Where(pcs, p) == if p(pcs[n]) then Where(pcs[..n], p) + {n} else Where(pcs[..n], p);
    }
  }

  // ---------------------------------------------------------------- the invariant

  predicate Inv(s: State, plan: Option<string>, keys: seq<string>)
    requires |s.pcs| == |keys|
  {
    && s.counter == Count(s.pcs, Holds) + Count(s.pcs, Waits)
    && (HardCapped(plan) ==> Count(s.pcs, Holds) <= PlanLimit(plan).value)
    && (forall k :: k in s.rows ==> s.rows[k] < |keys| && keys[s.rows[k]] == k)
    && (forall t :: 0 <= t < |keys| && s.pcs[t].Created? ==> keys[t] in s.rows && s.rows[keys[t]] == t)
  }

  lemma StepCounts(s: State, plan: Option<string>, keys: seq<string>, t: nat, stumbles: bool)
    requires |s.pcs| == |keys| && t < |keys|
    ensures var s' := Step(s, plan, keys, t, stumbles);
            && s'.counter - s.counter
               == Count(s'.pcs, Holds) + Count(s'.pcs, Waits) - Count(s.pcs, Holds) - Count(s.pcs, Waits)
            && Count(s'.pcs, Holds) - Count(s.pcs, Holds)
               == (if Holds(s'.pcs[t]) then 1 else 0) - if Holds(s.pcs[t]) then 1 else 0
  {
    var s' := Step(s, plan, keys, t, stumbles);
    assert s'.pcs == s.pcs[t := s'.pcs[t]];
    CountSet(s.pcs, t, s'.pcs[t], Holds);
    CountSet(s.pcs, t, s'.pcs[t], Waits);
  }

  lemma StepKeeps(s: State, plan: Option<string>, keys: seq<string>, t: nat, stumbles: bool)
    requires |s.pcs| == |keys| && t < |keys| && Inv(s, plan, keys)
    ensures Inv(Step(s, plan, keys, t, stumbles), plan, keys)
  {
    StepCounts(s, plan, keys, t, stumbles);
  }

  lemma {:induction false} ExecKeeps(plan: Option<string>, keys: seq<string>, schedule: Schedule)
    requires forall i :: 0 <= i < |schedule| ==> schedule[i].0 < |keys|
    ensures Inv(Exec(plan, keys, schedule), plan, keys)
  {
    if schedule == [] {
      CountNone(Exec(plan, keys, schedule).pcs, Holds);
      CountNone(Exec(plan, keys, schedule).pcs, Waits);
    } else {
      var n := |schedule| - 1;
      ExecKeeps(plan, keys, schedule[..n]);
      StepKeeps(Exec(plan, keys, schedule[..n]), plan, keys, schedule[n].0, schedule[n].1);
    }
  }

  // ---------------------------------------------------------------- the promises

  /** The keys whose rows still count. */
  function Counting(s: State): set<string> {
    set k | k in s.rows && s.rows[k] < |s.pcs| && s.pcs[s.rows[k]].Created?
  }

  lemma {:induction false} Injects(keys: set<string>, rows: map<string, nat>, calls: set<nat>)
    requires forall k :: k in keys ==> k in rows && rows[k] in calls
    requires forall k, l :: k in keys && l in keys && k != l ==> rows[k] != rows[l]
    ensures |keys| <= |calls|
  {
    if keys != {} {
      var k :| k in keys;
      Injects(keys - {k}, rows, calls - {rows[k]});
    }
  }

  lemma CountingIsHeld(s: State, plan: Option<string>, keys: seq<string>)
    requires |s.pcs| == |keys| && Inv(s, plan, keys)
    ensures |Counting(s)| <= Count(s.pcs, Stays)
  {
    Injects(Counting(s), s.rows, Where(s.pcs, Stays));
    CountIsSize(s.pcs, Stays);
  }

  /** However the calls interleave, the counter is the slots held plus the rollbacks
      under way, slots held never exceed a hard cap, and so neither do the rows that
      count. */
  lemma QuotaNeverOvershoots(plan: Option<string>, keys: seq<string>, schedule: Schedule)
    requires forall i :: 0 <= i < |schedule| ==> schedule[i].0 < |keys|
    ensures var s := Exec(plan, keys, schedule);
            && s.counter == Count(s.pcs, Holds) + Count(s.pcs, Waits)
            && |Counting(s)| <= Count(s.pcs, Holds)
            && (HardCapped(plan) ==> Count(s.pcs, Holds) <= PlanLimit(plan).value)
  {
    ExecKeeps(plan, keys, schedule);
    CountingIsHeld(Exec(plan, keys, schedule), plan, keys);
    CountWithin(Exec(plan, keys, schedule).pcs, Stays, Holds);
  }

  /** A call is turned away exactly when slots held and rollbacks under way already
      fill the cap: with no rollback under way, exactly when no slot is free. */
  lemma DeniedExactlyWhenFull(plan: Option<string>, keys: seq<string>, schedule: Schedule, t: nat)
    requires forall i :: 0 <= i < |schedule| ==> schedule[i].0 < |keys|
    requires t < |keys| && Exec(plan, keys, schedule).pcs[t].Arriving?
    ensures var s := Exec(plan, keys, schedule);
            Step(s, plan, keys, t, false).pcs[t].RollingBack?
            <==> HardCapped(plan) && Count(s.pcs, Holds) + Count(s.pcs, Waits) >= PlanLimit(plan).value
  {
    ExecKeeps(plan, keys, schedule);
  }

  /** With nobody else moving, a call's steps at the counter are UsageMeter.Reserve. */
  lemma AloneIsReserve(s: State, plan: Option<string>, keys: seq<string>, t: nat)
    requires |s.pcs| == |keys| && t < |keys| && s.pcs[t].Arriving?
    ensures var s1 := Step(s, plan, keys, t, false);
            var s2 := if s1.pcs[t].RollingBack? then Step(s1, plan, keys, t, false) else s1;
            var allowed := HardCapped(plan) ==> s.counter < PlanLimit(plan).value;
            && s2.pcs[t] == (if allowed then Admitted else Finished(true))
            && s2.counter == s.counter + if allowed then 1 else 0
  {
  }

  predicate Quiet(pc: Pc) {
    pc.Arriving? || pc.Finished? || pc.Created? || pc.Refunded?
  }

  predicate AllQuiet(pcs: seq<Pc>) {
    forall t :: 0 <= t < |pcs| ==> Quiet(pcs[t])
  }

  /** When no call is under way, the counter is the number of rows that count. */
  lemma SettledCounter(plan: Option<string>, keys: seq<string>, schedule: Schedule)
    requires forall i :: 0 <= i < |schedule| ==> schedule[i].0 < |keys|
    requires AllQuiet(Exec(plan, keys, schedule).pcs)
    ensures var s := Exec(plan, keys, schedule); s.counter == |Counting(s)|
  {
    ExecKeeps(plan, keys, schedule);
    QuietCounter(Exec(plan, keys, schedule), plan, keys);
  }

  lemma QuietCounter(s: State, plan: Option<string>, keys: seq<string>)
    requires |s.pcs| == |keys| && Inv(s, plan, keys)
    requires AllQuiet(s.pcs)
    ensures s.counter == |Counting(s)|
  {
    assert forall t :: 0 <= t < |s.pcs| ==> !Waits(s.pcs[t]) by {
      forall t | 0 <= t < |s.pcs| ensures !Waits(s.pcs[t]) { assert Quiet(s.pcs[t]); }
    }
    CountNone(s.pcs, Waits);
    var calls := Where(s.pcs, Holds);
    CountIsSize(s.pcs, Holds);
    forall t | t in calls ensures s.pcs[t].Created? { assert Quiet(s.pcs[t]); }
    KeysOfCalls(s, keys, calls);
    assert Counting(s) == set t | t in calls :: keys[t] by {
      assert forall k :: k in Counting(s) ==> s.rows[k] in calls;
    }
  }

  lemma {:induction false} KeysOfCalls(s: State, keys: seq<string>, calls: set<nat>)
    requires |s.pcs| == |keys|
    requires forall t :: t in calls ==> t < |keys| && keys[t] in s.rows && s.rows[keys[t]] == t
    ensures |set t | t in calls :: keys[t]| == |calls|
  {
    if calls != {} {
      var t :| t in calls;
      KeysOfCalls(s, keys, calls - {t});
      assert (set u | u in calls :: keys[u]) == (set u | u in calls - {t} :: keys[u]) + {keys[t]};
    }
  }
}
