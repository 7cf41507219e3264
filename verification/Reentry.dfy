/** Calls that come back to a row that failed or was approved: insertPending no longer
    guards them.  Exactly when does a key's function still return at most once? */
module Reentry {
  import opened Prelude
  import opened ActionLedger
  import opened Policies
  import opened RunSpec
  import opened Claim

  // ---------------------------------------------------------------- the guard

  /** Past its own entry and not over. */
  predicate Engaged(pc: Pc) {
    pc.Retrying? || pc.Acting? || pc.Trying? || pc.Calling? || pc.Keeping?
  }

  predicate Rival(m: Machine, t: nat, u: nat) {
    u < |m.pcs| && u != t && Engaged(m.pcs[u])
  }

  /** This turn takes a caller into a row that failed or was approved. */
  predicate Enters(m: Machine, key: Key, threads: seq<Thread>, turn: Turn)
    requires |m.pcs| == |threads| && turn.thread < |threads|
  {
    && threads[turn.thread].Caller? && m.pcs[turn.thread].Start?
    && key in m.ledger.rows && (m.ledger.rows[key].status == Failed || m.ledger.rows[key].status == Approved)
  }

  /** In this turn a reviewer marks the row. */
  predicate Marks(m: Machine, key: Key, threads: seq<Thread>, turn: Turn)
    requires |m.pcs| == |threads| && turn.thread < |threads|
  {
    threads[turn.thread].Reviewer? && m.pcs[turn.thread].Reviewing? && key in m.ledger.rows
  }

  /** Nobody enters while another is engaged, and no reviewer marks a succeeded row. */
  ghost predicate Safe(m: Machine, key: Key, threads: seq<Thread>, turn: Turn)
    requires |m.pcs| == |threads| && turn.thread < |threads|
  {
    && (Enters(m, key, threads, turn) ==> forall u: nat :: !Rival(m, turn.thread, u))
    && (Marks(m, key, threads, turn) ==> m.ledger.rows[key].status != Succeeded)
  }

  // ---------------------------------------------------------------- runs from any state

  /** Every turn is safe when it is taken. */
  ghost predicate Guarded(m: Machine, key: Key, threads: seq<Thread>, schedule: Schedule)
    requires |m.pcs| == |threads| && Runnable(threads, key, schedule)
    decreases |schedule|
  {
    schedule != [] ==>
      && Safe(m, key, threads, schedule[0])
      && Guarded(Step(m, key, threads, schedule[0]), key, threads, schedule[1..])
  }

  lemma FirstThenRest(m: Machine, key: Key, threads: seq<Thread>, schedule: Schedule)
    requires |m.pcs| == |threads| && Runnable(threads, key, schedule) && schedule != []
    ensures var m1 := Step(m, key, threads, schedule[0]);
            && From(m, key, threads, schedule) == From(m1, key, threads, schedule[1..])
            && (Guarded(m, key, threads, schedule)
                <==> Safe(m, key, threads, schedule[0]) && Guarded(m1, key, threads, schedule[1..]))
  {
  }

  lemma {:induction false} Joined(m: Machine, key: Key, threads: seq<Thread>, a: Schedule, b: Schedule)
    requires |m.pcs| == |threads| && Runnable(threads, key, a) && Runnable(threads, key, b)
    ensures Runnable(threads, key, a + b)
    ensures From(m, key, threads, a + b) == From(From(m, key, threads, a), key, threads, b)
    ensures Guarded(m, key, threads, a + b)
      <==> Guarded(m, key, threads, a) && Guarded(From(m, key, threads, a), key, threads, b)
    decreases |a|
  {
    var ab := a + b;
    if a == [] {
      assert ab == b;
    } else {
      assert ab[0] == a[0] && ab[1..] == a[1..] + b;
      Joined(Step(m, key, threads, a[0]), key, threads, a[1..], b);
      FirstThenRest(m, key, threads, a);
      FirstThenRest(m, key, threads, ab);
    }
  }

  lemma OneTurn(m: Machine, key: Key, threads: seq<Thread>, turn: Turn)
    requires |m.pcs| == |threads| && Runnable(threads, key, [turn])
    ensures turn.thread < |threads|
    ensures From(m, key, threads, [turn]) == Step(m, key, threads, turn)
    ensures Guarded(m, key, threads, [turn]) <==> Safe(m, key, threads, turn)
  {
    FromOne(m, key, threads, turn);
    assert [turn][0] == turn && [turn][1..] == [];
    assert Guarded(Step(m, key, threads, turn), key, threads, []);
  }

  // ---------------------------------------------------------------- what the guard keeps

  predicate Holds(pc: Pc, v: Value) {
    pc == Over(Got(v))
  }

  /** At most one function has returned, and whoever got a value got the stored one. */
  ghost predicate Sound(m: Machine, key: Key) {
    && |m.returned| <= 1
    && forall t, v :: 0 <= t < |m.pcs| && Holds(m.pcs[t], v) ==>
         && key in m.ledger.rows && m.ledger.rows[key].status == Succeeded && m.ledger.rows[key].result == v
         && |m.returned| == 1 && m.returned[0].1 == v
  }

  /** Before the row exists nobody is engaged and nobody has returned. */
  predicate Untouched(m: Machine) {
    && m.returned == []
    && forall t :: 0 <= t < |m.pcs| ==> Outside(m.pcs[t])
  }

  ghost predicate OneEngaged(m: Machine, threads: seq<Thread>)
    requires |m.pcs| == |threads|
  {
    && (forall t, u :: 0 <= t < |m.pcs| && 0 <= u < |m.pcs| && Engaged(m.pcs[t]) && Engaged(m.pcs[u]) ==> t == u)
    && (forall t :: 0 <= t < |m.pcs| && Engaged(m.pcs[t]) ==> threads[t].Caller?)
  }

  /** The row's value is the one returned, everybody got it, somebody did, and nobody is
      at work. */
  ghost predicate Settled(m: Machine, row: Row) {
    && |m.returned| == 1 && m.returned[0].1 == row.result
    && (forall t :: 0 <= t < |m.pcs| ==> !Engaged(m.pcs[t]))
    && (forall t, v :: 0 <= t < |m.pcs| && Holds(m.pcs[t], v) ==> v == row.result)
    && (exists t :: 0 <= t < |m.pcs| && Holds(m.pcs[t], row.result))
  }

  /** Nobody has got a value; if a function has returned, its caller is about to store
      the value. */
  ghost predicate Unsettled(m: Machine) {
    && (forall t, v :: 0 <= t < |m.pcs| ==> !Holds(m.pcs[t], v))
    && (forall t :: 0 <= t < |m.pcs| && m.pcs[t].Keeping? ==> m.returned == [(t, m.pcs[t].v)])
    && (m.returned != [] ==> exists t :: 0 <= t < |m.pcs| && m.pcs[t].Keeping?)
  }

  ghost predicate Orderly(m: Machine, key: Key, threads: seq<Thread>)
    requires |m.pcs| == |threads|
  {
    if key !in m.ledger.rows then Untouched(m)
    else
      && OneEngaged(m, threads)
      && if m.ledger.rows[key].status == Succeeded then Settled(m, m.ledger.rows[key]) else Unsettled(m)
  }

  lemma OrderlyIsSound(m: Machine, key: Key, threads: seq<Thread>)
    requires |m.pcs| == |threads| && Orderly(m, key, threads)
    ensures Sound(m, key)
  {
  }

  lemma UntouchedStep(m: Machine, key: Key, threads: seq<Thread>, turn: Turn)
    requires |m.pcs| == |threads| && Fits(threads, key, turn)
    requires key !in m.ledger.rows && Untouched(m)
    ensures Orderly(Step(m, key, threads, turn), key, threads)
  {
    assert Outside(m.pcs[turn.thread]);
  }

  /** Once the value is stored nobody enters, and a safe turn leaves it alone. */
  lemma SettledStep(m: Machine, key: Key, threads: seq<Thread>, turn: Turn)
    requires |m.pcs| == |threads| && Fits(threads, key, turn) && Safe(m, key, threads, turn)
    requires key in m.ledger.rows && m.ledger.rows[key].status == Succeeded && OneEngaged(m, threads)
    requires Settled(m, m.ledger.rows[key])
    ensures Orderly(Step(m, key, threads, turn), key, threads)
  {
    var t, m' := turn.thread, Step(m, key, threads, turn);
    assert !Engaged(m.pcs[t]) && !Marks(m, key, threads, turn);
    assert m'.ledger == m.ledger && m'.returned == m.returned;
    var u :| 0 <= u < |m.pcs| && Holds(m.pcs[u], m.ledger.rows[key].result);
    assert Holds(m'.pcs[u], m.ledger.rows[key].result);
  }

  /** While the value is not stored, the one engaged caller's own turn. */
  lemma EngagedStep(m: Machine, key: Key, threads: seq<Thread>, turn: Turn)
    requires |m.pcs| == |threads| && Fits(threads, key, turn) && Engaged(m.pcs[turn.thread])
    requires key in m.ledger.rows && m.ledger.rows[key].status != Succeeded && OneEngaged(m, threads) && Unsettled(m)
    ensures Orderly(Step(m, key, threads, turn), key, threads)
  {
    var t, m' := turn.thread, Step(m, key, threads, turn);
    assert forall u :: 0 <= u < |m.pcs| && u != t ==> !Engaged(m.pcs[u]) && m'.pcs[u] == m.pcs[u];
    if m.pcs[t].Keeping? {
      assert Holds(m'.pcs[t], m.pcs[t].v);
    } else {
      assert m.returned == [];
      if m'.pcs[t].Keeping? {
        assert m'.returned == [(t, m'.pcs[t].v)];
      }
    }
  }

  /** While the value is not stored, anybody else's safe turn. */
  lemma OtherStep(m: Machine, key: Key, threads: seq<Thread>, turn: Turn)
    requires |m.pcs| == |threads| && Fits(threads, key, turn) && !Engaged(m.pcs[turn.thread])
             && Safe(m, key, threads, turn)
    requires key in m.ledger.rows && m.ledger.rows[key].status != Succeeded && OneEngaged(m, threads) && Unsettled(m)
    ensures Orderly(Step(m, key, threads, turn), key, threads)
  {
    var t, m' := turn.thread, Step(m, key, threads, turn);
    assert m'.returned == m.returned && key in m'.ledger.rows && m'.ledger.rows[key].status != Succeeded;
    assert !m'.pcs[t].Keeping? && !(m'.pcs[t].Over? && m'.pcs[t].end.Got? && !m.pcs[t].Over?);
    if Engaged(m'.pcs[t]) {
      assert Enters(m, key, threads, turn);
      forall u | 0 <= u < |m.pcs| && u != t ensures !Engaged(m'.pcs[u]) {
        assert !Rival(m, t, u);
      }
    }
    if m.returned != [] {
      var u :| 0 <= u < |m.pcs| && m.pcs[u].Keeping?;
      assert m'.pcs[u].Keeping?;
    }
  }

  lemma SafeStepKeeps(m: Machine, key: Key, threads: seq<Thread>, turn: Turn)
    requires |m.pcs| == |threads| && Fits(threads, key, turn) && Safe(m, key, threads, turn)
    requires Orderly(m, key, threads)
    ensures Orderly(Step(m, key, threads, turn), key, threads)
  {
    if key !in m.ledger.rows {
      UntouchedStep(m, key, threads, turn);
    } else if m.ledger.rows[key].status == Succeeded {
      SettledStep(m, key, threads, turn);
    } else if Engaged(m.pcs[turn.thread]) {
      EngagedStep(m, key, threads, turn);
    } else {
      OtherStep(m, key, threads, turn);
    }
  }

  lemma {:induction false} GuardedKeeps(m: Machine, key: Key, threads: seq<Thread>, schedule: Schedule)
    requires |m.pcs| == |threads| && Runnable(threads, key, schedule) && Guarded(m, key, threads, schedule)
    requires Orderly(m, key, threads)
    ensures Orderly(From(m, key, threads, schedule), key, threads)
    decreases |schedule|
  {
    if schedule != [] {
      SafeStepKeeps(m, key, threads, schedule[0]);
      GuardedKeeps(Step(m, key, threads, schedule[0]), key, threads, schedule[1..]);
    }
  }

  lemma BeginIsOrderly(rows: map<Key, Row>, key: Key, threads: seq<Thread>)
    requires key !in rows
    ensures Orderly(Begin(rows, threads), key, threads)
  {
  }

  /** At most once, under any interleaving: if no call enters a failed or approved row
      while another is past its own entry and not over, and no reviewer marks a succeeded
      row, at most one call's function ever returns, its value is stored, and every call
      that gets a value gets that one. */
  lemma GuardedRunsReturnOnce(rows: map<Key, Row>, key: Key, threads: seq<Thread>, schedule: Schedule)
    requires Runnable(threads, key, schedule) && key !in rows
    requires Guarded(Begin(rows, threads), key, threads, schedule)
    ensures Sound(Exec(rows, key, threads, schedule), key)
  {
    ExecIsFrom(rows, key, threads, schedule);
    BeginIsOrderly(rows, key, threads);
    GuardedKeeps(Begin(rows, threads), key, threads, schedule);
    OrderlyIsSound(Exec(rows, key, threads, schedule), key, threads);
  }

  // ---------------------------------------------------------------- what a breach allows

  /** Some attempt from this one on returns a value. */
  ghost predicate Gives(req: Request, from: int) {
    exists k: int :: from <= k <= req.retries && req.execute(k).Gave?
  }

  /** Left to run, and not stopped by its policies, this call's function returns. */
  ghost predicate CanReturn(thread: Thread, pc: Pc) {
    && thread.Caller?
    && match pc
       case Retrying => Gives(thread.req, 0)
       case Acting(d) => d.Allow? && Gives(thread.req, 0)
       case Trying(attempt, _) => Gives(thread.req, attempt)
       case Calling(attempt) => thread.req.execute(attempt).Gave? || Gives(thread.req, attempt + 1)
       case Keeping(_) => true
       case _ => false
  }

  /** Steps a call is away from its end, at most. */
  function Distance(req: Request, pc: Pc): nat {
    var tries := (attempt: int) => if attempt <= req.retries then 2 * (req.retries - attempt) else 0;
    match pc
    case Retrying => tries(0) + 4
    case Acting(_) => tries(0) + 3
    case Trying(attempt, _) => tries(attempt) + 2
    case Calling(attempt) => tries(attempt) + 1
    case _ => 0
  }

  predicate Ready(m: Machine, key: Key, threads: seq<Thread>, t: nat) {
    && |m.pcs| == |threads| && t < |threads| && threads[t].Caller? && Runnable(threads, key, [])
    && key in m.ledger.rows && Engaged(m.pcs[t])
  }

  /** An engaged call takes no notice of the row: one turn brings it nearer to its end. */
  lemma OneTurnOn(m: Machine, key: Key, threads: seq<Thread>, t: nat)
    requires Ready(m, key, threads, t) && CanReturn(threads[t], m.pcs[t]) && !m.pcs[t].Keeping?
    ensures var m' := Step(m, key, threads, Turn(t, Allow, 0));
            && Ready(m', key, threads, t) && CanReturn(threads[t], m'.pcs[t])
            && Distance(threads[t].req, m'.pcs[t]) < Distance(threads[t].req, m.pcs[t])
            && m'.pcs == m.pcs[t := m'.pcs[t]]
            && m'.returned == m.returned + if m'.pcs[t].Keeping? then [(t, m'.pcs[t].v)] else []
  {
    var req := threads[t].req;
    if m.pcs[t].Calling? && req.execute(m.pcs[t].attempt).Raised? {
      assert Gives(req, m.pcs[t].attempt + 1);
    }
  }

  /** Where a call that ran to its end with value v leaves everything. */
  predicate Ended(m: Machine, m': Machine, key: Key, t: nat, v: Value)
    requires t < |m.pcs|
  {
    && m'.pcs == m.pcs[t := Over(Got(v))]
    && key in m'.ledger.rows && m'.ledger.rows[key].status == Succeeded && m'.ledger.rows[key].result == v
    && m'.returned == m.returned + (if m.pcs[t].Keeping? then [] else [(t, v)])
    && (m.pcs[t].Keeping? ==> v == m.pcs[t].v)
  }

  /** An engaged call that can return does so whatever the row says meanwhile. */
  lemma {:induction false} RunsToEnd(m: Machine, key: Key, threads: seq<Thread>, t: nat)
    returns (more: Schedule, v: Value)
    requires Ready(m, key, threads, t) && CanReturn(threads[t], m.pcs[t])
    ensures Runnable(threads, key, more) && Guarded(m, key, threads, more)
    ensures Ended(m, From(m, key, threads, more), key, t, v)
    decreases Distance(threads[t].req, m.pcs[t])
  {
    var turn := Turn(t, Allow, 0);
    var m1 := Step(m, key, threads, turn);
    assert Safe(m, key, threads, turn);
    if m.pcs[t].Keeping? {
      more, v := [turn], m.pcs[t].v;
      OneTurn(m, key, threads, turn);
    } else {
      OneTurnOn(m, key, threads, t);
      var rest;
      rest, v := RunsToEnd(m1, key, threads, t);
      more := [turn] + rest;
      assert more[0] == turn && more[1..] == rest;
    }
  }

  /** The turn that enters puts the caller at work. */
  lemma EntryEngages(m: Machine, key: Key, threads: seq<Thread>, turn: Turn)
    requires |m.pcs| == |threads| && Fits(threads, key, turn) && Runnable(threads, key, [])
    requires Enters(m, key, threads, turn)
    ensures var t, m' := turn.thread, Step(m, key, threads, turn);
            && m'.ledger == m.ledger && m'.returned == m.returned && m'.pcs == m.pcs[t := m'.pcs[t]]
            && Ready(m', key, threads, t) && (m'.pcs[t].Retrying? || m'.pcs[t] == Trying(0, NoError))
            && (Gives(threads[t].req, 0) ==> CanReturn(threads[t], m'.pcs[t]))
  {
  }

  lemma BothRunToEnd(m: Machine, key: Key, threads: seq<Thread>, t: nat, u: nat)
    returns (more: Schedule, v: Value, w: Value)
    requires Ready(m, key, threads, t) && CanReturn(threads[t], m.pcs[t]) && !m.pcs[t].Keeping? && t != u
    requires Ready(m, key, threads, u) && CanReturn(threads[u], m.pcs[u])
    ensures Runnable(threads, key, more) && Guarded(m, key, threads, more)
    ensures var end := From(m, key, threads, more);
            && end.pcs == m.pcs[t := Over(Got(v))][u := Over(Got(w))]
            && end.returned == m.returned + [(t, v)] + if m.pcs[u].Keeping? then [] else [(u, w)]
  {
    var a, b;
    a, v := RunsToEnd(m, key, threads, t);
    var m2 := From(m, key, threads, a);
    assert Ended(m, m2, key, t, v) && m2.pcs[u] == m.pcs[u];
    b, w := RunsToEnd(m2, key, threads, u);
    more := a + b;
    Joined(m, key, threads, a, b);
  }

  /** A caller that enters while another is engaged: both can return, one after the other. */
  lemma EntryRunsTwice(m: Machine, key: Key, threads: seq<Thread>, turn: Turn, u: nat)
    returns (more: Schedule, v: Value, w: Value)
    requires |m.pcs| == |threads| && Fits(threads, key, turn) && Runnable(threads, key, [])
    requires Enters(m, key, threads, turn) && Gives(threads[turn.thread].req, 0)
    requires Rival(m, turn.thread, u) && CanReturn(threads[u], m.pcs[u])
    ensures Runnable(threads, key, more)
    ensures var m1 := Step(m, key, threads, turn);
            var end := From(m1, key, threads, more);
            && Guarded(m1, key, threads, more)
            && end.pcs == m.pcs[turn.thread := Over(Got(v))][u := Over(Got(w))]
            && end.returned == m.returned + [(turn.thread, v)] + if m.pcs[u].Keeping? then [] else [(u, w)]
  {
    EntryEngages(m, key, threads, turn);
    more, v, w := BothRunToEnd(Step(m, key, threads, turn), key, threads, turn.thread, u);
  }

  /** A succeeded row that is approved: whoever enters next returns a second time. */
  lemma LateApprovalRunsTwice(m: Machine, key: Key, threads: seq<Thread>, turn: Turn, c: nat)
    returns (more: Schedule, w: Value)
    requires |m.pcs| == |threads| && Fits(threads, key, turn) && Runnable(threads, key, [])
    requires Marks(m, key, threads, turn) && threads[turn.thread].approves
    requires forall u :: 0 <= u < |m.pcs| ==> !Engaged(m.pcs[u])
    requires c < |threads| && threads[c].Caller? && m.pcs[c].Start? && Gives(threads[c].req, 0)
    ensures Runnable(threads, key, more)
    ensures var m1 := Step(m, key, threads, turn);
            var end := From(m1, key, threads, more);
            && Guarded(m1, key, threads, more)
            && end.pcs == m.pcs[turn.thread := Pc.Reviewed][c := Over(Got(w))]
            && end.returned == m.returned + [(c, w)]
  {
    var m1, look := Step(m, key, threads, turn), Turn(c, Allow, 0);
    assert Enters(m1, key, threads, look);
    assert Safe(m1, key, threads, look);
    EntryEngages(m1, key, threads, look);
    var a;
    a, w := RunsToEnd(Step(m1, key, threads, look), key, threads, c);
    more := [look] + a;
    assert more[0] == look && more[1..] == a;
  }

  /** A call still engaged when the value is stored spoils it: it moves the row on, or
      returns a second time. */
  lemma {:induction false} EngagedSpoils(m: Machine, key: Key, threads: seq<Thread>, t: nat, x: nat, v: Value)
    returns (more: Schedule)
    requires Ready(m, key, threads, t) && x < |m.pcs| && x != t && Holds(m.pcs[x], v)
    requires m.returned != [] && (m.pcs[t].Keeping? ==> |m.returned| >= 2)
    ensures Runnable(threads, key, more) && Guarded(m, key, threads, more)
    ensures !Sound(From(m, key, threads, more), key)
    decreases match m.pcs[t] case Calling(_) => 1 case Retrying => 2 case Acting(_) => 1 case _ => 0
  {
    more := [];
    if !m.pcs[t].Keeping? {
      var turn := Turn(t, Allow, 0);
      var m1 := Step(m, key, threads, turn);
      assert Safe(m, key, threads, turn) && Holds(m1.pcs[x], v);
      OneTurn(m, key, threads, turn);
      if m.pcs[t].Retrying? || (m.pcs[t].Acting? && m.pcs[t].decision.Allow?) || (m.pcs[t].Calling?
        && m1.pcs[t].Trying?) {
        var rest := EngagedSpoils(m1, key, threads, t, x, v);
        more := [turn] + rest;
        assert more[0] == turn && more[1..] == rest;
      } else {
        more := [turn];
        assert |m1.returned| >= 2 || m1.ledger.rows[key].status != Succeeded;
      }
    }
  }

  /** One of the two calls of a breach could return. */
  ghost predicate Contested(m: Machine, key: Key, threads: seq<Thread>, turn: Turn)
    requires |m.pcs| == |threads| && turn.thread < |threads|
  {
    Enters(m, key, threads, turn) && (exists u: nat :: Rival(m, turn.thread, u)) ==>
      Gives(threads[turn.thread].req, 0) || exists u: nat :: Rival(m, turn.thread, u) && CanReturn(threads[u], m.pcs[u])
  }

  /** Whatever follows, as long as the guard is kept from then on, is sound. */
  ghost predicate StaysSound(m: Machine, key: Key, threads: seq<Thread>)
    requires |m.pcs| == |threads|
  {
    forall more :: Runnable(threads, key, more) && Guarded(m, key, threads, more) ==>
      Sound(From(m, key, threads, more), key)
  }

  lemma SafeStaysSound(m: Machine, key: Key, threads: seq<Thread>, turn: Turn)
    requires |m.pcs| == |threads| && Fits(threads, key, turn) && Safe(m, key, threads, turn)
    requires Orderly(m, key, threads)
    ensures StaysSound(Step(m, key, threads, turn), key, threads)
  {
    var m1 := Step(m, key, threads, turn);
    SafeStepKeeps(m, key, threads, turn);
    forall more | Runnable(threads, key, more) && Guarded(m1, key, threads, more)
      ensures Sound(From(m1, key, threads, more), key)
    {
      GuardedKeeps(m1, key, threads, more);
      OrderlyIsSound(From(m1, key, threads, more), key, threads);
    }
  }

  /** A caller that enters while another is engaged: if either can return, the other one
      spoils what it stores. */
  lemma EntrySpoils(m: Machine, key: Key, threads: seq<Thread>, turn: Turn, u: nat)
    requires |m.pcs| == |threads| && Fits(threads, key, turn) && Runnable(threads, key, [])
    requires Orderly(m, key, threads) && Enters(m, key, threads, turn) && Rival(m, turn.thread, u)
    requires Gives(threads[turn.thread].req, 0) || CanReturn(threads[u], m.pcs[u])
    ensures !StaysSound(Step(m, key, threads, turn), key, threads)
  {
    var t, m1 := turn.thread, Step(m, key, threads, turn);
    EntryEngages(m, key, threads, turn);
    var first, second := if CanReturn(threads[u], m.pcs[u]) then u else t,
      if CanReturn(threads[u], m.pcs[u]) then t else u;
    var a, v := RunsToEnd(m1, key, threads, first);
    var m2 := From(m1, key, threads, a);
    assert Holds(m2.pcs[first], v) && m2.pcs[second] == m1.pcs[second];
    assert m.pcs[u].Keeping? ==> m.returned == [(u, m.pcs[u].v)];
    var b := EngagedSpoils(m2, key, threads, second, first, v);
    Joined(m1, key, threads, a, b);
    assert !Sound(From(m1, key, threads, a + b), key);
  }

  lemma MarkSpoils(m: Machine, key: Key, threads: seq<Thread>, turn: Turn)
    requires |m.pcs| == |threads| && Fits(threads, key, turn) && Runnable(threads, key, [])
    requires Orderly(m, key, threads) && Marks(m, key, threads, turn) && m.ledger.rows[key].status == Succeeded
    ensures !StaysSound(Step(m, key, threads, turn), key, threads)
  {
    var m1 := Step(m, key, threads, turn);
    var x :| 0 <= x < |m.pcs| && Holds(m.pcs[x], m.ledger.rows[key].result);
    assert Holds(m1.pcs[x], m.ledger.rows[key].result);
    assert Guarded(m1, key, threads, []) && From(m1, key, threads, []) == m1;
    assert !Sound(From(m1, key, threads, []), key);
  }

  lemma GuardedReaches(rows: map<Key, Row>, key: Key, threads: seq<Thread>, schedule: Schedule)
    requires Runnable(threads, key, schedule) && key !in rows && Guarded(Begin(rows, threads), key, threads, schedule)
    ensures Orderly(Exec(rows, key, threads, schedule), key, threads)
  {
    ExecIsFrom(rows, key, threads, schedule);
    BeginIsOrderly(rows, key, threads);
    GuardedKeeps(Begin(rows, threads), key, threads, schedule);
  }

  lemma OrderlyExact(m: Machine, key: Key, threads: seq<Thread>, turn: Turn)
    requires |m.pcs| == |threads| && Fits(threads, key, turn) && Runnable(threads, key, [])
    requires Orderly(m, key, threads) && Contested(m, key, threads, turn)
    ensures Safe(m, key, threads, turn) <==> StaysSound(Step(m, key, threads, turn), key, threads)
  {
    if Safe(m, key, threads, turn) {
      SafeStaysSound(m, key, threads, turn);
    } else if Enters(m, key, threads, turn) {
      var u: nat :| Rival(m, turn.thread, u) && (Gives(threads[turn.thread].req, 0) || CanReturn(threads[u], m.pcs[u]));
      EntrySpoils(m, key, threads, turn, u);
    } else {
      MarkSpoils(m, key, threads, turn);
    }
  }

  /** The guard is exact: after a run that kept it, the next turn is safe if and only if
      nothing unsound can follow as long as the guard is kept from then on. */
  lemma GuardIsExact(rows: map<Key, Row>, key: Key, threads: seq<Thread>, schedule: Schedule, turn: Turn)
    requires Runnable(threads, key, schedule) && Fits(threads, key, turn) && key !in rows
    requires Guarded(Begin(rows, threads), key, threads, schedule)
    requires Contested(Exec(rows, key, threads, schedule), key, threads, turn)
    ensures var m := Exec(rows, key, threads, schedule);
            Safe(m, key, threads, turn) <==> StaysSound(Step(m, key, threads, turn), key, threads)
  {
    GuardedReaches(rows, key, threads, schedule);
    OrderlyExact(Exec(rows, key, threads, schedule), key, threads, turn);
  }

  /** The calls of a breach that can return. */
  ghost predicate BothCanReturn(m: Machine, key: Key, threads: seq<Thread>, turn: Turn)
    requires |m.pcs| == |threads| && turn.thread < |threads|
  {
    if threads[turn.thread].Caller? then
      Gives(threads[turn.thread].req, 0) && exists u: nat :: Rival(m, turn.thread, u) && CanReturn(threads[u], m.pcs[u])
    else
      && threads[turn.thread].approves
      && exists c :: 0 <= c < |threads| && threads[c].Caller? && m.pcs[c].Start? && Gives(threads[c].req, 0)
  }

  ghost predicate CanReturnTwice(m: Machine, key: Key, threads: seq<Thread>)
    requires |m.pcs| == |threads|
  {
    exists more :: (Runnable(threads, key, more) && Guarded(m, key, threads, more)
                    && |From(m, key, threads, more).returned| >= 2)
  }

  lemma OrderlyBreach(m: Machine, key: Key, threads: seq<Thread>, turn: Turn)
    requires |m.pcs| == |threads| && Fits(threads, key, turn) && Runnable(threads, key, [])
    requires Orderly(m, key, threads) && !Safe(m, key, threads, turn) && BothCanReturn(m, key, threads, turn)
    ensures CanReturnTwice(Step(m, key, threads, turn), key, threads)
  {
    if threads[turn.thread].Caller? {
      var u: nat :| Rival(m, turn.thread, u) && CanReturn(threads[u], m.pcs[u]);
      var more, v, w := EntryRunsTwice(m, key, threads, turn, u);
    } else {
      var c :| 0 <= c < |threads| && threads[c].Caller? && m.pcs[c].Start? && Gives(threads[c].req, 0);
      var more, w := LateApprovalRunsTwice(m, key, threads, turn, c);
    }
  }

  /** And a first breach lets the key's function return twice, with no further one, if the
      functions involved can return. */
  lemma BreachReturnsTwice(rows: map<Key, Row>, key: Key, threads: seq<Thread>, schedule: Schedule, turn: Turn)
    requires Runnable(threads, key, schedule) && Fits(threads, key, turn) && key !in rows
    requires Guarded(Begin(rows, threads), key, threads, schedule)
    requires !Safe(Exec(rows, key, threads, schedule), key, threads, turn)
    requires BothCanReturn(Exec(rows, key, threads, schedule), key, threads, turn)
    ensures CanReturnTwice(Step(Exec(rows, key, threads, schedule), key, threads, turn), key, threads)
  {
    GuardedReaches(rows, key, threads, schedule);
    OrderlyBreach(Exec(rows, key, threads, schedule), key, threads, turn);
  }

  // ---------------------------------------------------------------- two breaches, from the empty ledger

  /** Thread 0 has claimed the key and stands at pc; nobody else has moved. */
  predicate Alone(m: Machine, key: Key, threads: seq<Thread>, pc: Pc, status: Status)
    requires threads != []
  {
    && m.pcs == seq(|threads|, _ => Start)[0 := pc]
    && key in m.ledger.rows && m.ledger.rows[key].status == status
    && m.claims == [0] && m.returned == []
  }

  predicate Company(key: Key, threads: seq<Thread>) {
    Runnable(threads, key, []) && threads != [] && threads[0].Caller?
  }

  lemma OneAndMore(m: Machine, key: Key, threads: seq<Thread>, turn: Turn, more: Schedule)
    requires |m.pcs| == |threads| && Runnable(threads, key, more) && turn.thread < |threads|
    ensures Runnable(threads, key, [turn] + more)
    ensures From(m, key, threads, [turn] + more) == From(Step(m, key, threads, turn), key, threads, more)
  {
    assert ([turn] + more)[0] == turn && ([turn] + more)[1..] == more;
  }

  /** Thread 0 reads, evaluates its policies and inserts the row. */
  lemma ClaimsAlone(key: Key, threads: seq<Thread>, decision: Decision) returns (s: Schedule)
    requires Company(key, threads)
    ensures Runnable(threads, key, s)
    ensures Alone(From(Begin(map[], threads), key, threads, s), key, threads, Acting(decision), Pending)
  {
    var turn := Turn(0, decision, 0);
    var m0 := Begin(map[], threads);
    var m1 := Step(m0, key, threads, turn);
    var m2 := Step(m1, key, threads, turn);
    assert m1 == m0.(pcs := m0.pcs[0 := Fresh]) && m2 == m0.(pcs := m0.pcs[0 := Claiming(decision)]);
    OneAndMore(m2, key, threads, turn, []);
    OneAndMore(m1, key, threads, turn, [turn] + []);
    OneAndMore(m0, key, threads, turn, [turn] + ([turn] + []));
    s := [turn] + ([turn] + ([turn] + []));
  }

  /** Its only attempt fails. */
  lemma FailsAlone(m: Machine, key: Key, threads: seq<Thread>) returns (s: Schedule)
    requires Company(key, threads) && threads[0].req.retries == 0 && threads[0].req.execute(0).Raised?
    requires Alone(m, key, threads, Acting(Allow), Pending)
    ensures Runnable(threads, key, s)
    ensures var raise := threads[0].req.execute(0).raise;
            Alone(From(m, key, threads, s), key, threads, Over(Threw(raise)), Failed)
  {
    var turn := Turn(0, Allow, 0);
    var raise := threads[0].req.execute(0).raise;
    var m1 := Step(m, key, threads, turn);
    var m2 := Step(m1, key, threads, turn);
    var m3 := Step(m2, key, threads, turn);
    assert Alone(m1, key, threads, Trying(0, NoError), Pending);
    assert Alone(m2, key, threads, Calling(0), Running);
    assert Alone(m3, key, threads, Trying(1, raise), Running);
    OneAndMore(m3, key, threads, turn, []);
    OneAndMore(m2, key, threads, turn, [turn] + []);
    OneAndMore(m1, key, threads, turn, [turn] + ([turn] + []));
    OneAndMore(m, key, threads, turn, [turn] + ([turn] + ([turn] + [])));
    s := [turn] + ([turn] + ([turn] + ([turn] + [])));
  }

  /** From the empty ledger, through a failed row: one call fails, two others find the row
      failed, and both of those return. */
  lemma ReentryRunsTwice(key: Key, failing: Request, second: Request, third: Request)
    requires failing.key == key && failing.retries == 0 && failing.execute(0).Raised?
    requires second.key == key && Gives(second, 0) && third.key == key && Gives(third, 0)
    ensures var threads := [Caller(failing), Caller(second), Caller(third)];
            exists schedule, v, w :: (Runnable(threads, key, schedule)
              && var m := Exec(map[], key, threads, schedule);
                 m.claims == [0] && m.returned == [(2, v), (1, w)]
                 && m.pcs[1] == Over(Got(w)) && m.pcs[2] == Over(Got(v)))
  {
    var threads := [Caller(failing), Caller(second), Caller(third)];
    var m0 := Begin(map[], threads);
    var a := FailedRow(key, threads);
    var b, v, w := BothEnterFailed(From(m0, key, threads, a), key, threads);
    Joined(m0, key, threads, a, b);
    ExecIsFrom(map[], key, threads, a + b);
  }

  /** From the empty ledger to a failed row, nobody but thread 0 having moved. */
  lemma FailedRow(key: Key, threads: seq<Thread>) returns (s: Schedule)
    requires Company(key, threads) && threads[0].req.retries == 0 && threads[0].req.execute(0).Raised?
    ensures Runnable(threads, key, s)
    ensures Alone(From(Begin(map[], threads), key, threads, s), key, threads,
                  Over(Threw(threads[0].req.execute(0).raise)), Failed)
  {
    var m0 := Begin(map[], threads);
    var a := ClaimsAlone(key, threads, Allow);
    var b := FailsAlone(From(m0, key, threads, a), key, threads);
    Joined(m0, key, threads, a, b);
    s := a + b;
  }

  lemma BothEnterFailed(m: Machine, key: Key, threads: seq<Thread>) returns (s: Schedule, v: Value, w: Value)
    requires Company(key, threads) && |threads| == 3 && |m.pcs| == 3
    requires threads[1].Caller? && Gives(threads[1].req, 0) && threads[2].Caller? && Gives(threads[2].req, 0)
    requires key in m.ledger.rows && m.ledger.rows[key].status == Failed
    requires m.pcs[1].Start? && m.pcs[2].Start? && m.returned == []
    ensures Runnable(threads, key, s)
    ensures var m' := From(m, key, threads, s);
            && m'.claims == m.claims && m'.returned == [(2, v), (1, w)]
            && m'.pcs == m.pcs[1 := Over(Got(w))][2 := Over(Got(v))]
  {
    var one, two := Turn(1, Allow, 0), Turn(2, Allow, 0);
    var m1 := Step(m, key, threads, one);
    EntryEngages(m, key, threads, one);
    assert Rival(m1, 2, 1);
    var more;
    more, v, w := EntryRunsTwice(m1, key, threads, two, 1);
    OneAndMore(m1, key, threads, two, more);
    OneAndMore(m, key, threads, one, [two] + more);
    s := [one] + ([two] + more);
    ClaimsGrow(m, key, threads, s);
  }

  /** Once the row exists nobody claims. */
  lemma {:induction false} ClaimsGrow(m: Machine, key: Key, threads: seq<Thread>, s: Schedule)
    requires |m.pcs| == |threads| && Runnable(threads, key, s) && key in m.ledger.rows
    ensures From(m, key, threads, s).claims == m.claims
    decreases |s|
  {
    if s != [] {
      assert Fits(threads, key, s[0]);
      ClaimsGrow(Step(m, key, threads, s[0]), key, threads, s[1..]);
    }
  }

  /** Its policies ask for approval. */
  lemma ParksAlone(m: Machine, key: Key, threads: seq<Thread>, reason: Reason)
    requires Company(key, threads) && Alone(m, key, threads, Acting(RequireApproval(reason)), Pending)
    ensures var m' := Step(m, key, threads, Turn(0, Allow, 0));
            Alone(m', key, threads, Over(Threw(ApprovalRequired(reason))), AwaitingApproval)
  {
  }

  /** From the empty ledger, through two approvals: both reviewers see the row awaiting
      approval, the first approves it, a call runs and is over, and the second reviewer's
      approval lets one more call run. */
  lemma TwoApproversRunTwice(key: Key, parked: Request, second: Request, third: Request, why: Reason, reason: Reason)
    requires parked.key == key && second.key == key && third.key == key && Gives(second, 0) && Gives(third, 0)
    ensures var threads := [Caller(parked), Reviewer(true, why), Reviewer(true, why), Caller(second), Caller(third)];
            exists schedule, v, w :: (Runnable(threads, key, schedule)
              && var m := Exec(map[], key, threads, schedule);
                 m.claims == [0] && m.returned == [(3, v), (4, w)]
                 && m.pcs[3] == Over(Got(v)) && m.pcs[4] == Over(Got(w)))
  {
    var threads := [Caller(parked), Reviewer(true, why), Reviewer(true, why), Caller(second), Caller(third)];
    var m0 := Begin(map[], threads);
    var a := ParkedRow(key, threads, reason);
    var b, v, w := ApprovedTwice(From(m0, key, threads, a), key, threads);
    Joined(m0, key, threads, a, b);
    ExecIsFrom(map[], key, threads, a + b);
  }

  /** From the empty ledger to a row awaiting approval, nobody but thread 0 having moved. */
  lemma ParkedRow(key: Key, threads: seq<Thread>, reason: Reason) returns (s: Schedule)
    requires Company(key, threads)
    ensures Runnable(threads, key, s)
    ensures Alone(From(Begin(map[], threads), key, threads, s), key, threads,
                  Over(Threw(ApprovalRequired(reason))), AwaitingApproval)
  {
    var m0, park := Begin(map[], threads), Turn(0, Allow, 0);
    var a := ClaimsAlone(key, threads, RequireApproval(reason));
    ParksAlone(From(m0, key, threads, a), key, threads, reason);
    OneTurn(From(m0, key, threads, a), key, threads, park);
    Joined(m0, key, threads, a, [park]);
    s := a + [park];
  }

  predicate Panel(m: Machine, key: Key, threads: seq<Thread>) {
    && |threads| == 5 && |m.pcs| == 5 && Runnable(threads, key, [])
    && threads[1].Reviewer? && threads[1].approves && threads[2].Reviewer? && threads[2].approves
    && threads[3].Caller? && threads[4].Caller?
    && key in m.ledger.rows
  }

  /** Both reviewers see the row awaiting approval, and the first marks it. */
  lemma OneApproves(m: Machine, key: Key, threads: seq<Thread>) returns (s: Schedule)
    requires Panel(m, key, threads) && m.ledger.rows[key].status == AwaitingApproval
    requires m.pcs[1].Start? && m.pcs[2].Start?
    ensures Runnable(threads, key, s)
    ensures var m' := From(m, key, threads, s);
            && Panel(m', key, threads) && m'.ledger.rows[key].status == Approved && m'.returned == m.returned
            && m'.pcs == m.pcs[1 := Pc.Reviewed][2 := Reviewing]
  {
    var one, two := Turn(1, Allow, 0), Turn(2, Allow, 0);
    var m1 := Step(m, key, threads, one);
    var m2 := Step(m1, key, threads, two);
    assert m2.pcs == m.pcs[1 := Reviewing][2 := Reviewing] && m2.ledger == m.ledger;
    OneAndMore(m2, key, threads, one, []);
    OneAndMore(m1, key, threads, two, [one] + []);
    OneAndMore(m, key, threads, one, [two] + ([one] + []));
    s := [one] + ([two] + ([one] + []));
  }

  /** A call enters the approved row and runs to its end. */
  lemma ApprovedRuns(m: Machine, key: Key, threads: seq<Thread>, t: nat) returns (s: Schedule, v: Value)
    requires |m.pcs| == |threads| && Runnable(threads, key, []) && t < |threads|
    requires threads[t].Caller? && m.pcs[t].Start? && Gives(threads[t].req, 0)
    requires key in m.ledger.rows && m.ledger.rows[key].status == Approved
    ensures Runnable(threads, key, s) && Ended(m, From(m, key, threads, s), key, t, v)
  {
    var look := Turn(t, Allow, 0);
    EntryEngages(m, key, threads, look);
    var a;
    a, v := RunsToEnd(Step(m, key, threads, look), key, threads, t);
    OneAndMore(m, key, threads, look, a);
    s := [look] + a;
  }

  /** A call runs to its end on the approved row; a reviewer who looked before that marks
      the row again, and another call runs. */
  lemma OneRunsThenAnother(m: Machine, key: Key, threads: seq<Thread>, r: nat, t: nat, c: nat)
    returns (s: Schedule, v: Value, w: Value)
    requires |m.pcs| == |threads| && Runnable(threads, key, []) && r < |threads| && t < |threads| && c < |threads|
    requires threads[r].Reviewer? && threads[r].approves && m.pcs[r].Reviewing? && t != c
    requires threads[t].Caller? && m.pcs[t].Start? && Gives(threads[t].req, 0)
    requires threads[c].Caller? && m.pcs[c].Start? && Gives(threads[c].req, 0)
    requires key in m.ledger.rows && m.ledger.rows[key].status == Approved
    requires forall u :: 0 <= u < |m.pcs| ==> !Engaged(m.pcs[u])
    ensures Runnable(threads, key, s)
    ensures var m' := From(m, key, threads, s);
            && m'.returned == m.returned + [(t, v)] + [(c, w)]
            && m'.pcs == m.pcs[t := Over(Got(v))][r := Pc.Reviewed][c := Over(Got(w))]
  {
    var mark := Turn(r, Allow, 0);
    var a, b;
    a, v := ApprovedRuns(m, key, threads, t);
    var m1 := From(m, key, threads, a);
    assert Ended(m, m1, key, t, v);
    b, w := LateApprovalRunsTwice(m1, key, threads, mark, c);
    OneAndMore(m1, key, threads, mark, b);
    s := a + ([mark] + b);
    FromJoined(m, key, threads, a, [mark] + b);
  }

  lemma ApprovedTwice(m: Machine, key: Key, threads: seq<Thread>) returns (s: Schedule, v: Value, w: Value)
    requires Panel(m, key, threads) && Gives(threads[3].req, 0) && Gives(threads[4].req, 0)
    requires m.ledger.rows[key].status == AwaitingApproval && m.returned == []
    requires !Engaged(m.pcs[0]) && forall t :: 1 <= t < 5 ==> m.pcs[t].Start?
    ensures Runnable(threads, key, s)
    ensures var m' := From(m, key, threads, s);
            && m'.claims == m.claims && m'.returned == [(3, v), (4, w)]
            && m'.pcs[3] == Over(Got(v)) && m'.pcs[4] == Over(Got(w))
  {
    var a := OneApproves(m, key, threads);
    var m3 := From(m, key, threads, a);
    assert forall t :: 0 <= t < 5 ==> !Engaged(m3.pcs[t]);
    var b;
    b, v, w := OneRunsThenAnother(m3, key, threads, 2, 3, 4);
    assert m3.returned + [(3, v)] + [(4, w)] == [(3, v), (4, w)];
    s := a + b;
    assert From(m, key, threads, s) == From(m3, key, threads, b) by { Joined(m, key, threads, a, b); }
    assert From(m, key, threads, s).claims == m.claims by { ClaimsGrow(m, key, threads, s); }
  }
}
