/** Many run() calls and reviewer decisions on one key at once: each store operation
    and each call of the caller's function is one step, and any thread may take the
    next one.  What the policies decide under interleaving is left arbitrary. */
module Claim {
  import opened Prelude
  import opened ActionLedger
  import opened Policies
  import opened RunSpec

  datatype Thread = Caller(req: Request) | Reviewer(approves: bool, why: Reason)

  datatype Pc =
    | Start                                  // about to read the row
    | Fresh                                  // saw no row, about to evaluate the policies
    | Claiming(decision: Decision)           // about to insert the row
    | Lost                                   // somebody else inserted it
    | Retrying                               // saw a failed row, about to evaluate the policies
    | Acting(decision: Decision)             // about to act on the decision
    | Trying(attempt: int, last: Raise)      // at the top of the retry loop
    | Calling(attempt: int)                  // marked running, about to call the function
    | Keeping(v: Value)                      // the function returned, about to store that
    | Over(end: End)
    | Reviewing                              // saw a row awaiting approval, about to mark it
    | Reviewed

  /** Three histories: who inserted the row, who called its function, and whose function
      returned what. */
  datatype Machine = Machine(ledger: Ledger, pcs: seq<Pc>, claims: seq<nat>, callers: seq<nat>,
                             returned: seq<(nat, Value)>)

  // ---------------------------------------------------------------- one thread's step

  function Look(l: Ledger, key: Key): Pc {
    if key !in l.rows then Fresh
    else
      var row := l.rows[key];
      match row.status
      case Succeeded => Over(Got(row.result))
      case Approved => Trying(0, NoError)
      case AwaitingApproval => Over(Threw(ApprovalRequired(ReasonOr(row.reason, "approval required"))))
      case Rejected => Over(Threw(ActionRejected(row.reason)))
      case Denied => Over(Threw(PolicyDenied(ReasonOr(row.reason, "denied by policy"))))
      case Pending => Over(Threw(DuplicateInFlight))
      case Running => Over(Threw(DuplicateInFlight))
      case Failed => Retrying
  }

  function Settle(l: Ledger, key: Key): Pc {
    if key in l.rows && l.rows[key].status == Succeeded then Over(Got(l.rows[key].result))
    else Over(Threw(DuplicateInFlight))
  }

  function Act(l: Ledger, key: Key, decision: Decision): (Ledger, Pc) {
    match decision
    case Deny(reason) => (MarkDenied(l, key, reason), Over(Threw(PolicyDenied(reason))))
    case RequireApproval(reason) => (MarkAwaitingApproval(l, key, reason), Over(Threw(ApprovalRequired(reason))))
    case Allow => (l, Trying(0, NoError))
  }

  function Try(l: Ledger, req: Request, attempt: int, last: Raise): (Ledger, Pc) {
    if attempt > req.retries then (MarkFailed(l, req.key, last), Over(Threw(last)))
    else (MarkRunning(l, req.key), Calling(attempt))
  }

  function Call(l: Ledger, req: Request, attempt: int): (Ledger, Pc) {
    var done := req.execute(attempt);
    (Note(l, Executed(req.key, req.given, done)),
     match done
     case Gave(v) => Keeping(v)
     case Raised(raise) => Trying(attempt + 1, raise))
  }

  function CallerStep(l: Ledger, req: Request, pc: Pc, decision: Decision, now: int): (Ledger, Pc) {
    match pc
    case Start => (l, Look(l, req.key))
    case Fresh => (l, Claiming(decision))
    case Claiming(d) =>
      if req.key in l.rows then (l, Lost) else (InsertPending(l, req.key, req.cost, now), Acting(d))
    case Lost => (l, Settle(l, req.key))
    case Retrying => (l, Acting(decision))
    case Acting(d) => Act(l, req.key, d)
    case Trying(attempt, last) => Try(l, req, attempt, last)
    case Calling(attempt) => Call(l, req, attempt)
    case Keeping(v) => (MarkSucceeded(l, req.key, v), Over(Got(v)))
    case _ => (l, pc)
  }

  function ReviewerStep(l: Ledger, key: Key, approves: bool, why: Reason, pc: Pc): (Ledger, Pc) {
    match pc
    case Start => (l, if ReviewOf(l, key).Reviewed? then Reviewing else Pc.Reviewed)
    case Reviewing => (if approves then MarkApproved(l, key) else MarkRejected(l, key, why), Pc.Reviewed)
    case _ => (l, pc)
  }

  function ThreadStep(l: Ledger, key: Key, thread: Thread, pc: Pc, turn: Turn): (Ledger, Pc) {
    match thread
    case Caller(req) => CallerStep(l, req, pc, turn.decision, turn.now)
    case Reviewer(approves, why) => ReviewerStep(l, key, approves, why, pc)
  }

  function Step(m: Machine, key: Key, threads: seq<Thread>, turn: Turn): Machine
    requires |m.pcs| == |threads| && turn.thread < |threads|
  {
    var t := turn.thread;
    var (l, pc) := ThreadStep(m.ledger, key, threads[t], m.pcs[t], turn);
    Machine(l, m.pcs[t := pc],
            if m.pcs[t].Claiming? && pc.Acting? then m.claims + [t] else m.claims,
            if m.pcs[t].Calling? then m.callers + [t] else m.callers,
            if m.pcs[t].Calling? && pc.Keeping? then m.returned + [(t, pc.v)] else m.returned)
  }

  /** One thread's turn: what its policies decide, if it is at that point, and the clock. */
  datatype Turn = Turn(thread: nat, decision: Decision, now: int)

  type Schedule = seq<Turn>

  predicate Fits(threads: seq<Thread>, key: Key, turn: Turn) {
    turn.thread < |threads| && (threads[turn.thread].Caller? ==> threads[turn.thread].req.key == key)
  }

  predicate Runnable(threads: seq<Thread>, key: Key, schedule: Schedule) {
    && (forall t :: 0 <= t < |threads| && threads[t].Caller? ==> threads[t].req.key == key)
    && (forall i :: 0 <= i < |schedule| ==> schedule[i].thread < |threads|)
  }

  function Begin(rows: map<Key, Row>, threads: seq<Thread>): Machine {
    Machine(Ledger(rows, []), seq(|threads|, _ => Start), [], [], [])
  }

  function Exec(rows: map<Key, Row>, key: Key, threads: seq<Thread>, schedule: Schedule): (m: Machine)
    requires Runnable(threads, key, schedule)
    ensures |m.pcs| == |threads|
  {
    if schedule == [] then Begin(rows, threads)
    else
      var n := |schedule| - 1;
      Step(Exec(rows, key, threads, schedule[..n]), key, threads, schedule[n])
  }

  // ---------------------------------------------------------------- the invariant

  /** The first status of the row other than pending and running, once it has had one. */
  function FirstSettled(log: seq<Entry>, key: Key): Option<Status> {
    if log == [] then None
    else
      var e := log[|log| - 1];
      var earlier := FirstSettled(log[..|log| - 1], key);
      if earlier.Some? then earlier
      else if e.Moved? && e.key == key && e.to != Pending && e.to != Running then Some(e.to)
      else None
  }

  lemma FirstSettledSnoc(log: seq<Entry>, e: Entry, key: Key)
    ensures FirstSettled(log + [e], key)
         == var earlier := FirstSettled(log, key);
            if earlier.Some? then earlier
            else if e.Moved? && e.key == key && e.to != Pending && e.to != Running then Some(e.to)
            else None
  {
    assert (log + [e])[..|log|] == log;
  }

  /** Not between claiming the key and finishing. */
  predicate Outside(pc: Pc) {
    pc.Start? || pc.Fresh? || pc.Claiming? || pc.Lost? || pc.Reviewed? || (pc.Over? && pc.end.Threw?)
  }

  predicate Unclaimed(m: Machine) {
    && m.claims == [] && m.callers == []
    && forall t :: 0 <= t < |m.pcs| ==> Outside(m.pcs[t]) && !m.pcs[t].Lost?
  }

  predicate Inside(pc: Pc, status: Status) {
    match pc
    case Acting(_) => status == Pending
    case Trying(_, _) => status == Pending || status == Running
    case Calling(_) => status == Running
    case Keeping(_) => status == Running
    case _ => false
  }

  predicate OnlyCaller(m: Machine, w: nat) {
    && (forall i :: 0 <= i < |m.callers| ==> m.callers[i] == w)
    && m.claims == [w] && w < |m.pcs|
  }

  /** The winner is at work and everybody else is outside. */
  predicate Working(m: Machine, key: Key)
    requires key in m.ledger.rows
  {
    && |m.claims| == 1 && OnlyCaller(m, m.claims[0])
    && Inside(m.pcs[m.claims[0]], m.ledger.rows[key].status)
    && forall t :: 0 <= t < |m.pcs| && t != m.claims[0] ==> Outside(m.pcs[t])
  }

  /** The winner's result stands, and is all anybody can return. */
  predicate Won(m: Machine, key: Key)
    requires key in m.ledger.rows
  {
    && |m.claims| == 1 && OnlyCaller(m, m.claims[0])
    && m.ledger.rows[key].status == Succeeded
    && m.pcs[m.claims[0]] == Over(Got(m.ledger.rows[key].result))
    && forall t :: 0 <= t < |m.pcs| ==> Outside(m.pcs[t]) || m.pcs[t] == Over(Got(m.ledger.rows[key].result))
  }

  predicate Inv(m: Machine, key: Key) {
    var first := FirstSettled(m.ledger.log, key);
    if key !in m.ledger.rows then first.None? && Unclaimed(m)
    else if first.None? then Working(m, key)
    else if first.value == Succeeded then Won(m, key)
    else |m.claims| == 1
  }

  // ---------------------------------------------------------------- every step keeps it

  lemma MoveSettles(l: Ledger, key: Key, patched: Row -> Row)
    requires key in l.rows && FirstSettled(l.log, key).None?
    ensures var to := patched(l.rows[key]).status;
            FirstSettled(Patch(l, key, patched).log, key) == if to == Pending || to == Running then None else Some(to)
  {
    FirstSettledSnoc(l.log, Moved(key, l.rows[key].status, patched(l.rows[key]).status), key);
  }

  lemma UnclaimedStep(m: Machine, key: Key, threads: seq<Thread>, turn: Turn)
    requires |m.pcs| == |threads| && Fits(threads, key, turn)
    requires key !in m.ledger.rows && Inv(m, key)
    ensures Inv(Step(m, key, threads, turn), key)
  {
    var t := turn.thread;
    assert Outside(m.pcs[t]) && !m.pcs[t].Lost?;
    if threads[t].Caller? && m.pcs[t].Claiming? {
      FirstSettledSnoc(m.ledger.log, Inserted(key), key);
    }
  }

  /** The winner's next step is from a to b. */
  ghost predicate WinnerMoves(m: Machine, m': Machine, key: Key) {
    && key in m.ledger.rows && key in m'.ledger.rows && Working(m, key) && |m'.pcs| == |m.pcs|
    && m'.claims == m.claims && (m'.callers == m.callers || m'.callers == m.callers + [m.claims[0]])
    && m'.pcs == m.pcs[m.claims[0] := m'.pcs[m.claims[0]]]
  }

  lemma WinnerGoesOn(m: Machine, m': Machine, key: Key)
    requires WinnerMoves(m, m', key) && FirstSettled(m'.ledger.log, key).None?
    requires Inside(m'.pcs[m.claims[0]], m'.ledger.rows[key].status)
    ensures Inv(m', key)
  {
  }

  lemma WinnerSettles(m: Machine, m': Machine, key: Key)
    requires WinnerMoves(m, m', key) && FirstSettled(m'.ledger.log, key).Some?
    requires FirstSettled(m'.ledger.log, key) == Some(Succeeded) ==>
      && m'.ledger.rows[key].status == Succeeded
      && m'.pcs[m.claims[0]] == Over(Got(m'.ledger.rows[key].result))
    ensures Inv(m', key)
  {
  }

  lemma WinnerActs(m: Machine, key: Key, threads: seq<Thread>, turn: Turn)
    requires |m.pcs| == |threads| && Fits(threads, key, turn) && threads[turn.thread].Caller?
    requires key in m.ledger.rows && FirstSettled(m.ledger.log, key).None? && Working(m, key)
             && turn.thread == m.claims[0] && m.pcs[turn.thread].Acting?
    ensures Inv(Step(m, key, threads, turn), key)
  {
    var m' := Step(m, key, threads, turn);
    match m.pcs[turn.thread].decision {
      case Deny(reason) =>
        MoveSettles(m.ledger, key, (r: Row) => r.(status := Denied, reason := Some(reason)));
        WinnerSettles(m, m', key);
      case RequireApproval(reason) =>
        MoveSettles(m.ledger, key, (r: Row) => r.(status := AwaitingApproval, reason := Some(reason)));
        WinnerSettles(m, m', key);
      case Allow => WinnerGoesOn(m, m', key);
    }
  }

  lemma WinnerTries(m: Machine, key: Key, threads: seq<Thread>, turn: Turn)
    requires |m.pcs| == |threads| && Fits(threads, key, turn) && threads[turn.thread].Caller?
    requires key in m.ledger.rows && FirstSettled(m.ledger.log, key).None? && Working(m, key)
             && turn.thread == m.claims[0] && m.pcs[turn.thread].Trying?
    ensures Inv(Step(m, key, threads, turn), key)
  {
    var req, m' := threads[turn.thread].req, Step(m, key, threads, turn);
    if m.pcs[turn.thread].attempt > req.retries {
      var last := m.pcs[turn.thread].last;
      MoveSettles(m.ledger, key, (r: Row) => r.(status := Failed, error := Some(last)));
      WinnerSettles(m, m', key);
    } else {
      MoveSettles(m.ledger, key, (r: Row) => r.(status := Running, attempts := r.attempts + 1));
      WinnerGoesOn(m, m', key);
    }
  }

  lemma WinnerCalls(m: Machine, key: Key, threads: seq<Thread>, turn: Turn)
    requires |m.pcs| == |threads| && Fits(threads, key, turn) && threads[turn.thread].Caller?
    requires key in m.ledger.rows && FirstSettled(m.ledger.log, key).None? && Working(m, key)
             && turn.thread == m.claims[0] && (m.pcs[turn.thread].Calling? || m.pcs[turn.thread].Keeping?)
    ensures Inv(Step(m, key, threads, turn), key)
  {
    var req, m' := threads[turn.thread].req, Step(m, key, threads, turn);
    if m.pcs[turn.thread].Calling? {
      FirstSettledSnoc(m.ledger.log, Executed(req.key, req.given, req.execute(m.pcs[turn.thread].attempt)), key);
      WinnerGoesOn(m, m', key);
    } else {
      var v := m.pcs[turn.thread].v;
      MoveSettles(m.ledger, key, (r: Row) => r.(status := Succeeded, result := v));
      WinnerSettles(m, m', key);
    }
  }

  /** While the winner works, its own steps. */
  lemma WinnerStep(m: Machine, key: Key, threads: seq<Thread>, turn: Turn)
    requires |m.pcs| == |threads| && Fits(threads, key, turn)
    requires key in m.ledger.rows && FirstSettled(m.ledger.log, key).None? && Working(m, key)
             && turn.thread == m.claims[0]
    ensures Inv(Step(m, key, threads, turn), key)
  {
    var t := turn.thread;
    if threads[t].Reviewer? {
      assert Step(m, key, threads, turn).ledger == m.ledger;
      WinnerGoesOn(m, Step(m, key, threads, turn), key);
    } else if m.pcs[t].Acting? {
      WinnerActs(m, key, threads, turn);
    } else if m.pcs[t].Trying? {
      WinnerTries(m, key, threads, turn);
    } else {
      WinnerCalls(m, key, threads, turn);
    }
  }

  lemma StepKeeps(m: Machine, key: Key, threads: seq<Thread>, turn: Turn)
    requires |m.pcs| == |threads| && Fits(threads, key, turn)
    requires Inv(m, key)
    ensures Inv(Step(m, key, threads, turn), key)
  {
    var t := turn.thread;
    var first := FirstSettled(m.ledger.log, key);
    if key !in m.ledger.rows {
      UnclaimedStep(m, key, threads, turn);
    } else if first.None? {
      if t == m.claims[0] {
        WinnerStep(m, key, threads, turn);
      } else {
        assert Outside(m.pcs[t]);
      }
    } else if first.value == Succeeded {
      assert Outside(m.pcs[t]) || m.pcs[t] == Over(Got(m.ledger.rows[key].result));
    } else {
      LaterStep(m, key, threads, turn);
    }
  }

  /** Whatever happens later, the row stays and nobody claims again. */
  lemma LaterStep(m: Machine, key: Key, threads: seq<Thread>, turn: Turn)
    requires |m.pcs| == |threads| && Fits(threads, key, turn)
    requires key in m.ledger.rows && FirstSettled(m.ledger.log, key).Some?
    ensures var m' := Step(m, key, threads, turn);
            && key in m'.ledger.rows && m'.claims == m.claims
            && FirstSettled(m'.ledger.log, key) == FirstSettled(m.ledger.log, key)
  {
    var m' := Step(m, key, threads, turn);
    assert m'.ledger.log == m.ledger.log
        || m'.ledger.log == m.ledger.log + [m'.ledger.log[|m.ledger.log|]];
    if m'.ledger.log != m.ledger.log {
      FirstSettledSnoc(m.ledger.log, m'.ledger.log[|m.ledger.log|], key);
    }
  }

  lemma {:induction false} ExecKeeps(rows: map<Key, Row>, key: Key, threads: seq<Thread>, schedule: Schedule)
    requires Runnable(threads, key, schedule) && key !in rows
    ensures Inv(Exec(rows, key, threads, schedule), key)
  {
    if schedule != [] {
      var n := |schedule| - 1;
      ExecKeeps(rows, key, threads, schedule[..n]);
      StepKeeps(Exec(rows, key, threads, schedule[..n]), key, threads, schedule[n]);
    }
  }

  // ---------------------------------------------------------------- the promises

  /** Past insertPending: it was tried, and either won or lost. */
  predicate Claimed(pc: Pc) {
    pc.Lost? || pc.Acting? || pc.Trying? || pc.Calling? || pc.Keeping?
  }

  /** Of the calls that reach insertPending exactly one wins it, ever. */
  lemma OneWinner(rows: map<Key, Row>, key: Key, threads: seq<Thread>, schedule: Schedule)
    requires Runnable(threads, key, schedule) && key !in rows
    ensures var m := Exec(rows, key, threads, schedule);
            && |m.claims| <= 1
            && (|m.claims| == 1 <==> key in m.ledger.rows)
            && ((exists t :: 0 <= t < |m.pcs| && Claimed(m.pcs[t])) ==> |m.claims| == 1)
  {
    ExecKeeps(rows, key, threads, schedule);
  }

  /** Until the row first leaves pending and running, only the winner has called its
      function, and nobody has returned: every call that is over has thrown. */
  lemma OnlyTheWinnerExecutes(rows: map<Key, Row>, key: Key, threads: seq<Thread>, schedule: Schedule)
    requires Runnable(threads, key, schedule) && key !in rows
    requires FirstSettled(Exec(rows, key, threads, schedule).ledger.log, key).None?
    ensures var m := Exec(rows, key, threads, schedule);
            && (forall i :: 0 <= i < |m.callers| ==> m.claims == [m.callers[i]])
            && (forall t :: 0 <= t < |m.pcs| && m.pcs[t].Over? ==> m.pcs[t].end.Threw?)
            && (forall t :: 0 <= t < |m.pcs| && (m.pcs[t].Trying? || m.pcs[t].Calling? || m.pcs[t].Keeping?) ==>
              m.claims == [t])
  {
    ExecKeeps(rows, key, threads, schedule);
  }

  /** If the row first settles as succeeded, the winner is the only one who ever calls
      its function, the stored result never changes, and every call that returns,
      returns it. */
  lemma OneResultForAll(rows: map<Key, Row>, key: Key, threads: seq<Thread>, schedule: Schedule)
    requires Runnable(threads, key, schedule) && key !in rows
    requires FirstSettled(Exec(rows, key, threads, schedule).ledger.log, key) == Some(Succeeded)
    ensures var m := Exec(rows, key, threads, schedule);
            && key in m.ledger.rows && m.ledger.rows[key].status == Succeeded
            && (forall i :: 0 <= i < |m.callers| ==> m.claims == [m.callers[i]])
            && (forall t :: 0 <= t < |m.pcs| && m.pcs[t].Over? && m.pcs[t].end.Got? ==>
                  m.pcs[t].end.v == m.ledger.rows[key].result)
  {
    ExecKeeps(rows, key, threads, schedule);
  }

  predicate ReturnedBySome(m: Machine, v: Value) {
    exists i :: 0 <= i < |m.returned| && m.returned[i].1 == v
  }

  /** Whatever a call holds or the row stores was returned by somebody's function. */
  predicate Earned(m: Machine, key: Key) {
    && (forall t :: 0 <= t < |m.pcs| && m.pcs[t].Keeping? ==> ReturnedBySome(m, m.pcs[t].v))
    && (forall t :: 0 <= t < |m.pcs| && m.pcs[t].Over? && m.pcs[t].end.Got? ==> ReturnedBySome(m, m.pcs[t].end.v))
    && (key in m.ledger.rows && m.ledger.rows[key].status == Succeeded ==> ReturnedBySome(m, m.ledger.rows[key].result))
  }

  lemma EarnedStep(m: Machine, key: Key, threads: seq<Thread>, turn: Turn)
    requires |m.pcs| == |threads| && Fits(threads, key, turn) && Earned(m, key)
    ensures Earned(Step(m, key, threads, turn), key)
  {
    var m' := Step(m, key, threads, turn);
    var t := turn.thread;
    forall v | ReturnedBySome(m, v) ensures ReturnedBySome(m', v) {
      var i :| 0 <= i < |m.returned| && m.returned[i].1 == v;
      assert m'.returned[i] == m.returned[i];
    }
    if m.pcs[t].Calling? && m'.pcs[t].Keeping? {
      assert m'.returned[|m.returned|] == (t, m'.pcs[t].v);
    }
  }

  /** t's last turn so far: it stored the value its own function returned, or found the
      value stored. */
  predicate StoredOrFound(m: Machine, key: Key, t: nat, v: Value)
    requires t < |m.pcs|
  {
    || m.pcs[t] == Keeping(v)
    || (key in m.ledger.rows && m.ledger.rows[key].status == Succeeded && m.ledger.rows[key].result == v)
  }

  lemma {:induction false} ExecEarned(rows: map<Key, Row>, key: Key, threads: seq<Thread>, schedule: Schedule)
    requires Runnable(threads, key, schedule) && key !in rows
    ensures Earned(Exec(rows, key, threads, schedule), key)
  {
    if schedule != [] {
      var n := |schedule| - 1;
      ExecEarned(rows, key, threads, schedule[..n]);
      EarnedStep(Exec(rows, key, threads, schedule[..n]), key, threads, schedule[n]);
    }
  }

  lemma {:induction false} FinishingTurn(rows: map<Key, Row>, key: Key, threads: seq<Thread>, schedule: Schedule,
                                         t: nat, v: Value)
    returns (n: nat)
    requires Runnable(threads, key, schedule) && t < |threads|
    requires Exec(rows, key, threads, schedule).pcs[t] == Over(Got(v))
    ensures n < |schedule| && schedule[n].thread == t
    ensures StoredOrFound(Exec(rows, key, threads, schedule[..n]), key, t, v)
  {
    var last := |schedule| - 1;
    var m := Exec(rows, key, threads, schedule[..last]);
    if m.pcs[t] == Over(Got(v)) {
      n := FinishingTurn(rows, key, threads, schedule[..last], t, v);
      assert schedule[..last][..n] == schedule[..n];
    } else {
      n := last;
      FinishedNow(m, key, threads, schedule[last], t, v);
    }
  }

  lemma FinishedNow(m: Machine, key: Key, threads: seq<Thread>, turn: Turn, t: nat, v: Value)
    requires |m.pcs| == |threads| && Fits(threads, key, turn) && t < |m.pcs|
    requires m.pcs[t] != Over(Got(v)) && Step(m, key, threads, turn).pcs[t] == Over(Got(v))
    ensures turn.thread == t && StoredOrFound(m, key, t, v)
  {
  }

  /** Under any interleaving at all, a call returns only a value that some caller's
      function returned, and at its last turn either stored it, being that caller, or
      found it stored. */
  lemma ReturnsStored(rows: map<Key, Row>, key: Key, threads: seq<Thread>, schedule: Schedule, t: nat, v: Value)
    requires Runnable(threads, key, schedule) && key !in rows && t < |threads|
    requires Exec(rows, key, threads, schedule).pcs[t] == Over(Got(v))
    ensures ReturnedBySome(Exec(rows, key, threads, schedule), v)
    ensures exists n :: 0 <= n < |schedule| && schedule[n].thread == t
                        && StoredOrFound(Exec(rows, key, threads, schedule[..n]), key, t, v)
  {
    ExecEarned(rows, key, threads, schedule);
    var n := FinishingTurn(rows, key, threads, schedule, t, v);
  }

  // ---------------------------------------------------------------- alone, it is run()

  /** One caller taking n steps with nobody else about, its policies deciding. */
  ghost function Solo(l: Ledger, req: Request, now: int, pc: Pc, n: nat): (Ledger, Pc)
    decreases n
  {
    if n == 0 then (l, pc)
    else
      var next := CallerStep(l, req, pc, Combined(req.policies, Context(req.key, req.cost), l.rows, now), now);
      Solo(next.0, req, now, next.1, n - 1)
  }

  lemma {:induction false} SoloExecutes(l: Ledger, req: Request, now: int, attempt: int, last: Raise, budget: nat)
    returns (n: nat)
    requires !Execute(l, req, attempt, last, budget).end.Crashed?
    ensures var r := Execute(l, req, attempt, last, budget);
            Solo(l, req, now, Trying(attempt, last), n) == (r.ledger, Over(r.end))
    decreases req.retries - attempt
  {
    if attempt > req.retries {
      n := 1;
    } else {
      var running := MarkRunning(l, req.key);
      var done := req.execute(attempt);
      var called := Note(running, Executed(req.key, req.given, done));
      match done {
        case Raised(raise) =>
          var k := SoloExecutes(called, req, now, attempt + 1, raise, budget - 2);
          n := k + 2;
          assert Solo(running, req, now, Calling(attempt), k + 1)
            == Solo(called, req, now, Trying(attempt + 1, raise), k);
        case Gave(v) =>
          n := 3;
          assert Solo(called, req, now, Keeping(v), 1) == (MarkSucceeded(called, req.key, v), Over(Got(v)));
          assert Solo(running, req, now, Calling(attempt), 2) == Solo(called, req, now, Keeping(v), 1);
      }
    }
  }

  lemma SoloDecides(l: Ledger, req: Request, now: int, decision: Decision, budget: nat) returns (n: nat)
    requires !Decide(l, req, decision, budget).end.Crashed?
    ensures var r := Decide(l, req, decision, budget);
            Solo(l, req, now, Acting(decision), n) == (r.ledger, Over(r.end))
  {
    n := 1;
    if decision.Allow? {
      var k := SoloExecutes(l, req, now, 0, NoError, budget);
      n := k + 1;
    }
  }

  /** With nobody else about, the steps add up to what run() does. */
  lemma AloneIsRun(l: Ledger, req: Request, now: int, budget: nat)
    requires !Run(l, req, now, budget).end.Crashed?
    ensures var r := Run(l, req, now, budget);
            exists n :: Solo(l, req, now, Start, n) == (r.ledger, Over(r.end))
  {
    var r := Run(l, req, now, budget);
    var decision := Combined(req.policies, Context(req.key, req.cost), l.rows, now);
    if req.key !in l.rows {
      var inserted := InsertPending(l, req.key, req.cost, now);
      var k := SoloDecides(inserted, req, now, decision, budget - 1);
      assert Solo(l, req, now, Claiming(decision), k + 1) == Solo(inserted, req, now, Acting(decision), k);
      assert Solo(l, req, now, Fresh, k + 2) == Solo(l, req, now, Claiming(decision), k + 1);
      assert Solo(l, req, now, Start, k + 3) == (r.ledger, Over(r.end));
    } else if l.rows[req.key].status == Failed {
      var k := SoloDecides(l, req, now, decision, budget);
      assert Solo(l, req, now, Retrying, k + 1) == Solo(l, req, now, Acting(decision), k);
      assert Solo(l, req, now, Start, k + 2) == (r.ledger, Over(r.end));
    } else if l.rows[req.key].status == Approved {
      var k := SoloExecutes(l, req, now, 0, NoError, budget);
      assert Solo(l, req, now, Start, k + 1) == (r.ledger, Over(r.end));
    } else {
      assert Solo(l, req, now, Start, 1) == (r.ledger, Over(r.end));
    }
  }

  lemma WonStep(m: Machine, key: Key, threads: seq<Thread>, turn: Turn)
    requires |m.pcs| == |threads| && Fits(threads, key, turn)
    requires key in m.ledger.rows && FirstSettled(m.ledger.log, key) == Some(Succeeded) && Won(m, key)
    ensures var m' := Step(m, key, threads, turn);
            && key in m'.ledger.rows && m'.ledger.rows[key] == m.ledger.rows[key]
            && FirstSettled(m'.ledger.log, key) == Some(Succeeded)
            && m'.claims == m.claims && m'.callers == m.callers
  {
    var t := turn.thread;
    assert Outside(m.pcs[t]) || m.pcs[t] == Over(Got(m.ledger.rows[key].result));
  }

  // ---------------------------------------------------------------- runs from any state

  function From(m: Machine, key: Key, threads: seq<Thread>, schedule: Schedule): (r: Machine)
    requires |m.pcs| == |threads| && Runnable(threads, key, schedule)
    ensures |r.pcs| == |threads|
    decreases |schedule|
  {
    if schedule == [] then m else From(Step(m, key, threads, schedule[0]), key, threads, schedule[1..])
  }

  lemma {:induction false} FromJoined(m: Machine, key: Key, threads: seq<Thread>, a: Schedule, b: Schedule)
    requires |m.pcs| == |threads| && Runnable(threads, key, a) && Runnable(threads, key, b)
    ensures Runnable(threads, key, a + b)
    ensures From(m, key, threads, a + b) == From(From(m, key, threads, a), key, threads, b)
    decreases |a|
  {
    if a == [] {
      assert a + b == b;
    } else {
      var ab := a + b;
      assert ab[0] == a[0] && ab[1..] == a[1..] + b;
      FromJoined(Step(m, key, threads, a[0]), key, threads, a[1..], b);
    }
  }

  lemma FromOne(m: Machine, key: Key, threads: seq<Thread>, turn: Turn)
    requires |m.pcs| == |threads| && Runnable(threads, key, [turn])
    ensures turn.thread < |threads| && From(m, key, threads, [turn]) == Step(m, key, threads, turn)
  {
    assert [turn][0] == turn && [turn][1..] == [];
  }

  lemma {:induction false} ExecIsFrom(rows: map<Key, Row>, key: Key, threads: seq<Thread>, schedule: Schedule)
    requires Runnable(threads, key, schedule)
    ensures Exec(rows, key, threads, schedule) == From(Begin(rows, threads), key, threads, schedule)
  {
    if schedule != [] {
      var n := |schedule| - 1;
      ExecIsFrom(rows, key, threads, schedule[..n]);
      assert schedule == schedule[..n] + [schedule[n]];
      FromJoined(Begin(rows, threads), key, threads, schedule[..n], [schedule[n]]);
      FromOne(From(Begin(rows, threads), key, threads, schedule[..n]), key, threads, schedule[n]);
    }
  }

  lemma ExecGoesOn(rows: map<Key, Row>, key: Key, threads: seq<Thread>, schedule: Schedule, n: nat)
    requires Runnable(threads, key, schedule) && n <= |schedule|
    ensures Exec(rows, key, threads, schedule)
         == From(Exec(rows, key, threads, schedule[..n]), key, threads, schedule[n..])
  {
    assert schedule == schedule[..n] + schedule[n..];
    ExecIsFrom(rows, key, threads, schedule);
    ExecIsFrom(rows, key, threads, schedule[..n]);
    FromJoined(Begin(rows, threads), key, threads, schedule[..n], schedule[n..]);
  }

  // ---------------------------------------------------------------- what lasts

  predicate SameOutcome(before: Machine, after: Machine, key: Key) {
    && key in before.ledger.rows && key in after.ledger.rows
    && after.ledger.rows[key] == before.ledger.rows[key]
    && after.claims == before.claims && after.callers == before.callers
  }

  lemma {:induction false} WonStands(m: Machine, key: Key, threads: seq<Thread>, schedule: Schedule)
    requires |m.pcs| == |threads| && Runnable(threads, key, schedule)
    requires Inv(m, key) && FirstSettled(m.ledger.log, key) == Some(Succeeded)
    ensures var after := From(m, key, threads, schedule);
            SameOutcome(m, after, key) && FirstSettled(after.ledger.log, key) == Some(Succeeded)
    decreases |schedule|
  {
    if schedule != [] {
      assert Fits(threads, key, schedule[0]);
      WonStep(m, key, threads, schedule[0]);
      StepKeeps(m, key, threads, schedule[0]);
      WonStands(Step(m, key, threads, schedule[0]), key, threads, schedule[1..]);
    }
  }

  /** Once the row has settled as succeeded, it and its result stand whatever follows. */
  lemma ResultStands(rows: map<Key, Row>, key: Key, threads: seq<Thread>, schedule: Schedule, n: nat)
    requires Runnable(threads, key, schedule) && key !in rows && n <= |schedule|
    requires FirstSettled(Exec(rows, key, threads, schedule[..n]).ledger.log, key) == Some(Succeeded)
    ensures var before, after := Exec(rows, key, threads, schedule[..n]), Exec(rows, key, threads, schedule);
            SameOutcome(before, after, key) && FirstSettled(after.ledger.log, key) == Some(Succeeded)
  {
    ExecKeeps(rows, key, threads, schedule[..n]);
    ExecGoesOn(rows, key, threads, schedule, n);
    WonStands(Exec(rows, key, threads, schedule[..n]), key, threads, schedule[n..]);
  }
}
