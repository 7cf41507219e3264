/** Whole runs of the workflow engine: what a reader may rely on after any
    sequence of start, resume, signal and timer calls, each possibly cut short
    by a crash. */
module WorkflowTheorems {
  import opened Prelude
  import opened Workflow
  import opened WorkflowReplay

  datatype Action =
    | DoStart(name: string, input: Value, env: Env, budget: nat)
    | DoResume(env: Env, budget: nat)
    | DoSignal(name: string, payload: Value, env: Env, budget: nat)
    | DoFire(at: nat, now: int)

  ghost function Apply(w: Wf, reg: Registry, a: Action): Wf {
    match a
    case DoStart(name, input, env, budget) => Start(w, reg, name, input, env, budget).wf
    case DoResume(env, budget) => Resume(w, reg, env, budget).wf
    case DoSignal(name, payload, env, budget) => SendSignal(w, reg, name, payload, env, budget).wf
    case DoFire(at, now) => if Due(w.events, at, now) then Fire(w, at, now) else w
  }

  ghost function After(w: Wf, reg: Registry, actions: seq<Action>): Wf {
    if actions == [] then w
    else Apply(After(w, reg, actions[..|actions| - 1]), reg, actions[|actions| - 1])
  }

  lemma {:induction false} AfterKeeps(w: Wf, reg: Registry, actions: seq<Action>)
    requires Inv(w, reg)
    ensures Inv(After(w, reg, actions), reg)
  {
    if actions != [] {
      AfterKeeps(w, reg, actions[..|actions| - 1]);
      ApplyKeeps(After(w, reg, actions[..|actions| - 1]), reg, actions[|actions| - 1]);
    }
  }

  lemma ApplyKeeps(w: Wf, reg: Registry, a: Action)
    requires Inv(w, reg)
    ensures Inv(Apply(w, reg, a), reg)
  {
    match a
    case DoStart(name, input, env, budget) => StartKeeps(w, reg, name, input, env, budget);
    case DoResume(env, budget) => ResumeKeeps(w, reg, env, budget);
    case DoSignal(name, payload, env, budget) => SignalKeeps(w, reg, name, payload, env, budget);
    case DoFire(at, now) => if Due(w.events, at, now) { FireKeeps(w, reg, at, now); }
  }

  // ---------------------------------------------------------------- replay

  /** Positions are contiguous from 0, only a last sleep or wait may be open, and
      the history is a prefix of the commands the body issues when fed the
      recorded answers. */
  lemma HistoryReplays(reg: Registry, actions: seq<Action>)
    ensures var w := After(Fresh, reg, actions);
            && WellFormed(w.events)
            && (w.run.None? ==> w.events == map[])
            && (w.run.Some? ==>
                  w.run.value.name in reg
                  && ReplaysTo(reg[w.run.value.name], w.run.value.input, w.events, |w.events|))
  {
    AfterKeeps(Fresh, reg, actions);
  }

  /** The reference: the body run in one piece by someone who already knows the
      answers, with no engine, no store and no crash. */
  ghost function Uninterrupted(body: Body, input: Value, answers: seq<Value>, given: nat): Option<Value>
    requires given <= |answers|
    decreases |answers| - given
  {
    var c := body(input, answers[..given]);
    if c.Return? then (if given == |answers| then Some(c.v) else None)
    else if c.Throw? || given == |answers| then None
    else Uninterrupted(body, input, answers, given + 1)
  }

  lemma {:induction false} ReplayIsUninterrupted(body: Body, input: Value, events: map<nat, Event>, given: nat,
                                                 v: Value)
    requires given <= |events| && ReplaysTo(body, input, events, |events|)
    requires body(input, Answers(events, |events|)) == Return(v)
    ensures Uninterrupted(body, input, Answers(events, |events|), given) == Some(v)
    decreases |events| - given
  {
    assert Answers(events, |events|)[..given] == Answers(events, given);
    if given < |events| {
      assert Faithful(body, input, events, given);
      ReplayIsUninterrupted(body, input, events, given + 1, v);
    }
  }

  /** However the run was cut up, a completed result is what the body returns in
      one uninterrupted run on the recorded answers. */
  lemma CrashResumeEquivalence(reg: Registry, actions: seq<Action>)
    ensures var w := After(Fresh, reg, actions);
            w.run.Some? && w.run.value.status == Finished ==>
              w.run.value.name in reg
              && Uninterrupted(reg[w.run.value.name], w.run.value.input, Answers(w.events, |w.events|), 0)
                 == Some(w.run.value.result)
  {
    AfterKeeps(Fresh, reg, actions);
    var w := After(Fresh, reg, actions);
    if w.run.Some? && w.run.value.status == Finished {
      ReplayIsUninterrupted(reg[w.run.value.name], w.run.value.input, w.events, 0, w.run.value.result);
    }
  }

  /** Once a step is committed its activity is never called again and it is never
      committed twice; the recorded result is what that last call returned. */
  lemma CommittedStepNeverRunsAgain(reg: Registry, actions: seq<Action>, i: nat, j: nat)
    requires var w := After(Fresh, reg, actions);
             i < j < |w.journal| && w.journal[i].Committed?
    ensures var w := After(Fresh, reg, actions);
            && !(w.journal[j].Invoked? && w.journal[j].at == w.journal[i].at)
            && !(w.journal[j].Committed? && w.journal[j].at == w.journal[i].at)
            && w.journal[i].at in w.events && w.events[w.journal[i].at].result == w.journal[i].v
            && i > 0 && w.journal[i - 1] == Invoked(w.journal[i].at, Returns(w.journal[i].v))
  {
    AfterKeeps(Fresh, reg, actions);
    var w := After(Fresh, reg, actions);
    assert Committed(w.journal[i].at, w.journal[i].v) in w.journal;
  }

  /** A sleep of ms started when the clock read c is over only if some tick ran
      with a time of at least c + ms; the body is past it only then. */
  lemma NoEarlyWake(reg: Registry, actions: seq<Action>, k: nat)
    requires var w := After(Fresh, reg, actions);
             k in w.events && w.events[k].kind == SleepEvent && (w.events[k].status == Completed || k + 1 in w.events)
    ensures var w := After(Fresh, reg, actions);
            && w.run.Some? && w.run.value.name in reg
            && var c := reg[w.run.value.name](w.run.value.input, Answers(w.events, k));
            && c.Sleep?
            && exists clock: int, now: int ::
                 Armed(k, clock) in w.journal && Fired(k, now) in w.journal && clock + c.ms <= now
  {
    AfterKeeps(Fresh, reg, actions);
    SleepWasSlept(After(Fresh, reg, actions), reg, k);
  }

  lemma SleepWasSlept(w: Wf, reg: Registry, k: nat)
    requires Inv(w, reg)
    requires k in w.events && w.events[k].kind == SleepEvent && (w.events[k].status == Completed || k + 1 in w.events)
    ensures w.run.Some? && w.run.value.name in reg
    ensures var c := reg[w.run.value.name](w.run.value.input, Answers(w.events, k));
            && c.Sleep?
            && exists clock: int, now: int ::
                 Armed(k, clock) in w.journal && Fired(k, now) in w.journal && clock + c.ms <= now
  {
    var r := w.run.value;
    var c := reg[r.name](r.input, Answers(w.events, k));
    assert Faithful(reg[r.name], r.input, w.events, k);
    assert w.events[k].status == Completed;
    assert TimerOf(w, k, c) && FiredInTime(w, k);
    var clock: int :| Armed(k, clock) in w.journal && w.events[k].fireAt == Some(clock + c.ms);
    var now: int :| Fired(k, now) in w.journal && w.events[k].fireAt.value <= now;
  }

  // ---------------------------------------------------------------- completed is final

  lemma FinishedStands(w: Wf, reg: Registry, a: Action)
    requires Inv(w, reg) && w.run.Some? && w.run.value.status == Finished
    ensures var w' := Apply(w, reg, a); w'.run == w.run && w'.events == w.events
  {
    if a.DoSignal? && a.budget > 0 {
      assert FirstPendingWait(w.events, a.name).None?;
    }
  }

  /** `completed` is absorbing: no later call changes the result or the history. */
  lemma {:induction false} CompletedIsAbsorbing(reg: Registry, before: seq<Action>, later: seq<Action>)
    requires var w := After(Fresh, reg, before); w.run.Some? && w.run.value.status == Finished
    ensures var w := After(Fresh, reg, before);
            var w' := After(w, reg, later);
            w'.run == w.run && w'.events == w.events
    decreases |later|
  {
    AfterKeeps(Fresh, reg, before);
    if later != [] {
      var w := After(Fresh, reg, before);
      CompletedIsAbsorbing(reg, before, later[..|later| - 1]);
      AfterKeeps(w, reg, later[..|later| - 1]);
      FinishedStands(After(w, reg, later[..|later| - 1]), reg, later[|later| - 1]);
    }
  }

  // ---------------------------------------------------------------- append-only history

  ghost predicate Grows(events: map<nat, Event>, events': map<nat, Event>) {
    forall k: nat :: k in events ==>
      && k in events'
      && Recorded(events'[k]) == Recorded(events[k])
      && (events[k].status == Completed ==> events'[k] == events[k])
  }

  lemma {:induction false} AttemptGrows(w: Wf, env: Env, at: nat, name: string, attempt: int, retries: int,
                                        last: string, budget: nat)
    ensures Grows(w.events, Attempt(w, env, at, name, attempt, retries, last, budget).wf.events)
    decreases retries - attempt
  {
    if attempt <= retries && budget > 0 {
      var outcome := env.activity(at, attempt);
      if outcome.Throws? {
        AttemptGrows(Log(w, Invoked(at, outcome)), env, at, name, attempt + 1, retries, outcome.message, budget - 1);
      }
    }
  }

  lemma {:induction false} PlayGrows(w: Wf, env: Env, body: Body, input: Value, history: map<nat, Event>,
                                     answers: seq<Value>, budget: nat)
    ensures Grows(w.events, Play(w, env, body, input, history, answers, budget).wf.events)
    decreases budget, Ahead(history, |answers|)
  {
    var at := |answers|;
    var c := body(input, answers);
    if c.Return? || c.Throw? || (at in history && Recorded(history[at]) != Issued(c)) {
    } else if at in history && (history[at].status == Completed || c.Now? || c.Random?) {
      assert at in Ahead(history, at) && at !in Ahead(history, at + 1);
      PlayGrows(w, env, body, input, history, answers + [Answer(history[at])], budget);
    } else if at in history && !c.Step? {
    } else {
      var p := Perform(w, env, c, at, budget);
      if c.Step? {
        AttemptGrows(w, env, at, c.name, 0, c.retries, "undefined", budget);
      }
      if p.end.Returned? {
        PlayGrows(p.wf, env, body, input, history, answers + [p.end.v], p.left);
      }
    }
  }

  lemma ResumeGrows(w: Wf, reg: Registry, env: Env, budget: nat)
    ensures Grows(w.events, Resume(w, reg, env, budget).wf.events)
  {
    if w.run.Some? && w.run.value.name in reg && budget > 0 {
      var r := w.run.value;
      var w1 := SetRunStatus(w, Running, Undefined, None);
      PlayGrows(w1, env, reg[r.name], r.input, w1.events, [], budget - 1);
    }
  }

  lemma StartGrows(w: Wf, reg: Registry, name: string, input: Value, env: Env, budget: nat)
    ensures Grows(w.events, Start(w, reg, name, input, env, budget).wf.events)
  {
    if name in reg && w.run.Some? {
      ResumeGrows(w, reg, env, budget);
    } else if name in reg && budget > 1 {
      var w1 := SetRunStatus(w.(run := Some(Run(name, input, Running, Undefined, None))), Running, Undefined, None);
      PlayGrows(w1, env, reg[name], input, w1.events, [], budget - 2);
    }
  }

  lemma SignalGrows(w: Wf, reg: Registry, name: string, payload: Value, env: Env, budget: nat)
    ensures Grows(w.events, SendSignal(w, reg, name, payload, env, budget).wf.events)
  {
    if budget > 0 && FirstPendingWait(w.events, name).Some? {
      var done := HandedOver(w, FirstPendingWait(w.events, name).value, name, payload);
      ResumeGrows(done, reg, env, budget - 1);
      assert Grows(w.events, done.events);
    }
  }

  lemma ApplyGrows(w: Wf, reg: Registry, a: Action)
    ensures Grows(w.events, Apply(w, reg, a).events)
  {
    match a
    case DoResume(env, budget) => ResumeGrows(w, reg, env, budget);
    case DoFire(at, now) =>
    case DoStart(name, input, env, budget) => StartGrows(w, reg, name, input, env, budget);
    case DoSignal(name, payload, env, budget) => SignalGrows(w, reg, name, payload, env, budget);
  }

  /** Nothing recorded is ever rewritten or removed, from any state at all. */
  lemma {:induction false} HistoryIsAppendOnly(w: Wf, reg: Registry, actions: seq<Action>)
    ensures Grows(w.events, After(w, reg, actions).events)
  {
    if actions != [] {
      HistoryIsAppendOnly(w, reg, actions[..|actions| - 1]);
      ApplyGrows(After(w, reg, actions[..|actions| - 1]), reg, actions[|actions| - 1]);
    }
  }

  // ---------------------------------------------------------------- signals

  /** Payloads of this name lost between being consumed and being recorded. */
  ghost function DroppedOf(journal: seq<Entry>, name: string): seq<Value> {
    if journal == [] then []
    else
      var e := journal[|journal| - 1];
      DroppedOf(journal[..|journal| - 1], name) + if e.Dropped? && e.name == name then [e.payload] else []
  }

  lemma {:induction false} HandledSplits(journal: seq<Entry>, name: string)
    ensures |HandledOf(journal, name)| == |DeliveredOf(journal, name)| + |DroppedOf(journal, name)|
    ensures DroppedOf(journal, name) == [] ==> HandledOf(journal, name) == DeliveredOf(journal, name)
  {
    if journal != [] {
      HandledSplits(journal[..|journal| - 1], name);
    }
  }

  /** Signals sent are, in order, those received by completed waits followed by
      those still buffered, exactly when no crash fell between consuming one and
      recording its wait; and none is buffered while a wait for it is open. */
  lemma SignalConservation(reg: Registry, actions: seq<Action>, name: string)
    ensures var w := After(Fresh, reg, actions);
            && (SentOf(w.journal, name) == WaitResults(w.events, name, |w.events|) + BufferedOf(w.inbox, name)
                <==> DroppedOf(w.journal, name) == [])
            && (|SentOf(w.journal, name)|
                == |WaitResults(w.events, name, |w.events|)| + |DroppedOf(w.journal, name)|
                  + |BufferedOf(w.inbox, name)|)
            && forall k: nat :: IsPendingWait(w.events, k, name) ==> BufferedOf(w.inbox, name) == []
  {
    AfterKeeps(Fresh, reg, actions);
    HandledSplits(After(Fresh, reg, actions).journal, name);
  }

  /** A signal sent before its workflow is started waits in the inbox. */
  lemma SentEarly(reg: Registry, name: string, payload: Value, env: Env)
    ensures Apply(Fresh, reg, DoSignal(name, payload, env, 1))
         == Wf(None, map[], [Signal(name, payload)], [Sent(name, payload)])
  {
    assert FirstPendingWait(Fresh.events, name).None?;
    assert [] + [Signal(name, payload)] == [Signal(name, payload)]
      && [] + [Sent(name, payload)] == [Sent(name, payload)];
  }

  lemma DiesConsuming(reg: Registry, body: Body, input: Value, name: string, payload: Value, env: Env)
    requires "wf" in reg && reg["wf"] == body && body(input, []) == Wait(name)
    ensures var w := Wf(None, map[], [Signal(name, payload)], [Sent(name, payload)]);
            Apply(w, reg, DoStart("wf", input, env, 3))
            == Wf(Some(Run("wf", input, Running, Undefined, None)), map[], [],
              [Sent(name, payload), Dropped(name, payload)])
  {
    var inbox := [Signal(name, payload)];
    var w2 := Wf(Some(Run("wf", input, Running, Undefined, None)), map[], inbox, [Sent(name, payload)]);
    assert FirstOf(inbox, name) == 0 && inbox[..0] + inbox[1..] == [];
    assert Play(w2, env, body, input, map[], [], 1) == PerformWait(w2, 0, name, 1);
    assert w2.journal + [Dropped(name, payload)] == [Sent(name, payload), Dropped(name, payload)];
  }

  /** The window is real: whatever the body, if it first waits for a signal that is
      already buffered, a process that dies right after consuming it loses it. */
  lemma SignalCanBeLost(reg: Registry, body: Body, input: Value, name: string, payload: Value, env: Env)
    requires "wf" in reg && reg["wf"] == body && body(input, []) == Wait(name)
    ensures var w := After(Fresh, reg, [DoSignal(name, payload, env, 1), DoStart("wf", input, env, 3)]);
            && SentOf(w.journal, name) == [payload]
            && WaitResults(w.events, name, |w.events|) == [] && BufferedOf(w.inbox, name) == []
  {
    var a, b := DoSignal(name, payload, env, 1), DoStart("wf", input, env, 3);
    AfterTwo(reg, a, b);
    SentEarly(reg, name, payload, env);
    DiesConsuming(reg, body, input, name, payload, env);
    LogSnoc([], Sent(name, payload), name);
    LogSnoc([] + [Sent(name, payload)], Dropped(name, payload), name);
    assert [] + [Sent(name, payload)] == [Sent(name, payload)];
    assert [Sent(name, payload)] + [Dropped(name, payload)] == [Sent(name, payload), Dropped(name, payload)];
  }

  lemma AfterTwo(reg: Registry, a: Action, b: Action)
    ensures After(Fresh, reg, [a, b]) == Apply(Apply(Fresh, reg, a), reg, b)
  {
    assert [a, b][..1] == [a] && [a][..0] == [];
    assert After(Fresh, reg, []) == Fresh;
  }

  // ---------------------------------------------------------------- exactly when a signal is lost

  /** Where a drive stands when it issues its last command. */
  datatype Stand = Stand(wf: Wf, answers: seq<Value>, left: nat)

  ghost function LastStand(w: Wf, env: Env, body: Body, input: Value, history: map<nat, Event>, answers: seq<Value>,
                           budget: nat): Stand
    decreases budget, Ahead(history, |answers|)
  {
    var at := |answers|;
    var c := body(input, answers);
    if c.Return? || c.Throw? || (at in history && Recorded(history[at]) != Issued(c)) then Stand(w, answers, budget)
    else if at in history && (history[at].status == Completed || c.Now? || c.Random?) then
      assert at in Ahead(history, at) && at !in Ahead(history, at + 1);
      LastStand(w, env, body, input, history, answers + [Answer(history[at])], budget)
    else if at in history && !c.Step? then Stand(w, answers, budget)
    else
      var p := Perform(w, env, c, at, budget);
      if p.end.Returned? then LastStand(p.wf, env, body, input, history, answers + [p.end.v], p.left)
      else Stand(w, answers, budget)
  }

  /** The body waits, beyond the history, for a signal that is buffered, and the process
      has one write left: consuming it. */
  ghost predicate DiesAfterConsuming(s: Stand, body: Body, input: Value, history: map<nat, Event>, name: string) {
    && |s.answers| !in history && body(input, s.answers) == Wait(name)
    && FirstOf(s.wf.inbox, name) < |s.wf.inbox| && s.left == 1
  }

  ghost function LostAt(s: Stand, body: Body, input: Value, history: map<nat, Event>, name: string): seq<Value> {
    if DiesAfterConsuming(s, body, input, history, name) then [s.wf.inbox[FirstOf(s.wf.inbox, name)].payload] else []
  }

  lemma DroppedSnoc(journal: seq<Entry>, e: Entry, name: string)
    ensures DroppedOf(journal + [e], name) == DroppedOf(journal, name) + if e.Dropped?
            && e.name == name then [e.payload] else []
  {
    assert (journal + [e])[..|journal|] == journal;
  }

  lemma QuietEntry(w: Wf, e: Entry, name: string)
    requires !e.Dropped?
    ensures DroppedOf(Log(w, e).journal, name) == DroppedOf(w.journal, name)
  {
    DroppedSnoc(w.journal, e, name);
  }

  lemma CommitDropsNothing(w: Wf, at: nat, step: string, v: Value, name: string)
    ensures DroppedOf(Commit(w, at, step, v).journal, name) == DroppedOf(w.journal, name)
  {
    if at !in w.events {
      QuietEntry(AppendEvent(w, at, Event(StepEvent, step, Completed, v, None)), Committed(at, v), name);
    }
  }

  lemma {:induction false} AttemptDropsNothing(w: Wf, env: Env, at: nat, step: string, attempt: int, retries: int,
                                               last: string, budget: nat, name: string)
    ensures DroppedOf(Attempt(w, env, at, step, attempt, retries, last, budget).wf.journal, name)
            == DroppedOf(w.journal, name)
    decreases retries - attempt
  {
    var p := Attempt(w, env, at, step, attempt, retries, last, budget);
    if attempt <= retries && budget > 0 {
      var outcome := env.activity(at, attempt);
      var called := Log(w, Invoked(at, outcome));
      assert DroppedOf(called.journal, name)
        == DroppedOf(w.journal, name) by { QuietEntry(w, Invoked(at, outcome), name); }
      match outcome {
        case Throws(m) =>
          assert p == Attempt(called, env, at, step, attempt + 1, retries, m, budget - 1);
          AttemptDropsNothing(called, env, at, step, attempt + 1, retries, m, budget - 1, name);
        case Returns(v) =>
          assert p.wf == if budget == 1 then called else Commit(called, at, step, v);
          CommitDropsNothing(called, at, step, v, name);
      }
    }
  }

  lemma WaitDrops(w: Wf, at: nat, n: string, budget: nat, name: string)
    ensures var p := PerformWait(w, at, n, budget);
            var k := FirstOf(w.inbox, n);
            && DroppedOf(p.wf.journal, name)
               == DroppedOf(w.journal, name) + (if n == name && k < |w.inbox|
                 && budget == 1 then [w.inbox[k].payload] else [])
            && (p.end.Returned? ==> budget > 1)
  {
    var k := FirstOf(w.inbox, n);
    if k < |w.inbox| {
      DroppedSnoc(w.journal, Dropped(n, w.inbox[k].payload), name);
      DroppedSnoc(w.journal, Delivered(at, n, w.inbox[k].payload), name);
    }
  }

  /** One command beyond the history loses a signal exactly in that case. */
  lemma PerformDrops(w: Wf, env: Env, body: Body, input: Value, history: map<nat, Event>, answers: seq<Value>,
                     budget: nat, name: string)
    requires var c := body(input, answers); !c.Return? && !c.Throw? && (c.Step? || |answers| !in history)
    ensures var p := Perform(w, env, body(input, answers), |answers|, budget);
            var lost := LostAt(Stand(w, answers, budget), body, input, history, name);
            && DroppedOf(p.wf.journal, name) == DroppedOf(w.journal, name) + lost
            && (p.end.Returned? ==> lost == [])
  {
    var at, c := |answers|, body(input, answers);
    match c
    case Step(step, retries) => AttemptDropsNothing(w, env, at, step, 0, retries, "undefined", budget, name);
    case Sleep(n, ms) =>
      if budget > 0 {
        QuietEntry(AppendEvent(w, at, Event(SleepEvent, n, Pending, Undefined, Some(env.clock(at) + ms))),
                   Armed(at, env.clock(at)), name);
      }
    case Wait(n) => WaitDrops(w, at, n, budget, name);
    case Now =>
    case Random =>
  }

  lemma {:induction false} PlayDrops(w: Wf, env: Env, body: Body, input: Value, history: map<nat, Event>,
                                     answers: seq<Value>, budget: nat, name: string)
    ensures var s := LastStand(w, env, body, input, history, answers, budget);
            DroppedOf(Play(w, env, body, input, history, answers, budget).wf.journal, name)
            == DroppedOf(w.journal, name) + LostAt(s, body, input, history, name)
    decreases budget, Ahead(history, |answers|)
  {
    var at := |answers|;
    var c := body(input, answers);
    if c.Return? || c.Throw? || (at in history && Recorded(history[at]) != Issued(c)) {
    } else if at in history && (history[at].status == Completed || c.Now? || c.Random?) {
      assert at in Ahead(history, at) && at !in Ahead(history, at + 1);
      PlayDrops(w, env, body, input, history, answers + [Answer(history[at])], budget, name);
    } else if at in history && !c.Step? {
    } else {
      PerformDrops(w, env, body, input, history, answers, budget, name);
      var p := Perform(w, env, c, at, budget);
      if p.end.Returned? {
        PlayDrops(p.wf, env, body, input, history, answers + [p.end.v], p.left, name);
      }
    }
  }

  /** A drive loses a signal if and only if, at the last command it issues, the body waits
      for a buffered signal and the process dies right after consuming it; it loses just
      that one. */
  lemma DriveDropsExactly(w: Wf, env: Env, body: Body, input: Value, budget: nat, name: string)
    requires budget > 0
    ensures var w1 := SetRunStatus(w, Running, Undefined, None);
            var s := LastStand(w1, env, body, input, w.events, [], budget - 1);
            DroppedOf(Drive(w, env, body, input, budget).wf.journal, name)
            == DroppedOf(w.journal, name) + LostAt(s, body, input, w.events, name)
  {
    var w1 := SetRunStatus(w, Running, Undefined, None);
    PlayDrops(w1, env, body, input, w.events, [], budget - 1, name);
    SettleIsQuiet(Play(w1, env, body, input, w.events, [], budget - 1), Drive(w, env, body, input, budget));
  }

  lemma SettleIsQuiet(p: Played, q: Played)
    requires q == Settle(p)
    ensures q.wf.journal == p.wf.journal
  {
  }

  // ---------------------------------------------------------------- the determinism guard

  /** The body reaches position i on recorded answers and issues a command whose
      type or name is not the recorded one. */
  ghost predicate FirstDivergence(body: Body, input: Value, events: map<nat, Event>, i: nat) {
    && i in events
    && Closed(events, i)
    && ReplaysTo(body, input, events, i)
    && var c := body(input, Answers(events, i));
       !c.Return? && !c.Throw? && Issued(c) != Recorded(events[i])
  }

  /** The error names the recorded event and the command the body issues in its place. */
  ghost predicate NamesBoth(f: Failure, body: Body, input: Value, events: map<nat, Event>)
    requires f.Nondeterministic?
  {
    && f.at in events && f.recorded == Recorded(events[f.at])
    && var c := body(input, Answers(events, f.at));
       !c.Return? && !c.Throw? && f.issued == Issued(c) && f.issued != f.recorded
  }

  lemma {:induction false} GuardFrom(w: Wf, env: Env, body: Body, input: Value, answers: seq<Value>, budget: nat,
                                     i: nat)
    requires WellFormed(w.events)
    requires |answers| <= |w.events| && answers == Answers(w.events, |answers|)
    requires Closed(w.events, |answers|) && ReplaysTo(body, input, w.events, |answers|)
    ensures var p := Play(w, env, body, input, w.events, answers, budget);
            && (p.end.Threw? && p.end.failure.Nondeterministic? && p.end.failure.at == i
                <==> FirstDivergence(body, input, w.events, i))
            && (p.end.Threw? && p.end.failure.Nondeterministic? ==>
                  p.wf == w && p.left == budget && NamesBoth(p.end.failure, body, input, w.events))
    decreases |w.events| - |answers|
  {
    var at := |answers|;
    var c := body(input, answers);
    if i < at {
      assert Faithful(body, input, w.events, i);
    }
    if at in w.events {
      if !c.Return? && !c.Throw? && Issued(c) == Recorded(w.events[at]) {
        assert Faithful(body, input, w.events, at);
        if w.events[at].status == Completed {
          assert answers + [Answer(w.events[at])] == Answers(w.events, at + 1);
          GuardFrom(w, env, body, input, answers + [Answer(w.events[at])], budget, i);
        }
      } else {
        assert !Faithful(body, input, w.events, at);
      }
    } else if !c.Return? && !c.Throw? {
      BeyondHistory(w, env, body, input, c, answers, budget);
    }
  }

  /** Past the end of the loaded history there is nothing to diverge from. */
  lemma BeyondHistory(w: Wf, env: Env, body: Body, input: Value, c: Command, answers: seq<Value>, budget: nat)
    requires Contiguous(w.events) && |answers| == |w.events| && c == body(input, answers) && !c.Return? && !c.Throw?
    ensures var p := Play(w, env, body, input, w.events, answers, budget);
            p.end.Threw? ==> p.end.failure.Thrown?
  {
    NoGuardBeyond(w, env, body, input, w.events, answers, budget);
  }

  lemma {:induction false} NoGuardBeyond(w: Wf, env: Env, body: Body, input: Value, history: map<nat, Event>,
                                         answers: seq<Value>, budget: nat)
    requires forall k: nat :: k in history ==> k < |answers|
    ensures var p := Play(w, env, body, input, history, answers, budget);
            p.end.Threw? ==> p.end.failure.Thrown?
    decreases budget
  {
    var at := |answers|;
    var c := body(input, answers);
    if !c.Return? && !c.Throw? {
      if c.Step? {
        AttemptThrows(w, env, at, c.name, 0, c.retries, "undefined", budget);
      }
      var p := Perform(w, env, c, at, budget);
      if p.end.Returned? {
        NoGuardBeyond(p.wf, env, body, input, history, answers + [p.end.v], p.left);
      }
    }
  }

  lemma {:induction false} AttemptThrows(w: Wf, env: Env, at: nat, name: string, attempt: int, retries: int,
                                         last: string, budget: nat)
    ensures var p := Attempt(w, env, at, name, attempt, retries, last, budget);
            p.end.Threw? ==> p.end.failure.Thrown?
    decreases retries - attempt
  {
    if attempt <= retries && budget > 0 {
      var outcome := env.activity(at, attempt);
      if outcome.Throws? {
        AttemptThrows(Log(w, Invoked(at, outcome)), env, at, name, attempt + 1, retries, outcome.message, budget - 1);
      }
    }
  }

  /** What a drive that ends in the determinism error leaves. */
  ghost predicate OnlyFailed(w: Wf, w': Wf, f: Failure) {
    && w'.events == w.events && w'.inbox == w.inbox && w'.journal == w.journal
    && w'.run == match w.run
                 case None => None
                 case Some(r) => Some(r.(status := Failed, error := Some(f)))
  }

  /** Driving any body against a well-formed history raises the determinism error at i
      exactly when i is the first reached position whose type or name differs from the
      record; the error names both, and that drive changes nothing but the run's status
      and error. */
  lemma DeterminismGuardIsExact(w: Wf, env: Env, body: Body, input: Value, budget: nat, i: nat)
    requires WellFormed(w.events) && budget >= 2
    ensures var p := Drive(w, env, body, input, budget);
            && (p.end.Threw? && p.end.failure.Nondeterministic? && p.end.failure.at == i
                <==> FirstDivergence(body, input, w.events, i))
            && (p.end.Threw? && p.end.failure.Nondeterministic? ==>
                  OnlyFailed(w, p.wf, p.end.failure) && NamesBoth(p.end.failure, body, input, w.events))
  {
    var w1 := SetRunStatus(w, Running, Undefined, None);
    var q := Play(w1, env, body, input, w1.events, [], budget - 1);
    assert Answers(w1.events, 0) == [];
    GuardFrom(w1, env, body, input, [], budget - 1, i);
    GuardSettles(w, w1, q, Drive(w, env, body, input, budget));
  }

  /** Settling a drive keeps its error, and leaves only the run row changed. */
  lemma GuardSettles(w: Wf, w1: Wf, q: Played, p: Played)
    requires w1 == SetRunStatus(w, Running, Undefined, None) && p == Settle(q)
    requires q.end.Threw? && q.end.failure.Nondeterministic? ==> q.wf == w1 && q.left > 0
    ensures p.end.Threw? && p.end.failure.Nondeterministic? ==> p.end == q.end && OnlyFailed(w, p.wf, p.end.failure)
    ensures q.end.Threw? && q.end.failure.Nondeterministic? ==> p.end == q.end
  {
  }
}
