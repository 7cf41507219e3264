/** What a call that survives achieves: a reference run of the body, with no store,
    no history and no budget, which every resumed drive follows to its end. */
module WorkflowProgress {
  import opened Prelude
  import opened Workflow
  import opened WorkflowReplay
  import opened WorkflowTheorems

  // ---------------------------------------------------------------- the reference run

  /** How a reference run ends. */
  datatype Stop = Finishes(v: Value) | Fails(message: string) | Sleeps(name: string, ms: int) | WaitsFor(name: string)

  /** Attempt k returns v, and every one before it throws. */
  ghost predicate ReturnsFirst(env: Env, at: nat, from: int, k: int, v: Value) {
    && from <= k && env.activity(at, k) == Returns(v)
    && forall j :: from <= j < k ==> env.activity(at, j).Throws?
  }

  ghost predicate AllThrow(env: Env, at: nat, from: int, to: int) {
    forall j :: from <= j <= to ==> env.activity(at, j).Throws?
  }

  function LastWords(env: Env, at: nat, retries: int): string {
    if retries >= 0 && env.activity(at, retries).Throws? then env.activity(at, retries).message else "undefined"
  }

  /** The earliest buffered signal of this name is the one at k. */
  predicate FirstNamed(inbox: seq<Signal>, name: string, k: nat) {
    k < |inbox| && inbox[k].name == name && forall j :: 0 <= j < k ==> inbox[j].name != name
  }

  predicate NoneNamed(inbox: seq<Signal>, name: string) {
    forall j :: 0 <= j < |inbox| ==> inbox[j].name != name
  }

  /** The world answers command c, issued at position `at`, with a. */
  ghost predicate WorldAnswers(env: Env, inbox: seq<Signal>, at: nat, c: Command, a: Value, inbox': seq<Signal>) {
    match c
    case Step(_, retries) => inbox' == inbox && exists k :: k <= retries && ReturnsFirst(env, at, 0, k, a)
    case Wait(name) =>
      exists k: nat :: FirstNamed(inbox, name, k) && a == inbox[k].payload && inbox' == inbox[..k] + inbox[k + 1..]
    case Now => inbox' == inbox && a == Number(env.clock(at))
    case Random => inbox' == inbox && a == Number(env.random(at))
    case _ => false
  }

  /** Command c gets no answer: the body is over, or has to wait. */
  ghost predicate Stops(env: Env, inbox: seq<Signal>, at: nat, c: Command, stop: Stop) {
    match c
    case Return(v) => stop == Finishes(v)
    case Throw(m) => stop == Fails(m)
    case Step(_, retries) => AllThrow(env, at, 0, retries) && stop == Fails(LastWords(env, at, retries))
    case Sleep(name, ms) => stop == Sleeps(name, ms)
    case Wait(name) => NoneNamed(inbox, name) && stop == WaitsFor(name)
    case _ => false
  }

  /** Given `answers`, the body gets `more` from the world, one by one, and then stops. */
  ghost predicate Goes(env: Env, inbox: seq<Signal>, body: Body, input: Value, answers: seq<Value>, more: seq<Value>,
                       inbox': seq<Signal>, stop: Stop)
    decreases |more|
  {
    var c := body(input, answers);
    if more == [] then inbox' == inbox && Stops(env, inbox, |answers|, c, stop)
    else
      exists mid :: && WorldAnswers(env, inbox, |answers|, c, more[0], mid)
                    && Goes(env, mid, body, input, answers + [more[0]], more[1..], inbox', stop)
  }

  /** Enough writes and calls for one command. */
  function Price(c: Command): nat {
    match c
    case Step(_, retries) => if retries < 0 then 0 else retries + 2
    case Wait(_) => 2
    case Sleep(_, _) => 1
    case Now => 1
    case Random => 1
    case _ => 0
  }

  function PriceOf(body: Body, input: Value, answers: seq<Value>, more: seq<Value>): nat
    decreases |more|
  {
    Price(body(input, answers)) + if more == [] then 0 else PriceOf(body, input, answers + [more[0]], more[1..])
  }

  // ---------------------------------------------------------------- one step

  /** The calls of attempts from..to, in order. */
  function Calls(env: Env, at: nat, from: int, to: int): seq<Entry>
    decreases to - from
  {
    if from > to then [] else [Invoked(at, env.activity(at, from))] + Calls(env, at, from + 1, to)
  }

  /** A new step is called attempt by attempt until it first returns, and is recorded
      with that value; nothing else is touched. */
  lemma {:induction false} StepReturns(w: Wf, env: Env, at: nat, name: string, attempt: int, retries: int,
                                       last: string, k: int, v: Value, budget: nat)
    requires at !in w.events && k <= retries && ReturnsFirst(env, at, attempt, k, v) && budget >= k - attempt + 2
    ensures Attempt(w, env, at, name, attempt, retries, last, budget)
         == Played(Wf(w.run, w.events[at := Event(StepEvent, name, Completed, v, None)], w.inbox,
                      w.journal + Calls(env, at, attempt, k) + [Committed(at, v)]),
                   Returned(v), budget - (k - attempt + 2))
    decreases k - attempt
  {
    var called := Log(w, Invoked(at, env.activity(at, attempt)));
    if attempt < k {
      StepReturns(called, env, at, name, attempt + 1, retries, env.activity(at, attempt).message, k, v, budget - 1);
      assert w.journal + Calls(env, at, attempt, k) == called.journal + Calls(env, at, attempt + 1, k);
    } else {
      assert Calls(env, at, k + 1, k) == [];
      assert w.journal + Calls(env, at, k, k) == called.journal;
    }
  }

  function Tries(from: int, to: int): nat {
    if from > to then 0 else to - from + 1
  }

  /** A new step none of whose retries + 1 attempts returns is called that often and
      throws what the last attempt threw. */
  lemma {:induction false} StepThrows(w: Wf, env: Env, at: nat, name: string, attempt: nat, retries: int,
                                      last: string, budget: nat)
    requires AllThrow(env, at, attempt, retries) && budget >= Tries(attempt, retries)
    ensures Attempt(w, env, at, name, attempt, retries, last, budget)
         == Played(w.(journal := w.journal + Calls(env, at, attempt, retries)),
                   Threw(Thrown(if attempt <= retries then LastWords(env, at, retries) else last)),
                   budget - Tries(attempt, retries))
    decreases retries - attempt
  {
    if attempt <= retries {
      var called := Log(w, Invoked(at, env.activity(at, attempt)));
      StepThrows(called, env, at, name, attempt + 1, retries, env.activity(at, attempt).message, budget - 1);
      assert w.journal + Calls(env, at, attempt, retries) == called.journal + Calls(env, at, attempt + 1, retries);
    } else {
      assert w.journal + Calls(env, at, attempt, retries) == w.journal;
    }
  }

  // ---------------------------------------------------------------- one command

  function EndOf(stop: Stop): Ending {
    match stop
    case Finishes(v) => Returned(v)
    case Fails(m) => Threw(Thrown(m))
    case Sleeps(_, _) => Parked
    case WaitsFor(_) => Parked
  }

  lemma FirstIs(inbox: seq<Signal>, name: string, k: nat)
    ensures FirstNamed(inbox, name, k) ==> FirstOf(inbox, name) == k
    ensures NoneNamed(inbox, name) ==> FirstOf(inbox, name) == |inbox|
  {
  }

  lemma CommandAnswers(w: Wf, env: Env, at: nat, c: Command, a: Value, mid: seq<Signal>, budget: nat)
    requires at !in w.events && WorldAnswers(env, w.inbox, at, c, a, mid) && budget >= Price(c)
    ensures var p := Perform(w, env, c, at, budget);
            && p.end == Returned(a) && p.left >= budget - Price(c) && p.wf.run == w.run && p.wf.inbox == mid
            && at in p.wf.events && p.wf.events == w.events[at := p.wf.events[at]]
            && p.wf.events[at].status == Completed && Answer(p.wf.events[at]) == a
  {
    match c
    case Step(name, retries) =>
      var k :| k <= retries && ReturnsFirst(env, at, 0, k, a);
      StepReturns(w, env, at, name, 0, retries, "undefined", k, a, budget);
    case Wait(name) =>
      var k: nat :| FirstNamed(w.inbox, name, k) && a == w.inbox[k].payload && mid == w.inbox[..k] + w.inbox[k + 1..];
      FirstIs(w.inbox, name, k);
    case Now =>
    case Random =>
  }

  /** The event a parked body leaves open at position `at`. */
  function OpenEvent(env: Env, at: nat, stop: Stop): Event
    requires stop.Sleeps? || stop.WaitsFor?
  {
    if stop.Sleeps? then Event(SleepEvent, stop.name, Pending, Undefined, Some(env.clock(at) + stop.ms))
    else Event(SignalEvent, stop.name, Pending, Undefined, None)
  }

  /** What stopping at position `at` adds to the history. */
  function Left(env: Env, events: map<nat, Event>, at: nat, stop: Stop): map<nat, Event> {
    if stop.Sleeps? || stop.WaitsFor? then events[at := OpenEvent(env, at, stop)] else events
  }

  lemma CommandStops(w: Wf, env: Env, at: nat, c: Command, stop: Stop, budget: nat)
    requires at !in w.events && Stops(env, w.inbox, at, c, stop) && budget >= Price(c) && !c.Return? && !c.Throw?
    ensures var p := Perform(w, env, c, at, budget);
            && p.end == EndOf(stop) && p.left >= budget - Price(c) && p.wf.run == w.run && p.wf.inbox == w.inbox
            && p.wf.events == Left(env, w.events, at, stop)
  {
    match c
    case Step(name, retries) => StepThrows(w, env, at, name, 0, retries, "undefined", budget);
    case Wait(name) => FirstIs(w.inbox, name, 0);
    case _ =>
  }

  // ---------------------------------------------------------------- a whole replay

  /** The history is complete and the body stands at its end. */
  ghost predicate AtEnd(w: Wf, history: map<nat, Event>, answers: seq<Value>) {
    && Contiguous(w.events) && Closed(w.events, |w.events|) && answers == Answers(w.events, |w.events|)
    && forall k: nat :: k in history ==> k < |answers|
  }

  /** Where the reference run ends, seen in the store. */
  ghost predicate Arrived(w: Wf, w': Wf, env: Env, more: seq<Value>, inbox': seq<Signal>, stop: Stop) {
    var n := |w.events| + |more|;
    && w'.inbox == inbox'
    && |w'.events| == n + (if stop.Sleeps? || stop.WaitsFor? then 1 else 0)
    && Closed(w'.events, n) && Answers(w'.events, n) == Answers(w.events, |w.events|) + more
    && (forall k: nat :: k in w.events ==> k in w'.events && w'.events[k] == w.events[k])
    && (stop.Sleeps? || stop.WaitsFor? ==> n in w'.events && w'.events[n] == OpenEvent(env, n, stop))
  }

  lemma OneAnswerOn(w: Wf, w1: Wf, history: map<nat, Event>, answers: seq<Value>, a: Value)
    requires AtEnd(w, history, answers) && |answers| in w1.events
    requires w1.events == w.events[|answers| := w1.events[|answers|]]
    requires w1.events[|answers|].status == Completed && Answer(w1.events[|answers|]) == a
    ensures AtEnd(w1, history, answers + [a]) && |w1.events| == |w.events| + 1
  {
    assert |answers| == |w.events| && |answers| !in w.events;
    assert Answers(w1.events, |w1.events|) == answers + [a];
  }

  lemma ArrivedLater(w: Wf, w1: Wf, w': Wf, env: Env, a: Value, more: seq<Value>, inbox': seq<Signal>, stop: Stop)
    requires Contiguous(w.events) && |w1.events| == |w.events| + 1
    requires forall k: nat :: k in w.events ==> k in w1.events && w1.events[k] == w.events[k]
    requires Answers(w1.events, |w1.events|) == Answers(w.events, |w.events|) + [a]
    requires Arrived(w1, w', env, more, inbox', stop)
    ensures Arrived(w, w', env, [a] + more, inbox', stop)
  {
    Regroup(Answers(w.events, |w.events|), [a], more);
  }

  lemma ArrivedNow(w: Wf, w': Wf, env: Env, stop: Stop)
    requires Contiguous(w.events) && Closed(w.events, |w.events|)
    requires w'.inbox == w.inbox && w'.events == Left(env, w.events, |w.events|, stop)
    ensures Arrived(w, w', env, [], w.inbox, stop)
  {
    var n := |w.events|;
    assert n !in w.events;
    AnswersFrame(w.events, w'.events, n);
    assert Answers(w.events, n) + [] == Answers(w.events, n);
  }

  /** One turn of a replay beyond the recorded history. */
  lemma PlayTurn(w: Wf, env: Env, body: Body, input: Value, history: map<nat, Event>, answers: seq<Value>, budget: nat)
    requires |answers| !in history
    ensures var c := body(input, answers);
            Play(w, env, body, input, history, answers, budget)
            == match c
               case Return(v) => Played(w, Returned(v), budget)
               case Throw(m) => Played(w, Threw(Thrown(m)), budget)
               case _ =>
                 var q := Perform(w, env, c, |answers|, budget);
                 if q.end.Returned? then Play(q.wf, env, body, input, history, answers + [q.end.v], q.left) else q
  {
  }

  /** What following the reference run means for a replay from w. */
  ghost predicate Follows(w: Wf, p: Played, env: Env, more: seq<Value>, inbox': seq<Signal>, stop: Stop, least: int) {
    p.end == EndOf(stop) && p.left >= least && p.wf.run == w.run && Arrived(w, p.wf, env, more, inbox', stop)
  }

  lemma FollowsNow(w: Wf, env: Env, body: Body, input: Value, history: map<nat, Event>, answers: seq<Value>,
                   stop: Stop, budget: nat)
    requires AtEnd(w, history, answers) && Stops(env, w.inbox, |answers|, body(input, answers), stop)
    requires budget >= Price(body(input, answers))
    ensures Follows(w, Play(w, env, body, input, history, answers, budget), env, [], w.inbox, stop,
                    budget - Price(body(input, answers)))
  {
    var c := body(input, answers);
    var p := Play(w, env, body, input, history, answers, budget);
    PlayTurn(w, env, body, input, history, answers, budget);
    if !c.Return? && !c.Throw? {
      CommandStops(w, env, |answers|, c, stop, budget);
    }
    ArrivedNow(w, p.wf, env, stop);
  }

  lemma FollowsLater(w: Wf, w1: Wf, p: Played, env: Env, a: Value, more: seq<Value>, inbox': seq<Signal>, stop: Stop,
                     least: int)
    requires Contiguous(w.events) && |w1.events| == |w.events| + 1 && w1.run == w.run
    requires forall k: nat :: k in w.events ==> k in w1.events && w1.events[k] == w.events[k]
    requires Answers(w1.events, |w1.events|) == Answers(w.events, |w.events|) + [a]
    requires Follows(w1, p, env, more, inbox', stop, least)
    ensures Follows(w, p, env, [a] + more, inbox', stop, least)
  {
    ArrivedLater(w, w1, p.wf, env, a, more, inbox', stop);
  }

  lemma FollowsLess(w: Wf, p: Played, env: Env, more: seq<Value>, inbox': seq<Signal>, stop: Stop, least: int,
                    less: int)
    requires Follows(w, p, env, more, inbox', stop, least) && less <= least
    ensures Follows(w, p, env, more, inbox', stop, less)
  {
  }

  /** The first of the answers: the replay goes on from what performing its command left. */
  lemma FirstAnswer(w: Wf, env: Env, body: Body, input: Value, history: map<nat, Event>, answers: seq<Value>,
                    a: Value, mid: seq<Signal>, budget: nat)
    returns (q: Played)
    requires AtEnd(w, history, answers) && budget >= Price(body(input, answers))
    requires WorldAnswers(env, w.inbox, |answers|, body(input, answers), a, mid)
    ensures Play(w, env, body, input, history, answers, budget)
         == Play(q.wf, env, body, input, history, answers + [a], q.left)
    ensures q.left >= budget - Price(body(input, answers)) && q.wf.run == w.run && q.wf.inbox == mid
    ensures AtEnd(q.wf, history, answers + [a]) && |q.wf.events| == |w.events| + 1
    ensures forall k: nat :: k in w.events ==> k in q.wf.events && q.wf.events[k] == w.events[k]
  {
    q := Perform(w, env, body(input, answers), |answers|, budget);
    CommandAnswers(w, env, |answers|, body(input, answers), a, mid, budget);
    PlayTurn(w, env, body, input, history, answers, budget);
    OneAnswerOn(w, q.wf, history, answers, a);
  }

  lemma GoesFirst(env: Env, inbox: seq<Signal>, body: Body, input: Value, answers: seq<Value>, more: seq<Value>,
                  inbox': seq<Signal>, stop: Stop)
    returns (mid: seq<Signal>)
    requires more != [] && Goes(env, inbox, body, input, answers, more, inbox', stop)
    ensures WorldAnswers(env, inbox, |answers|, body(input, answers), more[0], mid)
    ensures Goes(env, mid, body, input, answers + [more[0]], more[1..], inbox', stop)
  {
    mid :| && WorldAnswers(env, inbox, |answers|, body(input, answers), more[0], mid)
           && Goes(env, mid, body, input, answers + [more[0]], more[1..], inbox', stop);
  }

  /** Beyond the recorded history a replay with enough writes goes where the reference
      run goes. */
  lemma {:induction false} PlayGoes(w: Wf, env: Env, body: Body, input: Value, history: map<nat, Event>,
                                    answers: seq<Value>, more: seq<Value>, inbox': seq<Signal>, stop: Stop,
                                    budget: nat, p: Played)
    requires AtEnd(w, history, answers) && Goes(env, w.inbox, body, input, answers, more, inbox', stop)
    requires budget >= PriceOf(body, input, answers, more)
    requires p == Play(w, env, body, input, history, answers, budget)
    ensures Follows(w, p, env, more, inbox', stop, budget - PriceOf(body, input, answers, more))
    decreases |more|
  {
    if more == [] {
      FollowsNow(w, env, body, input, history, answers, stop, budget);
    } else {
      var mid := GoesFirst(env, w.inbox, body, input, answers, more, inbox', stop);
      var q := FirstAnswer(w, env, body, input, history, answers, more[0], mid, budget);
      PlayGoes(q.wf, env, body, input, history, answers + [more[0]], more[1..], inbox', stop, q.left, p);
      FollowsOn(w, q, p, env, more, inbox', stop, q.left - PriceOf(body, input, answers + [more[0]], more[1..]),
                budget - PriceOf(body, input, answers, more));
    }
  }

  lemma FollowsOn(w: Wf, q: Played, p: Played, env: Env, more: seq<Value>, inbox': seq<Signal>, stop: Stop,
                  least: int, less: int)
    requires more != [] && Contiguous(w.events) && |q.wf.events| == |w.events| + 1 && q.wf.run == w.run
    requires forall k: nat :: k in w.events ==> k in q.wf.events && q.wf.events[k] == w.events[k]
    requires Answers(q.wf.events, |q.wf.events|) == Answers(w.events, |w.events|) + [more[0]]
    requires Follows(q.wf, p, env, more[1..], inbox', stop, least) && less <= least
    ensures Follows(w, p, env, more, inbox', stop, less)
  {
    FollowsLater(w, q.wf, p, env, more[0], more[1..], inbox', stop, least);
    assert [more[0]] + more[1..] == more;
  }

  /** A replay feeds the body the whole recorded history before it does anything. */
  lemma {:induction false} ReplaysAll(w: Wf, env: Env, body: Body, input: Value, n: nat, k: nat, budget: nat)
    requires Contiguous(w.events) && k <= n <= |w.events| && Closed(w.events, n) && ReplaysTo(body, input, w.events, n)
    ensures Play(w, env, body, input, w.events, Answers(w.events, k), budget)
         == Play(w, env, body, input, w.events, Answers(w.events, n), budget)
    decreases n - k
  {
    if k < n {
      assert Faithful(body, input, w.events, k);
      assert Answers(w.events, k) + [Answer(w.events[k])] == Answers(w.events, k + 1);
      ReplaysAll(w, env, body, input, n, k + 1, budget);
    }
  }

  // ---------------------------------------------------------------- a call that survives

  /** The run row says how the reference run stopped; name and input stay. */
  predicate RowSays(before: Run, after: Run, stop: Stop) {
    && after.name == before.name && after.input == before.input
    && match stop
       case Finishes(v) => after.status == Finished && after.result == v
       case Fails(m) => after.status == Failed && after.error == Some(Thrown(m)) && after.result == Undefined
       case Sleeps(_, _) => after.status == Suspended && after.result == Undefined
       case WaitsFor(_) => after.status == Suspended && after.result == Undefined
  }

  /** A call took workflow w, whose row was `row`, where the reference run goes. */
  ghost predicate Concludes(w: Wf, row: Run, r: Called, env: Env, more: seq<Value>, inbox': seq<Signal>, stop: Stop) {
    && r.reply == Ran(EndOf(stop)) && Arrived(w, r.wf, env, more, inbox', stop)
    && r.wf.run.Some? && RowSays(row, r.wf.run.value, stop)
  }

  lemma SettlesSo(w: Wf, row: Run, p: Played, q: Played, env: Env, more: seq<Value>, inbox': seq<Signal>, stop: Stop)
    requires w.run == Some(row) && row.result == Undefined
    requires Follows(w, p, env, more, inbox', stop, 1) && q == Settle(p)
    ensures Concludes(w, row, Called(q.wf, Ran(q.end), q.left), env, more, inbox', stop)
  {
  }

  /** The reference run of the registered body from these answers, and writes enough for it. */
  ghost predicate CanGo(row: Run, reg: Registry, inbox: seq<Signal>, env: Env, answers: seq<Value>, more: seq<Value>,
                        inbox': seq<Signal>, stop: Stop, budget: int) {
    && row.name in reg
    && Goes(env, inbox, reg[row.name], row.input, answers, more, inbox', stop)
    && budget >= PriceOf(reg[row.name], row.input, answers, more)
  }

  /** An unfinished workflow whose whole history is complete. */
  ghost predicate Complete(w: Wf, row: Run, body: Body) {
    && w.run == Some(row) && row.result == Undefined
    && Contiguous(w.events) && Closed(w.events, |w.events|) && ReplaysTo(body, row.input, w.events, |w.events|)
  }

  lemma CompleteReplays(w: Wf, row: Run, body: Body, env: Env, budget: nat, more: seq<Value>, inbox': seq<Signal>,
                        stop: Stop, p: Played)
    requires Complete(w, row, body)
    requires Goes(env, w.inbox, body, row.input, Answers(w.events, |w.events|), more, inbox', stop)
    requires budget > PriceOf(body, row.input, Answers(w.events, |w.events|), more)
    requires p == Play(w, env, body, row.input, w.events, [], budget)
    ensures Follows(w, p, env, more, inbox', stop, 1)
  {
    var answers := Answers(w.events, |w.events|);
    assert Answers(w.events, 0) == [];
    ReplaysAll(w, env, body, row.input, |w.events|, 0, budget);
    PlayGoes(w, env, body, row.input, w.events, answers, more, inbox', stop, budget, p);
    FollowsLess(w, p, env, more, inbox', stop, budget - PriceOf(body, row.input, answers, more), 1);
  }

  lemma DriveGoes(w: Wf, row: Run, body: Body, env: Env, budget: nat, more: seq<Value>, inbox': seq<Signal>,
                  stop: Stop, q: Played)
    requires Complete(w, row, body)
    requires Goes(env, w.inbox, body, row.input, Answers(w.events, |w.events|), more, inbox', stop)
    requires budget >= 2 + PriceOf(body, row.input, Answers(w.events, |w.events|), more)
    requires q == Drive(w, env, body, row.input, budget)
    ensures Concludes(w, row, Called(q.wf, Ran(q.end), q.left), env, more, inbox', stop)
  {
    var w1 := w.(run := Some(row.(status := Running)));
    var p := Play(w1, env, body, row.input, w1.events, [], budget - 1);
    assert q == Settle(p);
    CompleteReplays(w1, w1.run.value, body, env, budget - 1, more, inbox', stop, p);
    SettlesSo(w1, w1.run.value, p, q, env, more, inbox', stop);
    ArrivedFrom(w, w1, q.wf, env, more, inbox', stop);
  }

  lemma InvComplete(w: Wf, reg: Registry)
    requires Inv(w, reg) && w.run.Some? && w.run.value.status != Finished && Closed(w.events, |w.events|)
    ensures Complete(w, w.run.value, reg[w.run.value.name])
  {
  }

  lemma ResumedGoes(w: Wf, reg: Registry, env: Env, budget: nat, more: seq<Value>, inbox': seq<Signal>, stop: Stop,
                    r: Called)
    requires Inv(w, reg) && w.run.Some? && w.run.value.status != Finished && Closed(w.events, |w.events|)
    requires CanGo(w.run.value, reg, w.inbox, env, Answers(w.events, |w.events|), more, inbox', stop, budget - 2)
    requires r == Resume(w, reg, env, budget)
    ensures Concludes(w, w.run.value, r, env, more, inbox', stop)
  {
    var row := w.run.value;
    InvComplete(w, reg);
    DriveGoes(w, row, reg[row.name], env, budget, more, inbox', stop, Drive(w, env, reg[row.name], row.input, budget));
  }

  /** Resuming with enough writes a workflow whose history is complete takes it exactly
      where the body goes by itself, and the row then says how it stopped: in particular
      a body that returns v leaves `completed` with v. */
  lemma ResumeGoes(reg: Registry, actions: seq<Action>, env: Env, budget: nat, more: seq<Value>, inbox': seq<Signal>,
                   stop: Stop)
    requires var w := After(Fresh, reg, actions);
             && w.run.Some? && w.run.value.status != Finished && Closed(w.events, |w.events|)
             && CanGo(w.run.value, reg, w.inbox, env, Answers(w.events, |w.events|), more, inbox', stop, budget - 2)
    ensures var w := After(Fresh, reg, actions);
            Concludes(w, w.run.value, Resume(w, reg, env, budget), env, more, inbox', stop)
  {
    AfterKeeps(Fresh, reg, actions);
    var w := After(Fresh, reg, actions);
    ResumedGoes(w, reg, env, budget, more, inbox', stop, Resume(w, reg, env, budget));
  }

  /** So does starting a workflow anew, under the name and with the input given. */
  lemma StartGoes(reg: Registry, actions: seq<Action>, name: string, input: Value, env: Env, budget: nat,
                  more: seq<Value>, inbox': seq<Signal>, stop: Stop)
    requires var w := After(Fresh, reg, actions);
             && w.run.None?
             && CanGo(Run(name, input, Running, Undefined, None), reg, w.inbox, env, [], more, inbox', stop, budget - 3)
    ensures var w := After(Fresh, reg, actions);
            Concludes(w, Run(name, input, Running, Undefined, None), Start(w, reg, name, input, env, budget), env,
                      more, inbox', stop)
  {
    AfterKeeps(Fresh, reg, actions);
    var w := After(Fresh, reg, actions);
    StartedGoes(w, reg, Run(name, input, Running, Undefined, None), env, budget, more, inbox', stop,
                Start(w, reg, name, input, env, budget));
  }

  lemma StartedGoes(w: Wf, reg: Registry, row: Run, env: Env, budget: nat, more: seq<Value>, inbox': seq<Signal>,
                    stop: Stop, r: Called)
    requires w.run.None? && w.events == map[] && row.result == Undefined && row.status == Running && row.error == None
    requires CanGo(row, reg, w.inbox, env, [], more, inbox', stop, budget - 3)
    requires r == Start(w, reg, row.name, row.input, env, budget)
    ensures Concludes(w, row, r, env, more, inbox', stop)
  {
    var created := w.(run := Some(row));
    assert Answers(created.events, 0) == [];
    DriveGoes(created, row, reg[row.name], env, budget - 1, more, inbox', stop,
              Drive(created, env, reg[row.name], row.input, budget - 1));
    ArrivedFrom(w, created, r.wf, env, more, inbox', stop);
  }

  lemma ArrivedFrom(w: Wf, w1: Wf, w': Wf, env: Env, more: seq<Value>, inbox': seq<Signal>, stop: Stop)
    requires w1.events == w.events && Arrived(w1, w', env, more, inbox', stop)
    ensures Arrived(w, w', env, more, inbox', stop)
  {
  }

  // ---------------------------------------------------------------- waking up

  /** The workflow whose open event `at` has been completed with this result. */
  function Woken(w: Wf, at: nat, result: Value): Wf
    requires at in w.events
  {
    w.(events := w.events[at := w.events[at].(status := Completed, result := result)])
  }

  /** Event `at` is the open sleep or wait the workflow stands at, and with this result
      for it the body goes on as said. */
  ghost predicate Awaits(w: Wf, reg: Registry, at: nat, result: Value, env: Env, more: seq<Value>,
                         inbox': seq<Signal>, stop: Stop, budget: int) {
    && w.run.Some? && at in w.events && w.events[at].status == Pending
    && CanGo(w.run.value, reg, w.inbox, env, Answers(w.events, at) + [result], more, inbox', stop, budget)
  }

  lemma WokenGoes(w: Wf, done: Wf, reg: Registry, at: nat, result: Value, env: Env, budget: nat, more: seq<Value>,
                  inbox': seq<Signal>, stop: Stop, r: Called)
    requires Inv(w, reg) && Awaits(w, reg, at, result, env, more, inbox', stop, budget - 2)
    requires w.events[at].kind == SleepEvent ==> result == Undefined
    requires Inv(done, reg) && done.run == w.run && done.inbox == w.inbox
             && done.events == Woken(w, at, result).events
    requires r == Resume(done, reg, env, budget)
    ensures Concludes(Woken(w, at, result), w.run.value, r, env, more, inbox', stop)
  {
    WokenAnswers(w, done, reg, at, result);
    ResumedGoes(done, reg, env, budget, more, inbox', stop, r);
    ArrivedFrom(Woken(w, at, result), done, r.wf, env, more, inbox', stop);
  }

  /** A signal to a workflow that waits for it is handed to the wait, and with enough
      writes the body goes on from there. */
  lemma SignalWakes(reg: Registry, actions: seq<Action>, at: nat, name: string, payload: Value, env: Env, budget: nat,
                    more: seq<Value>, inbox': seq<Signal>, stop: Stop)
    requires Awaits(After(Fresh, reg, actions), reg, at, payload, env, more, inbox', stop, budget - 3)
    requires var e := After(Fresh, reg, actions).events[at]; e.kind == SignalEvent && e.name == name
    ensures var w := After(Fresh, reg, actions);
            Concludes(Woken(w, at, payload), w.run.value, SendSignal(w, reg, name, payload, env, budget), env, more,
                      inbox', stop)
  {
    AfterKeeps(Fresh, reg, actions);
    var w := After(Fresh, reg, actions);
    SignalledGoes(w, reg, at, name, payload, env, budget, more, inbox', stop,
                  SendSignal(w, reg, name, payload, env, budget));
  }

  lemma SignalledGoes(w: Wf, reg: Registry, at: nat, name: string, payload: Value, env: Env, budget: nat,
                      more: seq<Value>, inbox': seq<Signal>, stop: Stop, r: Called)
    requires Inv(w, reg) && Awaits(w, reg, at, payload, env, more, inbox', stop, budget - 3) && budget > 0
    requires w.events[at].kind == SignalEvent && w.events[at].name == name
    requires r == SendSignal(w, reg, name, payload, env, budget)
    ensures Concludes(Woken(w, at, payload), w.run.value, r, env, more, inbox', stop)
  {
    HandsOver(w, reg, at, name, payload, env, budget);
    HandedGoes(w, reg, at, name, payload, env, budget - 1, more, inbox', stop, r);
  }

  lemma HandedGoes(w: Wf, reg: Registry, at: nat, name: string, payload: Value, env: Env, budget: nat,
                   more: seq<Value>, inbox': seq<Signal>, stop: Stop, r: Called)
    requires Inv(w, reg) && Awaits(w, reg, at, payload, env, more, inbox', stop, budget - 2)
    requires w.events[at].kind == SignalEvent && w.events[at].name == name
    requires r == Resume(HandedOver(w, at, name, payload), reg, env, budget)
    ensures Concludes(Woken(w, at, payload), w.run.value, r, env, more, inbox', stop)
  {
    HandOverKeeps(w, reg, at, name, payload);
    WokenGoes(w, HandedOver(w, at, name, payload), reg, at, payload, env, budget, more, inbox', stop, r);
  }

  lemma HandsOver(w: Wf, reg: Registry, at: nat, name: string, payload: Value, env: Env, budget: nat)
    requires WellFormed(w.events) && IsPendingWait(w.events, at, name) && budget > 0
    ensures SendSignal(w, reg, name, payload, env, budget)
         == Resume(HandedOver(w, at, name, payload), reg, env, budget - 1)
  {
    OneOpen(w.events, at, FirstPendingWait(w.events, name).value);
  }

  lemma OneOpen(events: map<nat, Event>, at: nat, other: nat)
    requires WellFormed(events) && at in events && other in events
    requires events[at].status == Pending && events[other].status == Pending
    ensures at == other
  {
  }

  lemma WokenAnswers(w: Wf, done: Wf, reg: Registry, at: nat, result: Value)
    requires Inv(w, reg) && at in w.events && w.events[at].status == Pending
    requires done.run == w.run && done.events == Woken(w, at, result).events
    ensures w.run.Some? && w.run.value.status != Finished && at == |w.events| - 1
    ensures Closed(done.events, |done.events|)
    ensures Answers(done.events, |done.events|)
         == Answers(w.events, at) + [if w.events[at].kind == SleepEvent then Undefined else result]
  {
    assert |done.events| == |w.events|;
  }

  /** Once a tick has completed an open sleep whose time has come, the next resume with
      enough writes goes on from there. */
  lemma TimerWakes(reg: Registry, actions: seq<Action>, at: nat, now: int, env: Env, budget: nat, more: seq<Value>,
                   inbox': seq<Signal>, stop: Stop)
    requires Awaits(After(Fresh, reg, actions), reg, at, Undefined, env, more, inbox', stop, budget - 2)
    requires var e := After(Fresh, reg, actions).events[at];
             e.kind == SleepEvent && e.fireAt.Some? && e.fireAt.value <= now
    ensures var w := After(Fresh, reg, actions);
            var fired := Apply(w, reg, DoFire(at, now));
            Concludes(Woken(w, at, Undefined), w.run.value, Resume(fired, reg, env, budget), env, more, inbox', stop)
  {
    AfterKeeps(Fresh, reg, actions);
    var w := After(Fresh, reg, actions);
    FiredGoes(w, reg, at, now, env, budget, more, inbox', stop,
              Resume(Apply(w, reg, DoFire(at, now)), reg, env, budget));
  }

  lemma FiredGoes(w: Wf, reg: Registry, at: nat, now: int, env: Env, budget: nat, more: seq<Value>,
                  inbox': seq<Signal>, stop: Stop, r: Called)
    requires Inv(w, reg) && Awaits(w, reg, at, Undefined, env, more, inbox', stop, budget - 2)
    requires w.events[at].kind == SleepEvent && w.events[at].fireAt.Some? && w.events[at].fireAt.value <= now
    requires r == Resume(Apply(w, reg, DoFire(at, now)), reg, env, budget)
    ensures Concludes(Woken(w, at, Undefined), w.run.value, r, env, more, inbox', stop)
  {
    assert Apply(w, reg, DoFire(at, now)) == Fire(w, at, now);
    FireKeeps(w, reg, at, now);
    WokenGoes(w, Fire(w, at, now), reg, at, Undefined, env, budget, more, inbox', stop, r);
  }

  // ---------------------------------------------------------------- what an answer tells

  ghost predicate LastIsOpen(events: map<nat, Event>) {
    var n := |events|;
    n > 0 && n - 1 in events && events[n - 1].status == Pending
  }

  lemma PerformParks(w: Wf, env: Env, c: Command, budget: nat)
    requires Contiguous(w.events) && !c.Return? && !c.Throw?
    ensures var p := Perform(w, env, c, |w.events|, budget); p.end.Parked? ==> LastIsOpen(p.wf.events)
  {
    assert |w.events| !in w.events;
  }

  /** A replay parks only with its last event open. */
  lemma {:induction false} PlayParks(w: Wf, reg: Registry, body: Body, input: Value, env: Env,
                                     history: map<nat, Event>, answers: seq<Value>, budget: nat, p: Played)
    requires Loaded(w, reg, body, input, history, answers)
    requires p == Play(w, env, body, input, history, answers, budget) && p.end.Parked?
    ensures LastIsOpen(p.wf.events)
    decreases budget, Ahead(history, |answers|)
  {
    var at, c := |answers|, body(input, answers);
    if at in history {
      RecordedAnswers(w, reg, body, input, history, answers);
      if history[at].status == Completed || c.Now? || c.Random? {
        assert at in Ahead(history, at) && at !in Ahead(history, at + 1);
        PlayParks(w, reg, body, input, env, history, answers + [Answer(history[at])], budget, p);
      }
    } else {
      assert at == |w.events|;
      PlayTurn(w, env, body, input, history, answers, budget);
      ParksBeyond(w, reg, body, input, env, history, answers, budget, p);
    }
  }

  lemma {:induction false} ParksBeyond(w: Wf, reg: Registry, body: Body, input: Value, env: Env,
                                       history: map<nat, Event>, answers: seq<Value>, budget: nat, p: Played)
    requires Loaded(w, reg, body, input, history, answers) && |answers| !in history && |answers| == |w.events|
    requires p == Play(w, env, body, input, history, answers, budget) && p.end.Parked?
    requires !body(input, answers).Return? && !body(input, answers).Throw?
    ensures LastIsOpen(p.wf.events)
    decreases budget, Ahead(history, |answers|), 0
  {
    var c := body(input, answers);
    var q := Perform(w, env, c, |answers|, budget);
    PerformKeeps(w, reg, body, input, env, c, budget);
    PerformParks(w, env, c, budget);
    if q.end.Returned? {
      PerformedAnswers(w, q, reg, body, input, history, answers);
      PlayParks(q.wf, reg, body, input, env, history, answers + [q.end.v], q.left, p);
    }
  }

  /** The row a drive leaves is what the caller is told. */
  ghost predicate Tells(end: Ending, w: Wf) {
    && w.run.Some?
    && var row := w.run.value;
       match end
       case Returned(v) => row.status == Finished && row.result == v && Closed(w.events, |w.events|)
       case Parked => row.status == Suspended && LastIsOpen(w.events)
       case Threw(f) => row.status == Failed && row.error == Some(f) && f.Thrown?
       case Crashed => row.status != Finished
  }

  lemma PlayTells(w: Wf, reg: Registry, body: Body, input: Value, env: Env, budget: nat, p: Played, q: Played)
    requires Loaded(w, reg, body, input, w.events, [])
    requires p == Play(w, env, body, input, w.events, [], budget) && q == Settle(p)
    ensures Tells(q.end, q.wf)
  {
    PlayKeeps(w, reg, body, input, env, w.events, [], budget);
    if p.end.Parked? {
      PlayParks(w, reg, body, input, env, w.events, [], budget, p);
    }
  }

  lemma DriveTells(w: Wf, reg: Registry, env: Env, budget: nat, q: Played)
    requires Inv(w, reg) && w.run.Some? && w.run.value.status != Finished
    requires q == Drive(w, env, reg[w.run.value.name], w.run.value.input, budget)
    ensures Tells(q.end, q.wf)
  {
    if budget > 0 {
      var row := w.run.value;
      var w1 := SetRunStatus(w, Running, Undefined, None);
      StatusKeeps(w, reg, Running, None);
      LoadedAtStart(w1, reg);
      PlayTells(w1, reg, reg[row.name], row.input, env, budget - 1,
                Play(w1, env, reg[row.name], row.input, w1.events, [], budget - 1), q);
    }
  }

  /** What a call answers; firing a timer answers nothing. */
  ghost function ReplyTo(w: Wf, reg: Registry, a: Action): Option<Reply> {
    match a
    case DoStart(name, input, env, budget) => Some(Start(w, reg, name, input, env, budget).reply)
    case DoResume(env, budget) => Some(Resume(w, reg, env, budget).reply)
    case DoSignal(name, payload, env, budget) => Some(SendSignal(w, reg, name, payload, env, budget).reply)
    case DoFire(_, _) => None
  }

  /** The answer and the row it comes with. */
  ghost predicate Truthful(w: Wf, reply: Option<Reply>, w': Wf) {
    match reply
    case None => w'.run == w.run
    case Some(Ran(end)) => Tells(end, w') || (end.Crashed? && w'.run == w.run)
    case Some(AlreadyFinished) => w'.run == w.run && w.run.Some? && w.run.value.status == Finished
    case Some(NoSuchRun) => w'.run == w.run == None
    case Some(NotRegistered) => w' == w
    case Some(Buffered) => w'.run == w.run && w.run.Some? && w'.events == w.events
  }

  lemma ResumeTruthful(w: Wf, reg: Registry, env: Env, budget: nat, r: Called)
    requires Inv(w, reg) && r == Resume(w, reg, env, budget)
    ensures Truthful(w, Some(r.reply), r.wf) && !r.reply.NotRegistered? && !r.reply.Buffered?
  {
    if w.run.Some? && w.run.value.status != Finished {
      var row := w.run.value;
      DriveTells(w, reg, env, budget, Drive(w, env, reg[row.name], row.input, budget));
    }
  }

  lemma StartTruthful(w: Wf, reg: Registry, name: string, input: Value, env: Env, budget: nat, r: Called)
    requires Inv(w, reg) && r == Start(w, reg, name, input, env, budget)
    ensures Truthful(w, Some(r.reply), r.wf)
  {
    if name in reg && w.run.Some? {
      ResumeTruthful(w, reg, env, budget, r);
    } else if name in reg && budget > 0 {
      var created := w.(run := Some(Run(name, input, Running, Undefined, None)));
      DriveTells(created, reg, env, budget - 1, Drive(created, env, reg[name], input, budget - 1));
    }
  }

  lemma SignalTruthful(w: Wf, reg: Registry, name: string, payload: Value, env: Env, budget: nat, r: Called)
    requires Inv(w, reg) && r == SendSignal(w, reg, name, payload, env, budget)
    ensures Truthful(w, Some(r.reply), r.wf)
  {
    if budget > 0 && FirstPendingWait(w.events, name).Some? {
      var at := FirstPendingWait(w.events, name).value;
      HandOverKeeps(w, reg, at, name, payload);
      ResumeTruthful(HandedOver(w, at, name, payload), reg, env, budget - 1, r);
    }
  }

  /** Whatever call is made on whatever reachable workflow, its answer is the row it
      leaves: a value returned is stored as the result of a completed run whose history is
      complete, a parked body leaves the run suspended with its last event open, an error
      leaves it failed with that error, and one that died leaves it unfinished. */
  lemma AnswerTellsRow(reg: Registry, actions: seq<Action>, a: Action)
    ensures var w := After(Fresh, reg, actions); Truthful(w, ReplyTo(w, reg, a), Apply(w, reg, a))
  {
    AfterKeeps(Fresh, reg, actions);
    var w := After(Fresh, reg, actions);
    match a
    case DoStart(name, input, env, budget) =>
      StartTruthful(w, reg, name, input, env, budget, Start(w, reg, name, input, env, budget));
    case DoResume(env, budget) => ResumeTruthful(w, reg, env, budget, Resume(w, reg, env, budget));
    case DoSignal(name, payload, env, budget) =>
      SignalTruthful(w, reg, name, payload, env, budget, SendSignal(w, reg, name, payload, env, budget));
    case DoFire(at, now) =>
  }

  /** A body that stands at an open sleep or wait stays there: resuming it with two writes
      to spare parks it again and changes nothing but the status. */
  lemma ResumeParks(reg: Registry, actions: seq<Action>, env: Env, budget: nat)
    requires var w := After(Fresh, reg, actions); w.run.Some? && LastIsOpen(w.events)
    requires budget >= 2
    ensures var w := After(Fresh, reg, actions);
            var r := Resume(w, reg, env, budget);
            r.reply == Ran(Parked) && r.wf == w.(run := Some(w.run.value.(status := Suspended)))
  {
    AfterKeeps(Fresh, reg, actions);
    OpenParks(After(Fresh, reg, actions), reg, env, budget, Resume(After(Fresh, reg, actions), reg, env, budget));
  }

  lemma OpenParks(w: Wf, reg: Registry, env: Env, budget: nat, r: Called)
    requires Inv(w, reg) && w.run.Some? && LastIsOpen(w.events) && budget >= 2 && r == Resume(w, reg, env, budget)
    ensures r.reply == Ran(Parked) && r.wf == w.(run := Some(w.run.value.(status := Suspended)))
  {
    var row, n := w.run.value, |w.events| - 1;
    var body := reg[row.name];
    var w1 := SetRunStatus(w, Running, Undefined, None);
    assert Faithful(body, row.input, w.events, n);
    assert Answers(w1.events, 0) == [];
    ReplaysAll(w1, env, body, row.input, n, 0, budget - 1);
    assert Play(w1, env, body, row.input, w1.events, [], budget - 1) == Played(w1, Parked, budget - 1);
  }
}
