/** Deterministic replay, seen from one workflow.

    A workflow body is a function from its input and the answers it has received
    so far to the command it issues next.  `Wf` is everything the store keeps
    about one workflow, plus a `journal` of what the outside world observed.
    Every engine call is a function on `Wf` that takes a `budget`: the number of
    store writes and activity calls the process performs before it dies.  */
module Workflow {
  import opened Prelude

  datatype EventKind = StepEvent | SleepEvent | SignalEvent | NowEvent | RandomEvent
  datatype EventStatus = Pending | Completed
  datatype Event = Event(kind: EventKind, name: string, status: EventStatus, result: Value, fireAt: Option<int>)

  datatype Label = Label(kind: EventKind, name: string)
  datatype Failure =
    | Thrown(message: string)
    | Nondeterministic(at: nat, recorded: Label, issued: Label)

  datatype RunStatus = Running | Suspended | Finished | Failed
  datatype Run = Run(name: string, input: Value, status: RunStatus, result: Value, error: Option<Failure>)

  datatype Command =
    | Step(name: string, retries: int)
    | Sleep(name: string, ms: int)
    | Wait(name: string)
    | Now
    | Random
    | Return(v: Value)
    | Throw(message: string)

  type Body = (Value, seq<Value>) -> Command
  type Registry = map<string, Body>

  datatype Signal = Signal(name: string, payload: Value)

  /** What one drive meets outside: activity outcomes by (position, attempt), the
      clock and the random source by position. */
  datatype Env = Env(activity: (nat, int) -> Outcome, clock: nat -> int, random: nat -> int)

  /** The observable history of one workflow, oldest first. */
  datatype Entry =
    | Invoked(at: nat, outcome: Outcome)               // an activity function was called
    | Committed(at: nat, v: Value)                     // its result was appended to the history
    | Armed(at: nat, clock: int)                       // a durable timer was started
    | Fired(at: nat, now: int)                         // a tick completed it
    | Sent(name: string, payload: Value)               // a signal was accepted
    | Delivered(at: nat, name: string, payload: Value) // a wait received it
    | Dropped(name: string, payload: Value)            // died between consuming it and recording the wait

  datatype Wf = Wf(run: Option<Run>, events: map<nat, Event>, inbox: seq<Signal>, journal: seq<Entry>)

  const Fresh := Wf(None, map[], [], [])

  // ---------------------------------------------------------------- store operations

  function Log(w: Wf, e: Entry): Wf {
    w.(journal := w.journal + [e])
  }

  function SetRunStatus(w: Wf, status: RunStatus, result: Value, error: Option<Failure>): Wf {
    match w.run
    case None => w
    case Some(r) =>
      var r1 := r.(status := status);
      var r2 := if result == Undefined then r1 else r1.(result := result);
      w.(run := Some(if error.None? then r2 else r2.(error := error)))
  }

  function AppendEvent(w: Wf, at: nat, e: Event): Wf {
    if at in w.events then w else w.(events := w.events[at := e])
  }

  function Completion(e: Event, result: Value): Event {
    e.(status := Completed, result := if result == Undefined then e.result else result)
  }

  function CompleteEvent(w: Wf, at: nat, result: Value): Wf {
    if at !in w.events then w else w.(events := w.events[at := Completion(w.events[at], result)])
  }

  /** Position of the earliest buffered signal of this name, or the length. */
  function FirstOf(inbox: seq<Signal>, name: string): (k: nat)
    ensures k <= |inbox|
    ensures k < |inbox| ==> inbox[k].name == name
    ensures forall j :: 0 <= j < k ==> inbox[j].name != name
  {
    if inbox == [] then 0
    else if inbox[0].name == name then 0
    else 1 + FirstOf(inbox[1..], name)
  }

  // ---------------------------------------------------------------- one drive

  function KindOf(c: Command): EventKind
    requires !c.Return? && !c.Throw?
  {
    match c
    case Step(_, _) => StepEvent
    case Sleep(_, _) => SleepEvent
    case Wait(_) => SignalEvent
    case Now => NowEvent
    case Random => RandomEvent
  }

  /** The type and name a command is checked against on replay. */
  function Issued(c: Command): Label
    requires !c.Return? && !c.Throw?
  {
    Label(KindOf(c), if c.Now? then "now" else if c.Random? then "random" else c.name)
  }

  function Recorded(e: Event): Label {
    Label(e.kind, e.name)
  }

  /** What a completed event hands back to the body. */
  function Answer(e: Event): Value {
    if e.kind == SleepEvent then Undefined else e.result
  }

  datatype Ending = Returned(v: Value) | Threw(failure: Failure) | Parked | Crashed
  datatype Played = Played(wf: Wf, end: Ending, left: nat)

  /** The retry loop of one step: call the activity, then commit its result. */
  function Attempt(w: Wf, env: Env, at: nat, name: string, attempt: int, retries: int, last: string,
                   budget: nat): (p: Played)
    ensures p.end.Returned? ==> p.left < budget
    ensures !p.end.Parked?
    decreases retries - attempt
  {
    if attempt > retries then Played(w, Threw(Thrown(last)), budget)
    else if budget == 0 then Played(w, Crashed, 0)
    else
      var outcome := env.activity(at, attempt);
      var called := Log(w, Invoked(at, outcome));
      match outcome
      case Throws(m) => Attempt(called, env, at, name, attempt + 1, retries, m, budget - 1)
      case Returns(v) =>
        if budget == 1 then Played(called, Crashed, 0)
        else Played(Commit(called, at, name, v), Returned(v), budget - 2)
  }

  function Commit(w: Wf, at: nat, name: string, v: Value): Wf {
    if at in w.events then w
    else Log(AppendEvent(w, at, Event(StepEvent, name, Completed, v, None)), Committed(at, v))
  }

  function PerformSleep(w: Wf, env: Env, at: nat, name: string, ms: int, budget: nat): Played {
    if budget == 0 then Played(w, Crashed, 0)
    else
      var e := Event(SleepEvent, name, Pending, Undefined, Some(env.clock(at) + ms));
      Played(Log(AppendEvent(w, at, e), Armed(at, env.clock(at))), Parked, budget - 1)
  }

  function PerformWait(w: Wf, at: nat, name: string, budget: nat): (p: Played)
    ensures p.end.Returned? ==> p.left < budget
  {
    var k := FirstOf(w.inbox, name);
    if budget == 0 then Played(w, Crashed, 0)
    else if k == |w.inbox| then
      Played(AppendEvent(w, at, Event(SignalEvent, name, Pending, Undefined, None)), Parked, budget - 1)
    else
      var payload := w.inbox[k].payload;
      var consumed := w.(inbox := w.inbox[..k] + w.inbox[k + 1..]);
      if budget == 1 then Played(Log(consumed, Dropped(name, payload)), Crashed, 0)
      else
        var e := Event(SignalEvent, name, Completed, payload, None);
        Played(Log(AppendEvent(consumed, at, e), Delivered(at, name, payload)), Returned(payload), budget - 2)
  }

  function PerformRead(w: Wf, at: nat, kind: EventKind, name: string, v: Value, budget: nat): (p: Played)
    ensures p.end.Returned? ==> p.left < budget
    ensures !p.end.Parked?
  {
    if budget == 0 then Played(w, Crashed, 0)
    else Played(AppendEvent(w, at, Event(kind, name, Completed, v, None)), Returned(v), budget - 1)
  }

  /** A command the history does not answer: do it for real. */
  function Perform(w: Wf, env: Env, c: Command, at: nat, budget: nat): (p: Played)
    requires !c.Return? && !c.Throw?
    ensures p.end.Returned? ==> p.left < budget
  {
    match c
    case Step(name, retries) => Attempt(w, env, at, name, 0, retries, "undefined", budget)
    case Sleep(name, ms) => PerformSleep(w, env, at, name, ms, budget)
    case Wait(name) => PerformWait(w, at, name, budget)
    case Now => PerformRead(w, at, NowEvent, "now", Number(env.clock(at)), budget)
    case Random => PerformRead(w, at, RandomEvent, "random", Number(env.random(at)), budget)
  }

  /** The recorded positions a replay has not reached yet. */
  ghost function Ahead(history: map<nat, Event>, at: nat): set<nat> {
    set k | k in history && at <= k
  }

  /** Run the body against the history loaded at the start of the drive. */
  function Play(w: Wf, env: Env, body: Body, input: Value, history: map<nat, Event>, answers: seq<Value>,
                budget: nat): Played
    decreases budget, Ahead(history, |answers|)
  {
    var at := |answers|;
    var c := body(input, answers);
    if c.Return? then Played(w, Returned(c.v), budget)
    else if c.Throw? then Played(w, Threw(Thrown(c.message)), budget)
    else if at in history && Recorded(history[at]) != Issued(c) then
      Played(w, Threw(Nondeterministic(at, Recorded(history[at]), Issued(c))), budget)
    else if at in history && (history[at].status == Completed || c.Now? || c.Random?) then
      assert at in Ahead(history, at) && at !in Ahead(history, at + 1);
      Play(w, env, body, input, history, answers + [Answer(history[at])], budget)
    else if at in history && !c.Step? then Played(w, Parked, budget)
    else
      var p := Perform(w, env, c, at, budget);
      if p.end.Returned? then Play(p.wf, env, body, input, history, answers + [p.end.v], p.left) else p
  }

  /** Record how the drive ended in the run row. */
  function Settle(p: Played): Played {
    if p.end.Crashed? || p.left == 0 then Played(p.wf, Crashed, 0)
    else
      var w := match p.end
        case Returned(v) => SetRunStatus(p.wf, Finished, v, None)
        case Parked => SetRunStatus(p.wf, Suspended, Undefined, None)
        case Threw(f) => SetRunStatus(p.wf, Failed, Undefined, Some(f));
      Played(w, p.end, p.left - 1)
  }

  function Drive(w: Wf, env: Env, body: Body, input: Value, budget: nat): Played {
    if budget == 0 then Played(w, Crashed, 0)
    else
      var w1 := SetRunStatus(w, Running, Undefined, None);
      Settle(Play(w1, env, body, input, w1.events, [], budget - 1))
  }

  // ---------------------------------------------------------------- engine calls

  datatype Reply = Ran(end: Ending) | AlreadyFinished | NoSuchRun | NotRegistered | Buffered
  datatype Called = Called(wf: Wf, reply: Reply, left: nat)

  function Resume(w: Wf, reg: Registry, env: Env, budget: nat): Called {
    match w.run
    case None => Called(w, NoSuchRun, budget)
    case Some(r) =>
      if r.status == Finished then Called(w, AlreadyFinished, budget)
      else if r.name !in reg then Called(w, NotRegistered, budget)
      else
        var p := Drive(w, env, reg[r.name], r.input, budget);
        Called(p.wf, Ran(p.end), p.left)
  }

  function Start(w: Wf, reg: Registry, name: string, input: Value, env: Env, budget: nat): Called {
    if name !in reg then Called(w, NotRegistered, budget)
    else if w.run.Some? then Resume(w, reg, env, budget)
    else if budget == 0 then Called(w, Ran(Crashed), 0)
    else
      var created := w.(run := Some(Run(name, input, Running, Undefined, None)));
      var p := Drive(created, env, reg[name], input, budget - 1);
      Called(p.wf, Ran(p.end), p.left)
  }

  ghost predicate IsPendingWait(events: map<nat, Event>, at: nat, name: string) {
    at in events && events[at].kind == SignalEvent && events[at].status == Pending && events[at].name == name
  }

  /** The engine takes the first pending wait in seq order. */
  ghost predicate IsFirstPendingWait(events: map<nat, Event>, at: nat, name: string) {
    IsPendingWait(events, at, name) && forall k: nat :: k < at ==> !IsPendingWait(events, k, name)
  }

  ghost function FirstPendingWait(events: map<nat, Event>, name: string): (r: Option<nat>)
    ensures r.Some? ==> IsFirstPendingWait(events, r.value, name)
    ensures r.None? ==> forall k: nat :: !IsPendingWait(events, k, name)
  {
    if k: nat :| IsPendingWait(events, k, name) then Some(LeastWait(events, name, k)) else None
  }

  ghost function LeastWait(events: map<nat, Event>, name: string, k: nat): (r: nat)
    requires IsPendingWait(events, k, name)
    ensures IsFirstPendingWait(events, r, name)
    decreases k
  {
    if j: nat :| j < k && IsPendingWait(events, j, name) then LeastWait(events, name, j) else k
  }

  ghost function SendSignal(w: Wf, reg: Registry, name: string, payload: Value, env: Env, budget: nat): Called {
    if budget == 0 then Called(w, Ran(Crashed), 0)
    else
      match FirstPendingWait(w.events, name)
      case Some(at) =>
        var done := CompleteEvent(w, at, payload);
        Resume(Log(Log(done, Sent(name, payload)), Delivered(at, name, payload)), reg, env, budget - 1)
      case None =>
        var kept := Log(w.(inbox := w.inbox + [Signal(name, payload)]), Sent(name, payload));
        Called(kept, if w.run.Some? then Buffered else NoSuchRun, budget - 1)
  }

  ghost predicate Due(events: map<nat, Event>, at: nat, now: int) {
    at in events && events[at].kind == SleepEvent && events[at].status == Pending
    && events[at].fireAt.Some? && events[at].fireAt.value <= now
  }

  /** One due timer completed by a tick. */
  function Fire(w: Wf, at: nat, now: int): Wf {
    Log(CompleteEvent(w, at, Undefined), Fired(at, now))
  }
}

/** What every run of the workflow engine keeps, however it is cut up by crashes,
    resumes, signals and ticks. */
module WorkflowReplay {
  import opened Prelude
  import opened Workflow

  // ---------------------------------------------------------------- the history

  ghost predicate Contiguous(events: map<nat, Event>) {
    forall k: nat :: k in events <==> k < |events|
  }

  ghost predicate Closed(events: map<nat, Event>, upTo: nat) {
    forall k: nat :: k < upTo ==> k in events && events[k].status == Completed
  }

  /** Contiguous from 0, everything completed except perhaps a last sleep or wait. */
  ghost predicate WellFormed(events: map<nat, Event>) {
    && Contiguous(events)
    && forall k: nat :: k in events && events[k].status == Pending ==>
         && k == |events| - 1
         && (events[k].kind == SleepEvent || events[k].kind == SignalEvent)
         && events[k].result == Undefined
  }

  /** The answers the body has received when it stands at position n. */
  ghost function Answers(events: map<nat, Event>, n: nat): (s: seq<Value>)
    ensures |s| == n
  {
    seq(n, k requires 0 <= k < n => if k in events then Answer(events[k]) else Undefined)
  }

  /** The body, fed the recorded answers, issues exactly the recorded command at k. */
  ghost predicate Faithful(body: Body, input: Value, events: map<nat, Event>, k: nat) {
    var c := body(input, Answers(events, k));
    k in events && !c.Return? && !c.Throw? && Issued(c) == Recorded(events[k])
  }

  ghost predicate ReplaysTo(body: Body, input: Value, events: map<nat, Event>, n: nat) {
    forall k: nat :: k < n ==> Faithful(body, input, events, k)
  }

  /** History and run row agree with the registered body. */
  ghost predicate Shape(w: Wf, reg: Registry) {
    && WellFormed(w.events)
    && (w.run.None? ==> w.events == map[])
    && (w.run.Some? ==>
          var r := w.run.value;
          && r.name in reg
          && ReplaysTo(reg[r.name], r.input, w.events, |w.events|)
          && (r.status != Finished ==> r.result == Undefined)
          && (r.status == Finished ==>
                Closed(w.events, |w.events|)
                  && reg[r.name](r.input, Answers(w.events, |w.events|)) == Return(r.result)))
  }

  // ---------------------------------------------------------------- the journal

  /** After a step is committed nothing is committed or called for it again. */
  ghost predicate CommitsAreFinal(journal: seq<Entry>) {
    forall i: nat, j: nat :: i < j < |journal| && journal[i].Committed? ==>
      (journal[j].Committed? || journal[j].Invoked?) ==> journal[i].at != journal[j].at
  }

  ghost predicate CommitsFollowCalls(journal: seq<Entry>) {
    forall j: nat :: j < |journal| && journal[j].Committed? ==>
      j > 0 && journal[j - 1] == Invoked(journal[j].at, Returns(journal[j].v))
  }

  ghost predicate CommitsAreRecorded(w: Wf) {
    forall k: nat, v: Value :: Committed(k, v) in w.journal <==>
      k in w.events && w.events[k].kind == StepEvent && w.events[k].result == v
  }

  /** A step is committed once, with the value its last call returned, and its
      activity is never called again. */
  ghost predicate AtMostOnce(w: Wf) {
    CommitsAreFinal(w.journal) && CommitsFollowCalls(w.journal) && CommitsAreRecorded(w)
  }

  ghost predicate StartedAt(w: Wf, k: nat, ms: int) {
    k in w.events && exists clock: int :: Armed(k, clock) in w.journal && w.events[k].fireAt == Some(clock + ms)
  }

  ghost predicate TimerOf(w: Wf, k: nat, c: Command) {
    c.Sleep? ==> StartedAt(w, k, c.ms)
  }

  ghost predicate FiredInTime(w: Wf, k: nat) {
    k in w.events && w.events[k].fireAt.Some?
    && exists now: int :: Fired(k, now) in w.journal && w.events[k].fireAt.value <= now
  }

  /** Every timer was armed for the duration the body asked for, and one that is
      over was completed by a tick at or after its due time. */
  ghost predicate Timers(w: Wf, reg: Registry) {
    forall k: nat :: k in w.events && w.events[k].kind == SleepEvent && w.run.Some? && w.run.value.name in reg ==>
      && TimerOf(w, k, reg[w.run.value.name](w.run.value.input, Answers(w.events, k)))
      && (w.events[k].status == Completed ==> FiredInTime(w, k))
  }

  // ---------------------------------------------------------------- the mail

  ghost function SentOf(journal: seq<Entry>, name: string): seq<Value> {
    if journal == [] then []
    else
      var e := journal[|journal| - 1];
      SentOf(journal[..|journal| - 1], name) + if e.Sent? && e.name == name then [e.payload] else []
  }

  /** Payloads taken off the queue: by a wait, or lost in a crash. */
  ghost function HandledOf(journal: seq<Entry>, name: string): seq<Value> {
    if journal == [] then []
    else
      var e := journal[|journal| - 1];
      HandledOf(journal[..|journal| - 1], name)
      + if (e.Delivered? || e.Dropped?) && e.name == name then [e.payload] else []
  }

  ghost function DeliveredOf(journal: seq<Entry>, name: string): seq<Value> {
    if journal == [] then []
    else
      var e := journal[|journal| - 1];
      DeliveredOf(journal[..|journal| - 1], name) + if e.Delivered? && e.name == name then [e.payload] else []
  }

  ghost function BufferedOf(inbox: seq<Signal>, name: string): seq<Value> {
    if inbox == [] then []
    else (if inbox[0].name == name then [inbox[0].payload] else []) + BufferedOf(inbox[1..], name)
  }

  /** Results of the completed waits of this name, by position. */
  ghost function WaitResults(events: map<nat, Event>, name: string, n: nat): seq<Value> {
    if n == 0 then []
    else
      var k := n - 1;
      WaitResults(events, name, k)
      + if k in events && events[k].kind == SignalEvent && events[k].status == Completed && events[k].name == name
        then [events[k].result] else []
  }

  ghost predicate Mail(w: Wf) {
    && (forall name: string :: SentOf(w.journal, name) == HandledOf(w.journal, name) + BufferedOf(w.inbox, name))
    && (forall name: string :: DeliveredOf(w.journal, name) == WaitResults(w.events, name, |w.events|))
    && (forall k: nat, name: string :: IsPendingWait(w.events, k, name) ==> BufferedOf(w.inbox, name) == [])
  }

  ghost predicate Inv(w: Wf, reg: Registry) {
    Shape(w, reg) && AtMostOnce(w) && Timers(w, reg) && Mail(w)
  }

  // ---------------------------------------------------------------- basic facts

  lemma LogSnoc(journal: seq<Entry>, e: Entry, name: string)
    ensures SentOf(journal + [e], name) == SentOf(journal, name) + if e.Sent? && e.name == name then [e.payload] else []
    ensures HandledOf(journal + [e], name)
         == HandledOf(journal, name) + if (e.Delivered? || e.Dropped?) && e.name == name then [e.payload] else []
    ensures DeliveredOf(journal + [e], name)
         == DeliveredOf(journal, name) + if e.Delivered? && e.name == name then [e.payload] else []
  {
    assert (journal + [e])[..|journal|] == journal;
  }

  lemma {:induction false} BufferedSplit(a: seq<Signal>, b: seq<Signal>, name: string)
    ensures BufferedOf(a + b, name) == BufferedOf(a, name) + BufferedOf(b, name)
  {
    if a == [] {
      assert a + b == b;
    } else {
      BufferedSplit(a[1..], b, name);
      var ab := a + b;
      assert ab[0] == a[0] && ab[1..] == a[1..] + b;
      var head := if a[0].name == name then [a[0].payload] else [];
      Regroup(head, BufferedOf(a[1..], name), BufferedOf(b, name));
    }
  }

  lemma BufferedSnoc(inbox: seq<Signal>, s: Signal, name: string)
    ensures BufferedOf(inbox + [s], name) == BufferedOf(inbox, name) + if s.name == name then [s.payload] else []
  {
    BufferedSplit(inbox, [s], name);
    assert [s][1..] == [];
  }

  lemma {:induction false} BufferedNone(a: seq<Signal>, name: string)
    requires forall j :: 0 <= j < |a| ==> a[j].name != name
    ensures BufferedOf(a, name) == []
  {
    if a != [] {
      BufferedNone(a[1..], name);
    }
  }

  /** Consuming the earliest signal of a name takes the head of its queue and
      leaves every other queue alone. */
  lemma ConsumeTakesHead(inbox: seq<Signal>, name: string, other: string)
    requires FirstOf(inbox, name) < |inbox|
    ensures var k := FirstOf(inbox, name);
            var rest := inbox[..k] + inbox[k + 1..];
            BufferedOf(inbox, other) == (if other == name then [inbox[k].payload] else []) + BufferedOf(rest, other)
  {
    var k := FirstOf(inbox, name);
    assert inbox == inbox[..k] + ([inbox[k]] + inbox[k + 1..]);
    BufferedSplit(inbox[..k], [inbox[k]] + inbox[k + 1..], other);
    BufferedSplit([inbox[k]], inbox[k + 1..], other);
    BufferedSplit(inbox[..k], inbox[k + 1..], other);
    assert [inbox[k]][1..] == [];
    if other == name {
      BufferedNone(inbox[..k], name);
    }
  }

  lemma NoneBuffered(inbox: seq<Signal>, name: string)
    requires FirstOf(inbox, name) == |inbox|
    ensures BufferedOf(inbox, name) == []
  {
    BufferedNone(inbox, name);
  }

  lemma {:induction false} WaitResultsFrame(events: map<nat, Event>, events': map<nat, Event>, name: string, n: nat)
    requires forall k: nat :: k < n ==> (k in events <==> k in events') && (k in events ==> events[k] == events'[k])
    ensures WaitResults(events, name, n) == WaitResults(events', name, n)
  {
    if n > 0 {
      WaitResultsFrame(events, events', name, n - 1);
    }
  }

  lemma AnswersFrame(events: map<nat, Event>, events': map<nat, Event>, n: nat)
    requires forall k: nat :: k < n ==> k in events && k in events' && Answer(events[k]) == Answer(events'[k])
    ensures Answers(events, n) == Answers(events', n)
  {
  }

  // ---------------------------------------------------------------- growing the history by one event

  ghost predicate Extends(events: map<nat, Event>, events': map<nat, Event>, e: Event) {
    var n := |events|;
    n !in events && events' == events[n := e]
  }

  lemma ExtendShape(events: map<nat, Event>, e: Event, body: Body, input: Value)
    requires Contiguous(events) && Closed(events, |events|) && ReplaysTo(body, input, events, |events|)
    requires e.status == Pending ==> (e.kind == SleepEvent || e.kind == SignalEvent) && e.result == Undefined
    requires var c := body(input, Answers(events, |events|)); !c.Return? && !c.Throw? && Issued(c) == Recorded(e)
    ensures var events' := events[|events| := e];
            && Extends(events, events', e) && |events'| == |events| + 1
            && WellFormed(events') && ReplaysTo(body, input, events', |events'|)
            && Answers(events', |events'|) == Answers(events, |events|) + [Answer(e)]
            && (forall k: nat :: k <= |events| ==> Answers(events', k) == Answers(events, k))
            && (e.status == Completed ==> Closed(events', |events'|))
  {
    var n := |events|;
    var events' := events[n := e];
    forall k: nat | k <= n ensures Answers(events', k) == Answers(events, k) {
      AnswersFrame(events, events', k);
    }
    forall k: nat | k < n + 1 ensures Faithful(body, input, events', k) {
      if k < n {
        assert Faithful(body, input, events, k);
      }
    }
  }

  /** A new event that is no completed wait, with a journal entry that moves no signal. */
  lemma SilentMail(w: Wf, w': Wf, e: Event, x: Entry)
    requires Contiguous(w.events) && Closed(w.events, |w.events|) && Mail(w)
    requires Extends(w.events, w'.events, e) && e.kind != SignalEvent
    requires w'.inbox == w.inbox && w'.journal == w.journal + [x]
    requires !x.Sent? && !x.Delivered? && !x.Dropped?
    ensures Mail(w')
  {
    forall n: string { LogSnoc(w.journal, x, n); }
    ExtendMail(w, w', e);
  }

  lemma ExtendMail(w: Wf, w': Wf, e: Event)
    requires Contiguous(w.events) && Extends(w.events, w'.events, e)
    requires Closed(w.events, |w.events|)
    requires forall name: string :: DeliveredOf(w.journal, name) == WaitResults(w.events, name, |w.events|)
    requires forall name: string :: SentOf(w'.journal, name) == HandledOf(w'.journal, name) + BufferedOf(w'.inbox, name)
    requires forall name: string ::
      DeliveredOf(w'.journal, name) == DeliveredOf(w.journal, name)
        + if e.kind == SignalEvent && e.status == Completed && e.name == name then [e.result] else []
    requires e.kind == SignalEvent && e.status == Pending ==> BufferedOf(w'.inbox, e.name) == []
    ensures Mail(w')
  {
    var n := |w.events|;
    forall name: string ensures DeliveredOf(w'.journal, name) == WaitResults(w'.events, name, |w'.events|) {
      WaitResultsFrame(w.events, w'.events, name, n);
    }
  }

  // ---------------------------------------------------------------- performing one command

  /** The body stands at the end of a fully completed history. */
  ghost predicate Standing(w: Wf, reg: Registry, body: Body, input: Value) {
    && Inv(w, reg)
    && w.run.Some? && w.run.value.status != Finished
    && w.run.value.name in reg && reg[w.run.value.name] == body && w.run.value.input == input
    && Closed(w.events, |w.events|)
  }

  ghost predicate Performed(w: Wf, reg: Registry, body: Body, input: Value, p: Played) {
    && Inv(p.wf, reg)
    && p.wf.run == w.run
    && (p.end.Returned? ==>
          Standing(p.wf, reg, body, input)
          && |p.wf.events| == |w.events| + 1
          && Answers(p.wf.events, |p.wf.events|) == Answers(w.events, |w.events|) + [p.end.v])
    && (p.end.Threw? ==> p.end.failure.Thrown?)
  }

  lemma InvokeKeeps(w: Wf, reg: Registry, body: Body, input: Value, outcome: Outcome)
    requires Standing(w, reg, body, input)
    ensures Standing(Log(w, Invoked(|w.events|, outcome)), reg, body, input)
  {
    var w' := Log(w, Invoked(|w.events|, outcome));
    assert AtMostOnce(w') by { NoteOnce(w, w', Invoked(|w.events|, outcome)); }
    assert Timers(w', reg) by { JournalGrows(w, w', reg, Invoked(|w.events|, outcome)); }
    assert Mail(w') by { NoteMail(w, w', Invoked(|w.events|, outcome)); }
  }

  /** An entry that commits nothing, and calls nothing already committed. */
  lemma NoteOnce(w: Wf, w': Wf, x: Entry)
    requires AtMostOnce(w) && w'.events == w.events && w'.journal == w.journal + [x]
    requires !x.Committed? && (x.Invoked? ==> x.at !in w.events)
    ensures AtMostOnce(w')
  {
    assert CommitsAreFinal(w'.journal) by {
      forall j: nat | j < |w.journal| && w.journal[j].Committed? && x.Invoked? ensures w.journal[j].at != x.at {
        assert Committed(w.journal[j].at, w.journal[j].v) in w.journal;
      }
    }
    assert CommitsAreRecorded(w') by {
      forall k: nat, v: Value ensures Committed(k, v) in w'.journal <==> Committed(k, v) in w.journal {}
    }
  }

  /** An entry that moves no signal. */
  lemma NoteMail(w: Wf, w': Wf, x: Entry)
    requires Mail(w) && w'.events == w.events && w'.inbox == w.inbox && w'.journal == w.journal + [x]
    requires !x.Sent? && !x.Delivered? && !x.Dropped?
    ensures Mail(w')
  {
    forall name: string { LogSnoc(w.journal, x, name); }
  }

  /** Timer facts survive any further journal entry while the history stands. */
  lemma JournalGrows(w: Wf, w': Wf, reg: Registry, e: Entry)
    requires Timers(w, reg)
    requires w'.journal == w.journal + [e] && w'.events == w.events && w'.run == w.run
    ensures Timers(w', reg)
  {
    assert forall x :: x in w.journal ==> x in w'.journal;
  }

  /** The timers of a history extended by one event. */
  lemma ExtendTimers(w: Wf, w': Wf, reg: Registry, e: Event)
    requires Contiguous(w.events) && Extends(w.events, w'.events, e) && Timers(w, reg) && w'.run == w.run
    requires forall k: nat :: k <= |w.events| ==> Answers(w'.events, k) == Answers(w.events, k)
    requires forall x :: x in w.journal ==> x in w'.journal
    requires w.run.Some? && w.run.value.name in reg
    requires e.kind == SleepEvent ==>
      && e.status == Pending
      && TimerOf(w', |w.events|, reg[w.run.value.name](w.run.value.input, Answers(w.events, |w.events|)))
    ensures Timers(w', reg)
  {
    forall k: nat | k in w'.events && w'.events[k].kind == SleepEvent
      ensures TimerOf(w', k, reg[w.run.value.name](w.run.value.input, Answers(w'.events, k)))
      ensures w'.events[k].status == Completed ==> FiredInTime(w', k)
    {
      if k < |w.events| {
        assert k in w.events;
        assert TimerOf(w, k, reg[w.run.value.name](w.run.value.input, Answers(w.events, k)));
      }
    }
  }

  lemma CommitOnce(w: Wf, w': Wf, e: Event)
    requires AtMostOnce(w) && Contiguous(w.events) && Extends(w.events, w'.events, e) && e.kind == StepEvent
    requires w.journal != [] && w.journal[|w.journal| - 1] == Invoked(|w.events|, Returns(e.result))
    requires w'.journal == w.journal + [Committed(|w.events|, e.result)]
    ensures AtMostOnce(w')
  {
    var at := |w.events|;
    forall j: nat | j < |w.journal| && w.journal[j].Committed? ensures w.journal[j].at != at {
      assert Committed(w.journal[j].at, w.journal[j].v) in w.journal;
    }
    forall k: nat, u: Value
      ensures Committed(k, u) in w'.journal <==> Committed(k, u) in w.journal || (k == at && u == e.result)
    {
    }
  }

  lemma CommitKeeps(w: Wf, reg: Registry, body: Body, input: Value, name: string, v: Value)
    requires Standing(w, reg, body, input)
    requires w.journal != [] && w.journal[|w.journal| - 1] == Invoked(|w.events|, Returns(v))
    requires var c := body(input, Answers(w.events, |w.events|)); c.Step? && c.name == name
    ensures Performed(w, reg, body, input, Played(Commit(w, |w.events|, name, v), Returned(v), 0))
  {
    var at := |w.events|;
    var e := Event(StepEvent, name, Completed, v, None);
    var w' := Commit(w, at, name, v);
    ExtendShape(w.events, e, body, input);
    assert AtMostOnce(w') by { CommitOnce(w, w', e); }
    assert Timers(w', reg) by { ExtendTimers(w, w', reg, e); }
    assert Mail(w') by { SilentMail(w, w', e, Committed(at, v)); }
  }

  lemma {:induction false} AttemptKeeps(w: Wf, reg: Registry, body: Body, input: Value, env: Env, name: string,
                                        attempt: int, retries: int, last: string, budget: nat)
    requires Standing(w, reg, body, input)
    requires var c := body(input, Answers(w.events, |w.events|)); c.Step? && c.name == name
    ensures Performed(w, reg, body, input, Attempt(w, env, |w.events|, name, attempt, retries, last, budget))
    decreases retries - attempt
  {
    var at := |w.events|;
    if attempt <= retries && budget > 0 {
      var outcome := env.activity(at, attempt);
      var called := Log(w, Invoked(at, outcome));
      var p := Attempt(w, env, at, name, attempt, retries, last, budget);
      InvokeKeeps(w, reg, body, input, outcome);
      if outcome.Throws? {
        AttemptKeeps(called, reg, body, input, env, name, attempt + 1, retries, outcome.message, budget - 1);
        PerformedSince(w, called, reg, body, input, p);
      } else if budget > 1 {
        CommitKeeps(called, reg, body, input, name, outcome.v);
        PerformedSince(w, called, reg, body, input, p);
      }
    }
  }

  /** A call of an activity on the way does not matter to what was performed. */
  lemma PerformedSince(w: Wf, called: Wf, reg: Registry, body: Body, input: Value, p: Played)
    requires called.events == w.events && called.run == w.run
    requires exists left :: Performed(called, reg, body, input, p.(left := left))
    ensures Performed(w, reg, body, input, p)
  {
  }

  lemma SleepKeeps(w: Wf, reg: Registry, body: Body, input: Value, env: Env, name: string, ms: int, budget: nat)
    requires Standing(w, reg, body, input)
    requires body(input, Answers(w.events, |w.events|)) == Sleep(name, ms)
    ensures Performed(w, reg, body, input, PerformSleep(w, env, |w.events|, name, ms, budget))
  {
    if budget > 0 {
      var at, clock := |w.events|, env.clock(|w.events|);
      SleepArms(w, reg, body, input, name, ms, clock);
      SameInv(Log(AppendEvent(w, at, Event(SleepEvent, name, Pending, Undefined, Some(clock + ms))), Armed(at, clock)),
              PerformSleep(w, env, at, name, ms, budget).wf, reg);
    }
  }

  /** A timer armed at the end of the history. */
  lemma SleepArms(w: Wf, reg: Registry, body: Body, input: Value, name: string, ms: int, clock: int)
    requires Standing(w, reg, body, input)
    requires body(input, Answers(w.events, |w.events|)) == Sleep(name, ms)
    ensures var at := |w.events|;
            Inv(Log(AppendEvent(w, at, Event(SleepEvent, name, Pending, Undefined, Some(clock
              + ms))), Armed(at, clock)), reg)
  {
    var at := |w.events|;
    var e := Event(SleepEvent, name, Pending, Undefined, Some(clock + ms));
    var w' := Log(AppendEvent(w, at, e), Armed(at, clock));
    ExtendShape(w.events, e, body, input);
    assert AtMostOnce(w') by { QuietKeeps(w, w', e, Armed(at, clock)); }
    assert Timers(w', reg) by {
      assert Armed(at, clock) in w'.journal;
      assert StartedAt(w', at, ms);
      ExtendTimers(w, w', reg, e);
    }
    assert Mail(w') by { SilentMail(w, w', e, Armed(at, clock)); }
  }

  /** An entry that neither calls nor commits keeps the at-most-once facts. */
  lemma QuietKeeps(w: Wf, w': Wf, e: Event, x: Entry)
    requires AtMostOnce(w) && Contiguous(w.events) && Extends(w.events, w'.events, e) && e.kind != StepEvent
    requires w'.journal == w.journal + [x] && !x.Invoked? && !x.Committed?
    ensures AtMostOnce(w')
  {
    forall k: nat, v: Value ensures Committed(k, v) in w'.journal <==> Committed(k, v) in w.journal {}
  }

  lemma ReadKeeps(w: Wf, reg: Registry, body: Body, input: Value, kind: EventKind, name: string, v: Value, budget: nat)
    requires Standing(w, reg, body, input)
    requires kind == NowEvent || kind == RandomEvent
    requires var c := body(input, Answers(w.events, |w.events|));
             !c.Return? && !c.Throw? && Issued(c) == Label(kind, name)
    ensures Performed(w, reg, body, input, PerformRead(w, |w.events|, kind, name, v, budget))
  {
    if budget > 0 {
      var at := |w.events|;
      var e := Event(kind, name, Completed, v, None);
      var w' := AppendEvent(w, at, e);
      ExtendShape(w.events, e, body, input);
      ExtendTimers(w, w', reg, e);
      ExtendMail(w, w', e);
    }
  }

  lemma WaitParks(w: Wf, reg: Registry, body: Body, input: Value, name: string)
    requires Standing(w, reg, body, input)
    requires body(input, Answers(w.events, |w.events|)) == Wait(name)
    requires FirstOf(w.inbox, name) == |w.inbox|
    ensures Inv(AppendEvent(w, |w.events|, Event(SignalEvent, name, Pending, Undefined, None)), reg)
  {
    var e := Event(SignalEvent, name, Pending, Undefined, None);
    var w' := AppendEvent(w, |w.events|, e);
    ExtendShape(w.events, e, body, input);
    ExtendTimers(w, w', reg, e);
    NoneBuffered(w.inbox, name);
    ExtendMail(w, w', e);
  }

  /** The state after a wait consumed a buffered signal and was recorded. */
  ghost function Received(w: Wf, name: string): Wf
    requires FirstOf(w.inbox, name) < |w.inbox|
  {
    var k := FirstOf(w.inbox, name);
    var payload := w.inbox[k].payload;
    Wf(w.run, w.events[|w.events| := Event(SignalEvent, name, Completed, payload, None)],
       w.inbox[..k] + w.inbox[k + 1..], w.journal + [Delivered(|w.events|, name, payload)])
  }

  lemma ReceivedMail(w: Wf, name: string)
    requires Contiguous(w.events) && Closed(w.events, |w.events|) && Mail(w)
    requires FirstOf(w.inbox, name) < |w.inbox|
    ensures Mail(Received(w, name))
  {
    var w' := Received(w, name);
    var payload := w.inbox[FirstOf(w.inbox, name)].payload;
    forall n: string
      ensures SentOf(w'.journal, n) == HandledOf(w'.journal, n) + BufferedOf(w'.inbox, n)
      ensures DeliveredOf(w'.journal, n) == DeliveredOf(w.journal, n) + if n == name then [payload] else []
    {
      LogSnoc(w.journal, Delivered(|w.events|, name, payload), n);
      ConsumeTakesHead(w.inbox, name, n);
    }
    ExtendMail(w, w', Event(SignalEvent, name, Completed, payload, None));
  }

  lemma WaitDelivers(w: Wf, reg: Registry, body: Body, input: Value, name: string)
    requires Standing(w, reg, body, input)
    requires body(input, Answers(w.events, |w.events|)) == Wait(name)
    requires FirstOf(w.inbox, name) < |w.inbox|
    ensures Performed(w, reg, body, input,
                      Played(Received(w, name), Returned(w.inbox[FirstOf(w.inbox, name)].payload), 0))
  {
    var w' := Received(w, name);
    var payload := w.inbox[FirstOf(w.inbox, name)].payload;
    var e := Event(SignalEvent, name, Completed, payload, None);
    ReceivedMail(w, name);
    ExtendShape(w.events, e, body, input);
    QuietKeeps(w, w', e, Delivered(|w.events|, name, payload));
    ExtendTimers(w, w', reg, e);
  }

  lemma WaitKeeps(w: Wf, reg: Registry, body: Body, input: Value, name: string, budget: nat)
    requires Standing(w, reg, body, input)
    requires body(input, Answers(w.events, |w.events|)) == Wait(name)
    ensures Performed(w, reg, body, input, PerformWait(w, |w.events|, name, budget))
  {
    var k := FirstOf(w.inbox, name);
    if budget == 0 {
    } else if k == |w.inbox| {
      WaitParks(w, reg, body, input, name);
    } else {
      var payload := w.inbox[k].payload;
      var consumed := w.(inbox := w.inbox[..k] + w.inbox[k + 1..]);
      if budget == 1 {
        forall n: string { ConsumeTakesHead(w.inbox, name, n); }
        DropKeeps(w, Log(consumed, Dropped(name, payload)), reg, Dropped(name, payload));
      } else {
        WaitDelivers(w, reg, body, input, name);
        assert PerformWait(w, |w.events|, name, budget).wf == Received(w, name);
      }
    }
  }

  lemma DropKeeps(w: Wf, w': Wf, reg: Registry, x: Entry)
    requires Inv(w, reg) && x.Dropped? && Closed(w.events, |w.events|)
    requires w'.run == w.run && w'.events == w.events && w'.journal == w.journal + [x]
    requires forall n: string ::
      BufferedOf(w.inbox, n) == (if n == x.name then [x.payload] else []) + BufferedOf(w'.inbox, n)
    ensures Inv(w', reg)
  {
    assert AtMostOnce(w') by { NoteOnce(w, w', x); }
    assert Timers(w', reg) by { JournalGrows(w, w', reg, x); }
    assert Mail(w') by { DropMail(w, w', x); }
  }

  lemma DropMail(w: Wf, w': Wf, x: Entry)
    requires Mail(w) && Closed(w.events, |w.events|) && Contiguous(w.events) && x.Dropped?
    requires w'.events == w.events && w'.journal == w.journal + [x]
    requires forall n: string ::
      BufferedOf(w.inbox, n) == (if n == x.name then [x.payload] else []) + BufferedOf(w'.inbox, n)
    ensures Mail(w')
  {
    forall n: string
      ensures SentOf(w'.journal, n) == HandledOf(w'.journal, n) + BufferedOf(w'.inbox, n)
      ensures DeliveredOf(w'.journal, n) == DeliveredOf(w.journal, n)
    {
      LogSnoc(w.journal, x, n);
      Regroup(HandledOf(w.journal, n), if n == x.name then [x.payload] else [], BufferedOf(w'.inbox, n));
    }
  }

  lemma PerformKeeps(w: Wf, reg: Registry, body: Body, input: Value, env: Env, c: Command, budget: nat)
    requires Standing(w, reg, body, input)
    requires c == body(input, Answers(w.events, |w.events|)) && !c.Return? && !c.Throw?
    ensures Performed(w, reg, body, input, Perform(w, env, c, |w.events|, budget))
  {
    match c
    case Step(name, retries) => AttemptKeeps(w, reg, body, input, env, name, 0, retries, "undefined", budget);
    case Sleep(name, ms) => SleepKeeps(w, reg, body, input, env, name, ms, budget);
    case Wait(name) => WaitKeeps(w, reg, body, input, name, budget);
    case Now => ReadKeeps(w, reg, body, input, NowEvent, "now", Number(env.clock(|w.events|)), budget);
    case Random => ReadKeeps(w, reg, body, input, RandomEvent, "random", Number(env.random(|w.events|)), budget);
  }

  // ---------------------------------------------------------------- one drive

  ghost predicate Loaded(w: Wf, reg: Registry, body: Body, input: Value, history: map<nat, Event>,
                         answers: seq<Value>) {
    && Inv(w, reg)
    && w.run.Some? && w.run.value.status != Finished
    && w.run.value.name in reg && reg[w.run.value.name] == body && w.run.value.input == input
    && |answers| <= |w.events|
    && answers == Answers(w.events, |answers|)
    && Closed(w.events, |answers|)
    && (|answers| < |w.events| ==> w.events == history)
    && (forall k: nat :: k in history ==> k in w.events)
  }

  /** The body has returned and everything recorded is complete. */
  ghost predicate Concluded(w: Wf, body: Body, input: Value, v: Value) {
    Closed(w.events, |w.events|) && body(input, Answers(w.events, |w.events|)) == Return(v)
  }

  /** How a replay may end. */
  ghost predicate PlayedWell(w: Wf, p: Played, reg: Registry, body: Body, input: Value) {
    && Inv(p.wf, reg) && p.wf.run == w.run
    && (p.end.Returned? ==> Concluded(p.wf, body, input, p.end.v))
    && (p.end.Threw? ==> p.end.failure.Thrown?)
  }

  lemma SamePlayed(w: Wf, w': Wf, p: Played, p': Played, reg: Registry, body: Body, input: Value)
    requires PlayedWell(w, p, reg, body, input) && p' == p && w'.run == w.run
    ensures PlayedWell(w', p', reg, body, input)
  {
  }

  lemma PerformedIsPlayed(w: Wf, p: Played, reg: Registry, body: Body, input: Value)
    requires Performed(w, reg, body, input, p) && !p.end.Returned?
    ensures PlayedWell(w, p, reg, body, input)
  {
  }

  /** A recorded answer: the command was the recorded one, and the body goes on. */
  lemma RecordedAnswers(w: Wf, reg: Registry, body: Body, input: Value, history: map<nat, Event>, answers: seq<Value>)
    requires Loaded(w, reg, body, input, history, answers) && |answers| in history
    ensures var at := |answers|;
            var c := body(input, answers);
            && !c.Return? && !c.Throw? && Issued(c) == Recorded(history[at])
            && (history[at].status == Completed || c.Now? || c.Random? ==>
                  Loaded(w, reg, body, input, history, answers + [Answer(history[at])]))
  {
    assert Faithful(body, input, w.events, |answers|);
  }

  /** A command performed beyond the history: the body goes on from its answer. */
  lemma PerformedAnswers(w: Wf, p: Played, reg: Registry, body: Body, input: Value, history: map<nat, Event>,
                         answers: seq<Value>)
    requires Loaded(w, reg, body, input, history, answers) && |answers| !in history
    requires Performed(w, reg, body, input, p) && p.end.Returned?
    ensures Loaded(p.wf, reg, body, input, history, answers + [p.end.v])
  {
    assert |answers| == |w.events|;
  }

  lemma {:induction false} PlayKeeps(w: Wf, reg: Registry, body: Body, input: Value, env: Env,
                                     history: map<nat, Event>, answers: seq<Value>, budget: nat)
    requires Loaded(w, reg, body, input, history, answers)
    ensures PlayedWell(w, Play(w, env, body, input, history, answers, budget), reg, body, input)
    decreases budget, Ahead(history, |answers|)
  {
    var at := |answers|;
    var c := body(input, answers);
    var end := Play(w, env, body, input, history, answers, budget);
    if at in history {
      RecordedAnswers(w, reg, body, input, history, answers);
      if history[at].status == Completed || c.Now? || c.Random? {
        assert at in Ahead(history, at) && at !in Ahead(history, at + 1);
        var more := answers + [Answer(history[at])];
        PlayKeeps(w, reg, body, input, env, history, more, budget);
        SamePlayed(w, w, Play(w, env, body, input, history, more, budget), end, reg, body, input);
      }
    } else if !c.Return? && !c.Throw? {
      var p := Perform(w, env, c, at, budget);
      assert at == |w.events|;
      PerformKeeps(w, reg, body, input, env, c, budget);
      if p.end.Returned? {
        var more := answers + [p.end.v];
        PerformedAnswers(w, p, reg, body, input, history, answers);
        PlayKeeps(p.wf, reg, body, input, env, history, more, p.left);
        SamePlayed(p.wf, w, Play(p.wf, env, body, input, history, more, p.left), end, reg, body, input);
      } else {
        PerformedIsPlayed(w, p, reg, body, input);
        SamePlayed(w, w, p, end, reg, body, input);
      }
    }
  }

  /** Writing a status that is not `completed` keeps everything. */
  lemma StatusKeeps(w: Wf, reg: Registry, status: RunStatus, error: Option<Failure>)
    requires Inv(w, reg) && w.run.Some? && w.run.value.status != Finished && status != Finished
    ensures Inv(SetRunStatus(w, status, Undefined, error), reg)
  {
    var w' := SetRunStatus(w, status, Undefined, error);
    forall k: nat | k in w'.events && w'.events[k].kind == SleepEvent && w'.run.value.name in reg
      ensures TimerOf(w', k, reg[w'.run.value.name](w'.run.value.input, Answers(w'.events, k)))
      ensures w'.events[k].status == Completed ==> FiredInTime(w', k)
    {
      assert TimerOf(w, k, reg[w.run.value.name](w.run.value.input, Answers(w.events, k)));
    }
  }

  lemma FinishKeeps(w: Wf, reg: Registry, v: Value)
    requires Inv(w, reg) && w.run.Some? && w.run.value.status != Finished
    requires Concluded(w, reg[w.run.value.name], w.run.value.input, v)
    ensures Inv(SetRunStatus(w, Finished, v, None), reg)
  {
    var w' := SetRunStatus(w, Finished, v, None);
    forall k: nat | k in w'.events && w'.events[k].kind == SleepEvent && w'.run.value.name in reg
      ensures TimerOf(w', k, reg[w'.run.value.name](w'.run.value.input, Answers(w'.events, k)))
      ensures w'.events[k].status == Completed ==> FiredInTime(w', k)
    {
      assert TimerOf(w, k, reg[w.run.value.name](w.run.value.input, Answers(w.events, k)));
    }
  }

  lemma SettleKeeps(p: Played, reg: Registry)
    requires Inv(p.wf, reg) && p.wf.run.Some? && p.wf.run.value.status != Finished
    requires p.end.Returned? ==> Concluded(p.wf, reg[p.wf.run.value.name], p.wf.run.value.input, p.end.v)
    ensures Inv(Settle(p).wf, reg)
  {
    if p.left > 0 {
      match p.end
      case Crashed =>
      case Parked => StatusKeeps(p.wf, reg, Suspended, None);
      case Threw(f) => StatusKeeps(p.wf, reg, Failed, Some(f));
      case Returned(v) => FinishKeeps(p.wf, reg, v);
    }
  }

  lemma PlayedOutKeeps(w: Wf, reg: Registry, env: Env, budget: nat, p: Played)
    requires Inv(w, reg) && w.run.Some? && w.run.value.status != Finished
    requires p == Settle(Play(w, env, reg[w.run.value.name], w.run.value.input, w.events, [], budget))
    ensures Inv(p.wf, reg) && (p.end.Threw? ==> p.end.failure.Thrown?)
  {
    var r := w.run.value;
    LoadedAtStart(w, reg);
    PlayKeeps(w, reg, reg[r.name], r.input, env, w.events, [], budget);
    SettleKeeps(Play(w, env, reg[r.name], r.input, w.events, [], budget), reg);
  }

  lemma DriveKeeps(w: Wf, reg: Registry, env: Env, budget: nat)
    requires Inv(w, reg) && w.run.Some? && w.run.value.status != Finished
    ensures var r := w.run.value;
            var p := Drive(w, env, reg[r.name], r.input, budget);
            Inv(p.wf, reg) && (p.end.Threw? ==> p.end.failure.Thrown?)
  {
    if budget > 0 {
      StatusKeeps(w, reg, Running, None);
      var r := w.run.value;
      PlayedOutKeeps(SetRunStatus(w, Running, Undefined, None), reg, env, budget - 1,
        Drive(w, env, reg[r.name], r.input, budget));
    }
  }

  lemma LoadedAtStart(w: Wf, reg: Registry)
    requires Inv(w, reg) && w.run.Some? && w.run.value.status != Finished
    ensures Loaded(w, reg, reg[w.run.value.name], w.run.value.input, w.events, [])
  {
  }

  // ---------------------------------------------------------------- engine calls

  lemma ResumeKeeps(w: Wf, reg: Registry, env: Env, budget: nat)
    requires Inv(w, reg)
    ensures Inv(Resume(w, reg, env, budget).wf, reg)
  {
    if w.run.Some? && w.run.value.status != Finished {
      DriveKeeps(w, reg, env, budget);
    }
  }

  lemma StartKeeps(w: Wf, reg: Registry, name: string, input: Value, env: Env, budget: nat)
    requires Inv(w, reg)
    ensures Inv(Start(w, reg, name, input, env, budget).wf, reg)
  {
    if name in reg {
      if w.run.Some? {
        ResumeKeeps(w, reg, env, budget);
      } else if budget > 0 {
        var created := w.(run := Some(Run(name, input, Running, Undefined, None)));
        DriveKeeps(created, reg, env, budget - 1);
      }
    }
  }

  /** Completing the last, pending event of a well-formed history. */
  lemma CompleteShape(events: map<nat, Event>, at: nat, result: Value, body: Body, input: Value)
    requires WellFormed(events) && at in events && events[at].status == Pending
    requires ReplaysTo(body, input, events, |events|)
    ensures var events' := events[at := Completion(events[at], result)];
            && at == |events| - 1 && |events'| == |events|
            && WellFormed(events') && Closed(events', |events'|)
            && ReplaysTo(body, input, events', |events'|)
            && (forall k: nat :: k <= at ==> Answers(events', k) == Answers(events, k))
  {
    var events' := events[at := Completion(events[at], result)];
    assert |events'| == |events|;
    forall k: nat | k <= at ensures Answers(events', k) == Answers(events, k) {
      AnswersFrame(events, events', k);
    }
    forall k: nat | k < |events'| ensures Faithful(body, input, events', k) {
      assert Faithful(body, input, events, k);
    }
  }

  lemma CompleteTimers(w: Wf, w': Wf, reg: Registry, at: nat)
    requires Shape(w, reg) && Timers(w, reg) && w.run.Some?
    requires at in w.events && w.events[at].status == Pending
    requires exists result :: w'.events == w.events[at := Completion(w.events[at], result)]
    requires w'.run == w.run && forall x :: x in w.journal ==> x in w'.journal
    requires forall k: nat :: k <= at ==> Answers(w'.events, k) == Answers(w.events, k)
    requires w.events[at].kind == SleepEvent ==> FiredInTime(w', at)
    ensures Timers(w', reg)
  {
    forall k: nat | k in w'.events && w'.events[k].kind == SleepEvent
      ensures TimerOf(w', k, reg[w.run.value.name](w.run.value.input, Answers(w'.events, k)))
      ensures w'.events[k].status == Completed ==> FiredInTime(w', k)
    {
      assert k in w.events && k <= at;
      assert TimerOf(w, k, reg[w.run.value.name](w.run.value.input, Answers(w.events, k)));
    }
  }

  lemma CompleteOnce(w: Wf, w': Wf, at: nat, tail: seq<Entry>)
    requires AtMostOnce(w) && at in w.events && w.events[at].kind != StepEvent
    requires exists result :: w'.events == w.events[at := Completion(w.events[at], result)]
    requires w'.journal == w.journal + tail
    requires forall x :: x in tail ==> !x.Invoked? && !x.Committed?
    ensures AtMostOnce(w')
  {
    forall k: nat, v: Value ensures Committed(k, v) in w'.journal <==> Committed(k, v) in w.journal {}
    assert forall j: nat :: |w.journal| <= j < |w'.journal| ==> w'.journal[j] == tail[j - |w.journal|];
  }

  ghost function HandedOver(w: Wf, at: nat, name: string, payload: Value): Wf {
    Log(Log(CompleteEvent(w, at, payload), Sent(name, payload)), Delivered(at, name, payload))
  }

  lemma HandOverLog(journal: seq<Entry>, at: nat, name: string, payload: Value, n: string)
    ensures var journal' := journal + [Sent(name, payload)] + [Delivered(at, name, payload)];
            var more := if n == name then [payload] else [];
            && SentOf(journal', n) == SentOf(journal, n) + more
            && HandledOf(journal', n) == HandledOf(journal, n) + more
            && DeliveredOf(journal', n) == DeliveredOf(journal, n) + more
  {
    LogSnoc(journal, Sent(name, payload), n);
    LogSnoc(journal + [Sent(name, payload)], Delivered(at, name, payload), n);
  }

  lemma HandOverResults(events: map<nat, Event>, at: nat, name: string, payload: Value, n: string)
    requires WellFormed(events) && IsPendingWait(events, at, name)
    ensures var events' := events[at := Completion(events[at], payload)];
            && |events'| == |events|
            && WaitResults(events', n, |events'|) == WaitResults(events, n, |events|) + if n
              == name then [payload] else []
  {
    var events' := events[at := Completion(events[at], payload)];
    assert |events'| == |events| == at + 1;
    WaitResultsFrame(events, events', n, at);
  }

  lemma HandOverMail(w: Wf, at: nat, name: string, payload: Value)
    requires WellFormed(w.events) && Mail(w) && IsPendingWait(w.events, at, name)
    ensures Mail(HandedOver(w, at, name, payload))
  {
    var w' := HandedOver(w, at, name, payload);
    forall n: string
      ensures SentOf(w'.journal, n) == HandledOf(w'.journal, n) + BufferedOf(w'.inbox, n)
      ensures DeliveredOf(w'.journal, n) == WaitResults(w'.events, n, |w'.events|)
    {
      HandOverLog(w.journal, at, name, payload, n);
      HandOverResults(w.events, at, name, payload, n);
      assert n == name ==> BufferedOf(w.inbox, n) == [];
    }
    NoWaitLeft(w.events, w'.events, at);
  }

  /** Once the one open event is completed nothing is waited for. */
  lemma NoWaitLeft(events: map<nat, Event>, events': map<nat, Event>, at: nat)
    requires WellFormed(events) && at in events && events[at].status == Pending
    requires events'.Keys == events.Keys && events'[at].status == Completed
    requires forall k :: k in events && k != at ==> events'[k] == events[k]
    ensures forall k: nat, n: string :: !IsPendingWait(events', k, n)
  {
  }

  lemma HandOverKeeps(w: Wf, reg: Registry, at: nat, name: string, payload: Value)
    requires Inv(w, reg) && IsPendingWait(w.events, at, name)
    ensures Inv(HandedOver(w, at, name, payload), reg)
  {
    var w' := HandedOver(w, at, name, payload);
    var r := w.run.value;
    CompleteShape(w.events, at, payload, reg[r.name], r.input);
    assert w'.journal == w.journal + [Sent(name, payload), Delivered(at, name, payload)];
    assert AtMostOnce(w') by { CompleteOnce(w, w', at, [Sent(name, payload), Delivered(at, name, payload)]); }
    assert Timers(w', reg) by { CompleteTimers(w, w', reg, at); }
    assert Mail(w') by { HandOverMail(w, at, name, payload); }
  }

  ghost function Kept(w: Wf, name: string, payload: Value): Wf {
    Log(w.(inbox := w.inbox + [Signal(name, payload)]), Sent(name, payload))
  }

  lemma BufferMail(w: Wf, name: string, payload: Value)
    requires Mail(w) && forall k: nat :: !IsPendingWait(w.events, k, name)
    ensures Mail(Kept(w, name, payload))
  {
    var w' := Kept(w, name, payload);
    forall n: string
      ensures SentOf(w'.journal, n) == HandledOf(w'.journal, n) + BufferedOf(w'.inbox, n)
      ensures DeliveredOf(w'.journal, n) == DeliveredOf(w.journal, n)
      ensures n != name ==> BufferedOf(w'.inbox, n) == BufferedOf(w.inbox, n)
    {
      LogSnoc(w.journal, Sent(name, payload), n);
      BufferedSnoc(w.inbox, Signal(name, payload), n);
      Regroup(HandledOf(w.journal, n), BufferedOf(w.inbox, n), if n == name then [payload] else []);
    }
  }

  lemma BufferKeeps(w: Wf, reg: Registry, name: string, payload: Value)
    requires Inv(w, reg) && forall k: nat :: !IsPendingWait(w.events, k, name)
    ensures Inv(Kept(w, name, payload), reg)
  {
    var w' := Kept(w, name, payload);
    assert AtMostOnce(w') by { NoteOnce(w, w', Sent(name, payload)); }
    assert Timers(w', reg) by { JournalGrows(w, w', reg, Sent(name, payload)); }
    assert Mail(w') by { BufferMail(w, name, payload); }
  }

  lemma SignalKeeps(w: Wf, reg: Registry, name: string, payload: Value, env: Env, budget: nat)
    requires Inv(w, reg)
    ensures Inv(SendSignal(w, reg, name, payload, env, budget).wf, reg)
  {
    if budget > 0 {
      var end := SendSignal(w, reg, name, payload, env, budget).wf;
      match FirstPendingWait(w.events, name)
      case Some(at) =>
        var done := HandedOver(w, at, name, payload);
        assert Inv(done, reg) by { HandOverKeeps(w, reg, at, name, payload); }
        ResumeKeeps(done, reg, env, budget - 1);
        SameInv(Resume(done, reg, env, budget - 1).wf, end, reg);
      case None =>
        BufferKeeps(w, reg, name, payload);
        SameInv(Kept(w, name, payload), end, reg);
    }
  }

  lemma SameInv(w: Wf, w': Wf, reg: Registry)
    requires Inv(w, reg) && w' == w
    ensures Inv(w', reg)
  {
  }

  lemma FireMail(w: Wf, at: nat, now: int)
    requires WellFormed(w.events) && Mail(w) && Due(w.events, at, now)
    ensures Mail(Fire(w, at, now))
  {
    var w' := Fire(w, at, now);
    assert |w'.events| == |w.events| && at == |w.events| - 1;
    forall n: string
      ensures SentOf(w'.journal, n) == HandledOf(w'.journal, n) + BufferedOf(w'.inbox, n)
      ensures DeliveredOf(w'.journal, n) == WaitResults(w'.events, n, |w'.events|)
    {
      LogSnoc(w.journal, Fired(at, now), n);
      WaitResultsFrame(w.events, w'.events, n, at);
    }
  }

  lemma FireKeeps(w: Wf, reg: Registry, at: nat, now: int)
    requires Inv(w, reg) && Due(w.events, at, now)
    ensures Inv(Fire(w, at, now), reg)
  {
    var w' := Fire(w, at, now);
    var r := w.run.value;
    CompleteShape(w.events, at, Undefined, reg[r.name], r.input);
    assert AtMostOnce(w') by { CompleteOnce(w, w', at, [Fired(at, now)]); }
    assert Timers(w', reg) by {
      assert Fired(at, now) in w'.journal;
      CompleteTimers(w, w', reg, at);
    }
    assert Mail(w') by { FireMail(w, at, now); }
  }
}
