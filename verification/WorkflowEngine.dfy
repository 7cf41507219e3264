/** The engine over the in-memory store: the program's own loops, each shown to
    compute the function of module Workflow on the workflow it is called for and
    to leave every other workflow alone. */
module Engine {
  import opened Prelude
  import opened Workflow
  import opened WorkflowStore
  import opened WorkflowReplay
  import opened WorkflowTheorems
  import opened Sorting

  datatype TickReply = Ticked(fired: nat) | TickThrew(id: string) | TickCrashed

  ghost predicate FiredOnly(w: Wf, w': Wf, reg: Registry, now: int) {
    exists fires: seq<Action> :: AllFires(fires, now) && w' == After(w, reg, fires)
  }

  ghost predicate AllFires(fires: seq<Action>, now: int) {
    forall a :: a in fires ==> a.DoFire? && a.now == now
  }

  /** What one tick does to one workflow it resumes. */
  ghost predicate FiredThenResumed(w: Wf, w': Wf, reg: Registry, now: int) {
    exists mid: Wf :: FiredOnly(w, mid, reg, now) && ResumedFrom(mid, w', reg)
  }

  ghost predicate ResumedFrom(w: Wf, w': Wf, reg: Registry) {
    exists env: Env, budget: nat :: w' == Workflow.Resume(w, reg, env, budget).wf
  }

  lemma ResumedGrows(w: Wf, w': Wf, reg: Registry)
    requires ResumedFrom(w, w', reg)
    ensures Grows(w.events, w'.events)
  {
    var env: Env, budget: nat :| w' == Workflow.Resume(w, reg, env, budget).wf;
    ResumeGrows(w, reg, env, budget);
  }

  lemma SendSignalIs(w: Wf, reg: Registry, name: string, payload: Value, env: Env, budget: nat)
    requires budget > 0
    ensures SendSignal(w, reg, name, payload, env, budget)
         == match FirstPendingWait(w.events, name)
            case Some(at) => Workflow.Resume(HandedOver(w, at, name, payload), reg, env, budget - 1)
            case None => Called(Kept(w, name, payload), if w.run.Some? then Buffered else NoSuchRun, budget - 1)
  {
  }

  /** An open sleep whose time has come. */
  ghost predicate SleepIsOver(events: map<nat, Event>, at: nat, now: int) {
    at in events && events[at].kind == SleepEvent && events[at].status == Pending
    && match events[at].fireAt { case Some(t) => t <= now case None => false }
  }

  lemma NotFired(w: Wf, reg: Registry, now: int)
    ensures FiredOnly(w, w, reg, now)
  {
    assert AllFires([], now) && After(w, reg, []) == w;
  }

  lemma FireOneMore(w: Wf, mid: Wf, reg: Registry, at: nat, now: int)
    requires FiredOnly(w, mid, reg, now) && Due(mid.events, at, now)
    ensures FiredOnly(w, Fire(mid, at, now), reg, now)
  {
    var fires :| AllFires(fires, now) && mid == After(w, reg, fires);
    var more := fires + [DoFire(at, now)];
    assert more[..|more| - 1] == fires;
    assert AllFires(more, now) && After(w, reg, more) == Fire(mid, at, now);
  }

  /** The workflow states some sequence of calls reaches from nothing. */
  ghost predicate Reachable(w: Wf, reg: Registry) {
    exists actions: seq<Action> :: w == After(Fresh, reg, actions)
  }

  lemma FreshReachable(reg: Registry)
    ensures Reachable(Fresh, reg)
  {
    assert After(Fresh, reg, []) == Fresh;
  }

  lemma ReachOneMore(w: Wf, reg: Registry, a: Action)
    requires Reachable(w, reg)
    ensures Reachable(Apply(w, reg, a), reg)
  {
    var actions: seq<Action> :| w == After(Fresh, reg, actions);
    var more := actions + [a];
    assert more[..|more| - 1] == actions;
    assert Apply(w, reg, a) == After(Fresh, reg, more);
  }

  lemma {:induction false} ReachMore(w: Wf, reg: Registry, actions: seq<Action>)
    requires Reachable(w, reg)
    ensures Reachable(After(w, reg, actions), reg)
  {
    if actions != [] {
      ReachMore(w, reg, actions[..|actions| - 1]);
      ReachOneMore(After(w, reg, actions[..|actions| - 1]), reg, actions[|actions| - 1]);
    }
  }

  /** A tick takes every workflow from one reachable state to another. */
  lemma TickReaches(w: Wf, w': Wf, reg: Registry, now: int)
    requires Reachable(w, reg)
    requires FiredOnly(w, w', reg, now) || FiredThenResumed(w, w', reg, now)
    ensures Reachable(w', reg)
  {
    if FiredOnly(w, w', reg, now) {
      var fires :| AllFires(fires, now) && w' == After(w, reg, fires);
      ReachMore(w, reg, fires);
    } else {
      var mid: Wf :| FiredOnly(w, mid, reg, now) && ResumedFrom(mid, w', reg);
      var fires :| AllFires(fires, now) && mid == After(w, reg, fires);
      ReachMore(w, reg, fires);
      var env: Env, budget: nat :| w' == Workflow.Resume(mid, reg, env, budget).wf;
      ReachOneMore(mid, reg, DoResume(env, budget));
    }
  }

  /** What a client asks of the engine, with the point at which the process dies. */
  datatype Request =
    | AskStart(name: string, id: string, input: Value, env: Env, budget: nat)
    | AskResume(id: string, env: Env, budget: nat)
    | AskSignal(id: string, name: string, payload: Value, env: Env, budget: nat)
    | AskTick(now: int, envs: string -> Env, budget: nat)

  /** Adding to a set of ids kept in arrival order. */
  function AddOnce(ids: seq<string>, id: string): (r: seq<string>)
    ensures NoRepeats(ids) ==> NoRepeats(r)
    ensures forall x :: x in r <==> x in ids || x == id
  {
    if id in ids then ids else ids + [id]
  }

  /** The writes left when the i-th of the workflows is about to be resumed. */
  ghost function LeftBefore(before: map<string, Wf>, ids: seq<string>, reg: Registry, envs: string -> Env,
                            budget: nat, i: nat): nat
    requires i <= |ids| && forall id :: id in ids ==> id in before
    decreases i, 0
  {
    if i == 0 then budget else Turn(before, ids, reg, envs, budget, i - 1).left
  }

  /** Resuming the i-th of them. */
  ghost function Turn(before: map<string, Wf>, ids: seq<string>, reg: Registry, envs: string -> Env, budget: nat,
                      i: nat): Called
    requires i < |ids| && forall id :: id in ids ==> id in before
    decreases i, 1
  {
    Workflow.Resume(before[ids[i]], reg, envs(ids[i]), LeftBefore(before, ids, reg, envs, budget, i))
  }

  lemma TurnResumes(before: map<string, Wf>, ids: seq<string>, reg: Registry, envs: string -> Env, budget: nat, i: nat,
                    w: Wf)
    requires i < |ids| && (forall id :: id in ids ==> id in before)
    requires w == Turn(before, ids, reg, envs, budget, i).wf
    ensures ResumedFrom(before[ids[i]], w, reg) && Grows(before[ids[i]].events, w.events)
  {
    assert w == Workflow.Resume(before[ids[i]], reg, envs(ids[i]), LeftBefore(before, ids, reg, envs, budget, i)).wf;
    ResumedGrows(before[ids[i]], w, reg);
  }

  /** The resume throws, or the process dies in it. */
  predicate Fails(reply: Reply) {
    reply.NoSuchRun? || reply.NotRegistered? || (reply.Ran? && (reply.end.Threw? || reply.end.Crashed?))
  }

  ghost predicate Owns(due: seq<Timer>, n: nat, id: string) {
    exists j :: 0 <= j < n && j < |due| && due[j].workflowId == id
  }

  /** The workflows of the first n timers, each once. */
  ghost predicate Collects(ids: seq<string>, due: seq<Timer>, n: nat) {
    NoRepeats(ids) && forall id :: id in ids <==> Owns(due, n, id)
  }

  lemma CollectsNext(ids: seq<string>, due: seq<Timer>, n: nat)
    requires n < |due| && Collects(ids, due, n)
    ensures Collects(AddOnce(ids, due[n].workflowId), due, n + 1)
    ensures due[n].workflowId in AddOnce(ids, due[n].workflowId)
  {
    forall id ensures Owns(due, n + 1, id) <==> Owns(due, n, id) || id == due[n].workflowId {
      if Owns(due, n + 1, id) {
        var j :| 0 <= j < n + 1 && j < |due| && due[j].workflowId == id;
        assert j < n || j == n;
      }
    }
  }

  class WorkflowEngine {
    const store: InMemoryWorkflowStore
    const registry: Registry

    constructor (store: InMemoryWorkflowStore, registry: Registry)
      ensures this.store == store && this.registry == registry
      ensures (forall id :: store.View(id) == Fresh) ==> Valid()
    {
      this.store := store;
      this.registry := registry;
      new;
      FreshReachable(registry);
    }

    /** Every workflow in the store is in a state some run of it reaches. */
    ghost predicate Valid()
      reads store
    {
      forall id: string :: Reachable(store.View(id), registry)
    }

    method Attempt(id: string, env: Env, at: nat, name: string, retries: int, budget: nat)
      returns (end: Ending, left: nat)
      modifies store
      ensures Played(store.View(id), end, left)
           == Workflow.Attempt(old(store.View(id)), env, at, name, 0, retries, "undefined", budget)
      ensures forall other :: other != id ==> store.View(other) == old(store.View(other))
    {
      var attempt := 0;
      var last := "undefined";
      left := budget;
      while attempt <= retries
        invariant Workflow.Attempt(store.View(id), env, at, name, attempt, retries, last, left)
               == Workflow.Attempt(old(store.View(id)), env, at, name, 0, retries, "undefined", budget)
        invariant forall other :: other != id ==> store.View(other) == old(store.View(other))
      {
        if left == 0 {
          return Crashed, 0;
        }
        var outcome := env.activity(at, attempt);
        store.Note(id, Invoked(at, outcome));
        left := left - 1;
        match outcome {
          case Throws(m) =>
            last := m;
            attempt := attempt + 1;
          case Returns(v) =>
            if left == 0 {
              return Crashed, 0;
            }
            ghost var isNew := at !in store.View(id).events;
            store.AppendEvent(id, at, Event(StepEvent, name, Completed, v, None));
            if isNew {
              store.Note(id, Committed(at, v));
            }
            return Returned(v), left - 1;
        }
      }
      end := Threw(Thrown(last));
    }

    method Sleep(id: string, env: Env, at: nat, name: string, ms: int, budget: nat) returns (end: Ending, left: nat)
      modifies store
      ensures Played(store.View(id), end, left) == PerformSleep(old(store.View(id)), env, at, name, ms, budget)
      ensures forall other :: other != id ==> store.View(other) == old(store.View(other))
    {
      if budget == 0 {
        return Crashed, 0;
      }
      var clock := env.clock(at);
      store.AppendEvent(id, at, Event(SleepEvent, name, Pending, Undefined, Some(clock + ms)));
      store.Note(id, Armed(at, clock));
      return Parked, budget - 1;
    }

    method WaitForSignal(id: string, at: nat, name: string, budget: nat) returns (end: Ending, left: nat)
      modifies store
      ensures Played(store.View(id), end, left) == PerformWait(old(store.View(id)), at, name, budget)
      ensures forall other :: other != id ==> store.View(other) == old(store.View(other))
    {
      if budget == 0 {
        return Crashed, 0;
      }
      var buffered := store.ConsumeSignal(id, name);
      if buffered.None? {
        store.AppendEvent(id, at, Event(SignalEvent, name, Pending, Undefined, None));
        return Parked, budget - 1;
      }
      if budget == 1 {
        store.Note(id, Dropped(name, buffered.value));
        return Crashed, 0;
      }
      store.AppendEvent(id, at, Event(SignalEvent, name, Completed, buffered.value, None));
      store.Note(id, Delivered(at, name, buffered.value));
      return Returned(buffered.value), budget - 2;
    }

    method Read(id: string, at: nat, kind: EventKind, name: string, v: Value, budget: nat)
      returns (end: Ending, left: nat)
      modifies store
      ensures Played(store.View(id), end, left) == PerformRead(old(store.View(id)), at, kind, name, v, budget)
      ensures forall other :: other != id ==> store.View(other) == old(store.View(other))
    {
      if budget == 0 {
        return Crashed, 0;
      }
      store.AppendEvent(id, at, Event(kind, name, Completed, v, None));
      return Returned(v), budget - 1;
    }

    method Execute(id: string, env: Env, c: Command, at: nat, budget: nat) returns (end: Ending, left: nat)
      requires !c.Return? && !c.Throw?
      modifies store
      ensures Played(store.View(id), end, left) == Perform(old(store.View(id)), env, c, at, budget)
      ensures forall other :: other != id ==> store.View(other) == old(store.View(other))
    {
      match c
      case Step(name, retries) => end, left := Attempt(id, env, at, name, retries, budget);
      case Sleep(name, ms) => end, left := Sleep(id, env, at, name, ms, budget);
      case Wait(name) => end, left := WaitForSignal(id, at, name, budget);
      case Now => end, left := Read(id, at, NowEvent, "now", Number(env.clock(at)), budget);
      case Random => end, left := Read(id, at, RandomEvent, "random", Number(env.random(at)), budget);
    }

    /** The history of one workflow, indexed by position. */
    method LoadHistory(id: string) returns (bySeq: map<nat, Event>)
      ensures bySeq == store.View(id).events
    {
      var events := store.GetEvents(id);
      bySeq := map[];
      for i := 0 to |events|
        invariant forall k: nat :: k in bySeq <==> exists j :: 0 <= j < i && events[j].0 == k
        invariant forall j :: 0 <= j < i ==> events[j].0 in bySeq && bySeq[events[j].0] == events[j].1
      {
        bySeq := bySeq[events[i].0 := events[i].1];
      }
      forall k: nat ensures k in bySeq <==> k in store.View(id).events {
        if k in store.View(id).events {
          assert (k, store.View(id).events[k]) in events;
        }
        if k in bySeq {
          var j :| 0 <= j < |events| && events[j].0 == k;
          assert (k, events[j].1) in events;
        }
      }
      forall k: nat | k in bySeq && k in store.View(id).events ensures bySeq[k] == store.View(id).events[k] {
        assert (k, store.View(id).events[k]) in events;
      }
      SameEvents(bySeq, store.View(id).events);
    }

    /** Run the body from the top; the position counter is the number of answers given so far. */
    method PlayBody(id: string, env: Env, body: Body, input: Value, bySeq: map<nat, Event>, budget: nat)
      returns (end: Ending, left: nat)
      modifies store
      ensures Played(store.View(id), end, left) == Play(old(store.View(id)), env, body, input, bySeq, [], budget)
      ensures forall other :: other != id ==> store.View(other) == old(store.View(other))
    {
      var answers: seq<Value> := [];
      left := budget;
      while true
        invariant Play(store.View(id), env, body, input, bySeq, answers, left)
               == Play(old(store.View(id)), env, body, input, bySeq, [], budget)
        invariant forall other :: other != id ==> store.View(other) == old(store.View(other))
        decreases left, Ahead(bySeq, |answers|)
      {
        var at := |answers|;
        var c := body(input, answers);
        if c.Return? {
          return Returned(c.v), left;
        }
        if c.Throw? {
          return Threw(Thrown(c.message)), left;
        }
        if at in bySeq {
          var existing := bySeq[at];
          if existing.kind != KindOf(c) || existing.name != Issued(c).name {
            return Threw(Nondeterministic(at, Recorded(existing), Issued(c))), left;
          }
          if existing.status == Completed || c.Now? || c.Random? {
            assert at in Ahead(bySeq, at) && at !in Ahead(bySeq, at + 1);
            answers := answers + [Answer(existing)];
            continue;
          }
          if !c.Step? {
            return Parked, left;
          }
        }
        end, left := Execute(id, env, c, at, left);
        if !end.Returned? {
          return;
        }
        answers := answers + [end.v];
      }
    }

    method Drive(id: string, env: Env, body: Body, input: Value, budget: nat) returns (end: Ending, left: nat)
      modifies store
      ensures Played(store.View(id), end, left) == Workflow.Drive(old(store.View(id)), env, body, input, budget)
      ensures forall other :: other != id ==> store.View(other) == old(store.View(other))
    {
      if budget == 0 {
        return Crashed, 0;
      }
      store.SetRunStatus(id, Running, Undefined, None);
      var history := LoadHistory(id);
      end, left := PlayBody(id, env, body, input, history, budget - 1);
      end, left := RecordEnd(id, end, left);
    }

    /** Write how the drive ended to the run row. */
    method RecordEnd(id: string, ending: Ending, budget: nat) returns (end: Ending, left: nat)
      modifies store
      ensures Played(store.View(id), end, left) == Settle(Played(old(store.View(id)), ending, budget))
      ensures forall other :: other != id ==> store.View(other) == old(store.View(other))
    {
      if ending.Crashed? || budget == 0 {
        return Crashed, 0;
      }
      match ending {
        case Returned(v) => store.SetRunStatus(id, Finished, v, None);
        case Parked => store.SetRunStatus(id, Suspended, Undefined, None);
        case Threw(f) => store.SetRunStatus(id, Failed, Undefined, Some(f));
      }
      return ending, budget - 1;
    }

    method Resume(id: string, env: Env, budget: nat) returns (reply: Reply, left: nat)
      modifies store
      ensures Called(store.View(id), reply, left) == Workflow.Resume(old(store.View(id)), registry, env, budget)
      ensures forall other :: other != id ==> store.View(other) == old(store.View(other))
    {
      var run := store.GetRun(id);
      if run.None? {
        return NoSuchRun, budget;
      }
      if run.value.status == Finished {
        return AlreadyFinished, budget;
      }
      if run.value.name !in registry {
        return NotRegistered, budget;
      }
      var end: Ending;
      end, left := Drive(id, env, registry[run.value.name], run.value.input, budget);
      reply := Ran(end);
    }

    method Start(name: string, id: string, input: Value, env: Env, budget: nat) returns (reply: Reply, left: nat)
      modifies store
      ensures Called(store.View(id), reply, left)
              == Workflow.Start(old(store.View(id)), registry, name, input, env, budget)
      ensures forall other :: other != id ==> store.View(other) == old(store.View(other))
    {
      if name !in registry {
        return NotRegistered, budget;
      }
      var existing := store.GetRun(id);
      if existing.None? && budget == 0 {
        return Ran(Crashed), 0;
      }
      var created := store.CreateRun(id, name, input);
      if !created {
        reply, left := Resume(id, env, budget);
        return;
      }
      var end: Ending;
      end, left := Drive(id, env, registry[name], input, budget - 1);
      reply := Ran(end);
    }

    /** The earliest open wait of this name, by position. */
    method FindWaiting(id: string, name: string) returns (at: Option<nat>)
      ensures at == FirstPendingWait(store.View(id).events, name)
    {
      var events := store.GetEvents(id);
      var i := 0;
      while i < |events|
        && !(events[i].1.kind == SignalEvent && events[i].1.status == Pending && events[i].1.name == name)
        invariant 0 <= i <= |events|
        invariant forall j :: 0 <= j < i ==> !IsPendingWait(store.View(id).events, events[j].0, name)
      {
        assert events[i] in events;
        i := i + 1;
      }
      forall k: nat
        ensures IsPendingWait(store.View(id).events, k, name) ==> i < |events| && events[i].0 <= k
      {
        if IsPendingWait(store.View(id).events, k, name) {
          assert (k, store.View(id).events[k]) in events;
          var j :| 0 <= j < |events| && events[j].0 == k;
        }
      }
      if i < |events| {
        assert events[i] in events;
        at := Some(events[i].0);
        var other := FirstPendingWait(store.View(id).events, name);
        assert IsFirstPendingWait(store.View(id).events, events[i].0, name);
      } else {
        at := None;
      }
    }

    /** Complete an open wait with the payload. */
    method HandOver(id: string, at: nat, name: string, payload: Value)
      modifies store
      ensures store.View(id) == HandedOver(old(store.View(id)), at, name, payload)
      ensures forall other :: other != id ==> store.View(other) == old(store.View(other))
    {
      store.CompleteEvent(id, at, payload);
      store.Note(id, Sent(name, payload));
      store.Note(id, Delivered(at, name, payload));
    }

    /** Keep the payload until the workflow asks for it. */
    method Buffer(id: string, name: string, payload: Value)
      modifies store
      ensures store.View(id) == Kept(old(store.View(id)), name, payload)
      ensures forall other :: other != id ==> store.View(other) == old(store.View(other))
    {
      store.EnqueueSignal(id, name, payload);
      store.Note(id, Sent(name, payload));
    }

    method Signal(id: string, name: string, payload: Value, env: Env, budget: nat) returns (reply: Reply, left: nat)
      modifies store
      ensures Called(store.View(id), reply, left)
              == SendSignal(old(store.View(id)), registry, name, payload, env, budget)
      ensures forall other :: other != id ==> store.View(other) == old(store.View(other))
    {
      if budget == 0 {
        return Ran(Crashed), 0;
      }
      SendSignalIs(store.View(id), registry, name, payload, env, budget);
      var waiting := FindWaiting(id, name);
      reply, left := Take(id, waiting, name, payload, env, budget - 1);
    }

    /** Hand the payload to the open wait and resume, or keep it. */
    method Take(id: string, waiting: Option<nat>, name: string, payload: Value, env: Env, budget: nat)
      returns (reply: Reply, left: nat)
      modifies store
      ensures Called(store.View(id), reply, left)
           == match waiting
              case Some(at) => Workflow.Resume(HandedOver(old(store.View(id)), at, name, payload), registry, env,
                budget)
              case None =>
                Called(Kept(old(store.View(id)), name, payload),
                  if old(store.View(id)).run.Some? then Buffered else NoSuchRun, budget)
      ensures forall other :: other != id ==> store.View(other) == old(store.View(other))
    {
      if waiting.Some? {
        reply, left := Deliver(id, waiting.value, name, payload, env, budget);
      } else {
        reply := Post(id, name, payload);
        left := budget;
      }
    }

    method Deliver(id: string, at: nat, name: string, payload: Value, env: Env, budget: nat)
      returns (reply: Reply, left: nat)
      modifies store
      ensures Called(store.View(id), reply, left)
           == Workflow.Resume(HandedOver(old(store.View(id)), at, name, payload), registry, env, budget)
      ensures forall other :: other != id ==> store.View(other) == old(store.View(other))
    {
      HandOver(id, at, name, payload);
      reply, left := Resume(id, env, budget);
    }

    method Post(id: string, name: string, payload: Value) returns (reply: Reply)
      modifies store
      ensures store.View(id) == Kept(old(store.View(id)), name, payload)
      ensures reply == if old(store.View(id)).run.Some? then Buffered else NoSuchRun
      ensures forall other :: other != id ==> store.View(other) == old(store.View(other))
    {
      Buffer(id, name, payload);
      var run := store.GetRun(id);
      reply := if run.None? then NoSuchRun else Buffered;
    }

    method FireOne(id: string, at: nat, now: int)
      modifies store
      ensures store.View(id) == Fire(old(store.View(id)), at, now)
      ensures forall other :: other != id ==> store.View(other) == old(store.View(other))
    {
      store.CompleteEvent(id, at, Undefined);
      store.Note(id, Fired(at, now));
    }

    /** Fire timer i of a list whose earlier timers are done and later ones still due. */
    method FireNext(due: seq<Timer>, i: nat, now: int)
      requires i < |due| && Apart(due)
      requires forall j :: i <= j < |due| ==> Due(store.View(due[j].workflowId).events, due[j].at, now)
      requires forall j :: 0 <= j < i ==> Done(due[j])
      modifies store
      ensures store.View(due[i].workflowId) == Fire(old(store.View(due[i].workflowId)), due[i].at, now)
      ensures forall other :: other != due[i].workflowId ==> store.View(other) == old(store.View(other))
      ensures forall j :: i < j < |due| ==> Due(store.View(due[j].workflowId).events, due[j].at, now)
      ensures forall j :: 0 <= j <= i ==> Done(due[j])
    {
      FireOne(due[i].workflowId, due[i].at, now);
    }

    /** Complete every due timer; `ids` are the workflows to resume. */
    method FireAll(due: seq<Timer>, now: int, budget: nat) returns (ids: seq<string>, crashed: bool, left: nat)
      requires Apart(due) && forall j :: 0 <= j < |due| ==> Due(store.View(due[j].workflowId).events, due[j].at, now)
      modifies store
      ensures forall id :: FiredOnly(old(store.View(id)), store.View(id), registry, now)
      ensures !crashed ==> Collects(ids, due, |due|) && forall j :: 0 <= j < |due| ==> Done(due[j])
      ensures forall id :: id !in ids ==> store.View(id) == old(store.View(id))
      ensures (crashed <==> budget < |due|) && (!crashed ==> left == budget - |due|)
    {
      ids := [];
      left := budget;
      forall id { NotFired(store.View(id), registry, now); }
      for i := 0 to |due|
        invariant forall id :: FiredOnly(old(store.View(id)), store.View(id), registry, now)
        invariant forall j :: i <= j < |due| ==> Due(store.View(due[j].workflowId).events, due[j].at, now)
        invariant forall j :: 0 <= j < i ==> Done(due[j])
        invariant Collects(ids, due, i) && left == budget - i && i <= budget
        invariant forall id :: id !in ids ==> store.View(id) == old(store.View(id))
      {
        if left == 0 {
          return ids, true, 0;
        }
        left := left - 1;
        FireOneMore(old(store.View(due[i].workflowId)), store.View(due[i].workflowId), registry, due[i].at, now);
        FireNext(due, i, now);
        CollectsNext(ids, due, i);
        ids := AddOnce(ids, due[i].workflowId);
      }
      crashed := false;
    }

    ghost predicate Done(t: Timer)
      reads store
    {
      t.at in store.View(t.workflowId).events && store.View(t.workflowId).events[t.at].status == Completed
    }

    ghost predicate Apart(due: seq<Timer>) {
      forall j, k :: 0 <= j < |due| && 0 <= k < |due| && j != k && due[j].workflowId == due[k].workflowId ==>
        due[j].at != due[k].at
    }

    /** A workflow with its due timers, and no others, fired. */
    ghost predicate AllFired(before: Wf, after: Wf, now: int) {
      && FiredOnly(before, after, registry, now)
      && forall at :: SleepIsOver(before.events, at, now) ==> at in after.events && after.events[at].status == Completed
    }

    /** Complete every due timer, and collect the workflows they belong to. */
    method FireDue(now: int, budget: nat)
      returns (due: seq<Timer>, ids: seq<string>, crashed: bool, left: nat)
      modifies store
      ensures old(store.DueList(due, now)) && (!crashed ==> NoRepeats(ids))
      ensures (crashed <==> budget < |due|) && (!crashed ==> left == budget - |due|)
      ensures forall id :: FiredOnly(old(store.View(id)), store.View(id), registry, now)
      ensures !crashed ==> forall id :: id in ids ==> IsOver(old(store.View(id)), now)
      ensures !crashed ==> forall id :: AllFired(old(store.View(id)), store.View(id), now)
      ensures !crashed ==> forall id :: IsOver(old(store.View(id)), now) ==> id in ids
      ensures forall id :: id !in ids ==> store.View(id) == old(store.View(id))
    {
      due := store.GetDueTimers(now);
      assert forall j :: 0 <= j < |due| ==> due[j] in due;
      ids, crashed, left := FireAll(due, now, budget);
      if !crashed {
        forall id, at | SleepIsOver(old(store.View(id)).events, at, now)
          ensures id in ids && at in store.View(id).events && store.View(id).events[at].status == Completed
        {
          assert Due(old(store.View(id)).events, at, now);
          var t := Timer(id, at, old(store.View(id)).events[at].fireAt.value);
          assert t in due;
          var j :| 0 <= j < |due| && due[j] == t;
          assert Owns(due, |due|, id);
        }
        forall id | id in ids ensures IsOver(old(store.View(id)), now) {
          assert Owns(due, |due|, id);
          var j :| 0 <= j < |due| && due[j].workflowId == id;
          assert due[j] in due;
          assert SleepIsOver(old(store.View(id)).events, due[j].at, now);
        }
      }
    }

    /** Some sleep of the workflow is over. */
    ghost predicate IsOver(w: Wf, now: int) {
      exists at :: SleepIsOver(w.events, at, now)
    }

    /** Fire every due timer, then resume each affected workflow once, with the writes that
        are left. */
    method Tick(now: int, envs: string -> Env, budget: nat)
      returns (reply: TickReply, left: nat, ghost due: seq<Timer>, ghost ids: seq<string>,
               ghost fired: map<string, Wf>, ghost done: nat)
      modifies store
      ensures forall id :: FiredOnly(old(store.View(id)), store.View(id), registry, now)
                        || FiredThenResumed(old(store.View(id)), store.View(id), registry, now)
      ensures old(store.DueList(due, now)) && (reply.Ticked? ==> reply.fired == |due| <= budget)
      ensures |due| > budget ==> reply == TickCrashed
      ensures reply.Ticked? ==> forall id, at :: SleepIsOver(old(store.View(id)).events, at, now) ==>
        && at in store.View(id).events && store.View(id).events[at].status == Completed
        && FiredThenResumed(old(store.View(id)), store.View(id), registry, now)
      ensures |due| <= budget ==>
        && NoRepeats(ids) && (forall id :: id in ids ==> id in fired)
        && (forall id :: id in ids <==> IsOver(old(store.View(id)), now))
        && (forall id :: id in ids ==> AllFired(old(store.View(id)), fired[id], now))
        && PassWent(fired, ids, envs, budget - |due|, done, if reply.Ticked? then Ticked(|ids|) else reply)
        && forall id :: id !in ids ==> store.View(id) == old(store.View(id))
    {
      var timers, collected, crashed;
      timers, collected, crashed, left := FireDue(now, budget);
      due, ids, fired, done := timers, collected, Views(collected), 0;
      if crashed {
        reply, left := TickCrashed, 0;
        return;
      }
      reply, left, done := ResumeFired(collected, envs, left, fired);
      if reply.Ticked? {
        reply := Ticked(|timers|);
        assert forall id, at :: SleepIsOver(old(store.View(id)).events, at, now) ==> IsOver(old(store.View(id)), now);
      }
    }

    /** Resume the workflows whose timers were fired: each is then as one resume leaves it,
        or untouched. */
    method ResumeFired(ids: seq<string>, envs: string -> Env, budget: nat, ghost fired: map<string, Wf>)
      returns (reply: TickReply, left: nat, ghost done: nat)
      requires NoRepeats(ids) && fired == Views(ids)
      modifies store
      ensures PassWent(fired, ids, envs, budget, done, reply)
      ensures forall id :: id !in ids ==> store.View(id) == old(store.View(id))
      ensures forall id :: id in ids ==>
        store.View(id) == fired[id] || ResumedFrom(fired[id], store.View(id), registry)
      ensures reply.Ticked? ==> forall id :: id in ids ==>
        ResumedFrom(fired[id], store.View(id), registry) && Grows(fired[id].events, store.View(id).events)
    {
      NoRepeatsByIndex(ids);
      reply, left, done := ResumeAll(ids, envs, budget, fired);
      forall id | id in ids
        ensures store.View(id) == fired[id] || ResumedFrom(fired[id], store.View(id), registry)
        ensures reply.Ticked? ==>
          ResumedFrom(fired[id], store.View(id), registry) && Grows(fired[id].events, store.View(id).events)
      {
        var i :| 0 <= i < |ids| && ids[i] == id;
        if i < done {
          assert ResumedWell(fired, ids, envs, budget, i);
          TurnResumes(fired, ids, registry, envs, budget, i, store.View(id));
        } else if i == done {
          TurnResumes(fired, ids, registry, envs, budget, i, store.View(id));
        }
      }
    }

    /** What the store keeps about these workflows. */
    ghost function Views(ids: seq<string>): (m: map<string, Wf>)
      reads store
      ensures forall id :: id in m <==> id in ids
      ensures forall id :: id in ids ==> m[id] == store.View(id)
    {
      map id | id in ids :: store.View(id)
    }

    /** The i-th of the workflows has been resumed without an error. */
    ghost predicate ResumedWell(before: map<string, Wf>, ids: seq<string>, envs: string -> Env, budget: nat, i: nat)
      requires i < |ids| && forall id :: id in ids ==> id in before
      reads store
    {
      var call := Turn(before, ids, registry, envs, budget, i);
      store.View(ids[i]) == call.wf && !Fails(call.reply)
    }

    /** It has been resumed, and that failed. */
    ghost predicate ResumedBadly(before: map<string, Wf>, ids: seq<string>, envs: string -> Env, budget: nat, i: nat,
                                 reply: TickReply)
      requires i < |ids| && forall id :: id in ids ==> id in before
      reads store
    {
      var call := Turn(before, ids, registry, envs, budget, i);
      && store.View(ids[i]) == call.wf && Fails(call.reply)
      && reply == if call.reply == Ran(Crashed) then TickCrashed else TickThrew(ids[i])
    }

    /** The first `done` of the workflows have been resumed without an error, and from
        `touched` on none has been touched. */
    ghost predicate Resumed(before: map<string, Wf>, ids: seq<string>, envs: string -> Env, budget: nat, done: nat,
                            touched: nat)
      requires done <= |ids| && forall id :: id in ids ==> id in before
      reads store
    {
      && (forall i :: 0 <= i < done ==> ResumedWell(before, ids, envs, budget, i))
      && (forall i :: touched <= i < |ids| ==> store.View(ids[i]) == before[ids[i]])
    }

    /** How a pass over the workflows, as they were before, went. */
    ghost predicate PassWent(before: map<string, Wf>, ids: seq<string>, envs: string -> Env, budget: nat, done: nat,
                             reply: TickReply)
      requires forall id :: id in ids ==> id in before
      reads store
    {
      && done <= |ids| && Resumed(before, ids, envs, budget, done, done + 1)
      && (reply.Ticked? <==> done == |ids|)
      && (done < |ids| ==> ResumedBadly(before, ids, envs, budget, done, reply))
    }

    /** Resume the i-th of them, and say whether the pass ends here. */
    method ResumeNext(ids: seq<string>, envs: string -> Env, ghost before: map<string, Wf>, ghost budget: nat, i: nat,
                      left: nat)
      returns (ends: bool, reply: TickReply, rest: nat)
      requires i < |ids| && Distinct(ids) && (forall id :: id in ids ==> id in before)
      requires Resumed(before, ids, envs, budget, i, i) && left == LeftBefore(before, ids, registry, envs, budget, i)
      modifies store
      ensures !ends ==> reply == Ticked(i + 1) && Resumed(before, ids, envs, budget, i + 1, i + 1)
                        && rest == LeftBefore(before, ids, registry, envs, budget, i + 1)
      ensures ends ==> PassWent(before, ids, envs, budget, i, reply)
      ensures forall id :: id !in ids ==> store.View(id) == old(store.View(id))
    {
      var r: Reply;
      r, rest := Resume(ids[i], envs(ids[i]), left);
      ghost var call := Turn(before, ids, registry, envs, budget, i);
      assert store.View(ids[i]) == call.wf && r == call.reply && rest == call.left;
      assert forall j :: 0 <= j < |ids| && j != i ==> store.View(ids[j]) == old(store.View(ids[j]));
      forall j | 0 <= j < i ensures ResumedWell(before, ids, envs, budget, j) {
        assert old(ResumedWell(before, ids, envs, budget, j));
      }
      if r == Ran(Crashed) {
        return true, TickCrashed, 0;
      }
      if r.NoSuchRun? || r.NotRegistered? || (r.Ran? && r.end.Threw?) {
        return true, TickThrew(ids[i]), rest;
      }
      ends, reply := false, Ticked(i + 1);
    }

    ghost predicate Distinct(ids: seq<string>) {
      forall j, k :: 0 <= j < k < |ids| ==> ids[j] != ids[k]
    }

    /** Resume each workflow once, in turn; the first error ends the pass.  `done` are
        those resumed without one. */
    method ResumeAll(ids: seq<string>, envs: string -> Env, budget: nat, ghost before: map<string, Wf>)
      returns (reply: TickReply, left: nat, ghost done: nat)
      requires Distinct(ids) && before == Views(ids)
      modifies store
      ensures PassWent(before, ids, envs, budget, done, reply)
      ensures forall id :: id !in ids ==> store.View(id) == old(store.View(id))
    {
      left, reply, done := budget, Ticked(0), |ids|;
      for i := 0 to |ids|
        invariant Resumed(before, ids, envs, budget, i, i) && left == LeftBefore(before, ids, registry, envs, budget, i)
        invariant forall id :: id !in ids ==> store.View(id) == old(store.View(id))
        invariant reply == Ticked(i)
      {
        var ends;
        ends, reply, left := ResumeNext(ids, envs, before, budget, i, left);
        if ends {
          done := i;
          return;
        }
      }
      done := |ids|;
    }

    method ServeTick(now: int, envs: string -> Env, budget: nat)
      requires Valid()
      modifies store
      ensures Valid()
    {
      var _, _, _, _, _, _ := Tick(now, envs, budget);
      forall id: string ensures Reachable(store.View(id), registry) {
        TickReaches(old(store.View(id)), store.View(id), registry, now);
      }
    }

    /** Any client: whatever is asked, in whatever order and with whatever crashes,
        every workflow stays in a state the theorems speak about. */
    method Serve(requests: seq<Request>)
      requires Valid()
      modifies store
      ensures Valid()
    {
      for i := 0 to |requests|
        invariant Valid()
      {
        match requests[i] {
          case AskStart(name, id, input, env, budget) =>
            ReachOneMore(store.View(id), registry, DoStart(name, input, env, budget));
            var _, _ := Start(name, id, input, env, budget);
          case AskResume(id, env, budget) =>
            ReachOneMore(store.View(id), registry, DoResume(env, budget));
            var _, _ := Resume(id, env, budget);
          case AskSignal(id, name, payload, env, budget) =>
            ReachOneMore(store.View(id), registry, DoSignal(name, payload, env, budget));
            var _, _ := Signal(id, name, payload, env, budget);
          case AskTick(now, envs, budget) =>
            ServeTick(now, envs, budget);
        }
      }
    }
  }
}
