/** The in-memory workflow store: the maps and the signal array as the program
    keeps them, with `View`, what they say about one workflow. */
module WorkflowStore {
  import opened Prelude
  import opened Workflow
  import opened Sorting

  datatype BufferedSignal = BufferedSignal(id: nat, workflowId: string, signal: Signal, consumed: bool)
  datatype Timer = Timer(workflowId: string, at: nat, fireAt: int)

  ghost function EventsOf(events: map<(string, nat), Event>, id: string): (r: map<nat, Event>)
    ensures forall at: nat :: at in r <==> (id, at) in events
    ensures forall at: nat :: at in r ==> r[at] == events[(id, at)]
  {
    var keys := set k | k in events && k.0 == id :: k.1;
    assert forall at: nat :: (id, at) in events ==> (id, at).1 in keys;
    map at | at in keys :: events[(id, at)]
  }

  ghost function InboxOf(signals: seq<BufferedSignal>, id: string): seq<Signal> {
    if signals == [] then []
    else
      (if signals[0].workflowId == id && !signals[0].consumed then [signals[0].signal] else [])
      + InboxOf(signals[1..], id)
  }

  lemma SameEvents(a: map<nat, Event>, b: map<nat, Event>)
    requires forall k: nat :: k in a <==> k in b
    requires forall k: nat :: k in a && k in b ==> a[k] == b[k]
    ensures a == b
  {
    assert a.Keys == b.Keys;
  }

  lemma EventsOfUpdate(events: map<(string, nat), Event>, id: string, at: nat, e: Event)
    ensures EventsOf(events[(id, at) := e], id) == EventsOf(events, id)[at := e]
    ensures forall other :: other != id ==> EventsOf(events[(id, at) := e], other) == EventsOf(events, other)
  {
    var events' := events[(id, at) := e];
    SameEvents(EventsOf(events', id), EventsOf(events, id)[at := e]);
    forall other | other != id ensures EventsOf(events', other) == EventsOf(events, other) {
      SameEvents(EventsOf(events', other), EventsOf(events, other));
    }
  }

  lemma {:induction false} InboxSplit(a: seq<BufferedSignal>, b: seq<BufferedSignal>, id: string)
    ensures InboxOf(a + b, id) == InboxOf(a, id) + InboxOf(b, id)
  {
    if a == [] {
      assert a + b == b;
    } else {
      InboxSplit(a[1..], b, id);
      var ab := a + b;
      assert ab[0] == a[0] && ab[1..] == a[1..] + b;
      var head := if a[0].workflowId == id && !a[0].consumed then [a[0].signal] else [];
      Regroup(head, InboxOf(a[1..], id), InboxOf(b, id));
    }
  }

  lemma {:induction false} InboxHasNo(signals: seq<BufferedSignal>, id: string, name: string)
    requires forall j :: 0 <= j < |signals| ==>
      !(signals[j].workflowId == id && signals[j].signal.name == name && !signals[j].consumed)
    ensures forall j :: 0 <= j < |InboxOf(signals, id)| ==> InboxOf(signals, id)[j].name != name
  {
    if signals != [] {
      InboxHasNo(signals[1..], id, name);
    }
  }

  lemma {:induction false} FirstOfAfter(a: seq<Signal>, x: Signal, b: seq<Signal>, name: string)
    requires forall j :: 0 <= j < |a| ==> a[j].name != name
    requires x.name == name
    ensures FirstOf(a + [x] + b, name) == |a|
  {
    if a != [] {
      FirstOfAfter(a[1..], x, b, name);
      assert (a + [x] + b)[1..] == a[1..] + [x] + b;
    }
  }

  function OneInbox(x: BufferedSignal, id: string): seq<Signal> {
    if x.workflowId == id && !x.consumed then [x.signal] else []
  }

  lemma InboxAround(signals: seq<BufferedSignal>, i: nat, x: BufferedSignal, id: string)
    requires i < |signals|
    ensures InboxOf(signals[i := x], id)
            == InboxOf(signals[..i], id) + (OneInbox(x, id) + InboxOf(signals[i + 1..], id))
  {
    assert signals[i := x] == signals[..i] + ([x] + signals[i + 1..]);
    InboxSplit(signals[..i], [x] + signals[i + 1..], id);
    assert ([x] + signals[i + 1..])[1..] == signals[i + 1..];
  }

  /** Marking the first match consumed removes it from its workflow's inbox only. */
  lemma ConsumeAt(signals: seq<BufferedSignal>, i: nat, id: string, name: string)
    requires i < |signals|
    requires signals[i].workflowId == id && signals[i].signal.name == name && !signals[i].consumed
    requires forall j :: 0 <= j < i ==>
      !(signals[j].workflowId == id && signals[j].signal.name == name && !signals[j].consumed)
    ensures var k := FirstOf(InboxOf(signals, id), name);
            var inbox := InboxOf(signals, id);
            && k < |inbox| && inbox[k] == signals[i].signal
            && InboxOf(signals[i := signals[i].(consumed := true)], id) == inbox[..k] + inbox[k + 1..]
    ensures forall other :: other != id ==>
      InboxOf(signals[i := signals[i].(consumed := true)], other) == InboxOf(signals, other)
  {
    var x := signals[i].(consumed := true);
    assert signals[i := signals[i]] == signals;
    forall other | other != id ensures InboxOf(signals[i := x], other) == InboxOf(signals, other) {
      InboxAround(signals, i, signals[i], other);
      InboxAround(signals, i, x, other);
    }
    InboxAround(signals, i, signals[i], id);
    InboxAround(signals, i, x, id);
    InboxHasNo(signals[..i], id, name);
    TakeAt(InboxOf(signals[..i], id), signals[i].signal, InboxOf(signals[i + 1..], id), name);
  }

  lemma TakeAt(a: seq<Signal>, x: Signal, b: seq<Signal>, name: string)
    requires (forall j :: 0 <= j < |a| ==> a[j].name != name) && x.name == name
    ensures var inbox := a + ([x] + b);
            var k := FirstOf(inbox, name);
            k == |a| && inbox[k] == x && inbox[..k] + inbox[k + 1..] == a + ([] + b)
  {
    FirstOfAfter(a, x, b, name);
    assert a + ([x] + b) == a + [x] + b;
  }

  class InMemoryWorkflowStore {
    var runs: map<string, Run>
    var events: map<(string, nat), Event>
    var signals: seq<BufferedSignal>
    var signalSeq: nat
    ghost var journals: map<string, seq<Entry>>

    /** Everything kept about one workflow. */
    ghost function View(id: string): Wf
      reads this
    {
      Wf(if id in runs then Some(runs[id]) else None, EventsOf(events, id), InboxOf(signals, id),
         if id in journals then journals[id] else [])
    }

    constructor ()
      ensures forall id :: View(id) == Fresh
    {
      runs := map[];
      events := map[];
      signals := [];
      signalSeq := 0;
      journals := map[];
    }

    /** Note what the outside world just observed. */
    ghost method Note(id: string, e: Entry)
      modifies this`journals
      ensures View(id) == Log(old(View(id)), e)
      ensures forall other :: other != id ==> View(other) == old(View(other))
    {
      journals := journals[id := View(id).journal + [e]];
    }

    method GetRun(id: string) returns (r: Option<Run>)
      ensures r == View(id).run
    {
      r := if id in runs then Some(runs[id]) else None;
    }

    /** True if this call created the row. */
    method CreateRun(id: string, name: string, input: Value) returns (created: bool)
      modifies this`runs
      ensures created == old(View(id)).run.None?
      ensures View(id) == if created then old(View(id)).(run := Some(Run(name, input, Running, Undefined, None)))
                          else old(View(id))
      ensures forall other :: other != id ==> View(other) == old(View(other))
    {
      if id in runs {
        return false;
      }
      runs := runs[id := Run(name, input, Running, Undefined, None)];
      created := true;
    }

    method SetRunStatus(id: string, status: RunStatus, result: Value, error: Option<Failure>)
      modifies this`runs
      ensures View(id) == Workflow.SetRunStatus(old(View(id)), status, result, error)
      ensures forall other :: other != id ==> View(other) == old(View(other))
    {
      if id !in runs {
        return;
      }
      var r := runs[id].(status := status);
      if result != Undefined {
        r := r.(result := result);
      }
      if error.Some? {
        r := r.(error := error);
      }
      runs := runs[id := r];
    }

    method AppendEvent(id: string, at: nat, e: Event)
      modifies this`events
      ensures View(id) == Workflow.AppendEvent(old(View(id)), at, e)
      ensures forall other :: other != id ==> View(other) == old(View(other))
    {
      assert (id, at) in events <==> at in EventsOf(events, id);
      if (id, at) in events {
        return;
      }
      EventsOfUpdate(events, id, at, e);
      events := events[(id, at) := e];
    }

    method CompleteEvent(id: string, at: nat, result: Value)
      modifies this`events
      ensures View(id) == Workflow.CompleteEvent(old(View(id)), at, result)
      ensures forall other :: other != id ==> View(other) == old(View(other))
    {
      assert (id, at) in events <==> at in EventsOf(events, id);
      if (id, at) !in events {
        return;
      }
      var e := events[(id, at)].(status := Completed);
      if result != Undefined {
        e := e.(result := result);
      }
      EventsOfUpdate(events, id, at, e);
      events := events[(id, at) := e];
    }

    /** The full history, by position. */
    method GetEvents(id: string) returns (out: seq<(nat, Event)>)
      ensures forall i, j :: 0 <= i < j < |out| ==> out[i].0 < out[j].0
      ensures forall at, e :: (at, e) in out <==> at in View(id).events && View(id).events[at] == e
    {
      var le := (a: (nat, Event), b: (nat, Event)) => a.0 <= b.0;
      var rest := events.Keys;
      out := [];
      while rest != {}
        invariant rest <= events.Keys
        invariant SortedBy(out, le)
        invariant NoRepeats(out)
        invariant forall x :: x in out <==> (id, x.0) in events.Keys - rest && events[(id, x.0)] == x.1
        decreases rest
      {
        var k :| k in rest;
        rest := rest - {k};
        if k.0 == id {
          var x := (k.1, events[k]);
          InsertSorts(out, x, le);
          InsertMembers(out, x, le);
          out := Insert(out, x, le);
        }
      }
      NoRepeatsByIndex(out);
      forall i, j | 0 <= i < j < |out| ensures out[i].0 < out[j].0 {
        assert le(out[i], out[j]) && out[i] in out && out[j] in out;
      }
    }

    ghost predicate DueList(due: seq<Timer>, now: int)
      reads this
    {
      && (forall i, j :: 0 <= i < j < |due| ==> due[i] != due[j])
      && (forall t :: t in due <==>
            (Due(View(t.workflowId).events, t.at, now) && View(t.workflowId).events[t.at].fireAt == Some(t.fireAt)))
    }

    /** Every open timer whose time has come, earliest first. */
    method GetDueTimers(now: int) returns (out: seq<Timer>)
      ensures DueList(out, now)
      ensures forall i, j :: 0 <= i < j < |out| ==> out[i].fireAt <= out[j].fireAt
    {
      var le := (a: Timer, b: Timer) => a.fireAt <= b.fireAt;
      var rest := events.Keys;
      out := [];
      while rest != {}
        invariant rest <= events.Keys
        invariant SortedBy(out, le)
        invariant NoRepeats(out)
        invariant forall t :: t in out <==>
          && (t.workflowId, t.at) in events.Keys - rest
          && var e := events[(t.workflowId, t.at)];
             e.kind == SleepEvent && e.status == Pending && e.fireAt == Some(t.fireAt) && t.fireAt <= now
        decreases rest
      {
        var k :| k in rest;
        rest := rest - {k};
        var e := events[k];
        if e.kind == SleepEvent && e.status == Pending && e.fireAt.Some? && e.fireAt.value <= now {
          var t := Timer(k.0, k.1, e.fireAt.value);
          InsertSorts(out, t, le);
          InsertMembers(out, t, le);
          out := Insert(out, t, le);
        }
      }
      NoRepeatsByIndex(out);
      assert forall i, j :: 0 <= i < j < |out| ==> le(out[i], out[j]);
    }

    method EnqueueSignal(id: string, name: string, payload: Value)
      modifies this`signals, this`signalSeq
      ensures View(id) == old(View(id)).(inbox := old(View(id)).inbox + [Signal(name, payload)])
      ensures forall other :: other != id ==> View(other) == old(View(other))
    {
      var s := BufferedSignal(signalSeq, id, Signal(name, payload), false);
      forall other
        ensures InboxOf(signals + [s], other)
             == InboxOf(signals, other) + if other == id then [Signal(name, payload)] else []
      {
        InboxSplit(signals, [s], other);
        assert [s][1..] == [];
      }
      signals := signals + [s];
      signalSeq := signalSeq + 1;
    }

    /** Claim the earliest unconsumed signal of this name. */
    method ConsumeSignal(id: string, name: string) returns (payload: Option<Value>)
      modifies this`signals
      ensures var inbox := old(View(id)).inbox;
              var k := FirstOf(inbox, name);
              && (payload.None? <==> k == |inbox|)
              && (payload.Some? ==> payload.value == inbox[k].payload)
              && View(id)
                == if payload.None? then old(View(id)) else old(View(id)).(inbox := inbox[..k] + inbox[k + 1..])
      ensures forall other :: other != id ==> View(other) == old(View(other))
    {
      var i := 0;
      while i < |signals| && !(signals[i].workflowId == id && signals[i].signal.name == name && !signals[i].consumed)
        invariant 0 <= i <= |signals|
        invariant forall j :: 0 <= j < i ==>
          !(signals[j].workflowId == id && signals[j].signal.name == name && !signals[j].consumed)
      {
        i := i + 1;
      }
      if i == |signals| {
        InboxHasNo(signals, id, name);
        return None;
      }
      ConsumeAt(signals, i, id, name);
      payload := Some(signals[i].signal.payload);
      signals := signals[i := signals[i].(consumed := true)];
    }
  }
}
