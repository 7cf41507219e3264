/** Idempotency-Key replay: claim the key, run the handler once, keep its 2xx response
    and replay it.  Any number of requests carry one key at once; each store operation
    and each handler call is one step. */
module Replay {
  import opened Prelude
  import opened ApiStore

  datatype Handled = Response(status: int, body: Value) | HandlerThrew(message: string)

  datatype Answer = Replied(status: int, body: Value) | Rethrew(message: string) | KeyReused | InProgress

  predicate IsOk(status: int) {
    200 <= status < 300
  }

  function AnswerOf(h: Handled): Answer {
    match h
    case Response(status, body) => Replied(status, body)
    case HandlerThrew(message) => Rethrew(message)
  }

  // ---------------------------------------------------------------- one request at a time

  const StaleMs := 60_000

  /** An unfinished claim old enough to be taken for an orphan. */
  predicate Stale(rec: IdemRecord, now: int) {
    rec.statusCode.None? && rec.createdAt.Some? && now - rec.createdAt.value > StaleMs
  }

  function Leftover(rec: Option<IdemRecord>, fingerprint: string, now: int): Option<IdemRecord> {
    if rec.Some? && rec.value.fingerprint == fingerprint && Stale(rec.value, now) then None else rec
  }

  /** What a request alone is answered, and the record it leaves. */
  function Served(rec: Option<IdemRecord>, fingerprint: string, now: int, handled: Handled): (Answer,
                  Option<IdemRecord>) {
    match Leftover(rec, fingerprint, now)
    case None =>
      (AnswerOf(handled),
       if handled.Response? && IsOk(handled.status)
       then Some(IdemRecord(fingerprint, Some(now), Some(handled.status), OrNull(handled.body)))
       else None)
    case Some(r) =>
      (if r.fingerprint != fingerprint then KeyReused
       else if r.statusCode.None? then InProgress
       else Replied(r.statusCode.value, r.body), rec)
  }

  /** A claim nobody has finished: within 60 seconds of it a request with the same
      fingerprint is told that it is in progress and runs nothing; later the claim is
      reclaimed and the request's own handler runs.  A different fingerprint is refused
      either way. */
  lemma ClaimHoldsForAMinute(rec: IdemRecord, c: int, fingerprint: string, now: int, handled: Handled)
    requires rec.statusCode.None? && rec.createdAt == Some(c)
    ensures var (answer, after) := Served(Some(rec), fingerprint, now, handled);
            && (rec.fingerprint != fingerprint ==> answer == KeyReused && after == Some(rec))
            && (rec.fingerprint == fingerprint && now <= c + 60_000 ==> answer == InProgress && after == Some(rec))
            && (rec.fingerprint == fingerprint && now > c + 60_000 ==>
                  match handled
                  case Response(status, body) =>
                    && answer == Replied(status, body)
                    && after == if 200 <= status < 300
                                then Some(IdemRecord(fingerprint, Some(now), Some(status), OrNull(body))) else None
                  case HandlerThrew(message) => answer == Rethrew(message) && after == None)
  {
  }

  class Idempotency {
    const store: MemStore

    constructor (store: MemStore)
      ensures this.store == store
    {
      this.store := store;
    }

    ghost function Record(org: string, idemKey: string): Option<IdemRecord>
      reads store
    {
      if (org, idemKey) in store.idempotency then Some(store.idempotency[(org, idemKey)]) else None
    }

    method WithIdempotency(org: string, idemKey: string, fingerprint: string, now: int, handled: Handled)
      returns (answer: Answer, ran: bool)
      modifies store`idempotency
      ensures (answer, Record(org, idemKey)) == Served(old(Record(org, idemKey)), fingerprint, now, handled)
      ensures ran <==> Leftover(old(Record(org, idemKey)), fingerprint, now).None?
      ensures !ran <==> match old(Record(org, idemKey))
                        case None => false
                        case Some(r) =>
                          r.fingerprint != fingerprint || r.statusCode.Some? || r.createdAt.None?
                          || now <= r.createdAt.value + 60_000
      ensures forall p :: p != (org, idemKey) ==>
                (p in store.idempotency <==> p in old(store.idempotency))
                && (p in store.idempotency ==> store.idempotency[p] == old(store.idempotency)[p])
      decreases Leftover(Record(org, idemKey), fingerprint, now) != Record(org, idemKey)
    {
      var existing := store.ClaimIdempotency(org, idemKey, fingerprint, Some(now));
      if existing.Some? {
        var ex := existing.value;
        if ex.fingerprint != fingerprint {
          return KeyReused, false;
        }
        if ex.statusCode.None? {
          if Stale(ex, now) {
            store.DeleteIdempotency(org, idemKey);
            answer, ran := WithIdempotency(org, idemKey, fingerprint, now, handled);
            return;
          }
          return InProgress, false;
        }
        return Replied(ex.statusCode.value, ex.body), false;
      }
      if handled.Response? && IsOk(handled.status) {
        store.CompleteIdempotency(org, idemKey, handled.status, handled.body);
      } else {
        store.DeleteIdempotency(org, idemKey);
      }
      return AnswerOf(handled), true;
    }
  }

  // ---------------------------------------------------------------- many requests at once

  /** `o` names the record object a request holds a reference to. */
  datatype Pc =
    | Arriving
    | Reading(o: nat)                       // the key was claimed already
    | Reclaiming(o: nat)                    // took that claim for an orphan, about to delete the record
    | Running(o: nat)                       // claimed it; the handler is in flight
    | Storing(o: nat, status: int, body: Value)
    | Dropping(o: nat, answer: Answer)
    | Over(answer: Answer)
    | Dead                                  // died holding its claim

  /** `records` are all record objects ever made and `live` the one in the store.  Two
      histories: `runs` says which request each claim was made for, `endings` how each
      request's handler ended. */
  datatype State = State(records: seq<IdemRecord>, live: Option<nat>, pcs: seq<Pc>, runs: seq<nat>,
                         endings: map<nat, Handled>)

  /** One request's turn: how its handler ends, if it is running; the clock; and whether
      the process dies instead. */
  datatype Turn = Turn(thread: nat, handled: Handled, now: int, dies: bool)

  predicate Inside(pc: Pc) {
    pc.Running? || pc.Storing? || pc.Dropping?
  }

  function Look(r: IdemRecord, o: nat, fingerprint: string, now: int): Pc {
    if r.fingerprint != fingerprint then Over(KeyReused)
    else if r.statusCode.None? then if Stale(r, now) then Reclaiming(o) else Over(InProgress)
    else Over(Replied(r.statusCode.value, r.body))
  }

  function Step(s: State, prints: seq<string>, turn: Turn): (s': State)
    requires |s.pcs| == |prints| && turn.thread < |prints|
    ensures |s'.pcs| == |prints|
  {
    var t, handled := turn.thread, turn.handled;
    if turn.dies && Inside(s.pcs[t]) then s.(pcs := s.pcs[t := Dead])
    else
      match s.pcs[t]
      case Arriving =>
        if s.live.Some? then s.(pcs := s.pcs[t := Reading(s.live.value)])
        else
          var o := |s.records|;
          s.(records := s.records + [IdemRecord(prints[t], Some(turn.now), None, Json("null"))], live := Some(o),
             pcs := s.pcs[t := Running(o)], runs := s.runs + [t])
      case Reading(o) =>
        if o < |s.records| then s.(pcs := s.pcs[t := Look(s.records[o], o, prints[t], turn.now)]) else s
      case Reclaiming(_) => s.(live := None, pcs := s.pcs[t := Arriving])
      case Running(o) =>
        s.(endings := s.endings[t := handled],
           pcs := s.pcs[t := if handled.Response? && IsOk(handled.status)
                             then Storing(o, handled.status, handled.body) else Dropping(o, AnswerOf(handled))])
      case Storing(o, status, body) =>
        var over := s.pcs[t := Over(Replied(status, body))];
        if s.live.Some? && s.live.value < |s.records| then
          var l := s.live.value;
          s.(records := s.records[l := s.records[l].(statusCode := Some(status), body := OrNull(body))], pcs := over)
        else s.(pcs := over)
      case Dropping(o, answer) => s.(live := None, pcs := s.pcs[t := Over(answer)])
      case Over(_) => s
      case Dead => s
  }

  type Schedule = seq<Turn>

  predicate Fits(prints: seq<string>, schedule: Schedule) {
    forall i :: 0 <= i < |schedule| ==> schedule[i].thread < |prints|
  }

  function Exec(prints: seq<string>, schedule: Schedule): (s: State)
    requires Fits(prints, schedule)
    ensures |s.pcs| == |prints|
  {
    if schedule == [] then State([], None, seq(|prints|, _ => Arriving), [], map[])
    else
      var n := |schedule| - 1;
      Step(Exec(prints, schedule[..n]), prints, schedule[n])
  }

  // ---------------------------------------------------------------- the guard

  predicate NobodyInside(s: State) {
    forall u :: 0 <= u < |s.pcs| ==> !Inside(s.pcs[u])
  }

  predicate Unfinished(s: State) {
    s.live.Some? && s.live.value < |s.records| ==> s.records[s.live.value].statusCode.None?
  }

  /** The record a reclaim deletes belongs to no handler in flight and holds no response. */
  predicate Safe(s: State, turn: Turn) {
    turn.thread < |s.pcs| && s.pcs[turn.thread].Reclaiming? ==> NobodyInside(s) && Unfinished(s)
  }

  /** The i-th turn of the schedule is safe when it is taken. */
  predicate SafeAt(prints: seq<string>, schedule: Schedule, i: nat)
    requires Fits(prints, schedule) && i < |schedule|
  {
    Safe(Exec(prints, schedule[..i]), schedule[i])
  }

  lemma SafeBefore(prints: seq<string>, schedule: Schedule, n: nat, i: nat)
    requires Fits(prints, schedule) && i < n <= |schedule|
    ensures SafeAt(prints, schedule[..n], i) <==> SafeAt(prints, schedule, i)
  {
    assert schedule[..n][..i] == schedule[..i];
  }

  /** Every reclaim of the schedule is safe when it happens. */
  predicate Guarded(prints: seq<string>, schedule: Schedule)
    requires Fits(prints, schedule)
  {
    forall i :: 0 <= i < |schedule| ==> SafeAt(prints, schedule, i)
  }

  lemma GuardedBefore(prints: seq<string>, schedule: Schedule, n: nat)
    requires Fits(prints, schedule) && Guarded(prints, schedule) && n <= |schedule|
    ensures Fits(prints, schedule[..n]) && Guarded(prints, schedule[..n])
  {
    forall i: nat | i < n ensures SafeAt(prints, schedule[..n], i) {
      assert SafeAt(prints, schedule, i);
      SafeBefore(prints, schedule, n, i);
    }
  }

  // ---------------------------------------------------------------- the invariant

  /** Where one request stands. */
  predicate PcOk(s: State, prints: seq<string>, t: nat)
    requires |s.pcs| == |prints| && t < |prints|
  {
    match s.pcs[t]
    case Arriving => true
    case Reading(o) => o < |s.records|
    case Reclaiming(o) => o < |s.records|
    case Running(o) => Owns(s, prints, t, o)
    case Storing(o, status, body) => Owns(s, prints, t, o) && IsOk(status)
    case Dropping(o, answer) =>
      Owns(s, prints, t, o) && !answer.KeyReused? && !answer.InProgress? && (answer.Replied? ==> !IsOk(answer.status))
    case Over(answer) => answer.Replied? && IsOk(answer.status) ==> Stored(s, prints[t], answer.status, answer.body)
    case Dead => true
  }

  predicate Owns(s: State, prints: seq<string>, t: nat, o: nat)
    requires t < |prints|
  {
    && s.live == Some(o) && o < |s.records| && |s.runs| == |s.records|
    && s.runs[o] == t && s.records[o].fingerprint == prints[t] && s.records[o].statusCode.None?
  }

  predicate Stored(s: State, fingerprint: string, status: int, body: Value) {
    && s.live.Some? && s.live.value < |s.records|
    && s.records[s.live.value].fingerprint == fingerprint
    && s.records[s.live.value].statusCode == Some(status) && s.records[s.live.value].body == OrNull(body)
  }

  predicate Inv(s: State, prints: seq<string>)
    requires |s.pcs| == |prints|
  {
    && |s.runs| == |s.records|
    && (s.live.Some? ==> s.live.value < |s.records|)
    && (forall o :: 0 <= o < |s.records| && s.records[o].statusCode.Some? ==>
          s.live == Some(o) && IsOk(s.records[o].statusCode.value) && s.records[o].body != Undefined)
    && (forall t :: 0 <= t < |prints| ==> PcOk(s, prints, t))
  }

  /** What a safe step of request t leaves of another request. */
  lemma OtherKeeps(s: State, prints: seq<string>, turn: Turn, u: nat)
    requires |s.pcs| == |prints| && turn.thread < |prints| && Inv(s, prints) && Safe(s, turn)
    requires u < |prints| && u != turn.thread
    ensures PcOk(Step(s, prints, turn), prints, u)
  {
    assert PcOk(s, prints, turn.thread) && PcOk(s, prints, u);
  }

  lemma OwnKeeps(s: State, prints: seq<string>, turn: Turn)
    requires |s.pcs| == |prints| && turn.thread < |prints| && Inv(s, prints) && Safe(s, turn)
    ensures PcOk(Step(s, prints, turn), prints, turn.thread)
  {
    assert PcOk(s, prints, turn.thread);
  }

  lemma RecordsKeep(s: State, prints: seq<string>, turn: Turn)
    requires |s.pcs| == |prints| && turn.thread < |prints| && Inv(s, prints) && Safe(s, turn)
    ensures var s' := Step(s, prints, turn);
            && |s'.runs| == |s'.records|
            && (s'.live.Some? ==> s'.live.value < |s'.records|)
            && (forall o :: 0 <= o < |s'.records| && s'.records[o].statusCode.Some? ==>
                  s'.live == Some(o) && IsOk(s'.records[o].statusCode.value) && s'.records[o].body != Undefined)
  {
    assert PcOk(s, prints, turn.thread);
  }

  lemma StepKeeps(s: State, prints: seq<string>, turn: Turn)
    requires |s.pcs| == |prints| && turn.thread < |prints| && Inv(s, prints) && Safe(s, turn)
    ensures Inv(Step(s, prints, turn), prints)
  {
    var s' := Step(s, prints, turn);
    RecordsKeep(s, prints, turn);
    forall u: nat | u < |prints| ensures PcOk(s', prints, u) {
      if u == turn.thread {
        OwnKeeps(s, prints, turn);
      } else {
        OtherKeeps(s, prints, turn, u);
      }
    }
  }

  lemma {:induction false} ExecKeeps(prints: seq<string>, schedule: Schedule)
    requires Fits(prints, schedule) && Guarded(prints, schedule)
    ensures Inv(Exec(prints, schedule), prints)
  {
    if schedule != [] {
      var n := |schedule| - 1;
      GuardedBefore(prints, schedule, n);
      ExecKeeps(prints, schedule[..n]);
      assert SafeAt(prints, schedule, n);
      StepKeeps(Exec(prints, schedule[..n]), prints, schedule[n]);
    }
  }

  // ---------------------------------------------------------------- the promises

  /** At most one handler is in flight for the key. */
  lemma OneInFlight(prints: seq<string>, schedule: Schedule, t: nat, u: nat)
    requires Fits(prints, schedule) && Guarded(prints, schedule)
    requires t < |prints| && u < |prints|
    requires Inside(Exec(prints, schedule).pcs[t]) && Inside(Exec(prints, schedule).pcs[u])
    ensures t == u
  {
    ExecKeeps(prints, schedule);
    assert PcOk(Exec(prints, schedule), prints, t) && PcOk(Exec(prints, schedule), prints, u);
  }

  /** Every 2xx answer ever given for the key is one and the same response, stored, and
      given only to requests with the same fingerprint. */
  lemma OneResponse(prints: seq<string>, schedule: Schedule, t: nat, u: nat)
    requires Fits(prints, schedule) && Guarded(prints, schedule)
    requires t < |prints| && u < |prints|
    requires var pcs := Exec(prints, schedule).pcs;
             && pcs[t].Over? && pcs[t].answer.Replied? && IsOk(pcs[t].answer.status)
             && pcs[u].Over? && pcs[u].answer.Replied? && IsOk(pcs[u].answer.status)
    ensures var pcs := Exec(prints, schedule).pcs;
            && pcs[t].answer.status == pcs[u].answer.status
            && OrNull(pcs[t].answer.body) == OrNull(pcs[u].answer.body)
            && prints[t] == prints[u]
  {
    ExecKeeps(prints, schedule);
    assert PcOk(Exec(prints, schedule), prints, t) && PcOk(Exec(prints, schedule), prints, u);
  }

  /** A request that came after record l was completed: not yet answered, or answered
      from it. */
  predicate ServedFrom(pc: Pc, l: nat, matches: bool, status: int, body: Value) {
    || pc.Arriving?
    || pc == Reading(l)
    || pc == Over(if matches then Replied(status, OrNull(body)) else KeyReused)
  }

  lemma StoredStep(s: State, prints: seq<string>, turn: Turn, fingerprint: string, status: int, body: Value, u: nat)
    requires |s.pcs| == |prints| && turn.thread < |prints| && u < |prints|
    requires Inv(s, prints) && Safe(s, turn) && Stored(s, fingerprint, status, body)
    requires ServedFrom(s.pcs[u], s.live.value, prints[u] == fingerprint, status, body)
    ensures var s' := Step(s, prints, turn);
            && Stored(s', fingerprint, status, body) && s'.live == s.live && s'.runs == s.runs
            && ServedFrom(s'.pcs[u], s.live.value, prints[u] == fingerprint, status, body)
  {
    assert PcOk(s, prints, turn.thread);
  }

  /** The response stored before is stored after, no handler has run in between, and
      request t, which came in between, is answered from it if at all. */
  predicate Replays(before: State, after: State, prints: seq<string>, fingerprint: string, status: int, body: Value,
                    t: nat) {
    && Stored(after, fingerprint, status, body) && after.live == before.live && after.runs == before.runs
    && t < |prints| && t < |after.pcs|
    && ServedFrom(after.pcs[t], after.live.value, prints[t] == fingerprint, status, body)
  }

  lemma ReplaysOn(before: State, s: State, prints: seq<string>, turn: Turn, fingerprint: string, status: int,
                  body: Value, t: nat)
    requires |s.pcs| == |prints| && turn.thread < |prints| && Inv(s, prints) && Safe(s, turn)
    requires Replays(before, s, prints, fingerprint, status, body, t)
    ensures Replays(before, Step(s, prints, turn), prints, fingerprint, status, body, t)
  {
    StoredStep(s, prints, turn, fingerprint, status, body, t);
  }

  /** Once a 2xx response is stored it stays for ever, no handler runs again, and a
      request arriving later is answered from it: replayed if the fingerprint matches,
      refused if not. */
  lemma StoredIsReplayed(prints: seq<string>, schedule: Schedule, n: nat, fingerprint: string, status: int,
                         body: Value, t: nat)
    requires Fits(prints, schedule) && Guarded(prints, schedule)
    requires n <= |schedule| && t < |prints|
    requires Stored(Exec(prints, schedule[..n]), fingerprint, status, body)
             && Exec(prints, schedule[..n]).pcs[t].Arriving?
    ensures Replays(Exec(prints, schedule[..n]), Exec(prints, schedule), prints, fingerprint, status, body, t)
  {
    ExecReplays(prints, schedule, n, Exec(prints, schedule[..n]), Exec(prints, schedule), fingerprint, status, body, t);
  }

  lemma {:induction false} ExecReplays(prints: seq<string>, schedule: Schedule, n: nat, before: State, after: State,
                                       fingerprint: string, status: int, body: Value, t: nat)
    requires Fits(prints, schedule) && Guarded(prints, schedule) && n <= |schedule| && t < |prints|
    requires before == Exec(prints, schedule[..n]) && after == Exec(prints, schedule)
    requires Stored(before, fingerprint, status, body) && before.pcs[t].Arriving?
    ensures Replays(before, after, prints, fingerprint, status, body, t)
    decreases |schedule|
  {
    if n == |schedule| {
      assert schedule[..n] == schedule;
    } else {
      var k := |schedule| - 1;
      var s := Exec(prints, schedule[..k]);
      assert schedule[..k][..n] == schedule[..n];
      GuardedBefore(prints, schedule, k);
      ExecReplays(prints, schedule[..k], n, before, s, fingerprint, status, body, t);
      ExecKeeps(prints, schedule[..k]);
      assert SafeAt(prints, schedule, k);
      ReplaysOn(before, s, prints, schedule[k], fingerprint, status, body, t);
    }
  }

  /** A response that is not 2xx, or a throw, frees the key: the next request runs its
      handler. */
  lemma FailureFreesKey(s: State, prints: seq<string>, first: Turn, next: Turn)
    requires |s.pcs| == |prints| && first.thread < |prints| && next.thread < |prints| && Inv(s, prints)
    requires s.pcs[first.thread].Dropping? && !first.dies && s.pcs[next.thread].Arriving?
    ensures Step(Step(s, prints, first), prints, next).pcs[next.thread].Running?
  {
    assert PcOk(s, prints, first.thread);
  }

  // ---------------------------------------------------------------- a request is answered by its own handler

  /** How request t's handler ended, if it has. */
  predicate Tells(s: State, t: nat)
    requires t < |s.pcs|
  {
    match s.pcs[t]
    case Storing(_, status, body) => t in s.endings && s.endings[t] == Response(status, body)
    case Dropping(_, answer) => t in s.endings && answer == AnswerOf(s.endings[t])
    case Over(answer) =>
      if t in s.endings then answer == AnswerOf(s.endings[t])
      else answer.KeyReused? || answer.InProgress? || (answer.Replied? && IsOk(answer.status))
    case Dead => true
    case _ => t !in s.endings
  }

  predicate AllTell(s: State) {
    && (forall t :: 0 <= t < |s.pcs| ==> Tells(s, t))
    && (forall t :: 0 <= t < |s.pcs| && s.pcs[t].Storing? ==> IsOk(s.pcs[t].status))
    && (forall o :: 0 <= o < |s.records| && s.records[o].statusCode.Some? ==> IsOk(s.records[o].statusCode.value))
  }

  lemma StepTells(s: State, prints: seq<string>, turn: Turn)
    requires |s.pcs| == |prints| && turn.thread < |prints| && AllTell(s)
    ensures AllTell(Step(s, prints, turn))
  {
    var s' := Step(s, prints, turn);
    assert Tells(s, turn.thread);
    forall t | 0 <= t < |s'.pcs| ensures Tells(s', t) {
      assert Tells(s, t);
    }
  }

  /** Guarded or not, a request whose handler ran to its end is answered what that handler
      answered, its status and body or its throw, whatever they are; and any other answer
      is a refusal or a stored 2xx response. */
  lemma {:induction false} OwnHandlerAnswers(prints: seq<string>, schedule: Schedule, t: nat)
    requires Fits(prints, schedule) && t < |prints|
    ensures var s := Exec(prints, schedule);
            s.pcs[t].Over? ==>
              if t in s.endings then
                match s.endings[t]
                case Response(status, body) => s.pcs[t].answer == Replied(status, body)
                case HandlerThrew(message) => s.pcs[t].answer == Rethrew(message)
              else s.pcs[t].answer.KeyReused? || s.pcs[t].answer.InProgress?
                   || (s.pcs[t].answer.Replied? && IsOk(s.pcs[t].answer.status))
  {
    ExecTells(prints, schedule);
    assert Tells(Exec(prints, schedule), t);
  }

  lemma {:induction false} ExecTells(prints: seq<string>, schedule: Schedule)
    requires Fits(prints, schedule)
    ensures AllTell(Exec(prints, schedule))
  {
    if schedule != [] {
      var n := |schedule| - 1;
      ExecTells(prints, schedule[..n]);
      StepTells(Exec(prints, schedule[..n]), prints, schedule[n]);
    }
  }

  // ---------------------------------------------------------------- handlers that end in time

  /** No handler is still in flight more than 60 seconds after its claim. */
  predicate InTime(s: State, now: int) {
    forall u :: 0 <= u < |s.pcs| && Inside(s.pcs[u]) && s.pcs[u].o < |s.records| ==>
      match s.records[s.pcs[u].o].createdAt { case Some(c) => now <= c + 60_000 case None => true }
  }

  /** A request that finds the key claimed looks at the claim, and deletes it if it is to
      be reclaimed, before anybody else moves. */
  predicate Prompt(s: State, schedule: Schedule, i: nat)
    requires i < |schedule|
  {
    var t := schedule[i].thread;
    t < |s.pcs| && (s.pcs[t].Reading? || s.pcs[t].Reclaiming?) ==> i > 0 && schedule[i - 1].thread == t
  }

  /** Every handler that lives ends within 60 seconds of its claim, and every request is
      prompt. */
  predicate Timely(prints: seq<string>, schedule: Schedule)
    requires Fits(prints, schedule)
  {
    forall i :: 0 <= i < |schedule| ==>
      InTime(Exec(prints, schedule[..i]), schedule[i].now) && Prompt(Exec(prints, schedule[..i]), schedule, i)
  }

  /** What the request that moved last has just seen. */
  predicate JustSeen(s: State, t: nat) {
    t < |s.pcs| ==>
      && (s.pcs[t].Reading? ==> s.live == Some(s.pcs[t].o))
      && (s.pcs[t].Reclaiming? ==> NobodyInside(s) && Unfinished(s))
  }

  lemma SeesNow(s: State, prints: seq<string>, turn: Turn)
    requires |s.pcs| == |prints| && turn.thread < |prints| && Inv(s, prints) && InTime(s, turn.now)
    requires s.pcs[turn.thread].Reading? || s.pcs[turn.thread].Reclaiming? ==> JustSeen(s, turn.thread)
    ensures JustSeen(Step(s, prints, turn), turn.thread) && Safe(s, turn)
  {
    assert PcOk(s, prints, turn.thread);
    var s' := Step(s, prints, turn);
    if s.pcs[turn.thread].Reading? && s'.pcs[turn.thread].Reclaiming? {
      forall u | 0 <= u < |s.pcs| ensures !Inside(s.pcs[u]) {
        assert PcOk(s, prints, u);
      }
    }
  }

  lemma TimelyBefore(prints: seq<string>, schedule: Schedule, n: nat)
    requires Fits(prints, schedule) && Timely(prints, schedule) && n <= |schedule|
    ensures Fits(prints, schedule[..n]) && Timely(prints, schedule[..n])
  {
    forall i | 0 <= i < n
      ensures InTime(Exec(prints, schedule[..n][..i]), schedule[..n][i].now)
              && Prompt(Exec(prints, schedule[..n][..i]), schedule[..n], i)
    {
      assert schedule[..n][..i] == schedule[..i];
      assert Prompt(Exec(prints, schedule[..i]), schedule, i);
    }
  }

  lemma GuardedOn(prints: seq<string>, schedule: Schedule, n: nat)
    requires Fits(prints, schedule) && |schedule| == n + 1 && Guarded(prints, schedule[..n])
    requires SafeAt(prints, schedule, n)
    ensures Guarded(prints, schedule)
  {
    forall i: nat | i < |schedule| ensures SafeAt(prints, schedule, i) {
      if i < n {
        assert SafeAt(prints, schedule[..n], i);
        SafeBefore(prints, schedule, n, i);
      }
    }
  }

  lemma {:induction false} TimelyIsGuarded(prints: seq<string>, schedule: Schedule)
    requires Fits(prints, schedule) && Timely(prints, schedule)
    ensures Guarded(prints, schedule)
    ensures schedule != [] ==> JustSeen(Exec(prints, schedule), schedule[|schedule| - 1].thread)
  {
    if schedule != [] {
      var n := |schedule| - 1;
      var s := Exec(prints, schedule[..n]);
      TimelyBefore(prints, schedule, n);
      TimelyIsGuarded(prints, schedule[..n]);
      ExecKeeps(prints, schedule[..n]);
      assert Prompt(s, schedule, n) && InTime(s, schedule[n].now);
      SeesNow(s, prints, schedule[n]);
      GuardedOn(prints, schedule, n);
    }
  }

  /** If every handler that lives ends within 60 seconds of its claim and requests are
      prompt, at most one handler is in flight, however the requests interleave, however
      many die, and although orphaned claims are reclaimed. */
  lemma OneInFlightInTime(prints: seq<string>, schedule: Schedule, t: nat, u: nat)
    requires Fits(prints, schedule) && Timely(prints, schedule) && t < |prints| && u < |prints|
    requires Inside(Exec(prints, schedule).pcs[t]) && Inside(Exec(prints, schedule).pcs[u])
    ensures t == u
  {
    TimelyIsGuarded(prints, schedule);
    OneInFlight(prints, schedule, t, u);
  }

  // ---------------------------------------------------------------- what an unsafe reclaim does

  /** The guard is exact: a first unsafe reclaim deletes either the claim of a handler in
      flight, and the reclaiming request's own next turn puts a second one in flight, or a
      stored response, and that turn runs a handler again although one has answered. */
  lemma UnsafeReclaimBreaks(prints: seq<string>, schedule: Schedule, turn: Turn, next: Turn)
    requires Fits(prints, schedule) && Guarded(prints, schedule) && turn.thread < |prints|
    requires !Safe(Exec(prints, schedule), turn) && next.thread == turn.thread
    ensures var s := Exec(prints, schedule);
            var s2 := Step(Step(s, prints, turn), prints, next);
            && s2.pcs[turn.thread].Running?
            && ((exists u :: 0 <= u < |prints| && u != turn.thread && Inside(s2.pcs[u]))
                || (exists fingerprint, status, body ::
                      Stored(s, fingerprint, status, body) && !Stored(s2, fingerprint, status, body)))
  {
    ExecKeeps(prints, schedule);
    var s := Exec(prints, schedule);
    var s2 := Step(Step(s, prints, turn), prints, next);
    if NobodyInside(s) {
      var rec := s.records[s.live.value];
      assert rec.body == OrNull(rec.body);
      assert Stored(s, rec.fingerprint, rec.statusCode.value, rec.body);
      assert !Stored(s2, rec.fingerprint, rec.statusCode.value, rec.body);
    } else {
      var u :| 0 <= u < |s.pcs| && Inside(s.pcs[u]);
      assert Inside(s2.pcs[u]);
    }
  }

  lemma ExecSnoc(prints: seq<string>, schedule: Schedule, turn: Turn)
    requires Fits(prints, schedule) && turn.thread < |prints|
    ensures Fits(prints, schedule + [turn])
    ensures Exec(prints, schedule + [turn]) == Step(Exec(prints, schedule), prints, turn)
  {
    assert (schedule + [turn])[..|schedule|] == schedule;
  }

  /** Request 0 dies holding its claim. */
  lemma Orphaned(prints: seq<string>, c: int, handled: Handled) returns (schedule: Schedule)
    requires |prints| == 3
    ensures Fits(prints, schedule)
    ensures var s := Exec(prints, schedule);
            && s.pcs == [Dead, Arriving, Arriving] && s.live == Some(0)
            && s.records == [IdemRecord(prints[0], Some(c), None, Json("null"))]
  {
    var claim, die := Turn(0, handled, c, false), Turn(0, handled, c, true);
    ExecSnoc(prints, [], claim);
    ExecSnoc(prints, [] + [claim], die);
    schedule := [] + [claim] + [die];
    assert Exec(prints, [] + [claim]).pcs[0] == Running(0);
  }

  /** Both others find the claim stale. */
  lemma BothFindIt(prints: seq<string>, before: Schedule, late: int, handled: Handled) returns (schedule: Schedule)
    requires |prints| == 3 && prints[1] == prints[0] && prints[2] == prints[0] && Fits(prints, before)
    requires var s := Exec(prints, before);
             && s.pcs == [Dead, Arriving, Arriving] && s.live == Some(0) && |s.records| == 1
             && s.records[0].fingerprint == prints[0] && Stale(s.records[0], late)
    ensures Fits(prints, schedule)
    ensures Exec(prints, schedule) == Exec(prints, before).(pcs := [Dead, Reclaiming(0), Reclaiming(0)])
  {
    var one, two := Turn(1, handled, late, false), Turn(2, handled, late, false);
    ExecSnoc(prints, before, one);
    ExecSnoc(prints, before + [one], two);
    ExecSnoc(prints, before + [one] + [two], one);
    ExecSnoc(prints, before + [one] + [two] + [one], two);
    schedule := before + [one] + [two] + [one] + [two];
    assert Exec(prints, before + [one] + [two]).pcs == [Dead, Reading(0), Reading(0)];
  }

  /** It happens, whatever the requests: one dies holding its claim, two others find it
      stale, the first of them reclaims it and its handler is in flight when the second
      deletes that claim and runs its own. */
  lemma TwoReclaimersRunTwice(fp: string, c: int, late: int, handled: Handled)
    requires late > c + 60_000
    ensures exists schedule ::
      && Fits([fp, fp, fp], schedule)
      && Inside(Exec([fp, fp, fp], schedule).pcs[1]) && Inside(Exec([fp, fp, fp], schedule).pcs[2])
  {
    var prints := [fp, fp, fp];
    var a := Orphaned(prints, c, handled);
    var b := BothFindIt(prints, a, late, handled);
    var d := FirstReclaims(prints, b, late, handled);
    SecondReclaims(prints, d, late, handled);
  }

  /** The first of them deletes the orphan and claims the key. */
  lemma FirstReclaims(prints: seq<string>, before: Schedule, late: int, handled: Handled) returns (schedule: Schedule)
    requires |prints| == 3 && Fits(prints, before)
    requires var s := Exec(prints, before); s.pcs == [Dead, Reclaiming(0), Reclaiming(0)] && |s.records| == 1
    ensures Fits(prints, schedule)
    ensures Exec(prints, schedule).pcs == [Dead, Running(1), Reclaiming(0)] && |Exec(prints, schedule).records| == 2
  {
    var one := Turn(1, handled, late, false);
    ExecSnoc(prints, before, one);
    ExecSnoc(prints, before + [one], one);
    schedule := before + [one] + [one];
    assert Exec(prints, before + [one]).pcs == [Dead, Arriving, Reclaiming(0)];
  }

  /** The second deletes that claim and claims the key itself. */
  lemma SecondReclaims(prints: seq<string>, before: Schedule, late: int, handled: Handled)
    requires |prints| == 3 && Fits(prints, before)
    requires var s := Exec(prints, before); s.pcs == [Dead, Running(1), Reclaiming(0)] && |s.records| == 2
    ensures exists schedule ::
      Fits(prints, schedule) && Inside(Exec(prints, schedule).pcs[1]) && Inside(Exec(prints, schedule).pcs[2])
  {
    var two := Turn(2, handled, late, false);
    ExecSnoc(prints, before, two);
    ExecSnoc(prints, before + [two], two);
    assert Exec(prints, before + [two]).pcs == [Dead, Running(1), Arriving];
    assert Exec(prints, before + [two] + [two]).pcs == [Dead, Running(1), Running(2)];
  }

  // ---------------------------------------------------------------- alone

  /** The store's record for the key, as the machine sees it. */
  predicate Shows(s: State, rec: Option<IdemRecord>) {
    match rec
    case None => s.live.None?
    case Some(r) => s.live.Some? && s.live.value < |s.records| && s.records[s.live.value] == r
  }

  /** Request t takes three turns at one moment, and does not die. */
  function ThreeTurns(s: State, prints: seq<string>, t: nat, now: int, handled: Handled): (s': State)
    requires |s.pcs| == |prints| && t < |prints|
    ensures |s'.pcs| == |prints|
  {
    var turn := Turn(t, handled, now, false);
    var s1 := Step(s, prints, turn);
    var s2 := Step(s1, prints, turn);
    Step(s2, prints, turn)
  }

  lemma FreshIsServed(s: State, prints: seq<string>, t: nat, now: int, handled: Handled)
    requires |s.pcs| == |prints| && t < |prints| && s.pcs[t].Arriving? && s.live.None?
    ensures var s3 := ThreeTurns(s, prints, t, now, handled);
            var (answer, after) := Served(None, prints[t], now, handled);
            s3.pcs[t] == Over(answer) && Shows(s3, after)
  {
  }

  lemma FoundIsServed(s: State, prints: seq<string>, t: nat, rec: IdemRecord, now: int, handled: Handled)
    requires |s.pcs| == |prints| && t < |prints| && s.pcs[t].Arriving? && Shows(s, Some(rec))
    ensures var s3 := ThreeTurns(s, prints, t, now, handled);
            if Leftover(Some(rec), prints[t], now).None? then s3.pcs[t].Arriving? && s3.live.None?
            else
              var (answer, after) := Served(Some(rec), prints[t], now, handled);
              s3.pcs[t] == Over(answer) && Shows(s3, after)
  {
  }

  lemma OverStays(s: State, prints: seq<string>, t: nat, now: int, handled: Handled)
    requires |s.pcs| == |prints| && t < |prints| && s.pcs[t].Over?
    ensures ThreeTurns(s, prints, t, now, handled) == s
  {
  }

  /** With nobody else about, a request's turns, six at most, are one withIdempotency call,
      whatever record it finds. */
  lemma AloneIsServed(s: State, prints: seq<string>, t: nat, rec: Option<IdemRecord>, now: int, handled: Handled)
    requires |s.pcs| == |prints| && t < |prints| && s.pcs[t].Arriving? && Shows(s, rec)
    ensures var s6 := ThreeTurns(ThreeTurns(s, prints, t, now, handled), prints, t, now, handled);
            var (answer, after) := Served(rec, prints[t], now, handled);
            s6.pcs[t] == Over(answer) && Shows(s6, after)
  {
    var s3 := ThreeTurns(s, prints, t, now, handled);
    if rec.None? {
      FreshIsServed(s, prints, t, now, handled);
      OverStays(s3, prints, t, now, handled);
    } else {
      FoundIsServed(s, prints, t, rec.value, now, handled);
      if Leftover(rec, prints[t], now).None? {
        FreshIsServed(s3, prints, t, now, handled);
      } else {
        OverStays(s3, prints, t, now, handled);
      }
    }
  }
}
