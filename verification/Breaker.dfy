/** The circuit breaker under overlapping calls: a call enters, and some time later it
    completes, with any number of other calls entering and completing in between. */
module BreakerSpec {

  datatype Circuit = Closed | Open | HalfOpen

  datatype Config = Config(failureThreshold: int, cooldownMs: int, successThreshold: int)

  datatype State = State(circuit: Circuit, failures: nat, successes: nat, openedAt: int)

  const Initial := State(Closed, 0, 0, 0)

  /** A completion ends a call; nothing here needs it to match an earlier entry. */
  datatype Event = Enter(at: int) | Complete(ok: bool, at: int)

  function Transition(s: State, next: Circuit, now: int): State {
    if s.circuit == next then s
    else
      match next
      case Closed => State(Closed, 0, 0, s.openedAt)
      case Open => State(Open, s.failures, 0, now)
      case HalfOpen => State(HalfOpen, s.failures, 0, s.openedAt)
  }

  predicate Admits(s: State, cfg: Config, now: int) {
    s.circuit != Open || now - s.openedAt >= cfg.cooldownMs
  }

  function Entered(s: State, cfg: Config, now: int): State {
    if s.circuit == Open && Admits(s, cfg, now) then Transition(s, HalfOpen, now) else s
  }

  function Succeeded(s: State, cfg: Config, now: int): State {
    if s.circuit == HalfOpen then
      var s1 := s.(successes := s.successes + 1);
      if s1.successes >= cfg.successThreshold then Transition(s1, Closed, now) else s1
    else s.(failures := 0)
  }

  function Failed(s: State, cfg: Config, now: int): State {
    if s.circuit == HalfOpen then Transition(s, Open, now)
    else
      var s1 := s.(failures := s.failures + 1);
      if s1.failures >= cfg.failureThreshold then Transition(s1, Open, now) else s1
  }

  function Step(s: State, cfg: Config, e: Event): State {
    match e
    case Enter(now) => Entered(s, cfg, now)
    case Complete(ok, now) => if ok then Succeeded(s, cfg, now) else Failed(s, cfg, now)
  }

  function After(cfg: Config, events: seq<Event>): State {
    if events == [] then Initial else Step(After(cfg, events[..|events| - 1]), cfg, events[|events| - 1])
  }

  // ---------------------------------------------------------------- retry-after

  function RoundUp(ms: int): int {
    (ms + 999) / 1000
  }

  function RetryAfterSeconds(s: State, cfg: Config, now: int): int {
    var seconds := RoundUp(cfg.cooldownMs - (now - s.openedAt));
    if seconds < 1 then 1 else seconds
  }

  /** Waiting as long as a refused caller is told to is long enough, and, unless it is
      told the minimum of one second, a second less is not. */
  lemma RetryAfterIsEnough(s: State, cfg: Config, now: int)
    requires !Admits(s, cfg, now)
    ensures var seconds := RetryAfterSeconds(s, cfg, now);
            && seconds >= 1
            && Admits(s, cfg, now + 1000 * seconds)
            && (seconds > 1 ==> !Admits(s, cfg, now + 1000 * (seconds - 1)))
  {
  }

  // ---------------------------------------------------------------- whole runs

  function Threshold(cfg: Config): nat {
    if cfg.failureThreshold < 1 then 1 else cfg.failureThreshold
  }

  /** The outcomes of the completed calls, in order. */
  function Completions(events: seq<Event>): seq<bool> {
    if events == [] then []
    else
      var e := events[|events| - 1];
      Completions(events[..|events| - 1]) + if e.Complete? then [e.ok] else []
  }

  predicate LastFailed(outcomes: seq<bool>, n: nat) {
    n <= |outcomes| && forall i :: |outcomes| - n <= i < |outcomes| ==> !outcomes[i]
  }

  predicate Monotone(events: seq<Event>) {
    forall i, j :: 0 <= i < j < |events| ==> events[i].at <= events[j].at
  }

  /** While the circuit is closed its failures are below the threshold, and are the
      latest completions. */
  lemma {:induction false} ClosedBelowThreshold(cfg: Config, events: seq<Event>)
    ensures var s := After(cfg, events);
            s.circuit == Closed ==> s.failures < Threshold(cfg) && LastFailed(Completions(events), s.failures)
  {
    if events != [] {
      ClosedBelowThreshold(cfg, events[..|events| - 1]);
    }
  }

  predicate Opens(cfg: Config, events: seq<Event>, i: nat)
    requires i < |events|
  {
    After(cfg, events[..i]).circuit != Open && After(cfg, events[..i + 1]).circuit == Open
  }

  lemma AfterNext(cfg: Config, events: seq<Event>, i: nat)
    requires i < |events|
    ensures After(cfg, events[..i + 1]) == Step(After(cfg, events[..i]), cfg, events[i])
    ensures Completions(events[..i + 1])
            == Completions(events[..i]) + if events[i].Complete? then [events[i].ok] else []
  {
    assert events[..i + 1][..i] == events[..i];
  }

  /** A closed circuit opens exactly when a failure completes the threshold: the last
      `threshold` completions, this one included, all failed. */
  lemma OpeningFromClosed(cfg: Config, events: seq<Event>, i: nat)
    requires i < |events| && After(cfg, events[..i]).circuit == Closed
    ensures Opens(cfg, events, i) ==> LastFailed(Completions(events[..i + 1]), Threshold(cfg))
    ensures Opens(cfg, events, i) <==>
      events[i].Complete? && !events[i].ok && After(cfg, events[..i]).failures + 1 >= Threshold(cfg)
  {
    AfterNext(cfg, events, i);
    ClosedBelowThreshold(cfg, events[..i]);
  }

  /** The circuit has been closed from event j, its first or the one after it closed, up
      to event i. */
  ghost predicate ClosedSince(cfg: Config, events: seq<Event>, j: nat, i: nat) {
    && j <= i <= |events| && (j > 0 ==> After(cfg, events[..j - 1]).circuit != Closed)
    && forall k :: j <= k <= i ==> After(cfg, events[..k]).circuit == Closed
  }

  function Trailing(outcomes: seq<bool>): nat {
    if outcomes == [] || outcomes[|outcomes| - 1] then 0 else 1 + Trailing(outcomes[..|outcomes| - 1])
  }

  lemma {:induction false} TrailingIs(outcomes: seq<bool>, n: nat)
    ensures LastFailed(outcomes, n) <==> n <= Trailing(outcomes)
  {
    if outcomes != [] && n > 0 {
      var rest := outcomes[..|outcomes| - 1];
      TrailingIs(rest, n - 1);
      assert forall i :: 0 <= i < |rest| ==> rest[i] == outcomes[i];
      if LastFailed(outcomes, n) {
        assert !outcomes[|outcomes| - 1];
      }
    }
  }

  lemma TrailingNext(outcomes: seq<bool>, ok: bool)
    ensures Trailing(outcomes + [ok]) == if ok then 0 else Trailing(outcomes) + 1
  {
    assert (outcomes + [ok])[..|outcomes|] == outcomes;
  }

  lemma ClosedCounts(s: State, cfg: Config, e: Event)
    requires s.circuit == Closed && Step(s, cfg, e).circuit == Closed
    ensures Step(s, cfg, e).failures == if e.Enter? then s.failures else if e.ok then 0 else s.failures + 1
  {
  }

  lemma TrailingOn(cfg: Config, events: seq<Event>, j: nat, i: nat)
    requires j < i <= |events|
    requires After(cfg, events[..i - 1]).circuit == Closed && After(cfg, events[..i]).circuit == Closed
    requires After(cfg, events[..i - 1]).failures == Trailing(CompletionsBetween(events, j, i - 1))
    ensures After(cfg, events[..i]).failures == Trailing(CompletionsBetween(events, j, i))
  {
    var before, e := CompletionsBetween(events, j, i - 1), events[i - 1];
    assert After(cfg, events[..i]) == Step(After(cfg, events[..i - 1]), cfg, e) by { AfterNext(cfg, events, i - 1); }
    BetweenNext(events, j, i - 1);
    ClosedCounts(After(cfg, events[..i - 1]), cfg, e);
    if e.Complete? {
      TrailingNext(before, e.ok);
    } else {
      assert CompletionsBetween(events, j, i) == before;
    }
  }

  /** While the circuit is closed it counts the failures since the last success, or since
      it closed. */
  lemma {:induction false} FailuresAreTrailing(cfg: Config, events: seq<Event>, j: nat, i: nat)
    requires ClosedSince(cfg, events, j, i)
    ensures After(cfg, events[..i]).failures == Trailing(CompletionsBetween(events, j, i))
    decreases i
  {
    if i == j {
      assert events[j..j] == [];
      if j > 0 {
        AfterNext(cfg, events, j - 1);
      }
    } else {
      FailuresAreTrailing(cfg, events, j, i - 1);
      TrailingOn(cfg, events, j, i);
    }
  }

  /** A closed circuit opens exactly on the completion with which the last `threshold`
      completions since it closed all failed. */
  lemma OpensAfterThreshold(cfg: Config, events: seq<Event>, j: nat, i: nat)
    requires i < |events| && ClosedSince(cfg, events, j, i)
    ensures Opens(cfg, events, i)
      <==> events[i].Complete? && LastFailed(CompletionsBetween(events, j, i + 1), Threshold(cfg))
  {
    AfterNext(cfg, events, i);
    BetweenNext(events, j, i);
    FailuresAreTrailing(cfg, events, j, i);
    var before, more := CompletionsBetween(events, j, i), CompletionsBetween(events, j, i + 1);
    TrailingIs(more, Threshold(cfg));
    ClosedBelowThreshold(cfg, events[..i]);
    assert events[i].Complete? ==> more[..|more| - 1] == before;
  }

  /** From an opening on, the circuit is open since then, or the cooldown is over. */
  lemma {:induction false} OpenOrCooled(cfg: Config, events: seq<Event>, i: nat, j: nat)
    requires i < j <= |events| && Opens(cfg, events, i) && Monotone(events)
    ensures var s := After(cfg, events[..j]);
            || (s.circuit == Open && s.openedAt == events[i].at)
            || events[j - 1].at - events[i].at >= cfg.cooldownMs
  {
    AfterNext(cfg, events, j - 1);
    if j > i + 1 {
      OpenOrCooled(cfg, events, i, j - 1);
    }
  }

  /** No call begins from an opening until the cooldown has passed. */
  lemma NothingBeginsDuringCooldown(cfg: Config, events: seq<Event>, i: nat, j: nat)
    requires i < j < |events| && Opens(cfg, events, i) && Monotone(events)
    requires events[j].Enter? && Admits(After(cfg, events[..j]), cfg, events[j].at)
    ensures events[j].at - events[i].at >= cfg.cooldownMs
  {
    OpenOrCooled(cfg, events, i, j);
    assert events[j - 1].at <= events[j].at;
  }

  /** Successive openings are at least the cooldown apart, late completions or not. */
  lemma OpeningsAreApart(cfg: Config, events: seq<Event>, i: nat, j: nat)
    requires i < j < |events| && Opens(cfg, events, i) && Opens(cfg, events, j) && Monotone(events)
    ensures events[j].at - events[i].at >= cfg.cooldownMs
  {
    OpenOrCooled(cfg, events, i, j);
    assert events[j - 1].at <= events[j].at;
  }

  /** The circuit became half-open with event j and has been so up to event i. */
  ghost predicate HalfOpenSince(cfg: Config, events: seq<Event>, j: nat, i: nat) {
    && j < i <= |events| && After(cfg, events[..j]).circuit != HalfOpen
    && forall k :: j < k <= i ==> After(cfg, events[..k]).circuit == HalfOpen
  }

  /** Completions from event j on, up to event i. */
  function CompletionsBetween(events: seq<Event>, j: nat, i: nat): seq<bool>
    requires j <= i <= |events|
  {
    Completions(events[j..i])
  }

  function Trials(cfg: Config): nat {
    if cfg.successThreshold < 1 then 1 else cfg.successThreshold
  }

  predicate LastSucceeded(outcomes: seq<bool>, n: nat) {
    n <= |outcomes| && forall i :: |outcomes| - n <= i < |outcomes| ==> outcomes[i]
  }

  lemma BetweenNext(events: seq<Event>, j: nat, i: nat)
    requires j <= i < |events|
    ensures CompletionsBetween(events, j, i + 1)
         == CompletionsBetween(events, j, i) + if events[i].Complete? then [events[i].ok] else []
  {
    assert events[j..i + 1][..i - j] == events[j..i];
  }

  /** While the circuit is half-open, `successes` is the number of completions since it
      became so; they all succeeded, and are fewer than it takes to close. */
  lemma {:induction false} SuccessesCountTrials(cfg: Config, events: seq<Event>, j: nat, i: nat)
    requires HalfOpenSince(cfg, events, j, i)
    ensures var trials := CompletionsBetween(events, j + 1, i);
            && After(cfg, events[..i]).successes == |trials| < Trials(cfg)
            && LastSucceeded(trials, |trials|)
    decreases i
  {
    AfterNext(cfg, events, i - 1);
    if i == j + 1 {
      assert events[i..i] == [];
    } else {
      SuccessesCountTrials(cfg, events, j, i - 1);
      BetweenNext(events, j + 1, i - 1);
    }
  }

  /** A half-open circuit opens exactly on a failure, and closes exactly on the completion
      with which the last max(1, successThreshold) completions since it became half-open
      all succeeded. */
  lemma HalfOpenDecides(cfg: Config, events: seq<Event>, j: nat, i: nat)
    requires i < |events| && HalfOpenSince(cfg, events, j, i)
    ensures var after := After(cfg, events[..i + 1]).circuit;
            && (after == Open <==> events[i].Complete? && !events[i].ok)
            && (after == Closed
                <==> events[i].Complete? && LastSucceeded(CompletionsBetween(events, j + 1, i + 1), Trials(cfg)))
  {
    AfterNext(cfg, events, i);
    SuccessesCountTrials(cfg, events, j, i);
    BetweenNext(events, j + 1, i);
    var trials, more := CompletionsBetween(events, j + 1, i), CompletionsBetween(events, j + 1, i + 1);
    assert forall k :: 0 <= k < |trials| ==> trials[k] && more[k] == trials[k];
    assert events[i].Complete? ==> more[|more| - 1] == events[i].ok;
  }

  // ---------------------------------------------------------------- recovery

  /** The circuit opened with event i and has been open up to event j. */
  ghost predicate OpenSince(cfg: Config, events: seq<Event>, i: nat, j: nat) {
    && i < j <= |events| && Opens(cfg, events, i)
    && forall k :: i < k <= j ==> After(cfg, events[..k]).circuit == Open
  }

  lemma {:induction false} OpenedThen(cfg: Config, events: seq<Event>, i: nat, j: nat)
    requires OpenSince(cfg, events, i, j)
    ensures After(cfg, events[..j]).openedAt == events[i].at
    decreases j
  {
    AfterNext(cfg, events, j - 1);
    if j > i + 1 {
      OpenedThen(cfg, events, i, j - 1);
    }
  }

  /** Event j is an entry that is let through. */
  ghost predicate LetThrough(cfg: Config, events: seq<Event>, j: nat) {
    j < |events| && events[j].Enter? && Admits(After(cfg, events[..j]), cfg, events[j].at)
  }

  /** A circuit open since event i lets a call through exactly when the cooldown has
      passed since then, and the call then finds it half-open. */
  lemma OpenAdmitsAfterCooldown(cfg: Config, events: seq<Event>, i: nat, j: nat)
    requires OpenSince(cfg, events, i, j) && j < |events| && events[j].Enter?
    ensures LetThrough(cfg, events, j) <==> events[j].at - events[i].at >= cfg.cooldownMs
    ensures LetThrough(cfg, events, j) ==> HalfOpenSince(cfg, events, j, j + 1)
    ensures !LetThrough(cfg, events, j) ==> OpenSince(cfg, events, i, j + 1)
  {
    OpenedThen(cfg, events, i, j);
    AfterNext(cfg, events, j);
  }

  /** No call is under way on an open circuit: whoever is let through leaves it closed or
      half-open, and whoever finds it closed or half-open is let through. */
  lemma LetThroughIsNotOpen(cfg: Config, events: seq<Event>, j: nat)
    requires j < |events| && events[j].Enter?
    ensures LetThrough(cfg, events, j) <==> After(cfg, events[..j + 1]).circuit != Open
    ensures After(cfg, events[..j]).circuit != Open ==>
      After(cfg, events[..j + 1]).circuit == After(cfg, events[..j]).circuit
  {
    AfterNext(cfg, events, j);
  }

  /** From event j on, up to event i, every completed call succeeded. */
  predicate OnlySuccesses(events: seq<Event>, j: nat, i: nat) {
    j <= i <= |events| && forall k :: j <= k < i ==> events[k].Complete? ==> events[k].ok
  }

  lemma {:induction false} SuccessesBetween(events: seq<Event>, j: nat, i: nat)
    requires OnlySuccesses(events, j, i)
    ensures var trials := CompletionsBetween(events, j, i); LastSucceeded(trials, |trials|)
    decreases i
  {
    if i == j {
      assert events[j..i] == [];
    } else {
      SuccessesBetween(events, j, i - 1);
      BetweenNext(events, j, i - 1);
    }
  }

  /** A call that made the circuit half-open, and nothing but successes since, too few to
      close it: it is still half-open. */
  lemma {:induction false} StillOnTrial(cfg: Config, events: seq<Event>, j: nat, i: nat)
    requires HalfOpenSince(cfg, events, j, j + 1) && j < i && OnlySuccesses(events, j + 1, i)
    requires |CompletionsBetween(events, j + 1, i)| < Trials(cfg)
    ensures HalfOpenSince(cfg, events, j, i)
    decreases i
  {
    if i > j + 1 {
      BetweenNext(events, j + 1, i - 1);
      StillOnTrial(cfg, events, j, i - 1);
      HalfOpenDecides(cfg, events, j, i - 1);
      AfterNext(cfg, events, i - 1);
      assert events[i - 1].Complete? ==> events[i - 1].ok;
    }
  }

  /** A call let through an open circuit, and the first completion after it fails: no call
      begins until the cooldown has passed since that failure. */
  lemma FailedTrialShutsAgain(cfg: Config, events: seq<Event>, j: nat, i: nat, k: nat)
    requires LetThrough(cfg, events, j) && After(cfg, events[..j]).circuit == Open && Monotone(events)
    requires j < i < k < |events| && events[i].Complete? && !events[i].ok
    requires CompletionsBetween(events, j + 1, i) == [] && LetThrough(cfg, events, k)
    ensures events[k].at - events[i].at >= cfg.cooldownMs
  {
    AfterNext(cfg, events, j);
    assert HalfOpenSince(cfg, events, j, j + 1);
    NoneBetween(events, j + 1, i);
    StillOnTrial(cfg, events, j, i);
    HalfOpenDecides(cfg, events, j, i);
    assert Opens(cfg, events, i);
    NothingBeginsDuringCooldown(cfg, events, i, k);
  }

  lemma {:induction false} NoneBetween(events: seq<Event>, j: nat, i: nat)
    requires j <= i <= |events| && CompletionsBetween(events, j, i) == []
    ensures OnlySuccesses(events, j, i)
    decreases i
  {
    if i > j {
      BetweenNext(events, j, i - 1);
      NoneBetween(events, j, i - 1);
    }
  }

  /** A call let through an open circuit, and after it max(1, successThreshold)
      completions, all of them successes: the circuit is closed. */
  lemma TrialsCloseIt(cfg: Config, events: seq<Event>, j: nat, i: nat)
    requires LetThrough(cfg, events, j) && After(cfg, events[..j]).circuit == Open
    requires j < i < |events| && events[i].Complete? && OnlySuccesses(events, j + 1, i + 1)
    requires |CompletionsBetween(events, j + 1, i + 1)| == Trials(cfg)
    ensures After(cfg, events[..i + 1]).circuit == Closed
  {
    AfterNext(cfg, events, j);
    assert HalfOpenSince(cfg, events, j, j + 1);
    BetweenNext(events, j + 1, i);
    assert OnlySuccesses(events, j + 1, i);
    StillOnTrial(cfg, events, j, i);
    SuccessesBetween(events, j + 1, i + 1);
    HalfOpenDecides(cfg, events, j, i);
  }
}

module BreakerClass {
  import opened BreakerSpec

  class CircuitBreaker {
    const cfg: Config
    var circuit: Circuit
    var failures: nat
    var successes: nat
    var openedAt: int

    ghost function Now(): State
      reads this
    {
      State(circuit, failures, successes, openedAt)
    }

    constructor (cfg: Config)
      ensures this.cfg == cfg && Now() == Initial
    {
      this.cfg := cfg;
      circuit := Closed;
      failures := 0;
      successes := 0;
      openedAt := 0;
    }

    method Transition(next: Circuit, now: int)
      modifies this
      ensures Now() == BreakerSpec.Transition(old(Now()), next, now)
    {
      if circuit == next {
        return;
      }
      circuit := next;
      if next == Closed {
        failures := 0;
        successes := 0;
      } else if next == Open {
        openedAt := now;
        successes := 0;
      } else if next == HalfOpen {
        successes := 0;
      }
    }

    /** The first half of exec(): let the call through or refuse it.  The clock is read
        again for the refusal. */
    method Enter(now: int, later: int) returns (admitted: bool, retryAfter: int)
      modifies this
      ensures admitted == Admits(old(Now()), cfg, now)
      ensures Now() == Entered(old(Now()), cfg, now)
      ensures !admitted ==> retryAfter == RetryAfterSeconds(Now(), cfg, later)
    {
      if circuit == Open {
        if now - openedAt >= cfg.cooldownMs {
          Transition(HalfOpen, now);
        } else {
          var seconds := RoundUp(cfg.cooldownMs - (later - openedAt));
          return false, if seconds < 1 then 1 else seconds;
        }
      }
      return true, 0;
    }

    method OnSuccess(now: int)
      modifies this
      ensures Now() == Succeeded(old(Now()), cfg, now)
    {
      if circuit == HalfOpen {
        successes := successes + 1;
        if successes >= cfg.successThreshold {
          Transition(Closed, now);
        }
        return;
      }
      failures := 0;
    }

    method OnFailure(now: int)
      modifies this
      ensures Now() == Failed(old(Now()), cfg, now)
    {
      if circuit == HalfOpen {
        Transition(Open, now);
        return;
      }
      failures := failures + 1;
      if failures >= cfg.failureThreshold {
        Transition(Open, now);
      }
    }
  }
}
