/** The fixed-window limiter, and the sliding-window bound it gives. */
module RateLimitSpec {
  import opened Prelude

  datatype Bucket = Bucket(count: nat, resetAt: int)

  /** One caller's events: a check, or a sweep of all buckets. */
  datatype Event = Check(at: int) | Sweep(at: int)

  datatype Verdict = Verdict(allowed: bool, remaining: nat, resetMs: int)

  function Opened(b: Option<Bucket>, windowMs: int, now: int): Bucket {
    if b.None? || now >= b.value.resetAt then Bucket(0, now + windowMs) else b.value
  }

  function Checked(b: Option<Bucket>, windowMs: int, now: int): Bucket {
    var o := Opened(b, windowMs, now);
    o.(count := o.count + 1)
  }

  function VerdictOf(b: Bucket, max: int, now: int): Verdict {
    Verdict(b.count <= max, if max - b.count < 0 then 0 else max - b.count, b.resetAt - now)
  }

  function Swept(b: Option<Bucket>, now: int): Option<Bucket> {
    if b.Some? && now >= b.value.resetAt then None else b
  }

  function After(windowMs: int, events: seq<Event>): Option<Bucket> {
    if events == [] then None
    else
      var b := After(windowMs, events[..|events| - 1]);
      match events[|events| - 1]
      case Check(now) => Some(Checked(b, windowMs, now))
      case Sweep(now) => Swept(b, now)
  }

  /** The verdict of the i-th event, a check. */
  function VerdictAt(windowMs: int, max: int, events: seq<Event>, i: nat): Verdict
    requires i < |events| && events[i].Check?
  {
    VerdictOf(Checked(After(windowMs, events[..i]), windowMs, events[i].at), max, events[i].at)
  }

  predicate Monotone(events: seq<Event>) {
    forall i, j :: 0 <= i < j < |events| ==> events[i].at <= events[j].at
  }

  // ---------------------------------------------------------------- sweeps change nothing

  /** The checks alone. */
  function Checks(events: seq<Event>): seq<Event> {
    if events == [] then []
    else
      var e := events[|events| - 1];
      Checks(events[..|events| - 1]) + if e.Check? then [e] else []
  }

  /** A swept bucket is one that the next check would replace anyway. */
  predicate Agree(b: Option<Bucket>, unswept: Option<Bucket>, now: int) {
    b == unswept || (b.None? && unswept.Some? && now >= unswept.value.resetAt)
  }

  lemma {:induction false} SweptAgrees(windowMs: int, events: seq<Event>, now: int)
    requires Monotone(events) && (events != [] ==> events[|events| - 1].at <= now)
    ensures Agree(After(windowMs, events), After(windowMs, Checks(events)), now)
  {
    if events != [] {
      var n := |events| - 1;
      SweptAgrees(windowMs, events[..n], events[n].at);
      if events[n].Check? {
        var alone := Checks(events[..n]) + [events[n]];
        assert Checks(events) == alone && alone[..|alone| - 1] == Checks(events[..n]);
      } else {
        assert Checks(events) == Checks(events[..n]);
      }
    }
  }

  /** Inserting sweeps anywhere changes no verdict: each check is answered as if no sweep
      had ever run. */
  lemma SweepsChangeNothing(windowMs: int, max: int, events: seq<Event>, i: nat)
    requires Monotone(events) && i < |events| && events[i].Check?
    ensures var alone := Checks(events[..i]) + [events[i]];
            VerdictAt(windowMs, max, events, i) == VerdictAt(windowMs, max, alone, |alone| - 1)
  {
    var alone := Checks(events[..i]) + [events[i]];
    assert alone[..|alone| - 1] == Checks(events[..i]);
    SweptAgrees(windowMs, events[..i], events[i].at);
  }

  // ---------------------------------------------------------------- the sliding bound

  /** Allowed checks at or after `from` and before `from + windowMs`. */
  function AllowedIn(windowMs: int, max: int, events: seq<Event>, from: int): nat {
    if events == [] then 0
    else
      var n := |events| - 1;
      AllowedIn(windowMs, max, events[..n], from)
      + if events[n].Check? && from <= events[n].at < from + windowMs
        && VerdictAt(windowMs, max, events, n).allowed then 1 else 0
  }

  function Least(a: int, b: int): int {
    if a < b then a else b
  }

  /** What the allowed checks in the interval can be, by when the current bucket was
      opened: the check that opened an earlier bucket is not in the interval. */
  predicate Within(b: Bucket, windowMs: int, max: int, from: int, allowed: nat) {
    var openedAt, used := b.resetAt - windowMs, Least(b.count, max);
    && b.count >= 1
    && (allowed > 0 ==> from < b.resetAt)
    && (openedAt < from ==> allowed <= used - 1)
    && (openedAt == from ==> allowed <= used)
    && (from < openedAt < from + windowMs ==> allowed <= max - 1 + used)
    && (from + windowMs <= openedAt ==> allowed <= 2 * max - 1)
  }

  lemma WithinNext(b: Option<Bucket>, windowMs: int, max: int, from: int, allowed: nat, now: int)
    requires windowMs > 0 && max >= 1
    requires b.None? ==> allowed == 0
    requires b.Some? ==> Within(b.value, windowMs, max, from, allowed) && b.value.resetAt - windowMs <= now
    ensures var next := Checked(b, windowMs, now);
            && Within(next, windowMs, max, from, allowed + if from <= now < from + windowMs
              && next.count <= max then 1 else 0)
            && next.resetAt - windowMs <= now
  {
  }

  lemma CheckedLast(windowMs: int, max: int, events: seq<Event>)
    requires Monotone(events) && events != [] && events[|events| - 1].Check?
    ensures var n := |events| - 1;
            var next := Checked(After(windowMs, Checks(events[..n])), windowMs, events[n].at);
            && After(windowMs, Checks(events)) == Some(next)
            && VerdictAt(windowMs, max, events, n) == VerdictOf(next, max, events[n].at)
  {
    var n := |events| - 1;
    SweepsChangeNothing(windowMs, max, events, n);
    var alone := Checks(events[..n]) + [events[n]];
    assert Checks(events) == alone && alone[..|alone| - 1] == Checks(events[..n]);
  }

  lemma {:induction false} AllowedWithin(windowMs: int, max: int, events: seq<Event>, from: int)
    requires Monotone(events) && windowMs > 0 && max >= 1
    ensures var b := After(windowMs, Checks(events));
            var allowed := AllowedIn(windowMs, max, events, from);
            && (b.None? ==> allowed == 0)
            && (b.Some? ==> Within(b.value, windowMs, max, from, allowed)
                            && events != [] && b.value.resetAt - windowMs <= events[|events| - 1].at)
  {
    if events != [] {
      var n := |events| - 1;
      AllowedWithin(windowMs, max, events[..n], from);
      assert n > 0 ==> events[n - 1].at <= events[n].at;
      if events[n].Check? {
        CheckedLast(windowMs, max, events);
        WithinNext(After(windowMs, Checks(events[..n])), windowMs, max, from,
          AllowedIn(windowMs, max, events[..n], from), events[n].at);
      } else {
        assert Checks(events) == Checks(events[..n]);
      }
    }
  }

  /** Any half-open interval as long as the window holds at most 2 * max - 1 allowed
      checks of one caller. */
  lemma SlidingBound(windowMs: int, max: int, events: seq<Event>, from: int)
    requires Monotone(events)
    ensures AllowedIn(windowMs, max, events, from) <= if max < 1 then 0 else 2 * max - 1
  {
    if windowMs <= 0 || max < 1 {
      NoneAllowed(windowMs, max, events, from);
    } else {
      AllowedWithin(windowMs, max, events, from);
    }
  }

  lemma {:induction false} NoneAllowed(windowMs: int, max: int, events: seq<Event>, from: int)
    requires windowMs <= 0 || max < 1
    ensures AllowedIn(windowMs, max, events, from) == 0
  {
    if events != [] {
      NoneAllowed(windowMs, max, events[..|events| - 1], from);
    }
  }

  // ---------------------------------------------------------------- the bound is reached

  function Again(events: seq<Event>, n: nat, now: int): seq<Event> {
    if n == 0 then events else Again(events, n - 1, now) + [Check(now)]
  }

  predicate EndsBy(events: seq<Event>, now: int) {
    Monotone(events) && forall i :: 0 <= i < |events| ==> events[i].at <= now
  }

  lemma {:induction false} AgainEndsBy(events: seq<Event>, n: nat, now: int)
    requires EndsBy(events, now)
    ensures EndsBy(Again(events, n, now), now)
  {
    if n > 0 {
      AgainEndsBy(events, n - 1, now);
    }
  }

  lemma AgainCounts(windowMs: int, max: int, events: seq<Event>, n: nat, now: int, from: int)
    requires After(windowMs, events).Some? && now < After(windowMs, events).value.resetAt
    requires After(windowMs, events).value.count + n <= max && from <= now < from + windowMs
    ensures var b := After(windowMs, events).value;
            && After(windowMs, Again(events, n, now)) == Some(Bucket(b.count + n, b.resetAt))
            && AllowedIn(windowMs, max, Again(events, n, now), from) == AllowedIn(windowMs, max, events, from) + n
  {
    AgainCountsTo(windowMs, max, events, n, Again(events, n, now), now, from);
  }

  lemma {:induction false} AgainCountsTo(windowMs: int, max: int, events: seq<Event>, n: nat, more: seq<Event>,
                                         now: int, from: int)
    requires After(windowMs, events).Some? && now < After(windowMs, events).value.resetAt
             && more == Again(events, n, now)
    requires After(windowMs, events).value.count + n <= max && from <= now < from + windowMs
    ensures var b := After(windowMs, events).value;
            && After(windowMs, more) == Some(Bucket(b.count + n, b.resetAt))
            && AllowedIn(windowMs, max, more, from) == AllowedIn(windowMs, max, events, from) + n
    decreases n
  {
    if n > 0 {
      var before := Again(events, n - 1, now);
      AgainCountsTo(windowMs, max, events, n - 1, before, now, from);
      AgainOnce(windowMs, max, before, more, now, from);
    }
  }

  lemma AgainOnce(windowMs: int, max: int, before: seq<Event>, more: seq<Event>, now: int, from: int)
    requires After(windowMs, before).Some? && now < After(windowMs, before).value.resetAt
             && more == before + [Check(now)]
    requires After(windowMs, before).value.count < max && from <= now < from + windowMs
    ensures var b := After(windowMs, before).value;
            && After(windowMs, more) == Some(Bucket(b.count + 1, b.resetAt))
            && AllowedIn(windowMs, max, more, from) == AllowedIn(windowMs, max, before, from) + 1
  {
    CheckNext(windowMs, max, before, now, from);
  }

  lemma CheckNext(windowMs: int, max: int, events: seq<Event>, now: int, from: int)
    ensures var more := events + [Check(now)];
            && After(windowMs, more) == Some(Checked(After(windowMs, events), windowMs, now))
            && AllowedIn(windowMs, max, more, from)
               == AllowedIn(windowMs, max, events, from)
                  + if from <= now < from + windowMs
                    && Checked(After(windowMs, events), windowMs, now).count <= max then 1 else 0
  {
    assert (events + [Check(now)])[..|events|] == events;
  }

  /** Open a window, use up what is left of it just before it ends, and the whole of the
      next one as soon as it does. */
  function Burst(windowMs: int, max: int): seq<Event>
    requires max >= 1
  {
    Again(Again([Check(0)], max - 1, windowMs - 1) + [Check(windowMs)], max - 1, windowMs)
  }

  lemma EndsBySnoc(events: seq<Event>, now: int, later: int)
    requires EndsBy(events, now) && now <= later
    ensures EndsBy(events + [Check(later)], later)
  {
  }

  lemma BurstIsMonotone(windowMs: int, max: int)
    requires windowMs >= 2 && max >= 1
    ensures Monotone(Burst(windowMs, max))
  {
    assert EndsBy([Check(0)], windowMs - 1);
    AgainEndsBy([Check(0)], max - 1, windowMs - 1);
    EndsBySnoc(Again([Check(0)], max - 1, windowMs - 1), windowMs - 1, windowMs);
    AgainEndsBy(Again([Check(0)], max - 1, windowMs - 1) + [Check(windowMs)], max - 1, windowMs);
  }

  lemma OpenWindow(windowMs: int, max: int)
    requires windowMs >= 2
    ensures After(windowMs, [Check(0)]) == Some(Bucket(1, windowMs))
    ensures AllowedIn(windowMs, max, [Check(0)], windowMs - 1) == 0
  {
    assert [] + [Check(0)] == [Check(0)];
    CheckNext(windowMs, max, [], 0, windowMs - 1);
  }

  /** What is left of the first window, just before it ends. */
  lemma FirstWindow(windowMs: int, max: int, first: seq<Event>)
    requires windowMs >= 2 && max >= 1
    requires After(windowMs, first) == Some(Bucket(1, windowMs)) && AllowedIn(windowMs, max, first, windowMs - 1) == 0
    ensures var late := Again(first, max - 1, windowMs - 1);
            && After(windowMs, late) == Some(Bucket(max, windowMs))
            && AllowedIn(windowMs, max, late, windowMs - 1) == max - 1
  {
    AgainCounts(windowMs, max, first, max - 1, windowMs - 1, windowMs - 1);
  }

  /** A whole window of checks, just after an earlier one ended. */
  lemma NextWindow(windowMs: int, max: int, late: seq<Event>, from: int)
    requires windowMs >= 2 && max >= 1 && from == windowMs - 1
    requires After(windowMs, late) == Some(Bucket(max, windowMs))
    ensures AllowedIn(windowMs, max, Again(late + [Check(windowMs)], max - 1, windowMs), from)
         == AllowedIn(windowMs, max, late, from) + max
  {
    CheckNext(windowMs, max, late, windowMs, from);
    AgainCounts(windowMs, max, late + [Check(windowMs)], max - 1, windowMs, from);
  }

  /** And no smaller bound holds. */
  lemma SlidingBoundIsReached(windowMs: int, max: int)
    requires windowMs >= 2 && max >= 1
    ensures Monotone(Burst(windowMs, max))
            && AllowedIn(windowMs, max, Burst(windowMs, max), windowMs - 1) == 2 * max - 1
  {
    OpenWindow(windowMs, max);
    FirstWindow(windowMs, max, [Check(0)]);
    NextWindow(windowMs, max, Again([Check(0)], max - 1, windowMs - 1), windowMs - 1);
    BurstIsMonotone(windowMs, max);
  }

  // ---------------------------------------------------------------- what a verdict foretells

  function ChecksIn(events: seq<Event>, i: nat, j: nat): nat
    requires i <= j <= |events|
    decreases j
  {
    if i == j then 0 else ChecksIn(events, i, j - 1) + if events[j - 1].Check? then 1 else 0
  }

  /** Every event after the i-th, up to the j-th, comes before the window told at i is over. */
  predicate WithinWindow(windowMs: int, max: int, events: seq<Event>, i: nat, j: nat) {
    && i < j <= |events| && events[i].Check?
    && forall k :: i < k < j ==> events[k].at < events[i].at + VerdictAt(windowMs, max, events, i).resetMs
  }

  lemma AfterEvent(windowMs: int, events: seq<Event>, i: nat)
    requires i < |events|
    ensures After(windowMs, events[..i + 1])
         == match events[i]
            case Check(now) => Some(Checked(After(windowMs, events[..i]), windowMs, now))
            case Sweep(now) => Swept(After(windowMs, events[..i]), now)
  {
    assert events[..i + 1][..i] == events[..i];
  }

  lemma {:induction false} WindowCounts(windowMs: int, max: int, events: seq<Event>, i: nat, j: nat)
    requires WithinWindow(windowMs, max, events, i, j)
    ensures var b := Checked(After(windowMs, events[..i]), windowMs, events[i].at);
            After(windowMs, events[..j]) == Some(Bucket(b.count + ChecksIn(events, i + 1, j), b.resetAt))
    decreases j
  {
    AfterEvent(windowMs, events, j - 1);
    if j > i + 1 {
      WindowCounts(windowMs, max, events, i, j - 1);
    }
  }

  /** A verdict's `remaining` is exactly how many more checks its window allows, and its
      `resetMs` exactly how long that window still is. */
  lemma VerdictForetells(windowMs: int, max: int, events: seq<Event>, i: nat, j: nat)
    requires j < |events| && events[j].Check? && WithinWindow(windowMs, max, events, i, j + 1) && i < j
    ensures var told, now := VerdictAt(windowMs, max, events, i), VerdictAt(windowMs, max, events, j);
            && (now.allowed <==> ChecksIn(events, i + 1, j + 1) <= told.remaining)
            && events[j].at + now.resetMs == events[i].at + told.resetMs
  {
    WindowCounts(windowMs, max, events, i, j);
  }

  /** The next check once that window is over opens a new one with max checks in it. */
  lemma NextWindowOpens(windowMs: int, max: int, events: seq<Event>, i: nat, j: nat)
    requires WithinWindow(windowMs, max, events, i, j) && j < |events| && events[j].Check?
    requires events[j].at >= events[i].at + VerdictAt(windowMs, max, events, i).resetMs
    ensures var now := VerdictAt(windowMs, max, events, j);
            && (now.allowed <==> max >= 1) && now.resetMs == windowMs
            && now.remaining == if max >= 1 then max - 1 else 0
  {
    WindowCounts(windowMs, max, events, i, j);
  }

  /** So does a caller's first. */
  lemma FirstCheckOpens(windowMs: int, max: int, events: seq<Event>, i: nat)
    requires i < |events| && events[i].Check? && forall k :: 0 <= k < i ==> events[k].Sweep?
    ensures var now := VerdictAt(windowMs, max, events, i);
            && (now.allowed <==> max >= 1) && now.resetMs == windowMs
            && now.remaining == if max >= 1 then max - 1 else 0
  {
    NoBucket(windowMs, events, i);
  }

  lemma {:induction false} NoBucket(windowMs: int, events: seq<Event>, i: nat)
    requires i <= |events| && forall k :: 0 <= k < i ==> events[k].Sweep?
    ensures After(windowMs, events[..i]).None?
  {
    if i > 0 {
      AfterEvent(windowMs, events, i - 1);
      NoBucket(windowMs, events, i - 1);
    }
  }
}

module RateLimiter {
  import opened Prelude
  import opened RateLimitSpec

  class FixedWindowRateLimiter {
    const max: int
    const windowMs: int
    var hits: map<string, Bucket>

    ghost function BucketOf(key: string): Option<Bucket>
      reads this
    {
      if key in hits then Some(hits[key]) else None
    }

    constructor (max: int, windowMs: int)
      ensures this.max == max && this.windowMs == windowMs && forall key :: BucketOf(key) == None
    {
      this.max := max;
      this.windowMs := windowMs;
      hits := map[];
    }

    method Check(key: string, now: int) returns (v: Verdict)
      modifies this
      ensures BucketOf(key) == Some(Checked(old(BucketOf(key)), windowMs, now))
      ensures v == VerdictOf(BucketOf(key).value, max, now)
      ensures forall other :: other != key ==> BucketOf(other) == old(BucketOf(other))
    {
      if key !in hits || now >= hits[key].resetAt {
        hits := hits[key := Bucket(0, now + windowMs)];
      }
      var bucket := hits[key].(count := hits[key].count + 1);
      hits := hits[key := bucket];
      var remaining := if max - bucket.count < 0 then 0 else max - bucket.count;
      v := Verdict(bucket.count <= max, remaining, bucket.resetAt - now);
    }

    method Sweep(now: int)
      modifies this
      ensures forall key :: BucketOf(key) == Swept(old(BucketOf(key)), now)
    {
      var rest := hits.Keys;
      while rest != {}
        invariant rest <= old(hits).Keys
        invariant forall key :: key in rest ==> BucketOf(key) == old(BucketOf(key))
        invariant forall key :: key !in rest ==> BucketOf(key) == Swept(old(BucketOf(key)), now)
        decreases rest
      {
        var k :| k in rest;
        rest := rest - {k};
        if now >= hits[k].resetAt {
          hits := hits - {k};
        }
      }
    }
  }
}
