// The sliding-window limiter of rejoins and migrations.
module RateLimiter {
  import opened Wrappers

  // The queue holds the times of the accepted calls that were not yet evicted,
  // oldest first, in milliseconds.
  datatype Limiter = Limiter(max: nat, windowMs: nat, events: seq<nat>)

  const REJOIN_RATE_LIMIT: nat := 10
  const REJOIN_RATE_WINDOW: nat := 120_000

  const REJOIN_DEFAULT := Limiter(REJOIN_RATE_LIMIT, REJOIN_RATE_WINDOW, [])

  // `now.saturating_sub(then)`
  function Age(now: nat, then_: nat): nat {
    Max(now - then_, 0)
  }

  function Evicted(events: seq<nat>, now: nat, windowMs: nat): seq<nat> {
    if events != [] && Age(now, events[0]) >= windowMs then Evicted(events[1..], now, windowMs) else events
  }

  predicate Allows(l: Limiter, now: nat) {
    |Evicted(l.events, now, l.windowMs)| < l.max
  }

  function Registered(l: Limiter, now: nat): Limiter {
    var kept := Evicted(l.events, now, l.windowMs);
    l.(events := if |kept| < l.max then kept + [now] else kept)
  }

  class SlidingWindowRateLimiter {
    const max: nat
    const windowMs: nat
    var events: seq<nat>

    function View(): Limiter
      reads this
    {
      Limiter(max, windowMs, events)
    }

    constructor (max: nat, windowMs: nat)
      ensures View() == Limiter(Max(max, 1), windowMs, [])
    {
      this.max := Max(max, 1);
      this.windowMs := windowMs;
      events := [];
    }

    method TryRegister(now: nat) returns (allowed: bool)
      modifies this
      ensures View() == Registered(old(View()), now)
      ensures allowed <==> Allows(old(View()), now)
    {
      while events != [] && Age(now, events[0]) >= windowMs
        invariant Evicted(events, now, windowMs) == Evicted(old(events), now, windowMs)
        decreases |events|
      {
        events := events[1..];
      }
      if |events| >= max {
        return false;
      }
      events := events + [now];
      allowed := true;
    }
  }

  // ---- The limiter that forgets nothing -----------------------------------

  // Acceptances in `past` that are younger than the window at `now`.
  function Young(past: seq<nat>, now: nat, windowMs: nat): nat {
    if past == [] then 0
    else Young(past[1..], now, windowMs) + if Age(now, past[0]) < windowMs then 1 else 0
  }

  // The acceptances of the naive limiter for calls at `times`.
  function NaiveRun(past: seq<nat>, times: seq<nat>, max: nat, windowMs: nat): seq<nat>
    decreases |times|
  {
    if times == [] then past
    else if Young(past, times[0], windowMs) < max then NaiveRun(past + [times[0]], times[1..], max, windowMs)
    else NaiveRun(past, times[1..], max, windowMs)
  }

  // The acceptances of the limiter for calls at `times`, after those in `past`.
  function LimiterRun(l: Limiter, past: seq<nat>, times: seq<nat>): seq<nat>
    decreases |times|
  {
    if times == [] then past
    else if Allows(l, times[0]) then LimiterRun(Registered(l, times[0]), past + [times[0]], times[1..])
    else LimiterRun(Registered(l, times[0]), past, times[1..])
  }

  ghost predicate NonDecreasing(times: seq<nat>) {
    forall i, j :: 0 <= i < j < |times| ==> times[i] <= times[j]
  }

  // The queue is what `past` holds from `k` on, and what it dropped is old.
  ghost predicate Holds(events: seq<nat>, past: seq<nat>, k: nat, now: nat, windowMs: nat) {
    && k <= |past| && events == past[k..]
    && NonDecreasing(past)
    && (forall i :: 0 <= i < |past| ==> past[i] <= now)
    && forall i :: 0 <= i < k ==> now - past[i] >= windowMs
  }

  lemma {:induction false} YoungAll(past: seq<nat>, now: nat, windowMs: nat)
    requires forall i :: 0 <= i < |past| ==> Age(now, past[i]) < windowMs
    ensures Young(past, now, windowMs) == |past|
  {
    if past != [] {
      YoungAll(past[1..], now, windowMs);
    }
  }

  lemma {:induction false} YoungFrom(past: seq<nat>, k: nat, now: nat, windowMs: nat)
    requires k <= |past|
    requires forall i :: 0 <= i < k ==> Age(now, past[i]) >= windowMs
    requires forall i :: k <= i < |past| ==> Age(now, past[i]) < windowMs
    ensures Young(past, now, windowMs) == |past| - k
  {
    if k == 0 {
      YoungAll(past, now, windowMs);
    } else {
      YoungFrom(past[1..], k - 1, now, windowMs);
    }
  }

  // Eviction under a clock that did not go back keeps exactly the young ones.
  lemma {:induction false} EvictionCounts(events: seq<nat>, past: seq<nat>, k: nat, now: nat, windowMs: nat)
    returns (kept: nat)
    requires Holds(events, past, k, now, windowMs)
    ensures k <= kept <= |past| && Evicted(events, now, windowMs) == past[kept..]
    ensures Holds(Evicted(events, now, windowMs), past, kept, now, windowMs)
    ensures Young(past, now, windowMs) == |Evicted(events, now, windowMs)|
    decreases |events|
  {
    if events != [] && Age(now, events[0]) >= windowMs {
      assert events[1..] == past[k + 1..];
      kept := EvictionCounts(events[1..], past, k + 1, now, windowMs);
    } else {
      kept := k;
      if events != [] {
        assert events[0] == past[k];
      }
      YoungFrom(past, k, now, windowMs);
    }
  }

  lemma HoldsLater(events: seq<nat>, past: seq<nat>, k: nat, now: nat, later: nat, windowMs: nat)
    requires Holds(events, past, k, now, windowMs) && now <= later
    ensures Holds(events, past, k, later, windowMs)
  {
  }

  lemma {:induction false} RunsAgree(l: Limiter, past: seq<nat>, k: nat, now: nat, times: seq<nat>)
    requires Holds(l.events, past, k, now, l.windowMs)
    requires NonDecreasing(times) && (times != [] ==> now <= times[0])
    ensures LimiterRun(l, past, times) == NaiveRun(past, times, l.max, l.windowMs)
    decreases |times|
  {
    if times != [] {
      var t := times[0];
      HoldsLater(l.events, past, k, now, t, l.windowMs);
      var kept := EvictionCounts(l.events, past, k, t, l.windowMs);
      if Allows(l, t) {
        assert (past + [t])[kept..] == past[kept..] + [t];
        RunsAgree(Registered(l, t), past + [t], kept, t, times[1..]);
      } else {
        RunsAgree(Registered(l, t), past, kept, t, times[1..]);
      }
    }
  }

  // Under a clock that does not go back, the evicting queue accepts exactly the
  // calls that the naive limiter accepts.
  lemma LimiterRefinesNaive(max: nat, windowMs: nat, times: seq<nat>)
    requires NonDecreasing(times)
    ensures LimiterRun(Limiter(max, windowMs, []), [], times) == NaiveRun([], times, max, windowMs)
  {
    RunsAgree(Limiter(max, windowMs, []), [], 0, 0, times);
  }

  // Any `max` + 1 acceptances in a row span a whole window.
  ghost predicate Spread(past: seq<nat>, max: nat, windowMs: nat) {
    forall i :: 0 <= i && i + max < |past| ==> past[i + max] - past[i] >= windowMs
  }

  lemma {:induction false} YoungIsSuffix(past: seq<nat>, now: nat, windowMs: nat, m: nat)
    requires NonDecreasing(past) && m <= |past|
    requires m > 0 ==> Age(now, past[|past| - m]) < windowMs
    ensures Young(past, now, windowMs) >= m
    decreases |past|
  {
    if m == |past| {
      if m > 0 {
        YoungAll(past, now, windowMs);
      }
    } else {
      YoungIsSuffix(past[1..], now, windowMs, m);
    }
  }

  lemma OneMoreSpreads(past: seq<nat>, t: nat, max: nat, windowMs: nat)
    requires NonDecreasing(past) && Spread(past, max, windowMs) && (past != [] ==> past[|past| - 1] <= t)
    requires max > 0 && (max <= |past| ==> t - past[|past| - max] >= windowMs)
    ensures NonDecreasing(past + [t]) && Spread(past + [t], max, windowMs)
  {
  }

  lemma {:induction false} NaiveRunSpreads(past: seq<nat>, times: seq<nat>, max: nat, windowMs: nat)
    requires NonDecreasing(past) && NonDecreasing(times)
    requires past != [] && times != [] ==> past[|past| - 1] <= times[0]
    requires Spread(past, max, windowMs)
    ensures Spread(NaiveRun(past, times, max, windowMs), max, windowMs)
    ensures NonDecreasing(NaiveRun(past, times, max, windowMs))
    decreases |times|
  {
    if times != [] {
      var t := times[0];
      if Young(past, t, windowMs) < max {
        if max <= |past| && max > 0 && t - past[|past| - max] < windowMs {
          YoungIsSuffix(past, t, windowMs, max);
        }
        OneMoreSpreads(past, t, max, windowMs);
        hide Spread, NonDecreasing, Young;
        NaiveRunSpreads(past + [t], times[1..], max, windowMs);
      } else {
        NaiveRunSpreads(past, times[1..], max, windowMs);
      }
    }
  }

  // No window over any run holds more than `max` acceptances.
  lemma NoWindowOverflows(max: nat, windowMs: nat, times: seq<nat>)
    requires NonDecreasing(times)
    ensures Spread(LimiterRun(Limiter(max, windowMs, []), [], times), max, windowMs)
  {
    LimiterRefinesNaive(max, windowMs, times);
    NaiveRunSpreads([], times, max, windowMs);
  }

  ghost predicate YoungFromIndex(l: Limiter, now: nat, k: nat) {
    forall i :: 0 <= i < |l.events| ==> (now - l.events[i] < l.windowMs <==> k <= i)
  }

  // A call is refused exactly if the call accepted `max` acceptances ago is younger than
  // the window, and an acceptance is remembered with all that are younger than it.
  lemma RefusedIff(l: Limiter, now: nat)
    requires l.max > 0 && NonDecreasing(l.events) && forall i :: 0 <= i < |l.events| ==> l.events[i] <= now
    ensures Allows(l, now) <==> |l.events| < l.max || now - l.events[|l.events| - l.max] >= l.windowMs
    ensures exists k ::
      && 0 <= k <= |l.events| && YoungFromIndex(l, now, k)
      && Registered(l, now) == l.(events := l.events[k..] + if Allows(l, now) then [now] else [])
  {
    var k := EvictionCounts(l.events, l.events, 0, now, l.windowMs);
    FirstKeptIsYoung(l.events, now, l.windowMs);
    assert Evicted(l.events, now, l.windowMs) == l.events[k..];
    assert YoungFromIndex(l, now, k);
    hide Evicted;
  }

  lemma {:induction false} FirstKeptIsYoung(events: seq<nat>, now: nat, windowMs: nat)
    ensures var kept := Evicted(events, now, windowMs); kept != [] ==> Age(now, kept[0]) < windowMs
  {
    if events != [] && Age(now, events[0]) >= windowMs {
      FirstKeptIsYoung(events[1..], now, windowMs);
    }
  }
}
