// What every reconnect run guarantees, whatever its surroundings do.
module ReconnectTheorems {
  import opened Wrappers
  import opened Lifecycle
  import opened RateLimiter
  import opened ReconnectPolicy
  import opened ReconnectRun

  ghost predicate IsStart(r: Run) {
    && r.attempts == [] && r.attempt == 0 && r.elapsed == 0 && r.strategy != Disconnect
    && (r.wasMigrating <==> r.strategy == Migrate)
    && (r.current ==> r.state == StateFor(r.strategy == Migrate))
  }

  lemma BegunIsStart(start: nat, timeout: nat, strategy: Strategy, iceUnsupported: bool, current: bool,
                     state: CallingState, limiter: Limiter, limits: Limits)
    requires strategy != Disconnect
    ensures IsStart(Begun(start, timeout, strategy, iceUnsupported, current, state, limiter, limits))
  {
  }

  lemma AdmitKeeps(r: Run, t: Turn)
    requires r.outcome == Running
    ensures Admit(r, t).Ok? ==>
              && r.current && !DisconnectionTimedOut(r.elapsed, r.timeout)
              && Admit(r, t).value == r.(limiter := Admit(r, t).value.limiter)
              && (IsRateLimited(r.strategy) ==>
                    && Allows(r.limiter, r.start + r.elapsed)
                    && Admit(r, t).value.limiter == Registered(r.limiter, r.start + r.elapsed))
              && (!IsRateLimited(r.strategy) ==> Admit(r, t).value == r)
    ensures Admit(r, t).Err? ==>
              && Admit(r, t).error.outcome != Running && Admit(r, t).error.attempts == r.attempts
              && (Admit(r, t).error.start, Admit(r, t).error.timeout) == (r.start, r.timeout)
  {
  }

  lemma BackOffKeeps(r: Run, t: Turn, error: AttemptError)
    requires r.outcome == Running
    ensures var next := BackOff(r, t, error);
            && next.attempts == r.attempts && next.limiter == r.limiter && next.limits == r.limits
            && (next.start, next.timeout) == (r.start, r.timeout)
            && (next.outcome == Running ==> next.elapsed == r.elapsed + t.busy + RetryInterval(r.attempt, t.nanos))
  {
    hide RetryInterval, NextStrategy, Passes;
  }

  lemma AfterAttemptKeeps(r: Run, t: Turn)
    requires r.outcome == Running
    ensures var next := AfterAttempt(r, t);
            && next.attempts == r.attempts && next.limiter == r.limiter
            && (next.start, next.timeout) == (r.start, r.timeout)
            && (next.outcome == Running ==>
                  && t.result.Some?
                  && next == BackOff(r.(limits := next.limits), t, t.result.value)
                  && next.limits == (if t.result.value == Negotiation
                                     then r.limits.(negotiation := r.limits.negotiation + 1) else r.limits)
                  && next.elapsed == r.elapsed + t.busy + RetryInterval(r.attempt, t.nanos)
                  && (t.result.value == Negotiation ==> next.limits.negotiation < MAX_NEGOTIATION_FAILURES))
  {
    if t.result.Some? {
      BackOffKeeps(r, t, t.result.value);
      BackOffKeeps(r.(limits := r.limits.(negotiation := r.limits.negotiation + 1)), t, t.result.value);
    }
    hide RetryInterval, NextStrategy, BackOff, Passes;
  }

  // ---- Strategies ------------------------------------------------------------

  // Migrate only first, Rejoin after it and from the fifth attempt on, and the
  // state is `Migrating` exactly while the strategy is Migrate.
  ghost predicate StrategiesSafe(attempts: seq<Attempt>) {
    forall i :: 0 <= i < |attempts| ==>
      && attempts[i].strategy != Disconnect
      && (attempts[i].strategy == Migrate ==> i == 0)
      && (i > 0 && attempts[i - 1].strategy == Migrate ==> attempts[i].strategy == Rejoin)
      && (i >= 4 ==> attempts[i].strategy == Rejoin)
      && attempts[i].state == StateFor(attempts[i].strategy == Migrate)
  }

  // The same for the attempt to come.
  ghost predicate NextStrategySafe(r: Run) {
    var n := |r.attempts|;
    && r.strategy != Disconnect
    && (r.wasMigrating <==> r.strategy == Migrate)
    && r.attempt == Min(n, TWO_TO_32 - 1)
    && (n > 0 ==> r.strategy != Migrate)
    && (n > 0 && r.attempts[n - 1].strategy == Migrate ==> r.strategy == Rejoin)
    && (n >= 4 ==> r.strategy == Rejoin)
    && (r.current ==> r.state == StateFor(r.strategy == Migrate))
  }

  ghost predicate StrategyInv(r: Run) {
    StrategiesSafe(r.attempts) && (r.outcome == Running ==> NextStrategySafe(r))
  }

  lemma BackOffKeepsStrategy(r: Run, t: Turn, error: AttemptError)
    requires r.outcome == Running && r.attempts != []
    requires var last := r.attempts[|r.attempts| - 1];
             && r.strategy == last.strategy != Disconnect && (r.wasMigrating <==> r.strategy == Migrate)
             && r.attempt == Min(|r.attempts| - 1, TWO_TO_32 - 1)
    ensures BackOff(r, t, error).attempts == r.attempts
    ensures BackOff(r, t, error).outcome == Running ==> NextStrategySafe(BackOff(r, t, error))
  {
  }

  lemma TurnKeepsStrategy(r: Run, t: Turn)
    requires StrategyInv(r)
    ensures StrategyInv(Turned(r, t))
  {
    if r.outcome == Running {
      AdmitKeeps(r, t);
      if Admit(r, t).Ok? {
        var a := Attempted(Admit(r, t).value, t);
        AfterAttemptKeeps(a, t);
        if AfterAttempt(a, t).outcome == Running {
          BackOffKeepsStrategy(a.(limits := AfterAttempt(a, t).limits), t, t.result.value);
        }
      }
      hide Admit, AfterAttempt, BackOff, Allows, Registered, DisconnectionTimedOut;
    }
  }

  lemma {:induction false} RunKeepsStrategy(r: Run, turns: seq<Turn>)
    requires StrategyInv(r)
    ensures StrategyInv(RunTurns(r, turns))
    decreases |turns|
  {
    if turns != [] {
      TurnKeepsStrategy(r, turns[0]);
      RunKeepsStrategy(Turned(r, turns[0]), turns[1..]);
    }
  }

  lemma AttemptStrategies(r: Run, turns: seq<Turn>)
    requires IsStart(r)
    ensures StrategiesSafe(RunTurns(r, turns).attempts)
    ensures var end := RunTurns(r, turns);
            end.outcome == Running && end.current ==> (end.state == Migrating <==> end.strategy == Migrate)
  {
    RunKeepsStrategy(r, turns);
  }

  // The comment on the escalation says that a run stays with Rejoin once it fell
  // back to it. It does exactly unless the attempt is one of the first three, was
  // not a rejected Fast, and ends before the deadline with both connections healthy.
  lemma RejoinIsLeftIff(r: Run, t: Turn, error: AttemptError)
    requires r.strategy == Rejoin && !r.wasMigrating && BackOff(r, t, error).outcome == Running
    ensures BackOff(r, t, error).strategy != Rejoin <==>
      && r.attempt < 3 && error != FastRejected && t.publisherHealthy && t.subscriberHealthy
      && r.elapsed + t.busy + RetryInterval(r.attempt, t.nanos) <= t.deadline
  {
    RetryIntervalRange(r.attempt, t.nanos);
  }

  // Such a run: the attempt after the first Rejoin is Fast.
  lemma FastAfterRejoin()
    ensures var r := Begun(0, 0, Rejoin, false, true, Joined, REJOIN_DEFAULT, NO_FAILURES);
            var t := Turn(None, 0, 0, Some(OtherError), 1000, true, true);
            var attempts := RunTurns(r, [t, t]).attempts;
            |attempts| == 2 && attempts[0].strategy == Rejoin && attempts[1].strategy == Fast
  {
    var r := Begun(0, 0, Rejoin, false, true, Joined, REJOIN_DEFAULT, NO_FAILURES);
    var t := Turn(None, 0, 0, Some(OtherError), 1000, true, true);
    var next := Turned(r, t);
    RejoinTurnsFast(r, t);
    TwoTurns(r, t, t);
    hide Turned, RunTurns;
    AdmittedMakesAttempt(next, t);
  }

  lemma RejoinTurnsFast(r: Run, t: Turn)
    requires r == Begun(0, 0, Rejoin, false, true, Joined, REJOIN_DEFAULT, NO_FAILURES)
    requires t == Turn(None, 0, 0, Some(OtherError), 1000, true, true)
    ensures var next := Turned(r, t);
      && next.attempts == [Attempt(Rejoin, 0, Reconnecting, Some(OtherError))]
      && next.strategy == Fast && next.outcome == Running && Admit(next, t).Ok?
  {
    var admitted := r.(limiter := Registered(r.limiter, 0));
    assert Admit(r, t) == Ok(admitted) by {
      hide Registered;
    }
    var a := Attempted(admitted, t);
    FirstFailureGoesFast(a, t);
    hide Registered, Allows, BackOff;
    assert a.attempts == [] + [Attempt(Rejoin, 0, Reconnecting, Some(OtherError))];
    assert AfterAttempt(a, t) == BackOff(a, t, OtherError);
    hide Attempted, AfterAttempt;
  }

  lemma FirstFailureGoesFast(a: Run, t: Turn)
    requires a.outcome == Running && a.current && !a.wasMigrating && (a.attempt, a.elapsed, a.timeout) == (0, 0, 0)
    requires t == Turn(None, 0, 0, Some(OtherError), 1000, true, true)
    ensures var next := BackOff(a, t, OtherError);
      next.attempts == a.attempts && next.strategy == Fast && next.outcome == Running && Admit(next, t).Ok?
  {
    assert RetryInterval(0, 0) == 250;
    hide RetryInterval, Registered, Allows;
  }

  lemma TwoTurns(r: Run, t: Turn, u: Turn)
    ensures RunTurns(r, [t, u]) == Turned(Turned(r, t), u)
  {
    hide Turned;
    assert [t, u][1..] == [u] && [u][1..] == [];
    assert RunTurns(Turned(r, t), [u]) == RunTurns(Turned(Turned(r, t), u), []);
  }

  // An admitted turn adds one attempt with the strategy it found, and registers it if
  // that is rate limited.
  lemma AdmittedMakesAttempt(r: Run, t: Turn)
    requires r.outcome == Running && Admit(r, t).Ok?
    ensures var next := Turned(r, t);
      && next.attempts == r.attempts + [Attempt(r.strategy, r.start + r.elapsed, r.state, t.result)]
      && next.start == r.start
      && (if IsRateLimited(r.strategy) then
            Allows(r.limiter, r.start + r.elapsed) && next.limiter == Registered(r.limiter, r.start + r.elapsed)
          else next.limiter == r.limiter)
      && (next.outcome == Running ==> next.elapsed == r.elapsed + t.busy + RetryInterval(r.attempt, t.nanos))
  {
    AdmitKeeps(r, t);
    AfterAttemptKeeps(Attempted(Admit(r, t).value, t), t);
    hide Admit, AfterAttempt, Allows, Registered, RetryInterval, BackOff;
  }

  // ---- How many attempts ---------------------------------------------------------

  // Each turn of a run that goes on made one attempt.
  lemma {:induction false} OneAttemptPerTurn(r: Run, turns: seq<Turn>)
    ensures RunTurns(r, turns).outcome == Running ==>
              r.outcome == Running && |RunTurns(r, turns).attempts| == |r.attempts| + |turns|
    decreases |turns|
  {
    if turns != [] {
      TurnGoesOnAfterAttempt(r, turns[0]);
      OneAttemptPerTurn(Turned(r, turns[0]), turns[1..]);
    }
    hide Turned;
  }

  lemma TurnGoesOnAfterAttempt(r: Run, t: Turn)
    ensures Turned(r, t).outcome == Running ==>
              r.outcome == Running && |Turned(r, t).attempts| == |r.attempts| + 1
  {
    if r.outcome == Running {
      AdmitKeeps(r, t);
      if Admit(r, t).Ok? {
        AdmittedMakesAttempt(r, t);
      }
      hide Admit, AfterAttempt, Registered, Allows, RetryInterval;
    }
  }

  ghost predicate TimesInv(r: Run) {
    && (forall i :: 0 <= i < |r.attempts| ==>
          && r.attempts[i].at >= r.start + 250 * i
          && (r.timeout > 0 ==> r.attempts[i].at <= r.start + r.timeout))
    && (r.outcome == Running ==> r.elapsed >= 250 * |r.attempts|)
  }

  lemma TurnKeepsTimes(r: Run, t: Turn)
    requires TimesInv(r)
    ensures TimesInv(Turned(r, t)) && Turned(r, t).timeout == r.timeout && Turned(r, t).start == r.start
  {
    if r.outcome == Running {
      AdmitKeeps(r, t);
      if Admit(r, t).Ok? {
        AfterAttemptKeeps(Attempted(Admit(r, t).value, t), t);
        RetryIntervalRange(r.attempt, t.nanos);
      }
      hide Admit, AfterAttempt, RetryInterval, RetryMin, RetryMax, Registered, Allows, NextStrategy, BackOff;
    }
  }

  lemma {:induction false} RunKeepsTimes(r: Run, turns: seq<Turn>)
    requires TimesInv(r)
    ensures TimesInv(RunTurns(r, turns)) && RunTurns(r, turns).timeout == r.timeout && RunTurns(r, turns).start == r.start
    decreases |turns|
  {
    if turns != [] {
      TurnKeepsTimes(r, turns[0]);
      RunKeepsTimes(Turned(r, turns[0]), turns[1..]);
    }
  }

  // With a disconnection timeout of D ms a run makes at most D / 250 + 1
  // attempts, however long they take, and has ended after one more turn.
  lemma TimeoutBoundsAttempts(r: Run, turns: seq<Turn>)
    requires IsStart(r) && r.timeout > 0
    ensures |RunTurns(r, turns).attempts| <= r.timeout / 250 + 1
    ensures |turns| > r.timeout / 250 + 1 ==> RunTurns(r, turns).outcome != Running
  {
    RunKeepsTimes(r, turns);
    var attempts := RunTurns(r, turns).attempts;
    if attempts != [] {
      assert attempts[|attempts| - 1].at >= r.start + 250 * (|attempts| - 1);
    }
    OneAttemptPerTurn(r, turns);
  }

  // ---- The limiter and the four free attempts ---------------------------------------

  // An attempt and its backoff of at most 5 s take at most this long.
  const MAX_BUSY: nat := 6_999
  const MAX_TURN: nat := 11_999

  predicate IsDefault(l: Limiter) {
    l.max == REJOIN_RATE_LIMIT && l.windowMs == REJOIN_RATE_WINDOW
  }

  ghost predicate AllShort(turns: seq<Turn>) {
    forall i :: 0 <= i < |turns| ==> turns[i].busy <= MAX_BUSY
  }

  // Eviction keeps a suffix whose oldest entry is young.
  lemma {:induction false} EvictionKeepsSuffix(events: seq<nat>, now: nat, windowMs: nat, m: nat)
    requires m <= |events|
    requires m > 0 ==> Age(now, events[|events| - m]) < windowMs
    ensures |Evicted(events, now, windowMs)| >= m
    ensures Evicted(events, now, windowMs)[|Evicted(events, now, windowMs)| - m..] == events[|events| - m..]
    decreases |events|
  {
    if |events| > m && Age(now, events[0]) >= windowMs {
      EvictionKeepsSuffix(events[1..], now, windowMs, m);
    }
  }

  function Times(attempts: seq<Attempt>): seq<nat> {
    seq(|attempts|, i requires 0 <= i < |attempts| => attempts[i].at)
  }

  // Attempts past the four free ones.
  function Counted(r: Run): seq<nat> {
    if |r.attempts| <= 4 then [] else Times(r.attempts[4..])
  }

  ghost predicate EndsWith(events: seq<nat>, suffix: seq<nat>) {
    |suffix| <= |events| && events[|events| - |suffix|..] == suffix
  }

  ghost predicate LimiterInv(r: Run) {
    && |r.attempts| <= 14
    && (r.outcome == Running ==>
          && IsDefault(r.limiter)
          && EndsWith(r.limiter.events, Counted(r))
          && forall i :: 4 <= i < |r.attempts| ==>
               r.start + r.elapsed - r.attempts[i].at <= MAX_TURN * (|r.attempts| - i))
  }

  // Ten counted attempts saturate the limiter; fewer stay in its queue.
  lemma RegisterKeepsCounted(r: Run)
    requires LimiterInv(r) && r.outcome == Running
    ensures Allows(r.limiter, r.start + r.elapsed) ==> |r.attempts| < 14
    ensures Allows(r.limiter, r.start + r.elapsed) ==>
              EndsWith(Registered(r.limiter, r.start + r.elapsed).events, Counted(r) + [r.start + r.elapsed])
  {
    var now, counted := r.start + r.elapsed, Counted(r);
    var m := |counted|;
    if m > 0 {
      assert r.limiter.events[|r.limiter.events| - m] == counted[0] == r.attempts[4].at;
    }
    EvictionKeepsSuffix(r.limiter.events, now, r.limiter.windowMs, m);
    hide Evicted;
    EndsWithPush(Evicted(r.limiter.events, now, r.limiter.windowMs), counted, now);
  }

  lemma EndsWithPush(events: seq<nat>, suffix: seq<nat>, now: nat)
    requires EndsWith(events, suffix)
    ensures EndsWith(events + [now], suffix + [now])
  {
    assert (events + [now])[|events| - |suffix|..] == events[|events| - |suffix|..] + [now];
  }

  // An attempt of a turn of at most MAX_TURN, counted from the fifth on.
  lemma AttemptKeepsLimiter(r: Run, next: Run, a: Attempt)
    requires LimiterInv(r) && r.outcome == Running
    requires next.attempts == r.attempts + [a] && a.at == r.start + r.elapsed && next.start == r.start
    requires next.outcome == Running ==> next.elapsed <= r.elapsed + MAX_TURN
    requires if |r.attempts| < 4 then IsDefault(next.limiter)
             else Allows(r.limiter, a.at) && next.limiter == Registered(r.limiter, a.at)
    ensures LimiterInv(next)
  {
    RegisterKeepsCounted(r);
    RegisteredKeepsLimits(r.limiter, a.at);
    hide Allows, Registered;
    if |r.attempts| >= 4 {
      assert next.attempts[4..] == r.attempts[4..] + [a];
      assert Counted(next) == Counted(r) + [a.at];
    }
  }

  lemma TurnKeepsLimiter(r: Run, t: Turn)
    requires LimiterInv(r) && StrategyInv(r) && t.busy <= MAX_BUSY
    ensures LimiterInv(Turned(r, t))
  {
    if r.outcome == Running {
      AdmitKeeps(r, t);
      if Admit(r, t).Ok? {
        AdmittedMakesAttempt(r, t);
        RetryIntervalRange(r.attempt, t.nanos);
        RegisteredKeepsLimits(r.limiter, r.start + r.elapsed);
        assert |r.attempts| >= 4 ==> IsRateLimited(r.strategy);
        assert IsDefault(r.limiter);
        hide *;
        AttemptKeepsLimiter(r, Turned(r, t), Attempt(r.strategy, r.start + r.elapsed, r.state, t.result));
      }
    }
  }

  lemma RegisteredKeepsLimits(l: Limiter, now: nat)
    ensures Registered(l, now).max == l.max && Registered(l, now).windowMs == l.windowMs
    ensures IsDefault(l) ==> IsDefault(Registered(l, now))
  {
  }

  lemma {:induction false} RunKeepsLimiter(r: Run, turns: seq<Turn>)
    requires LimiterInv(r) && StrategyInv(r)
    requires AllShort(turns)
    ensures LimiterInv(RunTurns(r, turns))
    decreases |turns|
  {
    if turns != [] {
      TurnKeepsLimiter(r, turns[0]);
      TurnKeepsStrategy(r, turns[0]);
      RunKeepsLimiter(Turned(r, turns[0]), turns[1..]);
    }
  }

  // If each attempt takes less than 7 s, a run makes at most 14 attempts,
  // whatever the timeout and whatever the limiter has counted before, and has
  // ended after one more turn.
  lemma LimiterBoundsAttempts(r: Run, turns: seq<Turn>)
    requires IsStart(r)
    requires IsDefault(r.limiter) && AllShort(turns)
    ensures |RunTurns(r, turns).attempts| <= 14
    ensures |turns| > 14 ==> RunTurns(r, turns).outcome != Running
  {
    RunKeepsLimiter(r, turns);
    OneAttemptPerTurn(r, turns);
  }

  // ---- Negotiation failures -------------------------------------------------------------

  function NegotiationFailed(attempts: seq<Attempt>): nat {
    if attempts == [] then 0
    else
      var last := attempts[|attempts| - 1];
      NegotiationFailed(attempts[..|attempts| - 1]) + if last.result == Some(Negotiation) then 1 else 0
  }

  ghost predicate NoneAfterThird(attempts: seq<Attempt>) {
    forall k :: 0 <= k < |attempts| ==> NegotiationFailed(attempts[..k]) < MAX_NEGOTIATION_FAILURES
  }

  ghost predicate NegotiationInv(r: Run) {
    && NoneAfterThird(r.attempts)
    && (r.outcome == Running ==>
          && NegotiationFailed(r.attempts) <= r.limits.negotiation
          && (NegotiationFailed(r.attempts) > 0 ==> r.limits.negotiation < MAX_NEGOTIATION_FAILURES))
  }

  lemma AttemptKeepsNoneAfterThird(attempts: seq<Attempt>, a: Attempt)
    requires NoneAfterThird(attempts) && NegotiationFailed(attempts) < MAX_NEGOTIATION_FAILURES
    ensures NoneAfterThird(attempts + [a])
    ensures NegotiationFailed(attempts + [a])
         == NegotiationFailed(attempts) + if a.result == Some(Negotiation) then 1 else 0
  {
    var more := attempts + [a];
    assert more[..|attempts|] == attempts;
    forall k | 0 <= k < |more|
      ensures NegotiationFailed(more[..k]) < MAX_NEGOTIATION_FAILURES
    {
      if k < |attempts| {
        assert more[..k] == attempts[..k];
      }
    }
  }

  lemma TurnKeepsNegotiation(r: Run, t: Turn)
    requires NegotiationInv(r)
    ensures NegotiationInv(Turned(r, t))
  {
    if r.outcome == Running {
      AdmitKeeps(r, t);
      if Admit(r, t).Ok? {
        AfterAttemptKeeps(Attempted(Admit(r, t).value, t), t);
        AttemptKeepsNoneAfterThird(r.attempts, Attempt(r.strategy, r.start + r.elapsed, r.state, t.result));
      }
      hide Admit, AfterAttempt, BackOff, NegotiationFailed, NoneAfterThird;
    }
  }

  lemma {:induction false} RunKeepsNegotiation(r: Run, turns: seq<Turn>)
    requires NegotiationInv(r)
    ensures NegotiationInv(RunTurns(r, turns))
    decreases |turns|
  {
    if turns != [] {
      TurnKeepsNegotiation(r, turns[0]);
      RunKeepsNegotiation(Turned(r, turns[0]), turns[1..]);
    }
  }

  // A run makes no attempt after its third negotiation failure, whatever was counted
  // before it.
  lemma NegotiationFailuresAreFew(r: Run, turns: seq<Turn>)
    requires IsStart(r)
    ensures var attempts := RunTurns(r, turns).attempts;
      forall k :: 0 <= k < |attempts| ==> NegotiationFailed(attempts[..k]) < MAX_NEGOTIATION_FAILURES
  {
    RunKeepsNegotiation(r, turns);
  }

  // What holds of every call of the loop, however it is started.
  lemma EveryRun(start: nat, timeout: nat, strategy: Strategy, iceUnsupported: bool, current: bool,
                 state: CallingState, limiter: Limiter, limits: Limits, turns: seq<Turn>)
    requires strategy != Disconnect
    ensures var r := Begun(start, timeout, strategy, iceUnsupported, current, state, limiter, limits);
      var attempts := RunTurns(r, turns).attempts;
      && StrategiesSafe(attempts) && NoneAfterThird(attempts)
      && (timeout > 0 ==> |attempts| <= timeout / 250 + 1)
      && (IsDefault(limiter) && AllShort(turns) ==> |attempts| <= 14)
  {
    var r := Begun(start, timeout, strategy, iceUnsupported, current, state, limiter, limits);
    BegunIsStart(start, timeout, strategy, iceUnsupported, current, state, limiter, limits);
    assert (r.limiter, r.timeout) == (limiter, timeout);
    hide IsStart, Begun, RunTurns, StrategiesSafe;
    AttemptStrategies(r, turns);
    NegotiationFailuresAreFew(r, turns);
    if timeout > 0 {
      TimeoutBoundsAttempts(r, turns);
    }
    if IsDefault(limiter) && AllShort(turns) {
      LimiterBoundsAttempts(r, turns);
    }
  }

  // ---- Neither bound holds without its condition ---------------------------------------

  // An attempt that fails after seven seconds, one millisecond more than the bound
  // on the attempts allows, with healthy connections and no jitter.
  const SLOW := Turn(None, MAX_BUSY + 1, 0, Some(OtherError), 48_000, true, true)

  const SLOW_TURN: nat := 12_000

  // The last `|events|` counted attempts, one turn apart.
  ghost predicate Spaced(events: seq<nat>, now: nat) {
    forall i :: 0 <= i < |events| ==> events[i] == now - SLOW_TURN * (|events| - i)
  }

  // Four Fast attempts, then a Rejoin every twelve seconds: when the eleventh asks, the
  // first is exactly as old as the window.
  ghost predicate SlowInv(r: Run) {
    var n := |r.attempts|;
    && r.outcome == Running && r.current && r.timeout == 0 && !r.wasMigrating
    && IsDefault(r.limiter)
    && |r.limiter.events| <= REJOIN_RATE_LIMIT && Spaced(r.limiter.events, r.start + r.elapsed)
    && (if n < 4 then r.strategy == Fast && r.attempt == n && r.elapsed <= SLOW_TURN * n && r.limiter.events == []
        else r.strategy == Rejoin && r.attempt >= 4)
  }

  lemma SlowRegisters(l: Limiter, now: nat)
    requires IsDefault(l) && |l.events| <= REJOIN_RATE_LIMIT && Spaced(l.events, now)
    ensures Allows(l, now) && |Registered(l, now).events| <= REJOIN_RATE_LIMIT
    ensures Spaced(Registered(l, now).events, now + SLOW_TURN)
  {
    var events := l.events;
    var kept := if |events| == REJOIN_RATE_LIMIT then events[1..] else events;
    if kept != [] {
      assert Age(now, kept[0]) < l.windowMs;
    }
    assert Evicted(kept, now, l.windowMs) == kept;
    assert Evicted(events, now, l.windowMs) == kept;
    assert Registered(l, now).events == kept + [now];
  }

  lemma SlowBackOff(r: Run)
    requires r.outcome == Running && r.current && !r.wasMigrating
    requires if r.attempt < 4 then r.elapsed <= SLOW_TURN * r.attempt else true
    ensures var next := BackOff(r, SLOW, OtherError);
      && next.outcome == Running && next.current && !next.wasMigrating
      && next == r.(strategy := next.strategy, attempt := next.attempt, elapsed := next.elapsed, state := next.state)
      && next.attempt == Min(r.attempt + 1, TWO_TO_32 - 1)
      && next.strategy == (if r.attempt < 3 then Fast else Rejoin)
      && r.elapsed <= next.elapsed <= r.elapsed + SLOW_TURN
      && (r.attempt >= 4 ==> next.elapsed == r.elapsed + SLOW_TURN)
  {
  }

  lemma SlowTurnGoesOn(r: Run)
    requires SlowInv(r)
    ensures SlowInv(Turned(r, SLOW)) && |Turned(r, SLOW).attempts| == |r.attempts| + 1
  {
    var now := r.start + r.elapsed;
    SlowRegisters(r.limiter, now);
    hide Allows, Registered, Evicted, RetryInterval;
    assert Admit(r, SLOW).Ok?;
    var a := Attempted(Admit(r, SLOW).value, SLOW);
    SlowBackOff(a);
    hide BackOff;
    assert Turned(r, SLOW) == BackOff(a, SLOW, OtherError);
  }

  // Without a timeout, attempts of seven seconds make runs of any length.
  lemma {:induction false} SlowRunsGoOn(r: Run, n: nat)
    requires SlowInv(r)
    ensures SlowInv(RunTurns(r, seq(n, _ => SLOW)))
    ensures |RunTurns(r, seq(n, _ => SLOW)).attempts| == |r.attempts| + n
    decreases n
  {
    if n > 0 {
      SlowTurnGoesOn(r);
      hide SlowInv, Turned;
      SlowRunsGoOn(Turned(r, SLOW), n - 1);
      assert seq(n, _ => SLOW)[1..] == seq(n - 1, _ => SLOW);
    }
  }

  lemma UnlimitedRun(n: nat)
    ensures var r := Begun(0, 0, Fast, false, true, Joined, REJOIN_DEFAULT, NO_FAILURES);
            && RunTurns(r, seq(n, _ => SLOW)).outcome == Running
            && |RunTurns(r, seq(n, _ => SLOW)).attempts| == n
  {
    SlowRunsGoOn(Begun(0, 0, Fast, false, true, Joined, REJOIN_DEFAULT, NO_FAILURES), n);
  }
}
