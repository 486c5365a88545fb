// What ends a reconnect run, and what it leaves behind.
module ReconnectOutcomes {
  import opened Wrappers
  import opened Lifecycle
  import opened RateLimiter
  import opened ReconnectPolicy
  import opened ReconnectRun
  import opened ReconnectTheorems

  // ---- One turn ---------------------------------------------------------------------------

  // The generation was found gone by one of these checks.
  predicate GoneAt(t: Turn, checks: set<Check>) {
    t.stale.Some? && t.stale.value in checks
  }

  predicate TimedOut(r: Run) {
    r.timeout != 0 && r.elapsed > r.timeout
  }

  predicate Refused(r: Run) {
    (r.strategy == Rejoin || r.strategy == Migrate) && !Allows(r.limiter, r.start + r.elapsed)
  }

  // The turn comes to an attempt.
  predicate Attempts(r: Run, t: Turn) {
    && r.current && !GoneAt(t, {AtTop}) && !TimedOut(r) && !Refused(r)
    && (r.strategy == Rejoin || r.strategy == Migrate ==> !GoneAt(t, {AtLimiter}))
  }

  predicate Answered(r: Run, t: Turn) {
    Attempts(r, t) && !GoneAt(t, {AtTop, AtLimiter, AtAttempt})
  }

  // The third failure of a negotiation, with those counted before the run.
  predicate IsThird(r: Run, t: Turn) {
    t.result == Some(Negotiation) && r.limits.negotiation + 1 >= 3
  }

  // How the turn ends the run.
  ghost predicate EndsAs(r: Run, t: Turn, outcome: Outcome) {
    && (outcome == Reconnected <==> Answered(r, t) && t.result == None)
    && (outcome == Failed <==>
          && !GoneAt(t, {AtTop, AtLimiter, AtAttempt, AtRefresh})
          && ((r.current && TimedOut(r)) || (Answered(r, t) && t.result == Some(Unrecoverable))))
    && (outcome == LeftCall(RejoinLimit) <==>
          r.current && !GoneAt(t, {AtTop, AtLimiter}) && !TimedOut(r) && Refused(r))
    && (outcome == LeftCall(NegotiationFailures) <==>
          Answered(r, t) && !GoneAt(t, {AtRefresh, AtLimits}) && IsThird(r, t))
    && outcome != LeftCall(IceUnsupported)
    && (outcome == Running <==>
          && Answered(r, t) && !GoneAt(t, {AtRefresh, AtLimits, AtSleep})
          && t.result.Some? && t.result != Some(Unrecoverable) && !IsThird(r, t))
  }

  // The state and the counts it leaves; a generation that is gone sets neither.
  ghost predicate LeavesBehind(r: Run, t: Turn, end: Run) {
    && end.state == (if t.stale.Some? then r.state
                     else match end.outcome
                       case Reconnected => Joined
                       case Failed => ReconnectingFailed
                       case Running => Reconnecting
                       case LeftCall(_) => r.state
                       case Cancelled => r.state)
    && end.limits.ice == r.limits.ice
    && end.limits.negotiation ==
         (if !Answered(r, t) || GoneAt(t, {AtRefresh, AtLimits}) then r.limits.negotiation
          else if t.result == None then 0
          else if t.result == Some(Negotiation) then r.limits.negotiation + 1
          else r.limits.negotiation)
    && end.attempts == r.attempts
         + (if Attempts(r, t) then [Attempt(r.strategy, r.start + r.elapsed, r.state, t.result)] else [])
  }

  // The next turn: Rejoin after a rejected Fast, after a migration, from the fourth
  // failure on, past the deadline or with a broken connection, and Fast otherwise.
  ghost predicate GoesOnAs(r: Run, t: Turn, next: Run)
    requires t.result.Some?
  {
    && next.elapsed == r.elapsed + t.busy + RetryInterval(r.attempt, t.nanos)
    && next.strategy == (if || t.result == Some(FastRejected) || r.wasMigrating || r.attempt >= 3
                            || next.elapsed > t.deadline || !t.publisherHealthy || !t.subscriberHealthy
                         then Rejoin else Fast)
    && !next.wasMigrating && next.attempt == Min(r.attempt + 1, 0xFFFF_FFFF)
    && (next.current <==> t.stale == None)
  }

  lemma PassesIff(t: Turn)
    ensures Passes(t, AtTop) <==> !GoneAt(t, {AtTop})
    ensures Passes(t, AtLimiter) <==> !GoneAt(t, {AtTop, AtLimiter})
    ensures Passes(t, AtAttempt) <==> !GoneAt(t, {AtTop, AtLimiter, AtAttempt})
    ensures Passes(t, AtRefresh) <==> !GoneAt(t, {AtTop, AtLimiter, AtAttempt, AtRefresh})
    ensures Passes(t, AtLimits) <==> !GoneAt(t, {AtTop, AtLimiter, AtAttempt, AtRefresh, AtLimits})
    ensures Passes(t, AtSleep) <==> !GoneAt(t, {AtTop, AtLimiter, AtAttempt, AtRefresh, AtLimits, AtSleep})
    ensures Passes(t, AtState) <==> t.stale == None
  {
  }

  lemma AdmitIs(r: Run, t: Turn)
    requires r.outcome == Running
    ensures Admit(r, t).Ok? <==> Attempts(r, t)
    ensures Admit(r, t).Ok? ==> Admit(r, t).value == r.(limiter := Admit(r, t).value.limiter)
    ensures Admit(r, t).Err? ==>
      var end := Admit(r, t).error;
      && EndsAs(r, t, end.outcome) && end.limits == r.limits && end.attempts == r.attempts
      && end.state == (if end.outcome == Failed && t.stale == None then ReconnectingFailed else r.state)
  {
    PassesIff(t);
    AdmitKeeps(r, t);
    hide Passes, Allows, Registered, Before;
  }

  lemma BackOffIs(r: Run, t: Turn, error: AttemptError)
    requires r.outcome == Running
    ensures var next := BackOff(r, t, error);
      && (if GoneAt(t, {AtTop, AtLimiter, AtAttempt, AtRefresh, AtLimits, AtSleep})
          then next == r.(current := false, outcome := Cancelled)
          else next.outcome == Running && next.state == (if t.stale == None then Reconnecting else r.state)
               && next.limits == r.limits && next.attempts == r.attempts
               && (t.result == Some(error) ==> GoesOnAs(r, t, next)))
  {
    PassesIff(t);
    hide Passes, RetryInterval, GoneAt;
  }

  lemma AfterAttemptIs(r: Run, t: Turn, before: Run)
    requires r.outcome == Running && Attempts(before, t)
    requires r == before.(limiter := r.limiter, attempts := r.attempts)
    ensures var end := AfterAttempt(r, t);
      EndsAs(before, t, end.outcome) && end.attempts == r.attempts
  {
    PassesIff(t);
    if t.result.Some? {
      BackOffIs(r, t, t.result.value);
      BackOffIs(r.(limits := r.limits.(negotiation := r.limits.negotiation + 1)), t, t.result.value);
    }
    hide Passes, BackOff, RetryInterval, Allows, Before, Refused, TimedOut, GoesOnAs;
  }

  lemma AfterAttemptGoesOn(r: Run, t: Turn, before: Run)
    requires r.outcome == Running
    requires r == before.(limiter := r.limiter, attempts := r.attempts)
    ensures var end := AfterAttempt(r, t);
      end.outcome == Running ==> t.result.Some? && GoesOnAs(before, t, end)
  {
    AfterAttemptKeeps(r, t);
    var end := AfterAttempt(r, t);
    if end.outcome == Running {
      BackOffIs(r.(limits := end.limits), t, t.result.value);
    }
    hide AfterAttempt, BackOff, RetryInterval, GoneAt;
  }

  lemma AfterAttemptState(r: Run, t: Turn)
    requires r.outcome == Running
    ensures var end := AfterAttempt(r, t);
      end.state == (if t.stale.Some? then r.state
                    else match end.outcome
                      case Reconnected => Joined
                      case Failed => ReconnectingFailed
                      case Running => Reconnecting
                      case LeftCall(_) => r.state
                      case Cancelled => r.state)
  {
    PassesIff(t);
    if t.result.Some? {
      BackOffIs(r, t, t.result.value);
      BackOffIs(r.(limits := r.limits.(negotiation := r.limits.negotiation + 1)), t, t.result.value);
    }
    hide Passes, BackOff, RetryInterval, GoesOnAs;
  }

  lemma AfterAttemptCounts(r: Run, t: Turn, before: Run)
    requires r.outcome == Running && Attempts(before, t)
    requires r == before.(limiter := r.limiter, attempts := r.attempts)
    ensures var end := AfterAttempt(r, t);
      && end.limits.ice == r.limits.ice
      && end.limits.negotiation ==
           (if !Answered(before, t) || GoneAt(t, {AtRefresh, AtLimits}) then r.limits.negotiation
            else if t.result == None then 0
            else if t.result == Some(Negotiation) then r.limits.negotiation + 1
            else r.limits.negotiation)
  {
    PassesIff(t);
    if t.result.Some? {
      BackOffKeeps(r, t, t.result.value);
      BackOffKeeps(r.(limits := r.limits.(negotiation := r.limits.negotiation + 1)), t, t.result.value);
    }
    hide Passes, BackOff, RetryInterval, Allows, Before, Attempts;
  }

  // One turn of a run that goes on, in all it does but the limiter.
  lemma TurnIs(r: Run, t: Turn)
    requires r.outcome == Running
    ensures var next := Turned(r, t);
      && EndsAs(r, t, next.outcome) && LeavesBehind(r, t, next)
      && (next.outcome == Running ==> t.result.Some? && GoesOnAs(r, t, next))
  {
    AdmitIs(r, t);
    if Attempts(r, t) {
      var a := Attempted(Admit(r, t).value, t);
      AfterAttemptIs(a, t, r);
      AfterAttemptGoesOn(a, t, r);
      AfterAttemptState(a, t);
      AfterAttemptCounts(a, t, r);
    }
    hide Admit, AfterAttempt, Attempts, EndsAs, GoesOnAs;
  }

  // ---- Every run -----------------------------------------------------------------------------

  // How a run begins: it leaves at once exactly at the second connection without ICE.
  lemma BegunIs(start: nat, timeout: nat, strategy: Strategy, iceUnsupported: bool, current: bool,
                state: CallingState, limiter: Limiter, limits: Limits)
    ensures var r := Begun(start, timeout, strategy, iceUnsupported, current, state, limiter, limits);
      && r.state == (if !current then state else if strategy == Migrate then Migrating else Reconnecting)
      && r.limits == Limits(if iceUnsupported && current then limits.ice + 1 else limits.ice, limits.negotiation)
      && r.outcome == (if iceUnsupported && current && limits.ice + 1 >= 2 then LeftCall(IceUnsupported) else Running)
      && (r.strategy, r.attempt, r.elapsed, r.attempts) == (strategy, 0, 0, [])
      && (r.wasMigrating <==> strategy == Migrate) && r.current == current && r.limiter == limiter
      && (r.start, r.timeout) == (start, timeout)
  {
  }

  lemma {:induction false} EndedRunStays(r: Run, turns: seq<Turn>)
    requires r.outcome != Running
    ensures RunTurns(r, turns) == r
    decreases |turns|
  {
    if turns != [] {
      EndedStays(r, turns[0]);
      hide Turned;
      EndedRunStays(r, turns[1..]);
    }
  }

  // A run that has ended did so in one of its turns.
  lemma {:induction false} EndsAtTurn(r: Run, turns: seq<Turn>) returns (n: nat)
    requires r.outcome == Running && RunTurns(r, turns).outcome != Running
    ensures n < |turns| && RunTurns(r, turns[..n]).outcome == Running
    ensures Turned(RunTurns(r, turns[..n]), turns[n]) == RunTurns(r, turns)
    decreases |turns|
  {
    var next := Turned(r, turns[0]);
    hide Turned;
    if next.outcome == Running {
      n := EndsAtTurn(next, turns[1..]);
      n := n + 1;
      assert turns[..n][1..] == turns[1..][..n - 1];
    } else {
      n := 0;
      EndedRunStays(next, turns[1..]);
      assert turns[..0] == [];
    }
  }

  // Every run of the loop that has ended: either it left before its first turn, at the
  // second connection without ICE, or its last turn says how, and what it leaves behind.
  lemma RunEnds(start: nat, timeout: nat, strategy: Strategy, iceUnsupported: bool, current: bool,
                state: CallingState, limiter: Limiter, limits: Limits, turns: seq<Turn>)
    returns (n: nat)
    requires RunTurns(Begun(start, timeout, strategy, iceUnsupported, current, state, limiter, limits), turns).outcome
      != Running
    ensures var begun := Begun(start, timeout, strategy, iceUnsupported, current, state, limiter, limits);
      var end := RunTurns(begun, turns);
      && (end.outcome == LeftCall(IceUnsupported) <==> iceUnsupported && current && limits.ice + 1 >= 2)
      && (end.outcome == LeftCall(IceUnsupported) ==> end == begun && end.attempts == [])
      && (end.outcome != LeftCall(IceUnsupported) ==>
            && n < |turns| && RunTurns(begun, turns[..n]).outcome == Running
            && EndsAs(RunTurns(begun, turns[..n]), turns[n], end.outcome)
            && LeavesBehind(RunTurns(begun, turns[..n]), turns[n], end))
  {
    var begun := Begun(start, timeout, strategy, iceUnsupported, current, state, limiter, limits);
    BegunIs(start, timeout, strategy, iceUnsupported, current, state, limiter, limits);
    hide Begun, Turned, LeavesBehind;
    n := 0;
    if begun.outcome == Running {
      n := EndsAtTurn(begun, turns);
      TurnIs(RunTurns(begun, turns[..n]), turns[n]);
    } else {
      EndedRunStays(begun, turns);
    }
    hide RunTurns;
  }

  ghost predicate AttemptsAreSound(r: Run) {
    var n := |r.attempts|;
    && (forall i :: 0 <= i < n ==> r.attempts[i].result == None ==> i == n - 1 && r.outcome != Running)
    && (forall i :: 0 <= i < n ==> r.attempts[i].result == Some(Unrecoverable) ==> i == n - 1 && r.outcome != Running)
    && (forall i :: 0 < i < n && r.attempts[i - 1].result == Some(FastRejected) ==> r.attempts[i].strategy == Rejoin)
    && (r.outcome == Running && n > 0 && r.attempts[n - 1].result == Some(FastRejected) ==> r.strategy == Rejoin)
    && (r.outcome == Reconnected ==> n > 0 && r.attempts[n - 1].result == None)
    && (r.outcome == LeftCall(NegotiationFailures) ==> n > 0 && r.attempts[n - 1].result == Some(Negotiation))
  }

  lemma TurnKeepsSound(r: Run, t: Turn)
    requires AttemptsAreSound(r)
    ensures AttemptsAreSound(Turned(r, t))
  {
    if r.outcome == Running {
      TurnIs(r, t);
    }
    hide Turned, Attempts, TimedOut, Refused;
  }

  // Over every run: a success and an unrecoverable failure are the last attempt, the one
  // after a rejected Fast is Rejoin, and a run ends reconnected, or leaves because of
  // negotiation failures, with such an attempt.
  lemma {:induction false} RunKeepsSound(r: Run, turns: seq<Turn>)
    requires AttemptsAreSound(r)
    ensures AttemptsAreSound(RunTurns(r, turns))
    decreases |turns|
  {
    if turns != [] {
      TurnKeepsSound(r, turns[0]);
      hide Turned, AttemptsAreSound;
      RunKeepsSound(Turned(r, turns[0]), turns[1..]);
    }
  }

  lemma EveryRunIsSound(start: nat, timeout: nat, strategy: Strategy, iceUnsupported: bool, current: bool,
                        state: CallingState, limiter: Limiter, limits: Limits, turns: seq<Turn>)
    ensures AttemptsAreSound(
      RunTurns(Begun(start, timeout, strategy, iceUnsupported, current, state, limiter, limits), turns))
  {
    BegunIs(start, timeout, strategy, iceUnsupported, current, state, limiter, limits);
    RunKeepsSound(Begun(start, timeout, strategy, iceUnsupported, current, state, limiter, limits), turns);
  }
}
