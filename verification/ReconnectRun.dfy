// One run of the reconnect loop, as a fold over what its surroundings do in
// each turn, and the loop itself, proved to compute that fold.
module ReconnectRun {
  import opened Wrappers
  import opened Lifecycle
  import opened RateLimiter
  import opened ReconnectPolicy

  datatype AttemptError = FastRejected | Negotiation | Unrecoverable | OtherError

  // The checks of the generation in one turn, in their order.
  datatype Check = AtTop | AtLimiter | AtAttempt | AtRefresh | AtLimits | AtSleep | AtState

  // One turn of the loop, as the surroundings decide it.
  //  - `stale`: the first check that finds the generation gone. Generations do
  //    not come back, so every later check finds it gone too.
  //  - `busy`: milliseconds from the start of the turn to the backoff, and any
  //    delay in waking up after it.
  //  - `nanos`: the clock reading that gives the jitter of the backoff.
  datatype Turn = Turn(
    stale: Option<Check>,
    busy: nat,
    nanos: nat,
    result: Option<AttemptError>,
    deadline: nat,
    publisherHealthy: bool,
    subscriberHealthy: bool)

  datatype LeaveReason = IceUnsupported | RejoinLimit | NegotiationFailures

  datatype Outcome = Running | Cancelled | Reconnected | Failed | LeftCall(reason: LeaveReason)

  // A call of `reconnect_once`: its strategy, its time, and the calling state.
  datatype Attempt = Attempt(strategy: Strategy, at: nat, state: CallingState, result: Option<AttemptError>)

  //  - `current`: the generation was current at the last check.
  datatype Run = Run(
    start: nat, timeout: nat,
    strategy: Strategy, attempt: u32, wasMigrating: bool, elapsed: nat,
    current: bool, state: CallingState,
    limiter: Limiter, limits: Limits,
    attempts: seq<Attempt>, outcome: Outcome)

  function StateFor(migrating: bool): CallingState {
    if migrating then Migrating else Reconnecting
  }

  function Begun(start: nat, timeout: nat, strategy: Strategy, iceUnsupported: bool, current: bool,
                 state: CallingState, limiter: Limiter, limits: Limits): Run
  {
    var migrating := strategy == Migrate;
    var counted := if iceUnsupported && current then limits.(ice := limits.ice + 1) else limits;
    Run(start, timeout, strategy, 0, migrating, 0, current,
        if current then StateFor(migrating) else state, limiter, counted, [],
        if iceUnsupported && current && counted.ice >= MAX_ICE_FAILURES then LeftCall(IceUnsupported) else Running)
  }

  predicate Passes(t: Turn, check: Check) {
    t.stale.None? || Before(check, t.stale.value)
  }

  predicate Before(a: Check, b: Check) {
    Rank(a) < Rank(b)
  }

  function Rank(c: Check): nat {
    match c
    case AtTop => 0
    case AtLimiter => 1
    case AtAttempt => 2
    case AtRefresh => 3
    case AtLimits => 4
    case AtSleep => 5
    case AtState => 6
  }

  function Cancel(r: Run): Run {
    r.(current := false, outcome := Cancelled)
  }

  function GiveUp(r: Run, t: Turn): Run {
    if !Passes(t, AtRefresh) then Cancel(r)
    else r.(state := if Passes(t, AtState) then ReconnectingFailed else r.state,
            current := Passes(t, AtState), outcome := Failed)
  }

  function NextStrategy(r: Run, t: Turn, error: AttemptError, elapsed: nat): Strategy {
    if error == FastRejected then Rejoin
    else EscalateStrategy(elapsed, t.deadline, r.wasMigrating, r.attempt, t.publisherHealthy, t.subscriberHealthy)
  }

  // The end of a turn whose attempt failed and may be repeated.
  function BackOff(r: Run, t: Turn, error: AttemptError): Run {
    if !Passes(t, AtSleep) then Cancel(r)
    else
      RetryIntervalRange(r.attempt, t.nanos);
      var elapsed := r.elapsed + t.busy + RetryInterval(r.attempt, t.nanos);
      var next := NextStrategy(r, t, error, elapsed);
      var migrating := next == Migrate;
      r.(strategy := next, attempt := Min(r.attempt + 1, TWO_TO_32 - 1), wasMigrating := migrating,
         elapsed := elapsed,
         state := if Passes(t, AtState) then StateFor(migrating) else r.state, current := t.stale.None?)
  }

  function AfterAttempt(r: Run, t: Turn): Run {
    if !Passes(t, AtAttempt) then Cancel(r)
    else
      match t.result
      case None =>
        r.(limits := if Passes(t, AtLimits) then r.limits.(negotiation := 0) else r.limits,
           state := if Passes(t, AtState) then Joined else r.state,
           current := Passes(t, AtState), outcome := Reconnected)
      case Some(Unrecoverable) => GiveUp(r, t)
      case Some(Negotiation) =>
        if !Passes(t, AtLimits) then Cancel(r)
        else
          var counted := r.(limits := r.limits.(negotiation := r.limits.negotiation + 1));
          if counted.limits.negotiation >= MAX_NEGOTIATION_FAILURES
          then counted.(outcome := LeftCall(NegotiationFailures))
          else BackOff(counted, t, Negotiation)
      case Some(error) => BackOff(r, t, error)
  }

  function Attempted(r: Run, t: Turn): Run {
    r.(attempts := r.attempts + [Attempt(r.strategy, r.start + r.elapsed, r.state, t.result)])
  }

  // The part of a turn before the attempt: the run that may go on with it, or
  // the run that ends here.
  function Admit(r: Run, t: Turn): Result<Run, Run> {
    if !r.current || !Passes(t, AtTop) then Err(Cancel(r))
    else if DisconnectionTimedOut(r.elapsed, r.timeout) then Err(GiveUp(r, t))
    else if !IsRateLimited(r.strategy) then Ok(r)
    else if !Passes(t, AtLimiter) then Err(Cancel(r))
    else
      var registered := r.(limiter := Registered(r.limiter, r.start + r.elapsed));
      if Allows(r.limiter, r.start + r.elapsed) then Ok(registered)
      else Err(registered.(outcome := LeftCall(RejoinLimit)))
  }

  function Turned(r: Run, t: Turn): Run {
    if r.outcome != Running then r
    else
      match Admit(r, t)
      case Ok(admitted) => AfterAttempt(Attempted(admitted, t), t)
      case Err(ended) => ended
  }

  function RunTurns(r: Run, turns: seq<Turn>): Run
    decreases |turns|
  {
    if turns == [] then r else RunTurns(Turned(r, turns[0]), turns[1..])
  }

  // ---- The loop ------------------------------------------------------------------

  // The fields that the loop shares with the rest of the call, and the calls of
  // `reconnect_once` so far.
  class ReconnectLoop {
    const limiter: SlidingWindowRateLimiter
    const limits: FailureLimits
    var state: CallingState
    ghost var attempts: seq<Attempt>

    constructor (limiter: SlidingWindowRateLimiter, limits: FailureLimits, state: CallingState)
      ensures this.limiter == limiter && this.limits == limits && this.state == state && attempts == []
    {
      this.limiter, this.limits, this.state := limiter, limits, state;
      attempts := [];
    }

    // `turns` is what happens as far as the run is looked at; `Running` when it
    // goes on after that.
    method RunReconnect(generationCurrent: bool, strategy0: Strategy, iceUnsupported: bool, start: nat, timeout: nat,
                        turns: seq<Turn>)
      returns (outcome: Outcome)
      requires strategy0 != Disconnect && attempts == []
      modifies this, limiter, limits
      ensures var r := RunTurns(Begun(start, timeout, strategy0, iceUnsupported, generationCurrent, old(state),
                                      old(limiter.View()), old(limits.View())), turns);
              && outcome == r.outcome && attempts == r.attempts && state == r.state
              && limiter.View() == r.limiter && limits.View() == r.limits
    {
      var strategy, attempt, wasMigrating, elapsed := strategy0, 0, strategy0 == Migrate, 0;
      var current := generationCurrent;
      ghost var begun := Begun(start, timeout, strategy0, iceUnsupported, current, state, limiter.View(), limits.View());
      if current {
        state := StateFor(wasMigrating);
      }
      outcome := Running;
      if iceUnsupported && current {
        var reached := limits.RecordIceNeverConnected();
        if reached {
          outcome := LeftCall(IceUnsupported);
        }
      }
      ghost var r := begun;
      for i := 0 to |turns|
        invariant RunTurns(r, turns[i..]) == RunTurns(begun, turns)
        invariant Shows(r, start, timeout, outcome, strategy, attempt, wasMigrating, elapsed, current)
      {
        var t := turns[i];
        assert turns[i..][1..] == turns[i + 1..];
        hide Turned;
        if outcome == Running {
          outcome, strategy, attempt, wasMigrating, elapsed, current :=
            TakeTurn(t, start, timeout, strategy, attempt, wasMigrating, elapsed, current, r);
        } else {
          EndedStays(r, t);
        }
        r := Turned(r, t);
      }
      assert turns[|turns|..] == [];
    }

    // The locals and the shared fields are those of `r`; the locals only matter
    // while the run goes on.
    ghost predicate Shows(r: Run, start: nat, timeout: nat, outcome: Outcome, strategy: Strategy, attempt: u32,
                          wasMigrating: bool, elapsed: nat, current: bool)
      reads this, limiter, limits
    {
      && (outcome, state, attempts) == (r.outcome, r.state, r.attempts)
      && (limiter.View(), limits.View()) == (r.limiter, r.limits)
      && (start, timeout) == (r.start, r.timeout)
      && (outcome == Running ==>
            (strategy, attempt, wasMigrating, elapsed, current)
            == (r.strategy, r.attempt, r.wasMigrating, r.elapsed, r.current))
    }

    // The body of the loop up to the attempt.
    method TakeTurn(t: Turn, start: nat, timeout: nat, strategy: Strategy, attempt: u32, wasMigrating: bool,
                    elapsed: nat, current: bool, ghost r: Run)
      returns (outcome: Outcome, strategy': Strategy, attempt': u32, wasMigrating': bool, elapsed': nat, current': bool)
      requires r.outcome == Running
      requires Shows(r, start, timeout, Running, strategy, attempt, wasMigrating, elapsed, current)
      modifies this, limiter, limits
      ensures Shows(Turned(r, t), start, timeout, outcome, strategy', attempt', wasMigrating', elapsed', current')
    {
      hide AfterAttempt, Registered, Allows;
      strategy', attempt', wasMigrating', elapsed', current' := strategy, attempt, wasMigrating, elapsed, current;
      if !current || !Passes(t, AtTop) {
        outcome := Cancelled;
        return;
      }
      if DisconnectionTimedOut(elapsed, timeout) {
        outcome := RefreshAndFail(t);
        return;
      }
      ghost var registered := r;
      if IsRateLimited(strategy) {
        if !Passes(t, AtLimiter) {
          outcome := Cancelled;
          return;
        }
        var allowed := limiter.TryRegister(start + elapsed);
        registered := r.(limiter := limiter.View());
        if !allowed {
          outcome := LeftCall(RejoinLimit);
          return;
        }
      }
      attempts := attempts + [Attempt(strategy, start + elapsed, state, t.result)];
      outcome, strategy', attempt', wasMigrating', elapsed', current' :=
        FinishTurn(t, start, timeout, strategy, attempt, wasMigrating, elapsed, current, Attempted(registered, t));
    }

    // The body of the loop from the result of the attempt on.
    method FinishTurn(t: Turn, start: nat, timeout: nat, strategy: Strategy, attempt: u32, wasMigrating: bool,
                      elapsed: nat, current: bool, ghost r: Run)
      returns (outcome: Outcome, strategy': Strategy, attempt': u32, wasMigrating': bool, elapsed': nat, current': bool)
      requires r.outcome == Running
      requires Shows(r, start, timeout, Running, strategy, attempt, wasMigrating, elapsed, current)
      modifies this`state, limits
      ensures Shows(AfterAttempt(r, t), start, timeout, outcome, strategy', attempt', wasMigrating', elapsed', current')
    {
      strategy', attempt', wasMigrating', elapsed', current' := strategy, attempt, wasMigrating, elapsed, current;
      outcome := Cancelled;
      if !Passes(t, AtAttempt) {
        return;
      }
      match t.result {
        case None =>
          if Passes(t, AtLimits) {
            limits.ResetNegotiation();
          }
          if Passes(t, AtState) {
            state := Joined;
          }
          outcome := Reconnected;
        case Some(Unrecoverable) =>
          outcome := RefreshAndFail(t);
        case Some(Negotiation) =>
          if !Passes(t, AtLimits) {
            return;
          }
          var reached := limits.RecordNegotiationFailure();
          if reached {
            outcome := LeftCall(NegotiationFailures);
            return;
          }
          outcome, strategy', attempt', wasMigrating', elapsed', current' :=
            SleepAndEscalate(t, start, timeout, strategy, attempt, wasMigrating, elapsed, current, Negotiation,
                             r.(limits := limits.View()));
        case Some(error) =>
          outcome, strategy', attempt', wasMigrating', elapsed', current' :=
            SleepAndEscalate(t, start, timeout, strategy, attempt, wasMigrating, elapsed, current, error, r);
      }
    }

    method SleepAndEscalate(t: Turn, start: nat, timeout: nat, strategy: Strategy, attempt: u32, wasMigrating: bool,
                            elapsed: nat, current: bool, error: AttemptError, ghost r: Run)
      returns (outcome: Outcome, strategy': Strategy, attempt': u32, wasMigrating': bool, elapsed': nat, current': bool)
      requires r.outcome == Running
      requires Shows(r, start, timeout, Running, strategy, attempt, wasMigrating, elapsed, current)
      modifies this`state
      ensures Shows(BackOff(r, t, error), start, timeout, outcome, strategy', attempt', wasMigrating', elapsed', current')
    {
      strategy', attempt', wasMigrating', elapsed', current' := strategy, attempt, wasMigrating, elapsed, current;
      if !Passes(t, AtSleep) {
        outcome := Cancelled;
        return;
      }
      RetryIntervalRange(attempt, t.nanos);
      elapsed' := elapsed + t.busy + RetryInterval(attempt, t.nanos);
      if error == FastRejected {
        strategy' := Rejoin;
      } else {
        strategy' := EscalateStrategy(elapsed', t.deadline, wasMigrating, attempt, t.publisherHealthy,
                                      t.subscriberHealthy);
      }
      attempt' := Min(attempt + 1, TWO_TO_32 - 1);
      wasMigrating' := strategy' == Migrate;
      if Passes(t, AtState) {
        state := StateFor(wasMigrating');
      }
      current' := t.stale.None?;
      outcome := Running;
    }

    // Refresh the call data, then mark the call failed.
    method RefreshAndFail(t: Turn) returns (outcome: Outcome)
      modifies this`state
      ensures outcome == if Passes(t, AtRefresh) then Failed else Cancelled
      ensures state == if Passes(t, AtRefresh) && Passes(t, AtState) then ReconnectingFailed else old(state)
    {
      if !Passes(t, AtRefresh) {
        return Cancelled;
      }
      if Passes(t, AtState) {
        state := ReconnectingFailed;
      }
      outcome := Failed;
    }
  }

  lemma EndedStays(r: Run, t: Turn)
    requires r.outcome != Running
    ensures Turned(r, t) == r
  {
  }
}
