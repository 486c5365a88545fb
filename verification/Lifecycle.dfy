// The fields of a call that its join, leave and reconnect tasks share. Every
// operation here is one critical section of the source: what happens while one
// lock (or a nest of locks) is held.
module Lifecycle {
  import opened Wrappers
  import opened RateLimiter
  import opened ReconnectPolicy
  import Subscriptions

  datatype CallingState = Idle | Joining | Joined | Reconnecting | Migrating | ReconnectingFailed | Left

  // A join that the present state does not allow.
  datatype IllegalState = JoinedTwice

  // A live SFU connection, known by the generation of the join that opened it.
  datatype Connection = Connection(generation: u64)

  // A value of the shared fields.
  //  - `events` are the `CallingStateChanged` broadcasts, oldest first.
  //  - `installer` is the generation that passed its check inside the
  //    connection lock and has not yet put its connection into the slot.
  //  - `callData` names the generation whose join response filled the
  //    participants and the call state; None after they were cleared.
  datatype Core = Core(
    state: CallingState,
    generation: u64,
    events: seq<CallingState>,
    slot: Option<Connection>,
    installer: Option<u64>,
    claim: Option<u64>,
    callData: Option<u64>)

  const FRESH := Core(Idle, 0, [], None, None, None, None)

  // `wrapping_add(1)`
  function Bumped(generation: u64): u64 {
    if generation == TWO_TO_64 - 1 then 0 else generation + 1
  }

  function WithState(c: Core, next: CallingState): Core {
    if c.state == next then c else c.(state := next, events := c.events + [next])
  }

  function Cleared(c: Core): Core {
    c.(callData := None, claim := None)
  }

  predicate MayBeginJoin(c: Core) {
    c.state == Idle || c.state == Left
  }

  function AfterBeginJoin(c: Core): Core {
    if MayBeginJoin(c)
    then WithState(Cleared(c.(generation := Bumped(c.generation))), Joining)
    else c
  }

  function AfterCancel(c: Core): Core {
    c.(generation := Bumped(c.generation))
  }

  function AfterSetStateIfCurrent(c: Core, generation: u64, next: CallingState): Core {
    if c.generation == generation then WithState(c, next) else c
  }

  function AfterApplyCallState(c: Core, generation: u64): Core {
    if c.generation == generation then c.(callData := Some(generation)) else c
  }

  predicate MayAbandon(c: Core, generation: u64) {
    c.generation == generation && c.state == Joining
  }

  function AfterAbandon(c: Core, generation: u64): Core {
    if MayAbandon(c, generation) then WithState(AfterCancel(c), Idle) else c
  }

  predicate MayClaim(c: Core, generation: u64) {
    c.generation == generation && c.claim == None
  }

  function AfterClaim(c: Core, generation: u64): Core {
    if MayClaim(c, generation) then c.(claim := Some(generation)) else c
  }

  function AfterRelease(c: Core, generation: u64): Core {
    if c.claim == Some(generation) then c.(claim := None) else c
  }

  // The generation check of an install, made while the slot is locked.
  function AfterInstallCheck(c: Core, generation: u64): Core {
    if c.generation == generation then c.(installer := Some(generation)) else c
  }

  function AfterInstall(c: Core, generation: u64): Core {
    c.(slot := Some(Connection(generation)), installer := None)
  }

  predicate TakesSlot(c: Core, leave: u64) {
    c.slot.Some? && c.slot.value.generation < leave
  }

  function AfterTake(c: Core, leave: u64): Core {
    if TakesSlot(c, leave) then c.(slot := None) else c
  }

  function AfterClearForLeave(c: Core, leave: u64): Core {
    if c.generation == leave then Cleared(c) else c
  }

  // The part of a call that the lifecycle only clears.
  datatype Cache = Cache(
    ended: bool, activeSubs: seq<Subscriptions.TrackDetails>, deliveredTracks: set<string>,
    ownCapabilities: set<string>)

  const NO_CACHE := Cache(false, [], {}, {})

  // What a join starts afresh for its reconnects; the options are those set last.
  datatype Reconnects = Reconnects(
    publishOptions: string, failureLimits: Limits, rateLimiter: Limiter, attempts: u32)

  function FreshReconnects(publishOptions: string): Reconnects {
    Reconnects(publishOptions, NO_FAILURES, REJOIN_DEFAULT, 0)
  }

  class RtcCore {
    var state: CallingState
    var generation: u64
    var events: seq<CallingState>
    var connection: Option<Connection>
    ghost var installer: Option<u64>
    var reconnectGeneration: Option<u64>
    var callData: Option<u64>
    var cache: Cache
    var publishOptions: string
    var reconnects: Reconnects

    ghost function View(): Core
      reads this
    {
      Core(state, generation, events, connection, installer, reconnectGeneration, callData)
    }

    constructor (publishOptions: string)
      ensures View() == FRESH && cache == NO_CACHE && reconnects == FreshReconnects(publishOptions)
      ensures this.publishOptions == publishOptions
    {
      state, generation, events := Idle, 0, [];
      connection, reconnectGeneration, callData := None, None, None;
      installer := None;
      cache, reconnects := NO_CACHE, FreshReconnects(publishOptions);
      this.publishOptions := publishOptions;
    }

    method SetState(next: CallingState)
      modifies this`state, this`events
      ensures View() == WithState(old(View()), next)
      ensures state == next && events == old(events) + (if old(state) == next then [] else [next])
    {
      if state != next {
        state := next;
        events := events + [next];
      }
    }

    method SetStateIfCurrent(g: u64, next: CallingState) returns (current: bool)
      modifies this`state, this`events
      ensures View() == AfterSetStateIfCurrent(old(View()), g, next)
      ensures current <==> old(generation) == g
      ensures current ==> state == next && events == old(events) + (if old(state) == next then [] else [next])
      ensures !current ==> state == old(state) && events == old(events)
    {
      if generation != g {
        return false;
      }
      SetState(next);
      current := true;
    }

    method ClearCallState()
      modifies this`callData, this`reconnectGeneration, this`cache
      ensures View() == Cleared(old(View())) && cache == NO_CACHE
      ensures callData == None && reconnectGeneration == None
    {
      callData := None;
      cache := NO_CACHE;
      reconnectGeneration := None;
    }

    method BeginJoin() returns (r: Result<u64, IllegalState>)
      modifies this
      ensures View() == AfterBeginJoin(old(View()))
      ensures publishOptions == old(publishOptions)
      ensures r.Ok? <==> old(state) == Idle || old(state) == Left
      ensures r.Ok? ==> r.value == generation == (old(generation) + 1) % TWO_TO_64
      ensures r.Ok? ==> state == Joining && events == old(events) + [Joining]
      ensures r.Ok? ==> callData == None && reconnectGeneration == None && connection == old(connection)
      ensures r.Err? ==> View() == old(View())
      ensures r.Ok? ==> cache == NO_CACHE && reconnects == FreshReconnects(publishOptions)
      ensures r.Err? ==> cache == old(cache) && reconnects == old(reconnects)
    {
      match state {
        case Idle | Left =>
          generation := Bumped(generation);
          ClearCallState();
          SetState(Joining);
          reconnects := FreshReconnects(publishOptions);
          return Ok(generation);
        case _ =>
          return Err(JoinedTwice);
      }
    }

    method CancelGeneration() returns (g: u64)
      modifies this`generation
      ensures View() == AfterCancel(old(View()))
      ensures g == generation == (old(generation) + 1) % TWO_TO_64
    {
      generation := Bumped(generation);
      g := generation;
    }

    // The call-state part of `apply_join_call_state_if_current`; Participants
    // models what it writes.
    method ApplyCallState(g: u64) returns (applied: bool)
      modifies this`callData, this`cache
      ensures View() == AfterApplyCallState(old(View()), g)
      ensures applied <==> generation == g
      ensures callData == if applied then Some(g) else old(callData)
      ensures cache == if applied then old(cache).(ended := false) else old(cache)
    {
      if generation != g {
        return false;
      }
      callData := Some(g);
      cache := cache.(ended := false);
      applied := true;
    }

    method ClaimReconnect(g: u64) returns (claimed: bool)
      modifies this`reconnectGeneration
      ensures View() == AfterClaim(old(View()), g)
      ensures claimed <==> generation == g && old(reconnectGeneration) == None
      ensures reconnectGeneration == if claimed then Some(g) else old(reconnectGeneration)
    {
      if generation != g {
        return false;
      }
      if reconnectGeneration.Some? {
        return false;
      }
      reconnectGeneration := Some(g);
      claimed := true;
    }

    method ReleaseReconnect(g: u64)
      modifies this`reconnectGeneration
      ensures View() == AfterRelease(old(View()), g)
      ensures reconnectGeneration == if old(reconnectGeneration) == Some(g) then None else old(reconnectGeneration)
    {
      if reconnectGeneration == Some(g) {
        reconnectGeneration := None;
      }
    }

    // The two halves of an install. The connection lock is held from the check
    // to the replacement, the lifecycle lock only during the check.
    method CheckInstall(g: u64) returns (current: bool)
      requires installer == None
      modifies this`installer
      ensures View() == AfterInstallCheck(old(View()), g)
      ensures current <==> generation == g
      ensures installer == if current then Some(g) else None
    {
      current := generation == g;
      if current {
        installer := Some(g);
      }
    }

    method Install(g: u64) returns (replaced: Option<Connection>)
      requires installer == Some(g)
      modifies this`connection, this`installer
      ensures View() == AfterInstall(old(View()), g)
      ensures replaced == old(connection) && connection == Some(Connection(g)) && installer == None
    {
      replaced := connection;
      connection := Some(Connection(g));
      installer := None;
    }

    // `take_if` in the teardown of a leave.
    method TakeForLeave(leave: u64) returns (taken: Option<Connection>)
      requires installer == None
      modifies this`connection
      ensures View() == AfterTake(old(View()), leave)
      ensures taken.Some? <==> old(connection).Some? && old(connection).value.generation < leave
      ensures taken.Some? ==> taken == old(connection) && connection == None
      ensures taken.None? ==> connection == old(connection)
    {
      taken := None;
      if connection.Some? && connection.value.generation < leave {
        taken := connection;
        connection := None;
      }
    }

    method ClearForLeave(leave: u64)
      modifies this`callData, this`reconnectGeneration, this`cache
      ensures View() == AfterClearForLeave(old(View()), leave)
      ensures callData == if generation == leave then None else old(callData)
      ensures reconnectGeneration == if generation == leave then None else old(reconnectGeneration)
      ensures cache == if generation == leave then NO_CACHE else old(cache)
    {
      if generation == leave {
        ClearCallState();
      }
    }

    // Both critical sections of `finish_leave` without a step between them.
    method FinishLeave(leave: u64)
      modifies this`callData, this`reconnectGeneration, this`cache, this`state, this`events
      ensures View() == AfterSetStateIfCurrent(AfterClearForLeave(old(View()), leave), leave, Left)
      ensures generation == leave ==> state == Left && callData == None && reconnectGeneration == None
      ensures generation != leave ==> View() == old(View())
      ensures cache == if generation == leave then NO_CACHE else old(cache)
    {
      ClearForLeave(leave);
      var _ := SetStateIfCurrent(leave, Left);
    }

    // The mark that `end_call` leaves after its check; the first one starts a leave.
    method MarkEnded() returns (first: bool)
      modifies this`cache
      ensures cache == old(cache).(ended := true) && (first <==> !old(cache.ended))
    {
      first := !cache.ended;
      cache := cache.(ended := true);
    }

    // `JoinAttempt::drop`
    method AbandonJoin(g: u64)
      modifies this`generation, this`state, this`events
      ensures View() == AfterAbandon(old(View()), g)
      ensures old(generation) == g && old(state) == Joining ==>
        generation == (g + 1) % TWO_TO_64 && state == Idle && events == old(events) + [Idle]
      ensures old(generation) != g || old(state) != Joining ==> View() == old(View())
    {
      if generation != g || state != Joining {
        return;
      }
      generation := Bumped(generation);
      SetState(Idle);
    }
  }
}
