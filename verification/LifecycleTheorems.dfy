// What every interleaving of LifecycleRuns guarantees while fewer than 2^64
// generations have been issued, and what the wrap of the counter costs.
module LifecycleTheorems {
  import opened Wrappers
  import opened Lifecycle
  import opened LifecycleRuns

  lemma Reachable(steps: seq<Step>)
    requires Run(START, steps).bumps < TWO_TO_64
    ensures Inv(Run(START, steps))
  {
    RunKeepsInv(START, steps);
  }

  lemma StepKeepsLeave(s: System, step: Step, leave: u64)
    requires Issued(s) && Next(s, step).bumps < TWO_TO_64
    requires IsLeave(s, leave) && s.owners[leave].taken
    ensures IsLeave(Next(s, step), leave) && Next(s, step).owners[leave].taken
  {
    if Enabled(s, step) {
      StepIs(s, step);
    }
    hide Enabled, CoreAfter, RunsAfter, DecidedAfter;
  }

  lemma TakenStaysTaken(s: System, steps: seq<Step>, leave: u64)
    requires Inv(s) && Run(s, steps).bumps < TWO_TO_64
    requires IsLeave(s, leave) && s.owners[leave].taken
    ensures IsLeave(Run(s, steps), leave) && Run(s, steps).owners[leave].taken
    decreases |steps|
  {
    if steps != [] {
      BumpsGrow(Next(s, steps[0]), steps[1..]);
      RunOne(s, steps[0]);
      RunKeepsInv(s, [steps[0]]);
      StepKeepsLeave(s, steps[0], leave);
      TakenStaysTaken(Next(s, steps[0]), steps[1..], leave);
      hide Next, Inv, IsLeave;
    }
  }

  // Once the teardown of a leave has gone through the slot, no connection of an
  // older generation is in the slot or on its way there, however the run goes on.
  lemma TeardownIsFinal(before: seq<Step>, after: seq<Step>, leave: u64)
    requires Run(START, before + after).bumps < TWO_TO_64
    requires IsLeave(Run(START, before), leave) && Run(START, before).owners[leave].taken
    ensures NothingBefore(Run(START, before + after).core, leave)
  {
    RunSplits(START, before, after);
    BumpsGrow(Run(START, before), after);
    Reachable(before);
    Reachable(before + after);
    TakenStaysTaken(Run(START, before), after, leave);
  }

  // The teardown takes what is older than its leave and nothing else: it never
  // takes the connection of a join that began after the leave.
  lemma TeardownTakesOnlyOlder(steps: seq<Step>, leave: u64)
    requires Run(START, steps).bumps < TWO_TO_64
    requires Enabled(Run(START, steps), TakeConnection(leave))
    ensures var c := Run(START, steps).core;
            var after := Run(START, steps + [TakeConnection(leave)]).core;
            && (c.slot.Some? && c.slot.value.generation > leave ==> after == c)
            && (c.slot.Some? && c.slot.value.generation <= leave ==> after == c.(slot := None))
  {
    Reachable(steps);
    RunSplits(START, steps, [TakeConnection(leave)]);
    RunOne(Run(START, steps), TakeConnection(leave));
  }

  // A finished leave that still owns the generation left the call in `Left`
  // with its data cleared, a dropped join in `Idle`; either way a join can begin.
  lemma OwnerDecidesState(steps: seq<Step>)
    requires Run(START, steps).bumps < TWO_TO_64
    ensures var s := Run(START, steps); var g := s.core.generation;
            && (IsLeave(s, g) && s.owners[g].finished ==>
                  s.core.state == Left && s.core.callData == None && s.core.claim == None)
            && (g in s.owners && s.owners[g].Abandoned? ==> s.core.state == Idle)
            && ((g in s.owners && (s.owners[g].Abandoned? || (s.owners[g].Leave? && s.owners[g].finished)))
                  ==> Enabled(s, BeginJoin))
  {
    Reachable(steps);
  }

  // ---- Which states a step starts from ----------------------------------------------------

  predicate IsOver(state: CallingState) {
    state == Idle || state == Left
  }

  // The next generation goes to a join exactly at a begin from `Idle` or `Left`; the call
  // is then `Joining` without data and claim. It goes to nobody exactly at a drop of the
  // current join while it is joining.
  lemma IssuedIff(s: System, step: Step)
    requires Inv(s) && s.bumps + 1 < TWO_TO_64
    ensures var next := Next(s, step); var g := Bumped(s.core.generation);
      && (IsJoin(next, g) <==> step == BeginJoin && IsOver(s.core.state))
      && (IsJoin(next, g) ==> next.core.state == Joining && next.core.callData == None && next.core.claim == None)
      && (g in next.owners && next.owners[g].Abandoned? <==>
            step == AbandonJoin(s.core.generation) && IsJoin(s, s.core.generation) && s.core.state == Joining)
  {
    NextIsIssued(s, step);
    if Enabled(s, step) {
      BeginsAs(s, step);
    }
    hide Inv, OwnersAfter, RunsAfter, DecidedAfter, CoreAfter;
  }

  lemma NextIsIssued(s: System, step: Step)
    requires Inv(s) && s.bumps + 1 < TWO_TO_64
    ensures var next := Next(s, step); var g := Bumped(s.core.generation);
      && (g in next.owners <==> Enabled(s, step) && NewOwner(step).Some?)
      && (g in next.owners ==> next.owners[g] == NewOwner(step).value)
  {
    assert Bumped(s.core.generation) !in s.owners;
    StepIssues(s, step);
    if Enabled(s, step) {
      StepIs(s, step);
    }
    hide Inv, CoreAfter, RunsAfter, DecidedAfter, Enabled;
  }

  lemma BeginsAs(s: System, step: Step)
    requires Enabled(s, step)
    ensures step == BeginJoin ==> var c := CoreAfter(s.core, step);
      c.state == Joining && c.callData == None && c.claim == None
    ensures NewOwner(step) == Some(Join) <==> step == BeginJoin
    ensures NewOwner(step) == Some(Abandoned) <==> step == AbandonJoin(s.core.generation)
  {
  }

  // So a second join over a call that is not over changes nothing.
  lemma LiveCallIsNotJoined(s: System)
    requires !IsOver(s.core.state)
    ensures Run(s, [BeginJoin]) == s
  {
    RunOne(s, BeginJoin);
  }

  // Over every run: wherever a join got its generation, the call before it was over.
  lemma JoinsNeedAnEnd(steps: seq<Step>, i: nat)
    requires i < |steps| && Run(START, steps).bumps < TWO_TO_64
    requires var before, after := Run(START, steps[..i]), Run(START, steps[..i + 1]);
      IsJoin(after, after.core.generation) && after.core.generation != before.core.generation
    ensures IsOver(Run(START, steps[..i]).core.state)
  {
    var before := Run(START, steps[..i]);
    assert steps == steps[..i + 1] + steps[i + 1..] && steps[..i + 1] == steps[..i] + [steps[i]];
    RunSplits(START, steps[..i + 1], steps[i + 1..]);
    RunSplits(START, steps[..i], [steps[i]]);
    RunOne(before, steps[i]);
    BumpsGrow(Run(START, steps[..i + 1]), steps[i + 1..]);
    BumpsGrow(before, [steps[i]]);
    Reachable(steps[..i]);
    Reachable(steps[..i + 1]);
    StepIssues(before, steps[i]);
    hide Run, Next;
    BeginsOver(before, steps[i]);
  }

  lemma BeginsOver(s: System, step: Step)
    requires Inv(s) && Next(s, step).bumps < TWO_TO_64
    requires Next(s, step).core.generation != s.core.generation
    requires IsJoin(Next(s, step), Next(s, step).core.generation)
    ensures IsOver(s.core.state)
  {
    StepIssues(s, step);
    IssuedIff(s, step);
    hide Inv, Next, IsJoin;
  }

  // The captured generation of a step; None for the two that the user starts.
  function Actor(step: Step): Option<u64> {
    match step
    case BeginJoin | BeginLeave => None
    case ApplyCallState(g) => Some(g)
    case CheckInstall(g) => Some(g)
    case Install(g) => Some(g)
    case SetState(g, _) => Some(g)
    case AbandonJoin(g) => Some(g)
    case ClaimReconnect(g) => Some(g)
    case ReleaseReconnect(g) => Some(g)
    case DecideLeave(g) => Some(g)
    case LeaveDecided(g) => Some(g)
    case TakeConnection(l) => Some(l)
    case ClearCall(l) => Some(l)
    case FinishLeave(l) => Some(l)
  }

  lemma StepChangesState(s: System, step: Step)
    requires Next(s, step).core.state != s.core.state
    ensures step == BeginJoin || Actor(step) == Some(s.core.generation)
  {
  }

  // Only `begin_join` and holders of the current generation change the state.
  lemma {:induction false} StateChangeHasOwner(s: System, steps: seq<Step>) returns (i: nat)
    requires Run(s, steps).core.state != s.core.state
    ensures i < |steps|
    ensures steps[i] == BeginJoin || Actor(steps[i]) == Some(Run(s, steps[..i]).core.generation)
    decreases |steps|
  {
    if Next(s, steps[0]).core.state != s.core.state {
      StepChangesState(s, steps[0]);
      hide Next;
      i := 0;
      assert steps[..0] == [];
    } else {
      hide Next;
      var rest := StateChangeHasOwner(Next(s, steps[0]), steps[1..]);
      i := rest + 1;
      assert steps[..i][1..] == steps[1..][..rest];
    }
  }

  ghost predicate ByOlder(steps: seq<Step>, g: u64) {
    forall i :: 0 <= i < |steps| ==> Actor(steps[i]).Some? && Actor(steps[i]).value < g
  }

  ghost predicate SameCall(c: Core, d: Core) {
    && (c.state, c.generation, c.events) == (d.state, d.generation, d.events)
    && (c.callData, c.claim) == (d.callData, d.claim)
    && (c.slot == Some(Connection(c.generation)) ==> d.slot == c.slot)
  }

  // A leave that was decided before.
  predicate Leaves(s: System, step: Step) {
    step.LeaveDecided? && step.join in s.decided
  }

  ghost predicate NoneLeaves(s: System, steps: seq<Step>) {
    forall i :: 0 <= i < |steps| ==> !Leaves(s, steps[i])
  }

  ghost predicate NoOlderDecided(s: System) {
    forall h: u64 :: h < s.core.generation ==> h !in s.decided
  }

  lemma OlderStepKeepsOwners(s: System, step: Step)
    requires Issued(s) && IsJoin(s, s.core.generation)
    requires Actor(step).Some? && Actor(step).value < s.core.generation && !Leaves(s, step)
    ensures Next(s, step).bumps == s.bumps && IsJoin(Next(s, step), s.core.generation)
    ensures Next(s, step).decided == s.decided
  {
  }

  lemma OlderStepKeepsCall(s: System, step: Step)
    requires Issued(s) && SlotSafe(s) && DataSafe(s) && IsJoin(s, s.core.generation)
    requires Actor(step).Some? && Actor(step).value < s.core.generation && !Leaves(s, step)
    ensures SameCall(s.core, Next(s, step).core)
  {
    hide OwnersAfter, RunsAfter, DecidedAfter, OfJoin;
    if step.LeaveDecided? || step.DecideLeave? {
      assert Next(s, step) == s;
    }
  }

  // An older step keeps a current join, and decides nothing, unless it is a decided leave.
  lemma OlderStepIsHarmless(s: System, step: Step)
    requires Inv(s) && IsJoin(s, s.core.generation) && s.bumps < TWO_TO_64
    requires Actor(step).Some? && Actor(step).value < s.core.generation && !Leaves(s, step)
    ensures SameCall(s.core, Next(s, step).core)
    ensures Next(s, step).bumps == s.bumps && IsJoin(Next(s, step), s.core.generation)
    ensures Next(s, step).decided == s.decided && Inv(Next(s, step))
  {
    OlderStepKeepsOwners(s, step);
    OlderStepKeepsCall(s, step);
    hide Next, SameCall;
    RunOne(s, step);
    RunKeepsInv(s, [step]);
  }

  lemma {:induction false} OlderRunIsHarmless(s: System, steps: seq<Step>)
    requires Inv(s) && IsJoin(s, s.core.generation) && s.bumps < TWO_TO_64
    requires ByOlder(steps, s.core.generation) && NoneLeaves(s, steps)
    ensures SameCall(s.core, Run(s, steps).core)
    ensures Run(s, steps).bumps == s.bumps
    decreases |steps|
  {
    if steps != [] {
      OlderStepIsHarmless(s, steps[0]);
      hide Inv, Next;
      OlderRunIsHarmless(Next(s, steps[0]), steps[1..]);
    }
  }

  lemma {:induction false} DecidedLeaveBumps(s: System, steps: seq<Step>, i: nat)
    requires Inv(s) && IsJoin(s, s.core.generation) && s.bumps < TWO_TO_64
    requires ByOlder(steps, s.core.generation) && i < |steps| && Leaves(s, steps[i])
    ensures Run(s, steps).bumps > s.bumps
    decreases |steps|
  {
    var next := Next(s, steps[0]);
    if Leaves(s, steps[0]) {
      assert next.bumps == s.bumps + 1;
      hide Inv, Next;
      BumpsGrow(next, steps[1..]);
    } else {
      OlderStepIsHarmless(s, steps[0]);
      hide Inv, Next;
      assert steps[i] == steps[1..][i - 1];
      DecidedLeaveBumps(next, steps[1..], i - 1);
    }
  }

  // A run of leaves, dropped joins, installs, join responses, reconnect runs and
  // decisions of older generations keeps state, events, the origin of the call data,
  // reconnect claim and connection of a current join exactly if none of them calls
  // `leave` after a check it passed before that join began.
  lemma OlderRunIsHarmlessIff(s: System, steps: seq<Step>)
    requires Inv(s) && IsJoin(s, s.core.generation)
    requires ByOlder(steps, s.core.generation) && Run(s, steps).bumps < TWO_TO_64
    ensures SameCall(s.core, Run(s, steps).core) <==> NoneLeaves(s, steps)
  {
    BumpsGrow(s, steps);
    if NoneLeaves(s, steps) {
      OlderRunIsHarmless(s, steps);
    } else {
      var i :| 0 <= i < |steps| && Leaves(s, steps[i]);
      DecidedLeaveBumps(s, steps, i);
      RunKeepsInv(s, steps);
      hide Run, Next;
    }
  }

  // So a current join is safe from everything older exactly if no older actor has
  // decided to leave and not yet left. LifecycleEvents adds what event loops write.
  lemma OlderActorsAreHarmlessIff(s: System)
    requires Inv(s) && IsJoin(s, s.core.generation) && s.bumps < TWO_TO_64
    ensures NoOlderDecided(s) <==>
      forall steps :: ByOlder(steps, s.core.generation) ==> SameCall(s.core, Run(s, steps).core)
  {
    hide Inv;
    if NoOlderDecided(s) {
      forall steps | ByOlder(steps, s.core.generation)
        ensures SameCall(s.core, Run(s, steps).core)
      {
        OlderRunIsHarmless(s, steps);
      }
    } else {
      var h: u64 :| h < s.core.generation && h in s.decided;
      RunOne(s, LeaveDecided(h));
      assert ByOlder([LeaveDecided(h)], s.core.generation);
      assert !SameCall(s.core, Run(s, [LeaveDecided(h)]).core);
    }
  }

  lemma LeaveSteps(s: System, leave: u64)
    requires IsLeave(s, leave) && s.core.installer == None
    ensures var taken := Next(s, TakeConnection(leave));
      && taken.core == AfterTake(s.core, leave) && IsLeave(taken, leave)
      && taken.bumps == s.bumps && taken.decided == s.decided
    ensures var cleared := Next(s, ClearCall(leave));
      && cleared.core == AfterClearForLeave(s.core, leave) && IsLeave(cleared, leave)
      && cleared.owners[leave].cleared && cleared.bumps == s.bumps && cleared.decided == s.decided
    ensures s.owners[leave].cleared ==>
      var finished := Next(s, FinishLeave(leave));
      && finished.core == AfterSetStateIfCurrent(s.core, leave, Left)
      && finished.bumps == s.bumps && finished.decided == s.decided
  {
  }

  // The rest of a leave that nothing overtakes.
  lemma LeaveEnds(s: System, leave: u64)
    requires IsLeave(s, leave) && s.core.generation == leave && s.core.installer == None
    requires s.core.slot.Some? ==> s.core.slot.value.generation < leave
    ensures var end := Run(s, [TakeConnection(leave), ClearCall(leave), FinishLeave(leave)]);
      && end.core == WithState(Cleared(s.core.(slot := None)), Left)
      && end.bumps == s.bumps && end.decided == s.decided
  {
    hide Next, Run;
    var taken := Next(s, TakeConnection(leave));
    LeaveSteps(s, leave);
    LeaveSteps(taken, leave);
    LeaveSteps(Next(taken, ClearCall(leave)), leave);
    RunThree(s, TakeConnection(leave), ClearCall(leave), FinishLeave(leave));
  }

  lemma RunThree(s: System, a: Step, b: Step, c: Step)
    ensures Run(s, [a, b, c]) == Next(Next(Next(s, a), b), c)
  {
    hide Next;
    assert [a, b, c][1..] == [b, c];
    RunTwo(Next(s, a), b, c);
  }

  lemma RunFirst(s: System, a: Step, steps: seq<Step>)
    ensures Run(s, [a] + steps) == Run(Next(s, a), steps)
  {
    hide Next;
    RunSplits(s, [a], steps);
    RunOne(s, a);
  }

  lemma DecidedLeaveBegins(s: System, h: u64)
    requires Inv(s) && h in s.decided && s.bumps + 1 < TWO_TO_64
    ensures var left := Next(s, LeaveDecided(h));
      && left.core == AfterCancel(s.core) && IsLeave(left, left.core.generation)
      && (s.core.slot.Some? ==> s.core.slot.value.generation < left.core.generation)
  {
    hide DataSafe, RunsSafe, StateSafe, EventsSafe;
  }

  // What such a leave does: it ends the current join.
  lemma OlderDecisionEndsJoin(s: System, h: u64)
    requires Inv(s) && IsJoin(s, s.core.generation) && s.bumps + 1 < TWO_TO_64
    requires h in s.decided && s.core.installer == None
    ensures var leave := Bumped(s.core.generation);
      var end := Run(s, [LeaveDecided(h), TakeConnection(leave), ClearCall(leave), FinishLeave(leave)]).core;
      end.generation == leave && end.state == Left && end.slot == None && end.callData == None && end.claim == None
  {
    var leave := Bumped(s.core.generation);
    var rest := [TakeConnection(leave), ClearCall(leave), FinishLeave(leave)];
    assert [LeaveDecided(h)] + rest == [LeaveDecided(h), TakeConnection(leave), ClearCall(leave), FinishLeave(leave)];
    var left := Next(s, LeaveDecided(h));
    DecidedLeaveBegins(s, h);
    hide Inv, Next, Run, IsLeave;
    RunFirst(s, LeaveDecided(h), rest);
    LeaveEnds(left, leave);
  }

  const FIRST_CALL := [BeginJoin, ApplyCallState(1), SetState(1, Joined), DecideLeave(1)]
  const FIRST_LEAVE := [BeginLeave, TakeConnection(2), ClearCall(2), FinishLeave(2)]
  const NEXT_CALL := [BeginJoin, CheckInstall(3), Install(3), ApplyCallState(3)]

  // Such a state is reached: an actor of the first join decided to leave, the call was
  // left and joined again, and the response of that join was applied.
  lemma OlderDecisionIsReached()
    ensures var s := Run(START, FIRST_CALL + FIRST_LEAVE + NEXT_CALL);
      && s.bumps == s.core.generation == 3 && IsJoin(s, 3) && 1 in s.decided
      && s.core.slot == Some(Connection(3)) && s.core.installer == None && s.core.callData == Some(3)
  {
    FirstCall();
    FirstLeave(Run(START, FIRST_CALL));
    NextCall(Run(Run(START, FIRST_CALL), FIRST_LEAVE));
    hide Next, Run;
    RunSplits(START, FIRST_CALL + FIRST_LEAVE, NEXT_CALL);
    RunSplits(START, FIRST_CALL, FIRST_LEAVE);
  }

  ghost predicate IsAt(s: System, core: Core, bumps: nat) {
    s.core == core && s.bumps == bumps && s.decided == multiset{1}
  }

  lemma FirstJoin()
    ensures var applied := Next(Next(START, BeginJoin), ApplyCallState(1));
      && applied.core == Core(Joining, 1, [Joining], None, None, None, Some(1))
      && applied.bumps == 1 && IsJoin(applied, 1) && applied.decided == multiset{}
  {
    var begun := Next(START, BeginJoin);
    assert begun.core == Core(Joining, 1, [Joining], None, None, None, None) && begun.bumps == 1 && IsJoin(begun, 1);
  }

  lemma FirstCall()
    ensures IsAt(Run(START, FIRST_CALL), Core(Joined, 1, [Joining, Joined], None, None, None, Some(1)), 1)
  {
    assert FIRST_CALL == [BeginJoin] + [ApplyCallState(1), SetState(1, Joined), DecideLeave(1)];
    RunFirst(START, BeginJoin, [ApplyCallState(1), SetState(1, Joined), DecideLeave(1)]);
    RunThree(Next(START, BeginJoin), ApplyCallState(1), SetState(1, Joined), DecideLeave(1));
    hide Run;
    FirstJoin();
    JoinedDecides(Next(Next(START, BeginJoin), ApplyCallState(1)));
    hide Next;
  }

  lemma JoinedDecides(s: System)
    requires s.core == Core(Joining, 1, [Joining], None, None, None, Some(1))
    requires s.bumps == 1 && IsJoin(s, 1) && s.decided == multiset{}
    ensures IsAt(Next(Next(s, SetState(1, Joined)), DecideLeave(1)),
                 Core(Joined, 1, [Joining, Joined], None, None, None, Some(1)), 1)
  {
    var joined := Next(s, SetState(1, Joined));
    assert joined == s.(core := s.core.(state := Joined, events := [Joining, Joined]));
  }

  lemma LeaveIsIssued(s: System)
    ensures var begun := Next(s, BeginLeave);
      && begun.core == AfterCancel(s.core) && begun.bumps == s.bumps + 1
      && IsLeave(begun, begun.core.generation) && begun.decided == s.decided
  {
  }

  lemma FirstLeave(s: System)
    requires IsAt(s, Core(Joined, 1, [Joining, Joined], None, None, None, Some(1)), 1)
    ensures IsAt(Run(s, FIRST_LEAVE), Core(Left, 2, [Joining, Joined, Left], None, None, None, None), 2)
  {
    var begun := Next(s, BeginLeave);
    LeaveIsIssued(s);
    hide Next, Run, IsLeave;
    assert FIRST_LEAVE == [BeginLeave] + [TakeConnection(2), ClearCall(2), FinishLeave(2)];
    RunFirst(s, BeginLeave, [TakeConnection(2), ClearCall(2), FinishLeave(2)]);
    LeaveEnds(begun, 2);
  }

  lemma NextCall(s: System)
    requires IsAt(s, Core(Left, 2, [Joining, Joined, Left], None, None, None, None), 2)
    ensures var end := Run(s, NEXT_CALL);
      && end.bumps == end.core.generation == 3 && IsJoin(end, 3) && 1 in end.decided
      && end.core.slot == Some(Connection(3)) && end.core.installer == None && end.core.callData == Some(3)
  {
    var begun := Next(s, BeginJoin);
    assert begun.core == Core(Joining, 3, [Joining, Joined, Left, Joining], None, None, None, None);
    assert begun.bumps == 3 && IsJoin(begun, 3) && begun.decided == multiset{1};
    hide Run;
    assert NEXT_CALL == [BeginJoin] + [CheckInstall(3), Install(3), ApplyCallState(3)];
    RunFirst(s, BeginJoin, [CheckInstall(3), Install(3), ApplyCallState(3)]);
    RunThree(begun, CheckInstall(3), Install(3), ApplyCallState(3));
    var checked := Next(begun, CheckInstall(3));
    assert checked == begun.(core := begun.core.(installer := Some(3)));
  }

  // From the start of a call on: what a leave overtaken by a later join still does, or
  // any other older actor, leaves that join alone unless it is a decided leave.
  lemma LeaveOvertakenByJoin(before: seq<Step>, late: seq<Step>)
    requires Run(START, before + late).bumps < TWO_TO_64
    requires var s := Run(START, before); IsJoin(s, s.core.generation) && ByOlder(late, s.core.generation)
    ensures SameCall(Run(START, before).core, Run(START, before + late).core)
       <==> NoneLeaves(Run(START, before), late)
  {
    RunSplits(START, before, late);
    BumpsGrow(Run(START, before), late);
    Reachable(before);
    OlderRunIsHarmlessIff(Run(START, before), late);
  }

  // The broadcast events never repeat a value, and the last one is the state.
  lemma EventsFollowState(steps: seq<Step>)
    requires Run(START, steps).bumps < TWO_TO_64
    ensures var c := Run(START, steps).core;
            && (c.events == [] ==> c.state == Idle)
            && (c.events != [] ==> c.events[0] != Idle && c.state == c.events[|c.events| - 1])
            && forall i :: 0 < i < |c.events| ==> c.events[i - 1] != c.events[i]
  {
    Reachable(steps);
  }

  // At most one reconnect run of a generation is alive, a run that is not the
  // current join's never clears its claim, and a claim left behind never stops
  // the current join: it can claim exactly when no run of its own is alive.
  lemma OneReconnectRun(steps: seq<Step>)
    requires Run(START, steps).bumps < TWO_TO_64
    ensures var s := Run(START, steps); var g := s.core.generation;
            && (forall h: u64 :: s.runs[h] <= 1)
            && (forall h: u64 :: h != g && IsJoin(s, g) ==> Next(s, ReleaseReconnect(h)).core == s.core)
            && (IsJoin(s, g) ==> (Enabled(s, ClaimReconnect(g)) <==> s.runs[g] == 0))
  {
    Reachable(steps);
    var s := Run(START, steps);
    forall h: u64 | h != s.core.generation && IsJoin(s, s.core.generation)
      ensures Next(s, ReleaseReconnect(h)).core == s.core
    {
      assert s.core.claim != Some(h);
    }
    hide Run, OwnersAfter, DecidedAfter, SlotSafe, StateSafe, EventsSafe;
  }

  // ---- The 64-bit counter ----------------------------------------------

  // The teardown compares generations with `<`. A leave that follows at once
  // therefore empties the slot exactly when its bump does not wrap to 0.
  lemma TeardownEmptiesSlotIff(steps: seq<Step>)
    requires Run(START, steps).bumps < TWO_TO_64
    requires Run(START, steps).core.slot.Some? && Run(START, steps).core.installer == None
    ensures var s := Run(START, steps); var leave := Bumped(s.core.generation);
            Run(s, [BeginLeave, TakeConnection(leave)]).core.slot == None <==> s.bumps + 1 < TWO_TO_64
  {
    Reachable(steps);
    var s := Run(START, steps);
    var leave := Bumped(s.core.generation);
    RunTwo(s, BeginLeave, TakeConnection(leave));
  }

  function ManyLeaves(n: nat): seq<Step> {
    seq(n, _ => BeginLeave)
  }

  lemma {:induction false} AfterLeaves(n: nat)
    requires n < TWO_TO_64
    ensures Run(START, ManyLeaves(n)).core == FRESH.(generation := n)
    ensures Run(START, ManyLeaves(n)).bumps == n
  {
    if n > 0 {
      AfterLeaves(n - 1);
      assert ManyLeaves(n) == ManyLeaves(n - 1) + [BeginLeave];
      RunSplits(START, ManyLeaves(n - 1), [BeginLeave]);
      assert [BeginLeave][1..] == [];
    }
  }

  // The condition fails in a real run: the leave that wraps the counter to 0
  // leaves the connection of generation 2^64 - 1 in the slot.
  lemma WrappedLeaveKeepsConnection()
    ensures var last: u64 := TWO_TO_64 - 1;
            var joined := ManyLeaves(TWO_TO_64 - 2) + [BeginJoin, CheckInstall(last), Install(last)];
            var s := Run(START, joined + [BeginLeave, TakeConnection(0)]);
            s.core.slot == Some(Connection(last)) && IsLeave(s, 0) && s.owners[0].taken
  {
    var last: u64 := TWO_TO_64 - 1;
    var n: nat := TWO_TO_64 - 2;
    AfterLeaves(n);
    var s := Run(START, ManyLeaves(n));
    var join := [BeginJoin, CheckInstall(last), Install(last)];
    LastJoin(s);
    var joined := Run(s, join);
    RunSplits(START, ManyLeaves(n), join);
    RunSplits(START, ManyLeaves(n) + join, [BeginLeave, TakeConnection(0)]);
    hide Next, Run;
    RunTwo(joined, BeginLeave, TakeConnection(0));
    LeaveOfZero(joined);
  }

  lemma LastJoin(s: System)
    requires s.core == FRESH.(generation := TWO_TO_64 - 2)
    ensures var last: u64 := TWO_TO_64 - 1;
            Run(s, [BeginJoin, CheckInstall(last), Install(last)]).core
            == Core(Joining, last, [Joining], Some(Connection(last)), None, None, None)
  {
    var last: u64 := TWO_TO_64 - 1;
    var join := [BeginJoin, CheckInstall(last), Install(last)];
    assert join[1..] == [CheckInstall(last), Install(last)];
    RunTwo(Next(s, BeginJoin), CheckInstall(last), Install(last));
    var begun := Next(s, BeginJoin);
    assert begun.core == Core(Joining, last, [Joining], None, None, None, None) && IsJoin(begun, last);
    var checked := Next(begun, CheckInstall(last));
    assert checked.core == begun.core.(installer := Some(last)) && IsJoin(checked, last);
  }

  lemma LeaveOfZero(s: System)
    requires var last: u64 := TWO_TO_64 - 1;
             s.core == Core(Joining, last, [Joining], Some(Connection(last)), None, None, None)
    ensures var end := Next(Next(s, BeginLeave), TakeConnection(0));
            end.core.slot == s.core.slot && IsLeave(end, 0) && end.owners[0].taken
  {
  }
}
