// Every interleaving of joins, leaves, dropped joins and reconnect runs. Each
// generation is issued to exactly one operation, so the actors are keyed by the
// generation they captured. An actor may take any of its steps at any time and
// any number of times, so the runs here include all those of the source.
module LifecycleRuns {
  import opened Wrappers
  import opened Lifecycle

  //  - `taken`: the teardown of the leave went through the connection slot.
  //  - `cleared`: the leave passed the clearing section of `finish_leave`.
  //  - `finished`: the leave passed the final state change of `finish_leave`.
  // A dropped `leave` finishes before its teardown task has run, so `taken` and
  // `finished` come in either order.
  datatype Owner = Join | Leave(taken: bool, cleared: bool, finished: bool) | Abandoned

  //  - `runs` counts the live reconnect runs of each generation.
  //  - `bumps` counts the generations issued, without the wrap of 64 bits.
  //  - `decided` holds the actors of a join that found its generation current and are
  //    going to call `leave`: a reconnect run at one of its limits, the task of a
  //    Disconnect, the task of an end report. `leave` does not check again.
  datatype System = System(
    core: Core, owners: map<u64, Owner>, runs: multiset<u64>, bumps: nat, decided: multiset<u64>)

  const START := System(FRESH, map[], multiset{}, 0, multiset{})

  datatype Step =
    | BeginJoin
    | ApplyCallState(join: u64)
    | CheckInstall(join: u64)
    | Install(join: u64)
    | SetState(join: u64, next: CallingState)
    | AbandonJoin(join: u64)
    | ClaimReconnect(join: u64)
    | ReleaseReconnect(join: u64)
    | DecideLeave(join: u64)
    | LeaveDecided(join: u64)
    | BeginLeave
    | TakeConnection(leave: u64)
    | ClearCall(leave: u64)
    | FinishLeave(leave: u64)

  predicate IsJoin(s: System, g: u64) {
    g in s.owners && s.owners[g].Join?
  }

  predicate IsLeave(s: System, g: u64) {
    g in s.owners && s.owners[g].Leave?
  }

  // The states that joins and reconnect runs set.
  predicate JoinSets(next: CallingState) {
    next != Joining && next != Left
  }

  predicate Enabled(s: System, step: Step) {
    match step
    case BeginJoin => MayBeginJoin(s.core)
    case ApplyCallState(g) => IsJoin(s, g)
    case CheckInstall(g) => IsJoin(s, g) && s.core.installer == None
    case Install(g) => IsJoin(s, g) && s.core.installer == Some(g)
    case SetState(g, next) => IsJoin(s, g) && JoinSets(next)
    case AbandonJoin(g) => IsJoin(s, g) && MayAbandon(s.core, g)
    case ClaimReconnect(g) => IsJoin(s, g) && MayClaim(s.core, g)
    case ReleaseReconnect(g) => s.runs[g] > 0
    case DecideLeave(g) => IsJoin(s, g) && s.core.generation == g
    case LeaveDecided(g) => g in s.decided
    case BeginLeave => true
    case TakeConnection(l) => IsLeave(s, l) && s.core.installer == None
    case ClearCall(l) => IsLeave(s, l)
    case FinishLeave(l) => IsLeave(s, l) && s.owners[l].cleared
  }

  function CoreAfter(c: Core, step: Step): Core {
    match step
    case BeginJoin => AfterBeginJoin(c)
    case ApplyCallState(g) => AfterApplyCallState(c, g)
    case CheckInstall(g) => AfterInstallCheck(c, g)
    case Install(g) => AfterInstall(c, g)
    case SetState(g, next) => AfterSetStateIfCurrent(c, g, next)
    case AbandonJoin(g) => AfterAbandon(c, g)
    case ClaimReconnect(g) => AfterClaim(c, g)
    case ReleaseReconnect(g) => AfterRelease(c, g)
    case DecideLeave(g) => c
    case LeaveDecided(_) | BeginLeave => AfterCancel(c)
    case TakeConnection(l) => AfterTake(c, l)
    case ClearCall(l) => AfterClearForLeave(c, l)
    case FinishLeave(l) => AfterSetStateIfCurrent(c, l, Left)
  }

  // The owner of the generation that a step issues.
  function NewOwner(step: Step): Option<Owner> {
    match step
    case BeginJoin => Some(Join)
    case AbandonJoin(_) => Some(Abandoned)
    case LeaveDecided(_) | BeginLeave => Some(Leave(false, false, false))
    case _ => None
  }

  // How far a leave is after its own step.
  function Progress(o: Owner, step: Step): Owner
    requires o.Leave?
  {
    match step
    case TakeConnection(_) => o.(taken := true)
    case ClearCall(_) => o.(cleared := true)
    case FinishLeave(_) => o.(finished := true)
    case _ => o
  }

  function LeaveOf(step: Step): Option<u64> {
    match step
    case TakeConnection(l) => Some(l)
    case ClearCall(l) => Some(l)
    case FinishLeave(l) => Some(l)
    case _ => None
  }

  function OwnersAfter(s: System, step: Step): map<u64, Owner>
    requires Enabled(s, step)
  {
    if NewOwner(step).Some? then s.owners[CoreAfter(s.core, step).generation := NewOwner(step).value]
    else if LeaveOf(step).Some? then s.owners[LeaveOf(step).value := Progress(s.owners[LeaveOf(step).value], step)]
    else s.owners
  }

  function RunsAfter(s: System, step: Step): multiset<u64> {
    match step
    case ClaimReconnect(g) => s.runs + multiset{g}
    case ReleaseReconnect(g) => s.runs - multiset{g}
    case _ => s.runs
  }

  function DecidedAfter(s: System, step: Step): multiset<u64> {
    match step
    case DecideLeave(g) => s.decided + multiset{g}
    case LeaveDecided(g) => s.decided - multiset{g}
    case _ => s.decided
  }

  function Next(s: System, step: Step): System {
    if !Enabled(s, step) then s
    else
      System(CoreAfter(s.core, step), OwnersAfter(s, step), RunsAfter(s, step),
             s.bumps + (if NewOwner(step).Some? then 1 else 0), DecidedAfter(s, step))
  }

  function Run(s: System, steps: seq<Step>): System
    decreases |steps|
  {
    if steps == [] then s else Run(Next(s, steps[0]), steps[1..])
  }

  lemma {:induction false} RunSplits(s: System, front: seq<Step>, back: seq<Step>)
    ensures Run(s, front + back) == Run(Run(s, front), back)
    decreases |front|
  {
    if front == [] {
      assert front + back == back;
    } else {
      RunSplits(Next(s, front[0]), front[1..], back);
      assert (front + back)[1..] == front[1..] + back;
    }
  }

  lemma RunOne(s: System, a: Step)
    ensures Run(s, [a]) == Next(s, a)
  {
    assert [a][1..] == [];
  }

  lemma RunTwo(s: System, a: Step, b: Step)
    ensures Run(s, [a, b]) == Next(Next(s, a), b)
  {
    assert [a, b][1..] == [b];
    RunOne(Next(s, a), b);
  }

  // ---- The invariant ---------------------------------------------------

  // Generations are issued in order and the counter has not wrapped.
  ghost predicate Issued(s: System) {
    && s.core.generation == s.bumps
    && forall g: u64 :: g in s.owners <==> 1 <= g <= s.bumps
  }

  ghost predicate OfJoin(s: System, holder: Option<u64>) {
    holder.Some? ==> IsJoin(s, holder.value)
  }

  ghost predicate SlotSafe(s: System) {
    && (s.core.slot.Some? ==> IsJoin(s, s.core.slot.value.generation))
    && OfJoin(s, s.core.installer)
    && (s.core.slot.Some? && s.core.installer.Some?
        ==> s.core.slot.value.generation <= s.core.installer.value)
    && forall l: u64 :: IsLeave(s, l) && s.owners[l].taken ==> NothingBefore(s.core, l)
  }

  // Nothing older than `g` is in the connection slot or on its way into it.
  ghost predicate NothingBefore(c: Core, g: u64) {
    && (c.slot.Some? ==> c.slot.value.generation > g)
    && (c.installer.Some? ==> c.installer.value > g)
  }

  // A current join sees only its own call data and its own reconnect claim.
  ghost predicate DataSafe(s: System) {
    HeldSafely(s, s.core.callData) && HeldSafely(s, s.core.claim)
  }

  ghost predicate HeldSafely(s: System, holder: Option<u64>) {
    && OfJoin(s, holder)
    && (IsJoin(s, s.core.generation) && holder.Some? ==> holder.value == s.core.generation)
  }

  ghost predicate RunsSafe(s: System) {
    && (forall g: u64 :: s.runs[g] <= 1 && (s.runs[g] > 0 ==> IsJoin(s, g)))
    && (s.runs[s.core.generation] > 0 <==> s.core.claim == Some(s.core.generation))
  }

  ghost predicate StateSafe(s: System) {
    IdleSafe(s) && LeftSafe(s)
  }

  ghost predicate IdleSafe(s: System) {
    var g := s.core.generation;
    && (g == 0 ==> s.core.state == Idle)
    && (g in s.owners && s.owners[g].Abandoned? ==> s.core.state == Idle)
  }

  ghost predicate LeftSafe(s: System) {
    var g := s.core.generation;
    && (IsLeave(s, g) && s.owners[g].cleared ==> s.core.callData == None && s.core.claim == None)
    && (IsLeave(s, g) && s.owners[g].finished ==> s.owners[g].cleared && s.core.state == Left)
  }

  ghost predicate EventsSafe(c: Core) {
    && c.state == (if c.events == [] then Idle else c.events[|c.events| - 1])
    && (c.events != [] ==> c.events[0] != Idle)
    && forall i :: 0 < i < |c.events| ==> c.events[i - 1] != c.events[i]
  }

  ghost predicate Inv(s: System) {
    Issued(s) && SlotSafe(s) && DataSafe(s) && RunsSafe(s) && StateSafe(s) && EventsSafe(s.core)
  }

  lemma BumpsGrow(s: System, steps: seq<Step>)
    ensures s.bumps <= Run(s, steps).bumps
    decreases |steps|
  {
    if steps != [] {
      BumpsGrow(Next(s, steps[0]), steps[1..]);
    }
  }

  // A step issues no generation or the next one.
  lemma StepIs(s: System, step: Step)
    requires Enabled(s, step)
    ensures CoreAfter(s.core, step).generation
         == if NewOwner(step).Some? then Bumped(s.core.generation) else s.core.generation
    ensures LeaveOf(step).Some? ==> IsLeave(s, LeaveOf(step).value)
  {
  }

  lemma StepIssues(s: System, step: Step)
    ensures var next := Next(s, step); var g := next.core.generation;
      if next.bumps == s.bumps then g == s.core.generation && next.owners.Keys == s.owners.Keys
      else
        && next.bumps == s.bumps + 1 && g == Bumped(s.core.generation)
        && next.owners.Keys == s.owners.Keys + {g}
  {
    if Enabled(s, step) {
      StepIs(s, step);
    }
    hide Enabled, CoreAfter, RunsAfter, DecidedAfter;
  }

  lemma StepKeepsIssued(s: System, step: Step)
    requires Issued(s) && Next(s, step).bumps < TWO_TO_64
    ensures Issued(Next(s, step))
  {
    StepIssues(s, step);
    hide Next;
  }

  // Issued generations keep their kind of owner; a step issues at most the
  // generation after the current one.
  lemma OwnersKeep(s: System, step: Step)
    requires Issued(s) && Next(s, step).bumps < TWO_TO_64
    ensures forall g: u64 :: IsJoin(s, g) ==> IsJoin(Next(s, step), g)
    ensures forall g: u64 :: g <= s.bumps && IsJoin(Next(s, step), g) ==> IsJoin(s, g)
    ensures forall g: u64 :: g <= s.bumps && IsLeave(Next(s, step), g) ==>
              && IsLeave(s, g)
              && (Next(s, step).owners[g].taken ==> s.owners[g].taken || step == TakeConnection(g))
    ensures forall g: u64 :: g > s.bumps && IsLeave(Next(s, step), g) ==> !Next(s, step).owners[g].taken
  {
    if Enabled(s, step) {
      StepIs(s, step);
    }
    hide Enabled, CoreAfter, RunsAfter, DecidedAfter;
  }

  // A step empties the slot, puts the waiting connection into it, or lets the current
  // join wait for it.
  lemma SlotMoves(s: System, step: Step)
    ensures var c := s.core; var d := Next(s, step).core;
      && (d.slot == c.slot || d.slot == None
          || (c.installer.Some? && d.slot == Some(Connection(c.installer.value)) && d.installer == None))
      && (d.installer == c.installer || d.installer == None
          || (c.installer == None && d.installer == Some(c.generation) && IsJoin(s, c.generation)))
  {
    hide OwnersAfter, RunsAfter, DecidedAfter, MayBeginJoin;
  }

  lemma TakeLeavesNewer(s: System, l: u64)
    requires SlotSafe(s) && IsLeave(s, l) && Enabled(s, TakeConnection(l))
    ensures NothingBefore(Next(s, TakeConnection(l)).core, l)
  {
    hide OwnersAfter;
  }

  // A leave that went through the slot stays ahead of everything in it.
  lemma StepKeepsTaken(s: System, step: Step, l: u64)
    requires Issued(s) && SlotSafe(s) && Next(s, step).bumps < TWO_TO_64
    requires IsLeave(Next(s, step), l) && Next(s, step).owners[l].taken
    ensures NothingBefore(Next(s, step).core, l)
  {
    OwnersKeep(s, step);
    assert l <= s.bumps && IsLeave(s, l);
    if s.owners[l].taken {
      SlotMoves(s, step);
      assert NothingBefore(s.core, l);
    } else {
      assert Enabled(s, step);
      TakeLeavesNewer(s, l);
    }
    hide Next, Enabled;
  }

  lemma StepKeepsSlotOwners(s: System, step: Step)
    requires Issued(s) && SlotSafe(s) && Next(s, step).bumps < TWO_TO_64
    ensures var c := Next(s, step).core;
            && (c.slot.Some? ==> IsJoin(Next(s, step), c.slot.value.generation))
            && OfJoin(Next(s, step), c.installer)
            && (c.slot.Some? && c.installer.Some? ==> c.slot.value.generation <= c.installer.value)
  {
    OwnersKeep(s, step);
    SlotMoves(s, step);
    hide Next, NothingBefore;
  }

  lemma StepKeepsSlot(s: System, step: Step)
    requires Issued(s) && SlotSafe(s) && Next(s, step).bumps < TWO_TO_64
    ensures SlotSafe(Next(s, step))
  {
    StepKeepsSlotOwners(s, step);
    forall l: u64 | IsLeave(Next(s, step), l) && Next(s, step).owners[l].taken
      ensures NothingBefore(Next(s, step).core, l)
    {
      StepKeepsTaken(s, step, l);
    }
    hide Next, OfJoin, IsJoin, Issued, NothingBefore;
  }

  // The owner of the current generation after a step.
  lemma CurrentOwner(s: System, step: Step)
    requires Enabled(s, step)
    ensures LeaveOf(step).Some? ==> IsLeave(s, LeaveOf(step).value)
    ensures var next := Next(s, step); var g := next.core.generation;
      if NewOwner(step).Some? then g in next.owners && next.owners[g] == NewOwner(step).value
      else
        && g == s.core.generation && (g in next.owners <==> g in s.owners)
        && (g in s.owners ==>
              next.owners[g] == if LeaveOf(step) == Some(g) then Progress(s.owners[g], step) else s.owners[g])
  {
    StepIs(s, step);
    hide CoreAfter, RunsAfter, DecidedAfter, Progress, NewOwner, LeaveOf;
  }

  // A new holder is the current join, and a join begins without one.
  ghost predicate HolderMoves(s: System, step: Step, before: Option<u64>, after: Option<u64>) {
    && (after == before || after == None
        || (NewOwner(step).None? && after == Some(s.core.generation) && IsJoin(s, s.core.generation)))
    && (NewOwner(step) == Some(Join) ==> after == None)
  }

  lemma HoldersMove(s: System, step: Step)
    requires Enabled(s, step)
    ensures HolderMoves(s, step, s.core.callData, CoreAfter(s.core, step).callData)
    ensures HolderMoves(s, step, s.core.claim, CoreAfter(s.core, step).claim)
  {
  }

  lemma StepKeepsHolder(s: System, step: Step, before: Option<u64>, after: Option<u64>)
    requires Issued(s) && HeldSafely(s, before) && Enabled(s, step) && Next(s, step).bumps < TWO_TO_64
    requires HolderMoves(s, step, before, after)
    ensures HeldSafely(Next(s, step), after)
  {
    OwnersKeep(s, step);
    CurrentOwner(s, step);
    hide Next, Enabled;
  }

  lemma StepKeepsData(s: System, step: Step)
    requires Issued(s) && DataSafe(s) && Next(s, step).bumps < TWO_TO_64
    ensures DataSafe(Next(s, step))
  {
    if Enabled(s, step) {
      HoldersMove(s, step);
      StepKeepsHolder(s, step, s.core.callData, CoreAfter(s.core, step).callData);
      StepKeepsHolder(s, step, s.core.claim, CoreAfter(s.core, step).claim);
    }
    hide Enabled, CoreAfter, OwnersAfter, RunsAfter, DecidedAfter, HeldSafely, HolderMoves, Issued;
  }

  lemma StepKeepsRunCounts(s: System, step: Step, g: u64)
    requires Issued(s) && DataSafe(s) && RunsSafe(s) && Next(s, step).bumps < TWO_TO_64
    ensures Next(s, step).runs[g] <= 1
    ensures Next(s, step).runs[g] > 0 ==> IsJoin(Next(s, step), g)
  {
    OwnersKeep(s, step);
  }

  // A new generation starts without runs and without a claim of its own.
  lemma IssueKeepsClaim(s: System, step: Step)
    requires Issued(s) && DataSafe(s) && RunsSafe(s) && s.bumps < Next(s, step).bumps < TWO_TO_64
    ensures var next := Next(s, step);
            next.runs[next.core.generation] == 0 && next.core.claim != Some(next.core.generation)
  {
    StepIs(s, step);
    HoldersMove(s, step);
    assert !IsJoin(s, Next(s, step).core.generation);
    hide Enabled, CoreAfter, OwnersAfter, DecidedAfter;
  }

  lemma ClaimMoves(s: System, step: Step)
    requires Enabled(s, step) && NewOwner(step).None?
    ensures var g := s.core.generation; var after := CoreAfter(s.core, step).claim;
      if step == ClaimReconnect(g) then after == Some(g)
      else if step == ReleaseReconnect(g) then after != Some(g)
      else (after == Some(g) <==> s.core.claim == Some(g)) || (after == None && IsLeave(s, g))
  {
  }

  lemma RunsMove(s: System, step: Step, g: u64)
    ensures RunsAfter(s, step)[g]
         == if step == ClaimReconnect(g) then s.runs[g] + 1
            else if step == ReleaseReconnect(g) && s.runs[g] > 0 then s.runs[g] - 1
            else s.runs[g]
  {
  }

  lemma StepKeepsClaim(s: System, step: Step)
    requires Issued(s) && DataSafe(s) && RunsSafe(s) && Next(s, step).bumps < TWO_TO_64
    ensures var next := Next(s, step);
            next.runs[next.core.generation] > 0 <==> next.core.claim == Some(next.core.generation)
  {
    if Next(s, step).bumps > s.bumps {
      IssueKeepsClaim(s, step);
    } else if Enabled(s, step) {
      StepIs(s, step);
      ClaimMoves(s, step);
      RunsMove(s, step, s.core.generation);
    }
    hide Enabled, CoreAfter, OwnersAfter, RunsAfter, DecidedAfter;
  }

  lemma StepKeepsRuns(s: System, step: Step)
    requires Issued(s) && DataSafe(s) && RunsSafe(s) && Next(s, step).bumps < TWO_TO_64
    ensures RunsSafe(Next(s, step))
  {
    StepKeepsClaim(s, step);
    forall g: u64
      ensures Next(s, step).runs[g] <= 1 && (Next(s, step).runs[g] > 0 ==> IsJoin(Next(s, step), g))
    {
      StepKeepsRunCounts(s, step, g);
    }
    hide Next, IsJoin, Issued, DataSafe;
  }

  // While a generation stays, only its owner changes the state, and a leave clears.
  lemma StateMoves(s: System, step: Step)
    requires Enabled(s, step)
    ensures var c := s.core; var d := CoreAfter(c, step);
      && (NewOwner(step).None? && d.state != c.state ==> IsJoin(s, c.generation) || step == FinishLeave(c.generation))
      && (NewOwner(step) == Some(Abandoned) ==> d.state == Idle)
      && (step == FinishLeave(c.generation) ==> d.state == Left)
      && (step == ClearCall(c.generation) ==> d.callData == None && d.claim == None)
  {
  }

  lemma StepKeepsIdle(s: System, step: Step)
    requires Issued(s) && IdleSafe(s) && Next(s, step).bumps < TWO_TO_64
    ensures IdleSafe(Next(s, step))
  {
    if Enabled(s, step) {
      StepIs(s, step);
      CurrentOwner(s, step);
      StateMoves(s, step);
    }
    hide CoreAfter, OwnersAfter, RunsAfter, DecidedAfter;
  }

  lemma StepKeepsLeft(s: System, step: Step)
    requires Issued(s) && LeftSafe(s) && Next(s, step).bumps < TWO_TO_64
    ensures LeftSafe(Next(s, step))
  {
    if Enabled(s, step) {
      StepIs(s, step);
      CurrentOwner(s, step);
      StateMoves(s, step);
      HoldersMove(s, step);
    }
    hide CoreAfter, OwnersAfter, RunsAfter, DecidedAfter;
  }

  lemma StepKeepsState(s: System, step: Step)
    requires Issued(s) && StateSafe(s) && Next(s, step).bumps < TWO_TO_64
    ensures StateSafe(Next(s, step))
  {
    StepKeepsIdle(s, step);
    StepKeepsLeft(s, step);
    hide Next, IdleSafe, LeftSafe;
  }

  lemma StepKeepsEvents(s: System, step: Step)
    requires EventsSafe(s.core)
    ensures EventsSafe(Next(s, step).core)
  {
    hide OwnersAfter, RunsAfter, DecidedAfter, Enabled;
  }

  lemma {:induction false} RunKeepsInv(s: System, steps: seq<Step>)
    requires Inv(s) && Run(s, steps).bumps < TWO_TO_64
    ensures Inv(Run(s, steps))
    decreases |steps|
  {
    if steps != [] {
      var next := Next(s, steps[0]);
      BumpsGrow(next, steps[1..]);
      StepKeepsIssued(s, steps[0]);
      StepKeepsSlot(s, steps[0]);
      StepKeepsData(s, steps[0]);
      StepKeepsRuns(s, steps[0]);
      StepKeepsState(s, steps[0]);
      StepKeepsEvents(s, steps[0]);
      RunKeepsInv(next, steps[1..]);
    }
  }
}
