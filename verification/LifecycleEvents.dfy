// Event loops beside the lifecycle. A handler checks its generation without a lock
// that it keeps, and writes the participants or marks the call ended later, so a
// handler of an older generation can write into the call of a join begun meanwhile. The
// task that leaves an ended call checks and leaves in two steps as well.
module LifecycleEvents {
  import opened Wrappers
  import opened Lifecycle
  import opened LifecycleRuns
  import opened LifecycleTheorems

  //  - `roster`: the generations whose join response or events are in the participants,
  //    as often as they wrote; every write counts as a change.
  //  - `ended`: the generation whose end report marked the call as ended.
  //  - `writing`, `ending`: handlers past their check that have not written yet.
  //  - `tasks`: the tasks that end reports started to leave the call, before they check.
  datatype World = World(
    base: System, roster: multiset<u64>, ended: Option<u64>,
    writing: multiset<u64>, ending: multiset<u64>, tasks: multiset<u64>)

  datatype Event =
    | Base(step: Step)
    | CheckEvent(loop: u64)
    | WriteEvent(loop: u64)
    | CheckEnd(loop: u64)
    | MarkEnd(loop: u64)
    | CheckTask(loop: u64)

  predicate LoopIsCurrent(w: World, g: u64) {
    IsJoin(w.base, g) && w.base.core.generation == g
  }

  // The steps that empty or replace the call data.
  function WithBase(w: World, step: Step): World {
    var base := Next(w.base, step);
    if !Enabled(w.base, step) then w
    else if step.ApplyCallState? && w.base.core.generation == step.join then
      w.(base := base, roster := multiset{step.join}, ended := None)
    else if step.BeginJoin? || (step.ClearCall? && w.base.core.generation == step.leave) then
      w.(base := base, roster := multiset{}, ended := None)
    else w.(base := base)
  }

  function After(w: World, e: Event): World {
    match e
    case Base(step) => WithBase(w, step)
    case CheckEvent(g) => if LoopIsCurrent(w, g) then w.(writing := w.writing + multiset{g}) else w
    case WriteEvent(g) =>
      if g in w.writing then w.(roster := w.roster + multiset{g}, writing := w.writing - multiset{g}) else w
    case CheckEnd(g) => if LoopIsCurrent(w, g) then w.(ending := w.ending + multiset{g}) else w
    case MarkEnd(g) =>
      if g !in w.ending then w
      else if w.ended.Some? then w.(ending := w.ending - multiset{g})
      else w.(ended := Some(g), ending := w.ending - multiset{g}, tasks := w.tasks + multiset{g})
    case CheckTask(g) =>
      if g !in w.tasks then w else WithBase(w.(tasks := w.tasks - multiset{g}), DecideLeave(g))
  }

  function RunEvents(w: World, events: seq<Event>): World
    decreases |events|
  {
    if events == [] then w else RunEvents(After(w, events[0]), events[1..])
  }

  // ---- What no event loop touches ---------------------------------------------------------

  // The lifecycle steps of an event in `w`.
  function StepsOf(w: World, e: Event): seq<Step> {
    match e
    case Base(step) => [step]
    case CheckTask(g) => if g in w.tasks then [DecideLeave(g)] else []
    case _ => []
  }

  function Steps(w: World, events: seq<Event>): seq<Step>
    decreases |events|
  {
    if events == [] then [] else StepsOf(w, events[0]) + Steps(After(w, events[0]), events[1..])
  }

  lemma WithBaseIs(w: World, step: Step)
    ensures WithBase(w, step).base == Next(w.base, step)
  {
    hide CoreAfter, OwnersAfter, RunsAfter, DecidedAfter;
  }

  lemma EventBase(w: World, e: Event)
    ensures After(w, e).base == Run(w.base, StepsOf(w, e))
  {
    match e {
      case Base(step) =>
        RunOne(w.base, step);
        WithBaseIs(w, step);
      case CheckTask(g) =>
        RunOne(w.base, DecideLeave(g));
        WithBaseIs(w.(tasks := w.tasks - multiset{g}), DecideLeave(g));
      case _ =>
    }
    hide Next, WithBase, IsJoin;
  }

  // Event loops and their tasks leave state, generation, broadcasts, slot and claim alone: what the
  // lifecycle does in a run is what its own steps do, so LifecycleTheorems holds of
  // every run with events.
  lemma {:induction false} EventsKeepLifecycle(w: World, events: seq<Event>)
    ensures RunEvents(w, events).base == Run(w.base, Steps(w, events))
    decreases |events|
  {
    if events != [] {
      var first := StepsOf(w, events[0]);
      EventsKeepLifecycle(After(w, events[0]), events[1..]);
      RunSplits(w.base, first, Steps(After(w, events[0]), events[1..]));
      EventBase(w, events[0]);
    }
    hide After, StepsOf, Next;
  }

  // ---- What an older loop can still write ----------------------------------------------------

  function ActorOf(e: Event): Option<u64> {
    match e
    case Base(step) => Actor(step)
    case CheckEvent(g) => Some(g)
    case WriteEvent(g) => Some(g)
    case CheckEnd(g) => Some(g)
    case MarkEnd(g) => Some(g)
    case CheckTask(g) => Some(g)
  }

  ghost predicate Older(events: seq<Event>, g: u64) {
    forall i :: 0 <= i < |events| ==> ActorOf(events[i]).Some? && ActorOf(events[i]).value < g
  }

  ghost predicate InJoin(w: World) {
    Inv(w.base) && IsJoin(w.base, w.base.core.generation) && w.base.bumps < TWO_TO_64
  }

  // No older handler is between a check and a write that would change anything.
  ghost predicate Quiet(w: World) {
    forall h: u64 :: h < w.base.core.generation ==>
      h !in w.writing && (h in w.ending ==> w.ended.Some?)
  }

  ghost predicate SameData(w: World, v: World) {
    w.roster == v.roster && w.ended == v.ended
  }

  // The events of older generations that change a current join: a leave decided
  // before, a write, a mark that is not there.
  predicate LeavesBase(w: World, e: Event) {
    e.Base? && Leaves(w.base, e.step)
  }

  predicate ChangesData(w: World, e: Event) {
    (e.WriteEvent? && e.loop in w.writing) || (e.MarkEnd? && e.loop in w.ending && w.ended.None?)
  }

  lemma KeepsBaseOf(w: World, step: Step)
    requires Actor(step).Some? && Actor(step).value < w.base.core.generation
    ensures WithBase(w, step) == w.(base := Next(w.base, step))
  {
    if !Enabled(w.base, step) {
      assert Next(w.base, step) == w.base;
    }
    hide Next, Enabled;
  }

  predicate SameGeneration(c: Core, d: Core) {
    c.generation == d.generation
  }

  lemma SameCallIsSameGeneration(c: Core, d: Core)
    requires SameCall(c, d)
    ensures SameGeneration(c, d)
  {
  }

  lemma OlderBaseStep(w: World, step: Step)
    requires InJoin(w) && Actor(step).Some? && Actor(step).value < w.base.core.generation
    requires !Leaves(w.base, step)
    ensures var v := WithBase(w, step);
      && InJoin(v) && SameCall(w.base.core, v.base.core) && SameGeneration(w.base.core, v.base.core)
      && v.base.decided == w.base.decided && v == w.(base := v.base)
  {
    OlderStepIsHarmless(w.base, step);
    KeepsBaseOf(w, step);
    SameCallIsSameGeneration(w.base.core, Next(w.base, step).core);
    hide Inv, Next, IsJoin, SameCall, WithBase, Leaves;
  }

  lemma OlderHandlerIs(w: World, e: Event)
    requires !e.Base? && !e.CheckTask? && ActorOf(e).value < w.base.core.generation
    ensures After(w, e).base == w.base
    ensures SameData(w, After(w, e)) <==> !ChangesData(w, e)
  {
    hide IsJoin, WithBase;
    if e.WriteEvent? && e.loop in w.writing {
      assert After(w, e).roster[e.loop] == w.roster[e.loop] + 1;
    }
  }

  // It passes no check.
  lemma OlderHandlerAddsNone(w: World, e: Event)
    requires !e.Base? && !e.CheckTask? && ActorOf(e).value < w.base.core.generation
    ensures After(w, e).writing <= w.writing && After(w, e).ending <= w.ending
    ensures w.ended.Some? ==> After(w, e).ended.Some?
  {
    hide IsJoin, WithBase;
  }

  lemma OlderHandlerKeepsQuiet(w: World, e: Event)
    requires !e.Base? && !e.CheckTask? && ActorOf(e).value < w.base.core.generation && Quiet(w)
    ensures Quiet(After(w, e))
  {
    OlderHandlerIs(w, e);
    OlderHandlerAddsNone(w, e);
    hide After, SameData, ChangesData;
  }

  // An older event keeps the join unless it is a decided leave, and its data unless it
  // is a write of something that is not there.
  lemma OlderEventIs(w: World, e: Event)
    requires InJoin(w) && ActorOf(e).Some? && ActorOf(e).value < w.base.core.generation
    requires !LeavesBase(w, e)
    ensures var v := After(w, e);
      && InJoin(v) && SameCall(w.base.core, v.base.core) && SameGeneration(w.base.core, v.base.core)
      && v.base.decided == w.base.decided
      && (SameData(w, v) <==> !ChangesData(w, e)) && (Quiet(w) ==> Quiet(v))
  {
    match e {
      case Base(step) =>
        OlderBaseStep(w, step);
        hide Inv, SameCall, IsJoin, Next, WithBase;
      case CheckTask(g) =>
        if g in w.tasks {
          OlderBaseStep(w.(tasks := w.tasks - multiset{g}), DecideLeave(g));
        }
        hide Inv, SameCall, IsJoin, Next, WithBase;
      case _ =>
        OlderHandlerIs(w, e);
        if Quiet(w) {
          OlderHandlerKeepsQuiet(w, e);
        }
        hide After, Inv, Quiet, SameData, ChangesData;
    }
  }

  lemma {:induction false} OlderRunKeepsCall(w: World, events: seq<Event>)
    requires InJoin(w) && Older(events, w.base.core.generation) && NoOlderDecided(w.base)
    ensures SameCall(w.base.core, RunEvents(w, events).base.core)
    ensures Quiet(w) ==> SameData(w, RunEvents(w, events))
    decreases |events|
  {
    if events != [] {
      assert !LeavesBase(w, events[0]);
      OlderEventIs(w, events[0]);
      assert Quiet(w) ==> !ChangesData(w, events[0]);
      hide After, InJoin, Quiet, ChangesData;
      OlderRunKeepsCall(After(w, events[0]), events[1..]);
    }
  }

  lemma RunEvent(w: World, e: Event)
    ensures RunEvents(w, [e]) == After(w, e)
  {
    hide After;
    assert [e][1..] == [];
  }

  // Whatever actors of older generations do, event loops and end reports included, a
  // current join keeps its state, broadcasts, slot, claim and the origin of its call data
  // exactly when no older actor has decided to leave and not yet left,
  lemma CallSurvivesIff(w: World)
    requires InJoin(w)
    ensures NoOlderDecided(w.base) <==>
      forall events :: Older(events, w.base.core.generation) ==>
        SameCall(w.base.core, RunEvents(w, events).base.core)
  {
    var g := w.base.core.generation;
    if NoOlderDecided(w.base) {
      forall events | Older(events, g)
        ensures SameCall(w.base.core, RunEvents(w, events).base.core)
      {
        OlderRunKeepsCall(w, events);
      }
    } else {
      var h: u64 :| h < g && h in w.base.decided;
      RunEvent(w, Base(LeaveDecided(h)));
      assert Older([Base(LeaveDecided(h))], g);
      assert After(w, Base(LeaveDecided(h))).base.core.generation == Bumped(g);
    }
  }

  // and its participants and ended mark as well exactly when moreover no older handler
  // passed its check before the join began and has still to write something.
  lemma DataSurvivesIff(w: World)
    requires InJoin(w)
    ensures NoOlderDecided(w.base) && Quiet(w) <==>
      forall events :: Older(events, w.base.core.generation) ==>
        SameCall(w.base.core, RunEvents(w, events).base.core) && SameData(w, RunEvents(w, events))
  {
    var g := w.base.core.generation;
    CallSurvivesIff(w);
    if NoOlderDecided(w.base) && Quiet(w) {
      forall events | Older(events, g)
        ensures SameData(w, RunEvents(w, events))
      {
        OlderRunKeepsCall(w, events);
      }
    } else if !Quiet(w) {
      var h: u64 :| h < g && !(h !in w.writing && (h in w.ending ==> w.ended.Some?));
      var event := if h in w.writing then WriteEvent(h) else MarkEnd(h);
      RunEvent(w, event);
      OlderHandlerIs(w, event);
      hide Inv, After, RunEvents, SameData;
      assert Older([event], g) && !SameData(w, RunEvents(w, [event]));
    }
  }

  // ---- The end of the call ---------------------------------------------------------------------

  lemma TaskDecides(w: World, g: u64)
    requires LoopIsCurrent(w, g) && g in w.tasks
    ensures After(w, CheckTask(g)).base == w.base.(decided := w.base.decided + multiset{g})
  {
  }

  // The end report of the current call starts a task that leaves it exactly if nothing
  // marked the call as ended before, be it an older loop. The task decides to leave if it
  // still finds the call current.
  lemma EndReportLeavesIff(w: World, g: u64)
    requires LoopIsCurrent(w, g)
    ensures var marked := After(After(w, CheckEnd(g)), MarkEnd(g));
      && (marked.tasks[g] == w.tasks[g] + 1 <==> w.ended.None?)
      && (w.ended.None? ==> After(marked, CheckTask(g)).base == w.base.(decided := w.base.decided + multiset{g}))
  {
    hide WithBase, Next;
    var marked := After(After(w, CheckEnd(g)), MarkEnd(g));
    assert marked.base == w.base;
    if w.ended.None? {
      assert marked.tasks == w.tasks + multiset{g};
      hide After;
      TaskDecides(marked, g);
    }
  }

  // A mark of an older loop hides the current call's own end report, and the task
  // it started leaves nothing.
  lemma OlderMarkHidesEndReport(w: World, h: u64)
    requires InJoin(w) && h < w.base.core.generation && h in w.ending && w.ended.None?
    requires w.tasks == multiset{}
    ensures var g := w.base.core.generation;
      var end := After(After(After(After(w, MarkEnd(h)), CheckEnd(g)), MarkEnd(g)), CheckTask(h));
      end.tasks == multiset{} && end.base == w.base && end.ended == Some(h)
  {
    hide Inv, WithBase;
    var g := w.base.core.generation;
    var marked := After(w, MarkEnd(h));
    assert marked.base == w.base && marked.tasks == multiset{h} && marked.ended == Some(h);
    var reported := After(After(marked, CheckEnd(g)), MarkEnd(g));
    assert reported.base == w.base && reported.tasks == multiset{h} && reported.ended == Some(h);
    StaleTaskDecidesNothing(reported, h);
    hide After;
  }

  lemma StaleTaskDecidesNothing(w: World, h: u64)
    requires h in w.tasks && h != w.base.core.generation
    ensures After(w, CheckTask(h)) == w.(tasks := w.tasks - multiset{h})
  {
  }

  // Such a world is reached: handlers of generation 1 passed their checks, the call was
  // left and joined again, and the response of that join was applied.
  lemma OlderMarkIsReached()
    ensures var start := World(START, multiset{}, None, multiset{}, multiset{}, multiset{});
      var checked := After(After(After(start, Base(BeginJoin)), CheckEnd(1)), CheckEvent(1));
      var left := After(After(After(checked, Base(BeginLeave)), Base(ClearCall(2))), Base(FinishLeave(2)));
      var w := After(After(left, Base(BeginJoin)), Base(ApplyCallState(3)));
      && InJoin(w) && w.base.core.generation == 3 && w.base.core.callData == Some(3)
      && 1 in w.ending && 1 in w.writing && w.ended == None && w.tasks == multiset{} && w.roster == multiset{3}
  {
    var start := World(START, multiset{}, None, multiset{}, multiset{}, multiset{});
    hide After, Inv, InJoin, Next;
    var checked := After(After(After(start, Base(BeginJoin)), CheckEnd(1)), CheckEvent(1));
    FirstChecks(start);
    LeftAgain(checked);
    var left := After(After(After(checked, Base(BeginLeave)), Base(ClearCall(2))), Base(FinishLeave(2)));
    JoinedAgain(left);
  }

  lemma StartIsInv()
    ensures Inv(START)
  {
  }

  const FIRST_JOIN := Core(Joining, 1, [Joining], None, None, None, None)
  const FIRST_LEFT := Core(Left, 2, [Joining, Left], None, None, None, None)

  ghost predicate IsAfter(w: World, v: World, core: Core, bumps: nat) {
    && w == v.(base := w.base, roster := multiset{}, ended := None)
    && w.base.core == core && w.base.bumps == bumps && Inv(w.base)
  }

  lemma BaseKeepsInv(w: World, step: Step)
    requires Inv(w.base) && w.base.bumps + 1 < TWO_TO_64
    ensures Inv(WithBase(w, step).base)
  {
    StepIssues(w.base, step);
    RunOne(w.base, step);
    hide Inv, Next;
    RunKeepsInv(w.base, [step]);
  }

  lemma FirstChecks(start: World)
    requires start == World(START, multiset{}, None, multiset{}, multiset{}, multiset{})
    ensures var checked := After(After(After(start, Base(BeginJoin)), CheckEnd(1)), CheckEvent(1));
      IsAfter(checked, start.(writing := multiset{1}, ending := multiset{1}), FIRST_JOIN, 1)
  {
    StartIsInv();
    hide Inv;
    BaseKeepsInv(start, BeginJoin);
    var begun := After(start, Base(BeginJoin));
    assert begun.base.core == FIRST_JOIN && begun.base.bumps == 1 && IsJoin(begun.base, 1);
    hide WithBase, Next;
    var ending := After(begun, CheckEnd(1));
    assert ending == begun.(ending := multiset{1});
  }

  lemma LeaveBegins(w: World)
    requires IsAfter(w, w, FIRST_JOIN, 1)
    ensures var begun := WithBase(w, BeginLeave);
      IsAfter(begun, w, FIRST_JOIN.(generation := 2), 2) && IsLeave(begun.base, 2)
  {
    BaseKeepsInv(w, BeginLeave);
    LeaveIsIssued(w.base);
    WithBaseIs(w, BeginLeave);
    hide Inv, Next;
  }

  lemma LeftAgain(w: World)
    requires IsAfter(w, w, FIRST_JOIN, 1)
    ensures var left := After(After(After(w, Base(BeginLeave)), Base(ClearCall(2))), Base(FinishLeave(2)));
      IsAfter(left, w, FIRST_LEFT, 2)
  {
    hide Inv;
    LeaveBegins(w);
    var begun := WithBase(w, BeginLeave);
    hide OwnersAfter, CoreAfter, RunsAfter, DecidedAfter;
    LeaveSteps(begun.base, 2);
    BaseKeepsInv(begun, ClearCall(2));
    var cleared := WithBase(begun, ClearCall(2));
    hide Next, Enabled;
    assert IsAfter(cleared, w, FIRST_JOIN.(generation := 2), 2) by {
      WithBaseIs(begun, ClearCall(2));
    }
    LeaveSteps(cleared.base, 2);
    BaseKeepsInv(cleared, FinishLeave(2));
    WithBaseIs(cleared, FinishLeave(2));
  }

  lemma JoinedAgain(w: World)
    requires IsAfter(w, w, FIRST_LEFT, 2)
    ensures var end := After(After(w, Base(BeginJoin)), Base(ApplyCallState(3)));
      && InJoin(end) && end.base.core.generation == 3 && end.base.core.callData == Some(3)
      && end == World(end.base, multiset{3}, None, w.writing, w.ending, w.tasks)
  {
    BaseKeepsInv(w, BeginJoin);
    hide Inv;
    var joined := After(w, Base(BeginJoin));
    assert joined.base.core == Core(Joining, 3, [Joining, Left, Joining], None, None, None, None);
    assert joined.base.owners[3] == Join && joined.base.bumps == 3;
    BaseKeepsInv(joined, ApplyCallState(3));
  }
}
