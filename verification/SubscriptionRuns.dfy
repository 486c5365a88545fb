// Why it is sound to skip a request equal to the last one sent: recomputes run one
// at a time, but a connection is replaced in several steps, at any point of them.
module SubscriptionRuns {
  import opened Wrappers
  import opened Participants
  import opened Subscriptions

  // A connection that was in the slot; `id` tells it from every other one.
  datatype Connection = Connection(link: Link, id: nat)

  // How far the running recompute is. It keeps the signal client of the connection
  // it looked at, and records by generation and session id.
  //  - Sending: its list differed from the last one sent.
  //  - Sent: its request succeeded and is not recorded yet.
  datatype Progress =
    | Resting
    | Looking(from: Connection)
    | Sending(from: Connection, tracks: seq<TrackDetails>)
    | Sent(link: Link, tracks: seq<TrackDetails>)

  //  - `holds`: what the SFU of each connection holds, by `id`.
  //  - `uncleared`: the generations of the installs that replaced the slot and have
  //    not yet cleared the last list sent.
  datatype System = System(
    generation: nat, slot: Option<Connection>, holds: seq<seq<TrackDetails>>, uncleared: multiset<nat>,
    activeSubs: seq<TrackDetails>, progress: Progress)

  const START := System(0, None, [], multiset{}, [], Resting)

  // What became of a request: the SFU took it, the SFU did not get it, or the SFU
  // took it and the answer was lost.
  datatype Outcome = Taken | NotTaken | AnswerLost

  datatype Event =
    | Look(generation: nat)
    | Compare(tracks: seq<TrackDetails>)
    | Answer(outcome: Outcome)
    | Record
    | DropRecompute
    | Replace(link: Link)
    | Forget(install: nat)
    | DropInstall(install: nat)
    | TakeSlot
    | BeginJoin
    | EndGeneration
    | ClearForLeave

  predicate Valid(s: System) {
    && (s.slot.Some? ==> s.slot.value.id < |s.holds| && s.slot.value.link.generation <= s.generation)
    && (s.progress.Looking? || s.progress.Sending? ==>
        && s.progress.from.id < |s.holds|
        && (s.slot.Some? && s.slot.value.id == s.progress.from.id ==> s.slot.value == s.progress.from))
  }

  // The connection in the slot belongs to the current generation.
  predicate Current(s: System) {
    s.slot.Some? && s.slot.value.link.generation == s.generation
  }

  predicate Sends(s: System, tracks: seq<TrackDetails>) {
    s.activeSubs != tracks
  }

  // One critical section or one answer of the SFU; an event that cannot happen now
  // changes nothing. The recompute checks the generation before it looks at the
  // slot, so it can look at a connection of a generation that has just ended.
  function After(s: System, e: Event): (r: System)
    requires Valid(s)
    ensures Valid(r)
  {
    match e
    case Look(generation) =>
      if s.progress.Resting? && s.slot.Some? && s.slot.value.link.generation == generation then
        s.(progress := Looking(s.slot.value))
      else s
    case Compare(tracks) =>
      if !s.progress.Looking? then s
      else s.(progress := if Sends(s, tracks) then Sending(s.progress.from, tracks) else Resting)
    case Answer(outcome) =>
      if !s.progress.Sending? then s
      else if outcome.NotTaken? then s.(progress := Resting)
      else
        s.(holds := s.holds[s.progress.from.id := s.progress.tracks],
           progress := if outcome.Taken? then Sent(s.progress.from.link, s.progress.tracks) else Resting)
    case Record =>
      if !s.progress.Sent? then s
      else s.(activeSubs := if Records(s) then s.progress.tracks else s.activeSubs, progress := Resting)
    case DropRecompute => if s.progress.Sending? then s else s.(progress := Resting)
    case Replace(link) =>
      if link.generation > s.generation then s
      else
        s.(slot := Some(Connection(link, |s.holds|)), holds := s.holds + [[]],
           uncleared := s.uncleared + multiset{link.generation})
    case Forget(install) =>
      if install !in s.uncleared then s
      else s.(activeSubs := [], uncleared := s.uncleared - multiset{install})
    case DropInstall(install) => s.(uncleared := s.uncleared - multiset{install})
    case TakeSlot => s.(slot := None)
    case BeginJoin => s.(generation := s.generation + 1, activeSubs := [])
    case EndGeneration => s.(generation := s.generation + 1)
    case ClearForLeave => if Current(s) then s else s.(activeSubs := [])
  }

  // Whether the running recompute is going to overwrite the last list sent.
  predicate Records(s: System) {
    s.progress.Sent? && s.slot.Some? && s.slot.value.link == s.progress.link
  }

  // The last list sent, once recorded and cleared, is what the SFU of the current
  // connection holds, in whatever order the outstanding steps come.
  predicate Agrees(s: System)
    requires Valid(s)
  {
    Current(s) ==>
      var held := s.holds[s.slot.value.id];
      && (Records(s) ==> s.progress.tracks == held)
      && (s.uncleared != multiset{} ==> held == [])
      && (!Records(s) && s.generation !in s.uncleared ==> s.activeSubs == held)
  }

  // ---- What breaks the agreement -----------------------------------------------------------

  // The SFU of the current connection takes a list while an install has yet to clear
  // the last one sent, or takes one whose answer is lost, so that it is not recorded.
  predicate TakenUnrecorded(s: System, outcome: Outcome)
    requires Valid(s) && s.slot.Some? && s.progress.Sending?
  {
    && !outcome.NotTaken? && s.progress.from == s.slot.value
    && if s.uncleared != multiset{} then s.progress.tracks != []
       else outcome.AnswerLost? && s.activeSubs != s.progress.tracks
  }

  // The SFU before a migration takes a list that will be recorded for the new one,
  // which has the same generation and session id.
  predicate TakenElsewhere(s: System, outcome: Outcome)
    requires Valid(s) && s.slot.Some? && s.progress.Sending?
  {
    && outcome.Taken? && s.progress.from != s.slot.value && s.progress.from.link == s.slot.value.link
    && s.progress.tracks != s.holds[s.slot.value.id]
  }

  // The steps of a current connection that break the agreement: the two above, a
  // migration before the recording, and a recompute dropped before it records or an
  // install before it clears.
  predicate Breaks(s: System, e: Event)
    requires Valid(s)
  {
    match e
    case Answer(outcome) =>
      Current(s) && s.progress.Sending? && (TakenUnrecorded(s, outcome) || TakenElsewhere(s, outcome))
    case Replace(link) =>
      link.generation == s.generation && s.progress.Sent? && s.progress.link == link && s.progress.tracks != []
    case DropRecompute =>
      Current(s) && Records(s) && s.generation !in s.uncleared && s.activeSubs != s.progress.tracks
    case DropInstall(install) =>
      Current(s) && !Records(s) && install == s.generation && s.uncleared[install] == 1 && s.activeSubs != []
    case _ => false
  }

  lemma AnswerKeepsAgreementIff(s: System, outcome: Outcome)
    requires Valid(s) && Agrees(s)
    ensures Agrees(After(s, Answer(outcome))) <==> !Breaks(s, Answer(outcome))
  {
    if s.progress.Sending? && s.slot.Some? && !outcome.NotTaken? {
      var held := After(s, Answer(outcome)).holds[s.slot.value.id];
      assert held == if s.progress.from == s.slot.value then s.progress.tracks else s.holds[s.slot.value.id];
    }
  }

  lemma ReplaceKeepsAgreementIff(s: System, link: Link)
    requires Valid(s) && Agrees(s)
    ensures Agrees(After(s, Replace(link))) <==> !Breaks(s, Replace(link))
  {
    if link.generation == s.generation {
      var after := After(s, Replace(link));
      assert after.holds[after.slot.value.id] == [];
      assert link.generation in after.uncleared;
    }
  }

  lemma ForgetKeepsAgreement(s: System, install: nat)
    requires Valid(s) && Agrees(s)
    ensures Agrees(After(s, Forget(install)))
  {
  }

  lemma DropKeepsAgreementIff(s: System, e: Event)
    requires Valid(s) && Agrees(s) && (e.DropInstall? || e.DropRecompute?)
    ensures Agrees(After(s, e)) <==> !Breaks(s, e)
  {
  }

  lemma OtherKeepsAgreement(s: System, e: Event)
    requires Valid(s) && Agrees(s)
    requires !e.Answer? && !e.Replace? && !e.Forget? && !e.DropInstall? && !e.DropRecompute?
    ensures Agrees(After(s, e))
  {
  }

  lemma StepKeepsAgreementIff(s: System, e: Event)
    requires Valid(s) && Agrees(s)
    ensures Agrees(After(s, e)) <==> !Breaks(s, e)
  {
    hide Agrees, After;
    match e {
      case Answer(outcome) =>
        AnswerKeepsAgreementIff(s, outcome);
      case Replace(link) =>
        ReplaceKeepsAgreementIff(s, link);
      case Forget(install) =>
        ForgetKeepsAgreement(s, install);
      case DropInstall(install) =>
        DropKeepsAgreementIff(s, e);
      case DropRecompute =>
        DropKeepsAgreementIff(s, e);
      case _ =>
        OtherKeepsAgreement(s, e);
    }
  }

  // ---- Every run ------------------------------------------------------------------------------

  function Run(s: System, events: seq<Event>): (r: System)
    requires Valid(s)
    ensures Valid(r)
  {
    if events == [] then s else After(Run(s, events[..|events| - 1]), events[|events| - 1])
  }

  predicate NoneBreaks(s: System, events: seq<Event>)
    requires Valid(s)
  {
    events == [] ||
    (NoneBreaks(s, events[..|events| - 1]) && !Breaks(Run(s, events[..|events| - 1]), events[|events| - 1]))
  }

  lemma {:induction false} RunKeepsAgreement(events: seq<Event>)
    requires NoneBreaks(START, events)
    ensures Agrees(Run(START, events))
  {
    if events != [] {
      RunKeepsAgreement(events[..|events| - 1]);
      StepKeepsAgreementIff(Run(START, events[..|events| - 1]), events[|events| - 1]);
    }
  }

  // After any such run, a recompute that looked at the current connection skips
  // only what its SFU holds exactly if the install of that connection has cleared the
  // last list sent, or there was none.
  lemma SkippingIsSoundIff(events: seq<Event>)
    requires NoneBreaks(START, events)
    requires var s := Run(START, events); Current(s) && s.progress == Looking(s.slot.value)
    ensures var s := Run(START, events);
      (forall tracks :: !Sends(s, tracks) ==> s.holds[s.slot.value.id] == tracks)
      <==> s.generation !in s.uncleared || s.activeSubs == []
  {
    var s := Run(START, events);
    RunKeepsAgreement(events);
    assert !Sends(s, s.activeSubs);
  }

  // Then it leaves the SFU with what it wants whether it sends or skips, unless its
  // request is not taken; and then the next recompute sends again.
  lemma RecomputeIsSound(events: seq<Event>, tracks: seq<TrackDetails>)
    requires NoneBreaks(START, events)
    requires var s := Run(START, events);
      Current(s) && s.progress == Looking(s.slot.value) && s.generation !in s.uncleared
    ensures var s := Run(START, events);
      var taken := After(After(After(s, Compare(tracks)), Answer(Taken)), Record);
      var refused := After(After(s, Compare(tracks)), Answer(NotTaken));
      && taken.slot == s.slot && taken.activeSubs == tracks == taken.holds[s.slot.value.id]
      && (Sends(s, tracks) ==> Sends(refused, tracks) && refused.holds == s.holds)
  {
    RunKeepsAgreement(events);
  }

  // `SubscriptionCache.Recompute`, which nothing interrupts, is these four steps: it
  // sends the same list on the same condition and remembers the same list.
  lemma RecomputeIsFourSteps(s: System, w: Wants, roster: Roster, answered: bool)
    requires Valid(s) && s.progress == Resting && s.slot.Some?
    ensures var link := s.slot.value.link;
      var request := RequestOf(true, link.generation, link.generation, Some(link), s.activeSubs, w, roster);
      var compared := After(After(s, Look(link.generation)), Compare(Desired(w, roster, link.sessionId)));
      var end := After(After(compared, Answer(if answered then Taken else NotTaken)), Record);
      && (request.Some? <==> compared.progress.Sending?)
      && (request.Some? ==> request.value == Request(link.sessionId, compared.progress.tracks))
      && end.activeSubs == if request.Some? && answered then request.value.tracks else s.activeSubs
  {
    hide Desired;
    var link := s.slot.value.link;
    var compared := After(After(s, Look(link.generation)), Compare(Desired(w, roster, link.sessionId)));
    if compared.progress.Sending? && answered {
      assert Records(After(compared, Answer(Taken)));
    }
  }

  // ---- What the code does where the agreement breaks -----------------------------------------

  // A recompute between the replacement and the clearing: the new SFU takes its list,
  // the clearing wipes it, and a later wish for nothing is not sent.
  lemma ClearingHidesAList(s: System, tracks: seq<TrackDetails>)
    requires Valid(s) && Agrees(s) && Current(s) && s.progress == Resting
    requires s.generation in s.uncleared && tracks != [] && Sends(s, tracks)
    ensures var sending := After(After(s, Look(s.generation)), Compare(tracks));
      var end := After(After(After(sending, Answer(Taken)), Record), Forget(s.generation));
      && Breaks(sending, Answer(Taken))
      && end.holds[end.slot.value.id] == tracks && !Sends(end, [])
  {
  }

  // A recompute there that skips leaves the new SFU without its list until the
  // clearing; the next one sends it.
  lemma ClearingRepairsASkip(s: System, tracks: seq<TrackDetails>)
    requires Valid(s) && Agrees(s) && Current(s) && s.progress == Resting
    requires s.generation in s.uncleared && tracks != [] && !Sends(s, tracks)
    ensures var skipped := After(After(s, Look(s.generation)), Compare(tracks));
      && skipped == s && s.holds[s.slot.value.id] == []
      && Sends(After(skipped, Forget(s.generation)), tracks)
  {
  }

  // A migration between the look at the slot and the comparison, or between the answer
  // and the recording: the new SFU holds nothing while the list counts as sent.
  lemma MigrationHidesAnEmptySfu(s: System, tracks: seq<TrackDetails>)
    requires Valid(s) && Agrees(s) && Current(s) && s.progress == Resting && s.uncleared == multiset{}
    requires tracks != [] && Sends(s, tracks)
    ensures var link := s.slot.value.link;
      var looked := After(s, Look(s.generation));
      var early := After(After(After(looked, Replace(link)), Forget(s.generation)), Compare(tracks));
      var afterEarly := After(After(early, Answer(Taken)), Record);
      var answered := After(After(looked, Compare(tracks)), Answer(Taken));
      var afterLate := After(After(After(answered, Replace(link)), Forget(s.generation)), Record);
      && Breaks(early, Answer(Taken)) && Breaks(answered, Replace(link))
      && Current(afterEarly) && afterEarly.holds[afterEarly.slot.value.id] == [] && !Sends(afterEarly, tracks)
      && Current(afterLate) && afterLate.holds[afterLate.slot.value.id] == [] && !Sends(afterLate, tracks)
  {
    var link := s.slot.value.link;
    var looked := After(s, Look(s.generation));
    var replaced := After(looked, Replace(link));
    assert replaced.slot == Some(Connection(link, |s.holds|)) && replaced.progress == looked.progress;
    var answered := After(After(looked, Compare(tracks)), Answer(Taken));
    assert answered.progress == Sent(link, tracks) && answered.slot == s.slot;
  }

  // After a lost answer the list before it is skipped though the SFU holds another.
  lemma LostAnswerHidesAChange(s: System, tracks: seq<TrackDetails>)
    requires Valid(s) && Agrees(s) && Current(s) && s.progress == Resting && s.uncleared == multiset{}
    requires Sends(s, tracks)
    ensures var sending := After(After(s, Look(s.generation)), Compare(tracks));
      var lost := After(sending, Answer(AnswerLost));
      && Breaks(sending, Answer(AnswerLost))
      && lost.holds[lost.slot.value.id] == tracks && !Sends(lost, s.holds[s.slot.value.id])
  {
  }

  // ---- The states of these lemmas are reached ---------------------------------------------

  lemma RunMore(events: seq<Event>, e: Event)
    ensures Run(START, events + [e]) == After(Run(START, events), e)
    ensures NoneBreaks(START, events + [e]) <==> NoneBreaks(START, events) && !Breaks(Run(START, events), e)
  {
    hide After, Breaks;
    assert (events + [e])[..|events|] == events;
  }

  function Replacing(link: Link): seq<Event> {
    [] + [BeginJoin] + [Replace(link)]
  }

  function Joined(link: Link): seq<Event> {
    Replacing(link) + [Forget(1)]
  }

  function Subscribed(link: Link, tracks: seq<TrackDetails>): seq<Event> {
    Joined(link) + [Look(1)] + [Compare(tracks)] + [Answer(Taken)] + [Record]
  }

  // The window of the first join, which ClearingHidesAList needs for every list that is
  // not empty.
  lemma FirstWindowIsReached(link: Link)
    requires link.generation == 1
    ensures NoneBreaks(START, Replacing(link))
    ensures Run(START, Replacing(link)) == System(1, Some(Connection(link, 0)), [[]], multiset{1}, [], Resting)
  {
    RunMore([], BeginJoin);
    RunMore([] + [BeginJoin], Replace(link));
    hide Run, NoneBreaks;
    StartRuns();
  }

  lemma StartRuns()
    ensures Run(START, []) == START && NoneBreaks(START, [])
  {
  }

  // The joined call, which MigrationHidesAnEmptySfu and LostAnswerHidesAChange need for
  // every list that differs from the last one sent.
  lemma JoinedIsReached(link: Link)
    requires link.generation == 1
    ensures NoneBreaks(START, Joined(link))
    ensures Run(START, Joined(link)) == System(1, Some(Connection(link, 0)), [[]], multiset{}, [], Resting)
  {
    FirstWindowIsReached(link);
    RunMore(Replacing(link), Forget(1));
    hide Run, NoneBreaks, After;
    ForgottenOnce(System(1, Some(Connection(link, 0)), [[]], multiset{1}, [], Resting));
  }

  lemma ForgottenOnce(s: System)
    requires Valid(s) && s.uncleared == multiset{1}
    ensures After(s, Forget(1)) == s.(activeSubs := [], uncleared := multiset{})
  {
    assert s.uncleared - multiset{1} == multiset{};
  }

  lemma SubscribedIsReached(link: Link, tracks: seq<TrackDetails>)
    requires link.generation == 1 && tracks != []
    ensures NoneBreaks(START, Subscribed(link, tracks))
    ensures Run(START, Subscribed(link, tracks))
         == System(1, Some(Connection(link, 0)), [tracks], multiset{}, tracks, Resting)
  {
    JoinedIsReached(link);
    RunMore(Joined(link), Look(1));
    RunMore(Joined(link) + [Look(1)], Compare(tracks));
    RunMore(Joined(link) + [Look(1)] + [Compare(tracks)], Answer(Taken));
    RunMore(Joined(link) + [Look(1)] + [Compare(tracks)] + [Answer(Taken)], Record);
    hide Run, NoneBreaks;
    SubscribedSteps(link, tracks);
  }

  lemma SubscribedSteps(link: Link, tracks: seq<TrackDetails>)
    requires link.generation == 1 && tracks != []
    ensures var s := System(1, Some(Connection(link, 0)), [[]], multiset{}, [], Resting);
      var sending := s.(progress := Sending(s.slot.value, tracks));
      var sent := s.(holds := [tracks], progress := Sent(link, tracks));
      && After(After(s, Look(1)), Compare(tracks)) == sending
      && After(sending, Answer(Taken)) == sent
      && After(sent, Record) == s.(holds := [tracks], activeSubs := tracks)
      && !Breaks(s, Look(1)) && !Breaks(After(s, Look(1)), Compare(tracks))
      && !Breaks(sending, Answer(Taken)) && !Breaks(sent, Record)
  {
    assert [[]][0 := tracks] == [tracks];
  }

  // The window of a later replacement, which ClearingRepairsASkip needs for the last list sent.
  lemma LaterWindowIsReached(link: Link, tracks: seq<TrackDetails>)
    requires link.generation == 1 && tracks != []
    ensures NoneBreaks(START, Subscribed(link, tracks) + [Replace(link)])
    ensures Run(START, Subscribed(link, tracks) + [Replace(link)])
         == System(1, Some(Connection(link, 1)), [tracks, []], multiset{1}, tracks, Resting)
  {
    SubscribedIsReached(link, tracks);
    RunMore(Subscribed(link, tracks), Replace(link));
    hide Run, NoneBreaks;
    assert multiset{} + multiset{1} == multiset{1};
    assert [tracks] + [[]] == [tracks, []];
  }
}
