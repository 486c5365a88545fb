// What the SFU has of the traces, when it can take a report whose answer is lost.
module TraceDelivery {
  import opened Sequences
  import opened Tracer
  import opened TraceRuns
  import opened Wrappers

  // What the SFU took from one source. `unanswered` remembers that it took entries
  // of a report that failed or was dropped all the same.
  datatype Arrival = Arrival(received: seq<TraceRecord>, unanswered: bool)

  const NOTHING := Arrival([], false)

  //  - `taken`: the SFU took the running report. It takes a report while it is being
  //    sent or not at all.
  datatype World = World(base: System, taken: bool, arrivals: seq<Arrival>)

  datatype DeliveryEvent = SfuTakes | Base(event: Event)

  ghost predicate Formed(w: World) {
    Shape(w.base) && |w.arrivals| == 3 && (w.taken ==> w.base.phase.Sending?)
  }

  function Took(a: Arrival, l: Lane): Arrival {
    a.(received := a.received + l.inflight)
  }

  function Ended(a: Arrival, taken: bool, l: Lane): Arrival {
    a.(unanswered := a.unanswered || (taken && l.inflight != []))
  }

  // A report succeeds only if the SFU took it; it can fail or be dropped either way.
  ghost predicate Happens(w: World, e: Event) {
    e.SendSucceeded? ==> w.taken
  }

  ghost function After(w: World, e: DeliveryEvent): (r: World)
    requires Formed(w)
    ensures Formed(r)
  {
    match e
    case SfuTakes =>
      if !w.base.phase.Sending? || w.taken then w
      else
        var l, a := w.base.lanes, w.arrivals;
        w.(taken := true, arrivals := [Took(a[0], l[0]), Took(a[1], l[1]), Took(a[2], l[2])])
    case Base(event) =>
      if !Happens(w, event) then w
      else
        var base := TraceRuns.After(w.base, event);
        if event.SendFailed? || event.ReportDropped? then
          var l, a := w.base.lanes, w.arrivals;
          World(base, false,
                [Ended(a[0], w.taken, l[0]), Ended(a[1], w.taken, l[1]), Ended(a[2], w.taken, l[2])])
        else w.(base := base, taken := w.taken && !event.SendSucceeded?)
  }

  ghost function Run(w: World, events: seq<DeliveryEvent>): (r: World)
    requires Formed(w)
    ensures Formed(r)
    decreases |events|
  {
    if events == [] then w else Run(After(w, events[0]), events[1..])
  }

  // ---- The runs of TraceRuns ---------------------------------------------------------------

  ghost function EventOf(w: World, e: DeliveryEvent): seq<Event> {
    if e.Base? && Happens(w, e.event) then [e.event] else []
  }

  ghost function EventsOf(w: World, events: seq<DeliveryEvent>): seq<Event>
    requires Formed(w)
    decreases |events|
  {
    if events == [] then [] else EventOf(w, events[0]) + EventsOf(After(w, events[0]), events[1..])
  }

  lemma {:induction false} BaseIsRun(w: World, events: seq<DeliveryEvent>)
    requires Formed(w)
    ensures Run(w, events).base == TraceRuns.Run(w.base, EventsOf(w, events))
    decreases |events|
  {
    if events != [] {
      var next := After(w, events[0]);
      BaseIsRun(next, events[1..]);
      var rest := EventsOf(next, events[1..]);
      if e :| e in EventOf(w, events[0]) {
        assert ([e] + rest)[1..] == rest;
        assert next.base == TraceRuns.After(w.base, e);
      } else {
        assert [] + rest == rest;
      }
    }
  }

  // ---- What the SFU has ---------------------------------------------------------------------

  // What the SFU took of the running report.
  function Current(w: World, l: Lane): seq<TraceRecord> {
    if w.taken then l.inflight else []
  }

  // Everything acknowledged has arrived, in order; and what has arrived is exactly that
  // and the running report unless an answer was lost, and more if one was.
  ghost predicate Arrived(a: Arrival, acknowledged: seq<TraceRecord>, current: seq<TraceRecord>) {
    && Subsequence(acknowledged + current, a.received)
    && (if a.unanswered then |a.received| > |acknowledged| + |current| else a.received == acknowledged + current)
  }

  ghost predicate LaneArrived(w: World, i: nat)
    requires Formed(w) && i < 3
  {
    Arrived(w.arrivals[i], w.base.lanes[i].acknowledged, Current(w, w.base.lanes[i]))
  }

  ghost predicate AllArrived(w: World)
    requires Formed(w)
  {
    LaneArrived(w, 0) && LaneArrived(w, 1) && LaneArrived(w, 2)
  }

  lemma {:induction false} SubsequenceConcat<T>(a: seq<T>, b: seq<T>, c: seq<T>)
    requires Subsequence(a, b)
    ensures Subsequence(a + c, b + c)
  {
    if c == [] {
      assert a + c == a && b + c == b;
    } else {
      var front, x := c[..|c| - 1], c[|c| - 1];
      SubsequenceConcat(a, b, front);
      SubsequencePush(a + front, b + front, x);
      assert a + c == a + front + [x] && b + c == b + front + [x];
    }
  }

  lemma TookArrives(a: Arrival, acknowledged: seq<TraceRecord>, l: Lane)
    requires Arrived(a, acknowledged, [])
    ensures Arrived(Took(a, l), acknowledged, l.inflight)
  {
    assert acknowledged + [] == acknowledged;
    SubsequenceConcat(acknowledged, a.received, l.inflight);
    hide Subsequence;
  }

  lemma AnsweredArrives(a: Arrival, l: Lane)
    requires Arrived(a, l.acknowledged, l.inflight)
    ensures Arrived(a, Accepted(l).acknowledged, [])
  {
    AppendNothing(l.acknowledged + l.inflight);
    hide Subsequence;
  }

  lemma UnansweredArrives(a: Arrival, acknowledged: seq<TraceRecord>, taken: bool, l: Lane)
    requires Arrived(a, acknowledged, if taken then l.inflight else [])
    ensures Arrived(Ended(a, taken, l), acknowledged, [])
  {
    if taken {
      var both := acknowledged + l.inflight;
      SubsequenceDrop(both, a.received, |acknowledged|, |both|);
      assert both[..|acknowledged|] + both[|both|..] == acknowledged + [];
    }
    hide Subsequence;
  }

  // What a step of the reporter does to what a source has sent.
  lemma BaseKeepsSent(s: System, e: Event, i: nat)
    requires Shape(s) && i < 3
    ensures var l, m := s.lanes[i], TraceRuns.After(s, e).lanes[i];
      && (e.SendSucceeded? && s.phase.Sending? ==> m == Accepted(l))
      && (!e.SendSucceeded? ==> m.acknowledged == l.acknowledged)
      && (s.phase.Sending? && !e.SendSucceeded? && !e.ReportDropped? ==> m.inflight == l.inflight)
  {
    hide Capped, Restored;
  }

  lemma TakingKeeps(w: World, i: nat)
    requires Formed(w) && i < 3 && w.base.phase.Sending? && !w.taken
    ensures var next := After(w, SfuTakes);
      next.base == w.base && next.taken && next.arrivals[i] == Took(w.arrivals[i], w.base.lanes[i])
  {
    hide Took;
  }

  lemma TakingArrives(w: World, i: nat)
    requires Formed(w) && i < 3 && LaneArrived(w, i) && w.base.phase.Sending? && !w.taken
    ensures LaneArrived(After(w, SfuTakes), i)
  {
    TakingKeeps(w, i);
    hide After, Arrived, Took;
    TookArrives(w.arrivals[i], w.base.lanes[i].acknowledged, w.base.lanes[i]);
  }

  // What an event of the reporter does to what arrived.
  lemma ArrivalsKeep(w: World, event: Event, i: nat)
    requires Formed(w) && i < 3 && Happens(w, event)
    ensures var next := After(w, Base(event)); var ends := event.SendFailed? || event.ReportDropped?;
      && next.base == TraceRuns.After(w.base, event)
      && next.taken == (w.taken && !ends && !event.SendSucceeded?)
      && next.arrivals[i] == if ends then Ended(w.arrivals[i], w.taken, w.base.lanes[i]) else w.arrivals[i]
  {
    hide TraceRuns.After, Ended;
  }

  lemma ReportingArrives(w: World, event: Event, i: nat)
    requires Formed(w) && i < 3 && LaneArrived(w, i) && Happens(w, event)
    ensures LaneArrived(After(w, Base(event)), i)
  {
    var l, a := w.base.lanes[i], w.arrivals[i];
    ArrivalsKeep(w, event, i);
    BaseKeepsSent(w.base, event, i);
    hide After, TraceRuns.After, Arrived, Accepted, Ended;
    if event.SendSucceeded? {
      AnsweredArrives(a, l);
    } else if event.SendFailed? || event.ReportDropped? {
      UnansweredArrives(a, l.acknowledged, w.taken, l);
    }
  }

  lemma LaneStepArrives(w: World, e: DeliveryEvent, i: nat)
    requires Formed(w) && i < 3 && LaneArrived(w, i)
    ensures LaneArrived(After(w, e), i)
  {
    if e.SfuTakes? && w.base.phase.Sending? && !w.taken {
      TakingArrives(w, i);
    } else if e.Base? && Happens(w, e.event) {
      ReportingArrives(w, e.event, i);
    } else {
      assert After(w, e) == w;
    }
    hide After, LaneArrived;
  }

  lemma StepArrives(w: World, e: DeliveryEvent)
    requires Formed(w) && AllArrived(w)
    ensures AllArrived(After(w, e))
  {
    hide After, LaneArrived;
    LaneStepArrives(w, e, 0);
    LaneStepArrives(w, e, 1);
    LaneStepArrives(w, e, 2);
  }

  lemma {:induction false} RunArrives(w: World, events: seq<DeliveryEvent>)
    requires Formed(w) && AllArrived(w)
    ensures AllArrived(Run(w, events))
    decreases |events|
  {
    if events != [] {
      var next := After(w, events[0]);
      StepArrives(w, events[0]);
      hide After, AllArrived;
      RunArrives(next, events[1..]);
    }
  }

  ghost predicate IsStart(w: World) {
    Started(w.base) && !w.taken && w.arrivals == [NOTHING, NOTHING, NOTHING]
  }

  lemma StartArrives(w: World)
    requires IsStart(w)
    ensures Formed(w) && AllArrived(w)
  {
    AppendNothing(NOTHING.received);
  }

  // Over every run the SFU has exactly what was acknowledged and what it took of the
  // running report, each record as often as it was traced, exactly unless it took
  // entries of a report that failed or was dropped: those it has too, and if the report
  // failed it is sent them again.
  lemma SfuHasEachOnceIff(w: World, events: seq<DeliveryEvent>, i: nat)
    requires IsStart(w) && i < 3
    ensures Formed(w)
    ensures var end := Run(w, events); var l, a := end.base.lanes[i], end.arrivals[i];
      a.received == l.acknowledged + Current(end, l) <==> !a.unanswered
  {
    StartArrives(w);
    hide Run, After, IsStart;
    RunArrives(w, events);
    assert LaneArrived(Run(w, events), i);
    hide Subsequence, AllArrived, Shape;
  }

  // Nothing traced is missing unless a buffer overflowed or a report was dropped with
  // entries in flight: it has arrived, is in flight or is buffered.
  lemma EverythingArrivesOrWaits(w: World, events: seq<DeliveryEvent>, i: nat)
    requires IsStart(w) && i < 3
    ensures Formed(w)
    ensures var end := Run(w, events); var l := end.base.lanes[i];
      && Subsequence(l.acknowledged, end.arrivals[i].received)
      && (!l.overflowed && !l.lost ==> Subsequence(l.history, end.arrivals[i].received + l.inflight + l.buffer))
  {
    StartArrives(w);
    hide Run, After, Subsequence, EventsOf, TraceRuns.Run, TraceRuns.After;
    RunArrives(w, events);
    assert LaneArrived(Run(w, events), i);
    BaseIsRun(w, events);
    NothingIsLost(w.base, EventsOf(w, events), i);
    hide AllArrived, Started, Shape;
    var end := Run(w, events);
    var l, received := end.base.lanes[i], end.arrivals[i].received;
    var both := l.acknowledged + Current(end, l);
    SubsequenceDrop(both, received, |l.acknowledged|, |both|);
    assert both[..|l.acknowledged|] + both[|both|..] == l.acknowledged;
    SubsequenceConcat(l.acknowledged, received, l.inflight);
    SubsequenceConcat(l.acknowledged + l.inflight, received + l.inflight, l.buffer);
  }

  lemma RunOne(w: World, e: DeliveryEvent, events: seq<DeliveryEvent>)
    requires Formed(w)
    ensures Run(w, [e] + events) == Run(After(w, e), events)
  {
    hide After;
    assert ([e] + events)[1..] == events;
  }

  const GIVE_BACK := [Base(RestoreNext(0)), Base(RestoreNext(0)), Base(RestoreNext(0))]

  lemma AllGivenBack(w: World, i: nat)
    requires Formed(w) && w.base.phase == Restoring(2) && i < 3
    requires |w.base.lanes[i].inflight| + |w.base.lanes[i].buffer| <= w.base.lanes[i].max
    ensures var end := Run(w, GIVE_BACK);
      && end.base.phase == Idle && end.arrivals == w.arrivals
      && end.base.lanes[i].buffer == w.base.lanes[i].inflight + w.base.lanes[i].buffer
  {
    var restore := Base(RestoreNext(0));
    var first := After(w, restore);
    var second := After(first, restore);
    RunOne(w, restore, [restore, restore]);
    RunOne(first, restore, [restore]);
    RunOne(second, restore, []);
    assert [restore] + [restore, restore] == GIVE_BACK && [restore] + [restore] == [restore, restore];
    assert [restore] + [] == [restore];
    hide Run;
    GivenBackInFull(w.base.lanes[i]);
    hide GivenBack;
    assert first.base.phase == Restoring(1) && second.base.phase == Restoring(0);
  }

  lemma GivenBackInFull(l: Lane)
    requires l.max > 0 && |l.inflight| + |l.buffer| <= l.max
    ensures GivenBack(l, 0).buffer == l.inflight + l.buffer
  {
    AppendNothing(l.buffer);
  }

  // A lost answer: what the report carried is with the SFU and, if the buffer has room,
  // waits again in front of what was traced meanwhile.
  lemma LostAnswerSendsTwice(w: World, i: nat)
    requires Formed(w) && w.base.phase == Sending && !w.taken && i < 3
    requires |w.base.lanes[i].inflight| + |w.base.lanes[i].buffer| <= w.base.lanes[i].max
    ensures var l, a := w.base.lanes[i], w.arrivals[i];
      var end := Run(w, [SfuTakes, Base(SendFailed)] + GIVE_BACK);
      && end.base.phase == Idle && end.base.lanes[i].buffer == l.inflight + l.buffer
      && end.arrivals[i] == Arrival(a.received + l.inflight, a.unanswered || l.inflight != [])
  {
    var taken := After(w, SfuTakes);
    var failed := After(taken, Base(SendFailed));
    assert [SfuTakes] + ([Base(SendFailed)] + GIVE_BACK) == [SfuTakes, Base(SendFailed)] + GIVE_BACK;
    assert failed.base.phase == Restoring(2) && failed.base.lanes == w.base.lanes;
    assert failed.arrivals[i] == Ended(Took(w.arrivals[i], w.base.lanes[i]), true, w.base.lanes[i]);
    hide Run, After;
    RunOne(w, SfuTakes, [Base(SendFailed)] + GIVE_BACK);
    RunOne(taken, Base(SendFailed), GIVE_BACK);
    AllGivenBack(failed, i);
  }
}
