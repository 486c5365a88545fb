// What a listener learns from the events of a join response.
module ParticipantEvents {
  import opened Wrappers
  import opened IndexMap
  import opened Participants

  // ---- The order of the new roster ----------------------------------------------------------

  // The response names no session twice and none by the empty id.
  ghost predicate DistinctIds(joined: seq<Participant>) {
    && (forall i :: 0 <= i < |joined| ==> joined[i].sessionId != "")
    && (forall i, j :: 0 <= i < j < |joined| ==> joined[i].sessionId != joined[j].sessionId)
  }

  // The ids of `joined` outside `known`, in their order.
  function Newcomers(joined: seq<Participant>, known: set<string>): seq<string> {
    if joined == [] then []
    else
      var id := joined[|joined| - 1].sessionId;
      Newcomers(joined[..|joined| - 1], known) + (if id in known then [] else [id])
  }

  lemma {:induction false} NewcomersOf(joined: seq<Participant>, known: set<string>, more: set<string>)
    requires known * Ids(joined) == more * Ids(joined)
    ensures Newcomers(joined, known) == Newcomers(joined, more)
  {
    if joined != [] {
      var front, last := joined[..|joined| - 1], joined[|joined| - 1];
      assert joined == front + [last];
      assert Ids(joined) == Ids(front) + {last.sessionId};
      assert last.sessionId in known <==> last.sessionId in more by {
        assert last.sessionId in known * Ids(joined) <==> last.sessionId in more * Ids(joined);
      }
      assert known * Ids(front) == (known * Ids(joined)) * Ids(front);
      assert more * Ids(front) == (more * Ids(joined)) * Ids(front);
      NewcomersOf(front, known, more);
    }
  }

  lemma {:induction false} FilledOrder(r: Roster, joined: seq<Participant>)
    requires Ordered(r) && DistinctIds(joined)
    ensures Filled(r, joined).keys == r.keys + Newcomers(joined, r.values.Keys)
  {
    if joined != [] {
      var front, last := joined[..|joined| - 1], joined[|joined| - 1];
      FilledOrder(r, front);
      FilledIs(r, front, last.sessionId);
      assert last.sessionId !in Ids(front);
      hide Ordered, DistinctIds, Ids, Refreshed;
    }
  }

  // Survivors keep their order, then comes the local session if it is new, then
  // the newcomers as the response lists them.
  lemma SnapshotOrder(previous: Roster, sessionId: string, userId: string, joined: seq<Participant>)
    requires Ordered(previous) && DistinctIds(joined)
    ensures Snapshot(previous, sessionId, userId, joined).keys
         == Kept(previous.keys, Ids(joined) + {sessionId})
          + (if sessionId in previous.keys then [] else [sessionId])
          + Newcomers(joined, previous.values.Keys + {sessionId})
  {
    var current := Ids(joined) + {sessionId};
    SurvivingIs(previous.keys, current);
    var kept := Surviving(previous.keys, current);
    var base := WithMe(kept, sessionId, userId);
    PutKeepsOrdered(kept, sessionId, base.values[sessionId]);
    BaseKnows(previous, sessionId, userId, joined);
    hide Ids, DistinctIds, Filled, Newcomers, Surviving, Kept;
    FilledOrder(base, joined);
    NewcomersOf(joined, base.values.Keys, previous.values.Keys + {sessionId});
  }

  // Of the listed sessions, the emptied roster knows those known before and the local one.
  lemma BaseKnows(previous: Roster, sessionId: string, userId: string, joined: seq<Participant>)
    requires Ordered(previous)
    ensures var base := WithMe(Surviving(previous.keys, Ids(joined) + {sessionId}), sessionId, userId);
      base.values.Keys * Ids(joined) == (previous.values.Keys + {sessionId}) * Ids(joined)
  {
    SurvivingIs(previous.keys, Ids(joined) + {sessionId});
    hide Ids, Surviving, Kept;
  }

  // ---- The events of one session ------------------------------------------------------------

  function About(events: seq<SfuEvent>, id: string): seq<SfuEvent> {
    if events == [] then []
    else (if events[0].participant.sessionId == id then [events[0]] else []) + About(events[1..], id)
  }

  lemma {:induction false} AboutConcat(a: seq<SfuEvent>, b: seq<SfuEvent>, id: string)
    ensures About(a + b, id) == About(a, id) + About(b, id)
  {
    if a == [] {
      assert a + b == b;
    } else {
      assert (a + b)[1..] == a[1..] + b;
      AboutConcat(a[1..], b, id);
    }
  }

  lemma {:induction false} AboutLeft(r: Roster, keys: seq<string>, local: set<string>, id: string)
    requires Keyed(r) && Distinct(keys) && forall key :: key in keys ==> key in r.values
    ensures About(LeftEvents(r, keys, local), id)
         == if id in keys && id !in local then [ParticipantLeft(r.values[id].participant)] else []
  {
    if keys != [] {
      var first := if keys[0] in local then [] else [ParticipantLeft(r.values[keys[0]].participant)];
      assert keys == [keys[0]] + keys[1..];
      AboutConcat(first, LeftEvents(r, keys[1..], local), id);
      AboutLeft(r, keys[1..], local, id);
    }
  }

  lemma WithoutIs(r: Roster, key: string, id: string)
    requires Keyed(r)
    ensures Keyed(Without(r, key))
    ensures Get(Without(r, key), id) == if id == key then None else Get(r, id)
  {
    WithoutKeepsOrdered(r, key);
  }

  lemma {:induction false} GoneIs(previous: Roster, joined: seq<Participant>, id: string)
    requires Keyed(previous)
    ensures Keyed(Gone(previous, joined))
    ensures Get(Gone(previous, joined), id) == if id in Ids(joined) then None else Get(previous, id)
    decreases |joined|
  {
    if joined != [] {
      WithoutIs(previous, joined[0].sessionId, id);
      GoneIs(Without(previous, joined[0].sessionId), joined[1..], id);
      assert joined == [joined[0]] + joined[1..];
      assert id in Ids(joined) <==> id == joined[0].sessionId || id in Ids(joined[1..]);
    }
  }

  // The events of one session among those of the response: one for each time it
  // is listed, and only the first is compared with what was known.
  function Told(known: Option<State>, joined: seq<Participant>, id: string): seq<SfuEvent>
    decreases |joined|
  {
    if joined == [] then []
    else if joined[0].sessionId != id then Told(known, joined[1..], id)
    else EventFor(known, joined[0]) + Told(None, joined[1..], id)
  }

  lemma {:induction false} AboutJoined(previous: Roster, joined: seq<Participant>, local: set<string>, id: string)
    requires Keyed(previous)
    ensures About(JoinedEvents(previous, joined, local), id)
         == if id in local then [] else Told(Get(previous, id), joined, id)
    decreases |joined|
  {
    if joined != [] {
      var key := joined[0].sessionId;
      var first := if key in local then [] else EventFor(Get(previous, key), joined[0]);
      WithoutIs(previous, key, id);
      AboutConcat(first, JoinedEvents(Without(previous, key), joined[1..], local), id);
      AboutJoined(Without(previous, key), joined[1..], local, id);
      assert About(first, id) == if id == key then first else [];
    }
  }

  // A local session produces no event; any other one produces what the response
  // says about it, or its departure.
  lemma EventsOf(previous: Roster, joined: seq<Participant>, local: set<string>, id: string)
    requires Keyed(previous)
    ensures About(SnapshotEvents(previous, joined, local), id)
         == if id in local then []
            else if id in Ids(joined) then Told(Get(previous, id), joined, id)
            else if id in previous.values then [ParticipantLeft(previous.values[id].participant)]
            else []
  {
    var gone := Gone(previous, joined);
    GoneIs(previous, joined, id);
    AboutJoined(previous, joined, local, id);
    AboutLeft(gone, gone.keys, local, id);
    AboutConcat(JoinedEvents(previous, joined, local), LeftEvents(gone, gone.keys, local), id);
    if id !in Ids(joined) {
      ToldNothing(Get(previous, id), joined, id);
    }
  }

  lemma {:induction false} ToldNothing(known: Option<State>, joined: seq<Participant>, id: string)
    requires id !in Ids(joined)
    ensures Told(known, joined, id) == []
  {
    if joined != [] {
      assert joined[0] in joined;
      assert forall p :: p in joined[1..] ==> p in joined;
      ToldNothing(known, joined[1..], id);
    }
  }

  lemma {:induction false} ToldOnce(known: Option<State>, joined: seq<Participant>, k: nat)
    requires DistinctIds(joined) && k < |joined|
    ensures Told(known, joined, joined[k].sessionId) == EventFor(known, joined[k])
  {
    if k == 0 {
      ToldNothing(None, joined[1..], joined[0].sessionId);
    } else {
      ToldOnce(known, joined[1..], k - 1);
    }
  }

  // Each session gets at most one event.
  lemma OneEventEach(previous: Roster, joined: seq<Participant>, local: set<string>, id: string)
    requires Keyed(previous) && DistinctIds(joined)
    ensures |About(SnapshotEvents(previous, joined, local), id)| <= 1
  {
    EventsOf(previous, joined, local, id);
    if id in Ids(joined) {
      var k :| 0 <= k < |joined| && joined[k].sessionId == id;
      ToldOnce(Get(previous, id), joined, k);
    }
  }

  // ---- Replaying the events --------------------------------------------------------------------

  function Heard(view: map<string, Participant>, e: SfuEvent): map<string, Participant> {
    if e.ParticipantLeft? then view - {e.participant.sessionId}
    else view[e.participant.sessionId := e.participant]
  }

  function Replayed(view: map<string, Participant>, events: seq<SfuEvent>): map<string, Participant>
    decreases |events|
  {
    if events == [] then view else Replayed(Heard(view, events[0]), events[1..])
  }

  function ViewOf(r: Roster): map<string, Participant> {
    map id | id in r.values :: r.values[id].participant
  }

  function Seen(view: map<string, Participant>, id: string): Option<Participant> {
    if id in view then Some(view[id]) else None
  }

  // Only the events about `id` matter to what is seen of it.
  lemma {:induction false} ReplayIsLocal(view: map<string, Participant>, other: map<string, Participant>,
                                         events: seq<SfuEvent>, id: string)
    requires Seen(view, id) == Seen(other, id)
    ensures Seen(Replayed(view, events), id) == Seen(Replayed(other, About(events, id)), id)
    decreases |events|
  {
    if events != [] {
      if events[0].participant.sessionId == id {
        assert About(events, id) == [events[0]] + About(events[1..], id);
        assert About(events, id)[1..] == About(events[1..], id);
        ReplayIsLocal(Heard(view, events[0]), Heard(other, events[0]), events[1..], id);
      } else {
        assert About(events, id) == About(events[1..], id);
        ReplayIsLocal(Heard(view, events[0]), other, events[1..], id);
      }
    }
  }

  // The same participant up to the fields that have events of their own.
  predicate SameUpToMasked(seen: Participant, now: Participant) {
    Masked(seen, now) == now
  }

  lemma {:induction false} ReplayTold(view: map<string, Participant>, known: Option<State>,
                                      joined: seq<Participant>, id: string)
    requires id in Ids(joined)
    requires known.Some? ==> Seen(view, id) == Some(known.value.participant)
    ensures Seen(Replayed(view, Told(known, joined, id)), id).Some?
    ensures SameUpToMasked(Replayed(view, Told(known, joined, id))[id], Latest(joined, id))
    decreases |joined|
  {
    var rest := joined[1..];
    assert joined == [joined[0]] + rest;
    LatestSplits(joined, id);
    if joined[0].sessionId != id {
      assert id in Ids(rest);
      ReplayTold(view, known, rest, id);
    } else {
      var first := EventFor(known, joined[0]);
      var next := if first == [] then view else Heard(view, first[0]);
      assert (first + Told(None, rest, id))[|first|..] == Told(None, rest, id);
      assert Replayed(view, first + Told(None, rest, id)) == Replayed(next, Told(None, rest, id));
      if id in Ids(rest) {
        ReplayTold(next, None, rest, id);
      } else {
        ToldNothing(None, rest, id);
      }
    }
  }

  lemma {:induction false} LatestSplits(joined: seq<Participant>, id: string)
    requires id in Ids(joined)
    ensures Latest(joined, id) == if id in Ids(joined[1..]) then Latest(joined[1..], id) else joined[0]
  {
    var front, last := joined[..|joined| - 1], joined[|joined| - 1];
    if |joined| > 1 && last.sessionId != id {
      assert joined == front + [last];
      assert joined[1..] == front[1..] + [last];
      assert joined[1..][..|joined| - 2] == front[1..];
      assert Ids(joined[1..]) == Ids(front[1..]) + {last.sessionId};
      LatestSplits(front, id);
    } else if |joined| > 1 {
      assert last == joined[1..][|joined| - 2];
      assert last in joined[1..];
    }
  }

  // Replaying the events of a join response on the previous participants gives
  // the new ones, for every session that is not a local one. Duplicates in the
  // response do no harm; an empty session id does.
  lemma ReplayGivesSnapshot(
      previous: Roster, sessionId: string, userId: string, joined: seq<Participant>, local: set<string>, id: string)
    requires Keyed(previous) && sessionId in local && id !in local
    requires id == "" ==> id !in Ids(joined)
    ensures var after := Snapshot(previous, sessionId, userId, joined);
      var seen := Replayed(ViewOf(previous), SnapshotEvents(previous, joined, local));
      && (id in seen <==> id in after.values)
      && (id in seen ==> SameUpToMasked(seen[id], after.values[id].participant))
  {
    var events := SnapshotEvents(previous, joined, local);
    SnapshotIs(previous, sessionId, userId, joined, id);
    EventsOf(previous, joined, local, id);
    ReplayIsLocal(ViewOf(previous), ViewOf(previous), events, id);
    if id in Ids(joined) {
      ReplayTold(ViewOf(previous), Get(previous, id), joined, id);
    }
  }

  // A listener hears of a session with the empty id, which the roster leaves out.
  lemma EmptyIdIsHeardNotKept(
      previous: Roster, sessionId: string, userId: string, joined: seq<Participant>, local: set<string>)
    requires Keyed(previous) && sessionId in local && "" !in local && "" !in previous.values
    ensures "" !in Snapshot(previous, sessionId, userId, joined).values
    ensures "" in Replayed(ViewOf(previous), SnapshotEvents(previous, joined, local)) <==> "" in Ids(joined)
  {
    SnapshotIs(previous, sessionId, userId, joined, "");
    EventsOf(previous, joined, local, "");
    ReplayIsLocal(ViewOf(previous), ViewOf(previous), SnapshotEvents(previous, joined, local), "");
    if "" in Ids(joined) {
      ReplayTold(ViewOf(previous), None, joined, "");
    }
  }
}
