// The participants of a call, kept in step with the SFU: the snapshot of a join
// response, and the single events between two of them.
module Participants {
  import opened Wrappers
  import opened IndexMap
  import opened Sequences
  import opened TrackTypes

  // `profile` stands for the fields that nothing here looks into, such as the name.
  datatype Participant = Participant(
    userId: string, sessionId: string, prefix: string, publishedTracks: seq<i32>, roles: seq<string>,
    audioLevel: real, isSpeaking: bool, connectionQuality: int, isDominantSpeaker: bool,
    profile: int)

  datatype State = State(
    userId: string, sessionId: string, prefix: string, published: set<i32>,
    participant: Participant, paused: set<i32>)

  type Roster = IndexMap<State>

  datatype SfuEvent =
    | ParticipantJoined(participant: Participant)
    | ParticipantUpdated(participant: Participant)
    | ParticipantLeft(participant: Participant)

  const NO_PARTICIPANT := Participant("", "", "", [], [], 0.0, false, 0, false, 0)

  const NO_STATE := State("", "", "", {}, NO_PARTICIPANT, {})

  function SetOf(tracks: seq<i32>): set<i32> {
    set t | t in tracks
  }

  function StateOr(r: Roster, id: string): State {
    if id in r.values then r.values[id] else NO_STATE
  }

  // ---- One event at a time -----------------------------------------------------

  function Refreshed(s: State, p: Participant): State {
    s.(userId := p.userId, sessionId := p.sessionId, participant := p,
       prefix := if p.prefix == "" then s.prefix else p.prefix,
       published := SetOf(p.publishedTracks))
  }

  function Upserted(r: Roster, p: Participant): Roster {
    if p.sessionId == "" then r else Put(r, p.sessionId, Refreshed(StateOr(r, p.sessionId), p))
  }

  function WithHint(s: State, hint: Option<Participant>): State {
    if hint.None? then s
    else s.(participant := hint.value, prefix := if hint.value.prefix == "" then s.prefix else hint.value.prefix)
  }

  function Published(s: State, userId: string, sessionId: string, track: i32): State {
    var p := s.participant.(userId := userId, sessionId := sessionId);
    s.(userId := userId, sessionId := sessionId, published := s.published + {track},
       participant := if track in p.publishedTracks then p else p.(publishedTracks := p.publishedTracks + [track]))
  }

  function TrackAdded(r: Roster, userId: string, sessionId: string, track: i32, hint: Option<Participant>): Roster {
    if sessionId == "" then r
    else Put(r, sessionId, Published(WithHint(StateOr(r, sessionId), hint), userId, sessionId, track))
  }

  function Retained(tracks: seq<i32>, track: i32): seq<i32> {
    if tracks == [] then []
    else (if tracks[0] == track then [] else [tracks[0]]) + Retained(tracks[1..], track)
  }

  function Unpublished(s: State, track: i32): State {
    s.(published := s.published - {track},
       participant := s.participant.(publishedTracks := Retained(s.participant.publishedTracks, track)))
  }

  function TrackRemoved(r: Roster, sessionId: string, track: i32): Roster {
    if sessionId in r.values then r.(values := r.values[sessionId := Unpublished(r.values[sessionId], track)]) else r
  }

  // Every entry is stored under the session id of its participant.
  ghost predicate Keyed(r: Roster) {
    && Ordered(r)
    && forall id :: id in r.values ==> r.values[id].sessionId == id && r.values[id].participant.sessionId == id
  }

  // ---- The snapshot of a join response --------------------------------------------

  function Ids(joined: seq<Participant>): set<string> {
    set p | p in joined :: p.sessionId
  }

  // The entries of `keys` that stay, emptied.
  function Surviving(keys: seq<string>, current: set<string>): Roster {
    if keys == [] then EmptyMap()
    else
      var before := Surviving(keys[..|keys| - 1], current);
      var key := keys[|keys| - 1];
      if key in current then Put(before, key, NO_STATE) else before
  }

  function WithMe(r: Roster, sessionId: string, userId: string): Roster {
    var me := StateOr(r, sessionId);
    Put(r, sessionId, me.(userId := userId, sessionId := sessionId,
                          participant := me.participant.(userId := userId, sessionId := sessionId)))
  }

  function Filled(r: Roster, joined: seq<Participant>): Roster {
    if joined == [] then r
    else Upserted(Filled(r, joined[..|joined| - 1]), joined[|joined| - 1])
  }

  function Snapshot(previous: Roster, sessionId: string, userId: string, joined: seq<Participant>): Roster {
    Filled(WithMe(Surviving(previous.keys, Ids(joined) + {sessionId}), sessionId, userId), joined)
  }

  function Masked(known: Participant, now: Participant): Participant {
    known.(audioLevel := now.audioLevel, isSpeaking := now.isSpeaking,
           connectionQuality := now.connectionQuality, isDominantSpeaker := now.isDominantSpeaker)
  }

  // The event for one participant of the response.
  function EventFor(known: Option<State>, now: Participant): seq<SfuEvent> {
    match known
    case None => [ParticipantJoined(now)]
    case Some(state) => if Masked(state.participant, now) == now then [] else [ParticipantUpdated(now)]
  }

  function JoinedEvents(previous: Roster, joined: seq<Participant>, local: set<string>): seq<SfuEvent>
    decreases |joined|
  {
    if joined == [] then []
    else
      var id := joined[0].sessionId;
      (if id in local then [] else EventFor(Get(previous, id), joined[0]))
      + JoinedEvents(Without(previous, id), joined[1..], local)
  }

  function Gone(previous: Roster, joined: seq<Participant>): Roster
    decreases |joined|
  {
    if joined == [] then previous else Gone(Without(previous, joined[0].sessionId), joined[1..])
  }

  function LeftEvents(r: Roster, keys: seq<string>, local: set<string>): seq<SfuEvent>
    requires forall key :: key in keys ==> key in r.values
  {
    if keys == [] then []
    else
      (if keys[0] in local then [] else [ParticipantLeft(r.values[keys[0]].participant)])
      + LeftEvents(r, keys[1..], local)
  }

  lemma {:induction false} GoneKeepsOrdered(previous: Roster, joined: seq<Participant>)
    requires Ordered(previous)
    ensures Ordered(Gone(previous, joined))
    decreases |joined|
  {
    if joined != [] {
      WithoutKeepsOrdered(previous, joined[0].sessionId);
      GoneKeepsOrdered(Without(previous, joined[0].sessionId), joined[1..]);
    }
  }

  function SnapshotEvents(previous: Roster, joined: seq<Participant>, local: set<string>): seq<SfuEvent>
    requires Ordered(previous)
  {
    GoneKeepsOrdered(previous, joined);
    JoinedEvents(previous, joined, local) + LeftEvents(Gone(previous, joined), Gone(previous, joined).keys, local)
  }

  // ---- The state of a call -----------------------------------------------------------

  class CallParticipants {
    var participants: Roster
    var manualUnsub: set<TrackKey>
    var localSessionId: string
    var events: seq<SfuEvent>

    ghost predicate Valid()
      reads this
    {
      Keyed(participants)
    }

    constructor ()
      ensures Valid() && participants == EmptyMap() && manualUnsub == {} && localSessionId == "" && events == []
    {
      participants, manualUnsub, localSessionId, events := EmptyMap(), {}, "", [];
    }

    method Upsert(p: Participant)
      requires Valid()
      modifies this`participants
      ensures Valid() && participants == Upserted(old(participants), p)
    {
      if p.sessionId == "" {
        return;
      }
      PutKeepsOrdered(participants, p.sessionId, Refreshed(StateOr(participants, p.sessionId), p));
      participants := Put(participants, p.sessionId, Refreshed(StateOr(participants, p.sessionId), p));
    }

    method Remove(sessionId: string)
      requires Valid()
      modifies this`participants
      ensures Valid() && participants == Without(old(participants), sessionId)
    {
      WithoutKeepsOrdered(participants, sessionId);
      participants := Without(participants, sessionId);
    }

    method AddPublishedTrack(userId: string, sessionId: string, track: i32, hint: Option<Participant>)
      requires Valid()
      modifies this`participants, this`manualUnsub
      ensures Valid() && participants == TrackAdded(old(participants), userId, sessionId, track, hint)
      ensures manualUnsub == if sessionId != "" && KnownType(track) then
          old(manualUnsub) - {TrackKey(sessionId, track)}
        else old(manualUnsub)
    {
      if sessionId == "" {
        return;
      }
      var entry := WithHint(StateOr(participants, sessionId), hint);
      entry := entry.(userId := userId, sessionId := sessionId, published := entry.published + {track});
      entry := entry.(participant := entry.participant.(userId := userId, sessionId := sessionId));
      if track !in entry.participant.publishedTracks {
        entry := entry.(participant :=
          entry.participant.(publishedTracks := entry.participant.publishedTracks + [track]));
      }
      PutKeepsOrdered(participants, sessionId, entry);
      participants := Put(participants, sessionId, entry);
      if KnownType(track) {
        manualUnsub := manualUnsub - {TrackKey(sessionId, track)};
      }
    }

    method RemovePublishedTrack(sessionId: string, track: i32)
      requires Valid()
      modifies this`participants
      ensures Valid() && participants == TrackRemoved(old(participants), sessionId, track)
    {
      if sessionId in participants.values {
        var entry := Unpublished(participants.values[sessionId], track);
        participants := participants.(values := participants.values[sessionId := entry]);
      }
    }

    // `apply_join_call_state_if_current`; `active` is the generation under the lock.
    method ApplySnapshot(
        active: u64, generation: u64, sessionId: string, userId: string, joined: seq<Participant>)
      returns (applied: bool)
      requires Valid()
      modifies this
      ensures Valid() && (applied <==> active == generation)
      ensures !applied ==> unchanged(this)
      ensures manualUnsub == old(manualUnsub)
      ensures applied ==> participants == Snapshot(old(participants), sessionId, userId, joined)
      ensures applied ==> localSessionId == sessionId
      ensures applied ==>
        events == old(events) + SnapshotEvents(old(participants), joined, {sessionId, old(localSessionId)})
    {
      if active != generation {
        return false;
      }
      var previousSessionId := localSessionId;
      localSessionId := sessionId;
      var previous := participants;
      var roster := Reconcile(previous, sessionId, userId, joined);
      participants := roster;
      var sent := Announce(previous, joined, {sessionId, previousSessionId});
      events := events + sent;
      return true;
    }
  }

  method Reconcile(previous: Roster, sessionId: string, userId: string, joined: seq<Participant>) returns (r: Roster)
    requires Ordered(previous)
    ensures r == Snapshot(previous, sessionId, userId, joined) && Keyed(r)
  {
    r := EmptyMap();
    var current := Ids(joined) + {sessionId};
    for i := 0 to |previous.keys|
      invariant r == Surviving(previous.keys[..i], current)
    {
      assert previous.keys[..i + 1][..i] == previous.keys[..i];
      if previous.keys[i] in current {
        r := Put(r, previous.keys[i], NO_STATE);
      }
    }
    assert previous.keys[..|previous.keys|] == previous.keys;
    r := WithMe(r, sessionId, userId);
    ghost var base := r;
    for i := 0 to |joined|
      invariant r == Filled(base, joined[..i])
    {
      assert joined[..i + 1][..i] == joined[..i];
      if joined[i].sessionId != "" {
        r := Put(r, joined[i].sessionId, Refreshed(StateOr(r, joined[i].sessionId), joined[i]));
      }
    }
    assert joined[..|joined|] == joined;
    SnapshotIsKeyed(previous, sessionId, userId, joined);
  }

  method Announce(previous: Roster, joined: seq<Participant>, local: set<string>) returns (events: seq<SfuEvent>)
    requires Ordered(previous)
    ensures events == SnapshotEvents(previous, joined, local)
  {
    var gone: Roster;
    events, gone := AnnounceJoined(previous, joined, local);
    ghost var sent := events;
    assert gone.keys[0..] == gone.keys;
    assert forall key :: key in gone.keys ==> key in gone.values;
    hide Ordered, Gone, JoinedEvents, LeftEvents;
    for i := 0 to |gone.keys|
      invariant events + LeftEvents(gone, gone.keys[i..], local) == sent + LeftEvents(gone, gone.keys, local)
    {
      NextLeft(gone, i, local);
      var id := gone.keys[i];
      var said := [];
      if id !in local {
        said := [ParticipantLeft(gone.values[id].participant)];
      }
      ConcatIsAssociative(events, said, LeftEvents(gone, gone.keys[i + 1..], local));
      events := events + said;
    }
    NoneLeft(gone, local);
  }

  lemma NextLeft(r: Roster, i: nat, local: set<string>)
    requires i < |r.keys| && forall key :: key in r.keys ==> key in r.values
    ensures LeftEvents(r, r.keys[i..], local)
         == (if r.keys[i] in local then [] else [ParticipantLeft(r.values[r.keys[i]].participant)])
          + LeftEvents(r, r.keys[i + 1..], local)
  {
    assert r.keys[i..][1..] == r.keys[i + 1..];
  }

  lemma NoneLeft(r: Roster, local: set<string>)
    ensures LeftEvents(r, r.keys[|r.keys|..], local) == []
  {
  }

  method EventOf(known: Option<State>, p: Participant) returns (said: seq<SfuEvent>)
    ensures said == EventFor(known, p)
  {
    match known {
      case None =>
        return [ParticipantJoined(p)];
      case Some(state) =>
        if Masked(state.participant, p) == p {
          return [];
        }
        return [ParticipantUpdated(p)];
    }
  }

  lemma NextJoined(gone: Roster, joined: seq<Participant>, i: nat, local: set<string>)
    requires i < |joined|
    ensures var id := joined[i].sessionId;
      && JoinedEvents(gone, joined[i..], local)
         == (if id in local then [] else EventFor(Get(gone, id), joined[i]))
          + JoinedEvents(Without(gone, id), joined[i + 1..], local)
      && Gone(gone, joined[i..]) == Gone(Without(gone, id), joined[i + 1..])
  {
    assert joined[i..][1..] == joined[i + 1..];
  }

  // The loop over the response; `gone` is what it leaves of the previous roster.
  method AnnounceJoined(previous: Roster, joined: seq<Participant>, local: set<string>)
    returns (events: seq<SfuEvent>, gone: Roster)
    requires Ordered(previous)
    ensures events == JoinedEvents(previous, joined, local)
    ensures gone == Gone(previous, joined) && Ordered(gone)
  {
    GoneKeepsOrdered(previous, joined);
    assert joined[0..] == joined;
    assert forall r: Roster :: Gone(r, []) == r && JoinedEvents(r, [], local) == [];
    hide *;
    events, gone := [], previous;
    for i := 0 to |joined|
      invariant events + JoinedEvents(gone, joined[i..], local) == JoinedEvents(previous, joined, local)
      invariant Gone(gone, joined[i..]) == Gone(previous, joined)
    {
      NextJoined(gone, joined, i, local);
      var id := joined[i].sessionId;
      var known := Get(gone, id);
      gone := Without(gone, id);
      var said := [];
      if id !in local {
        said := EventOf(known, joined[i]);
      }
      ConcatIsAssociative(events, said, JoinedEvents(gone, joined[i + 1..], local));
      events := events + said;
    }
    assert joined[|joined|..] == [];
  }

  // ---- The new roster -------------------------------------------------------------------

  // The keys that are in `current`, in their order.
  function Kept(keys: seq<string>, current: set<string>): seq<string> {
    if keys == [] then []
    else Kept(keys[..|keys| - 1], current)
         + (if keys[|keys| - 1] in current then [keys[|keys| - 1]] else [])
  }

  lemma {:induction false} SurvivingIs(keys: seq<string>, current: set<string>)
    requires Distinct(keys)
    ensures Ordered(Surviving(keys, current))
    ensures Surviving(keys, current).keys == Kept(keys, current)
    ensures forall id :: id in Surviving(keys, current).values <==> id in keys && id in current
    ensures forall id :: id in Surviving(keys, current).values ==> Surviving(keys, current).values[id] == NO_STATE
  {
    if keys != [] {
      var front, last := keys[..|keys| - 1], keys[|keys| - 1];
      SurvivingIs(front, current);
      assert keys == front + [last];
      assert last !in Surviving(front, current).values;
      PutKeepsOrdered(Surviving(front, current), last, NO_STATE);
    }
  }

  // What the response says last about `id`.
  function Latest(joined: seq<Participant>, id: string): Participant
    requires id in Ids(joined)
  {
    if joined[|joined| - 1].sessionId == id then joined[|joined| - 1]
    else
      assert joined == joined[..|joined| - 1] + [joined[|joined| - 1]];
      Latest(joined[..|joined| - 1], id)
  }

  lemma {:induction false} FilledIs(r: Roster, joined: seq<Participant>, id: string)
    requires Ordered(r)
    ensures Ordered(Filled(r, joined))
    ensures id in Filled(r, joined).values <==> id in r.values || (id in Ids(joined) && id != "")
    ensures id in Filled(r, joined).values ==>
      var state := Filled(r, joined).values[id];
      if id in Ids(joined) && id != "" then
        state.sessionId == id && state.participant == Latest(joined, id)
        && state.published == SetOf(state.participant.publishedTracks)
      else state == r.values[id]
  {
    if joined != [] {
      var front, last := joined[..|joined| - 1], joined[|joined| - 1];
      FilledIs(r, front, id);
      assert joined == front + [last];
      assert Ids(joined) == Ids(front) + {last.sessionId};
      if last.sessionId != "" {
        var before := Filled(r, front);
        PutKeepsOrdered(before, last.sessionId, Refreshed(StateOr(before, last.sessionId), last));
      }
    }
  }

  lemma LatestHasId(joined: seq<Participant>, id: string)
    requires id in Ids(joined)
    ensures Latest(joined, id) in joined && Latest(joined, id).sessionId == id
  {
    if joined[|joined| - 1].sessionId != id {
      assert joined == joined[..|joined| - 1] + [joined[|joined| - 1]];
      LatestHasId(joined[..|joined| - 1], id);
    }
  }

  // The sessions of the snapshot, and what is known about each of them.
  lemma SnapshotIs(previous: Roster, sessionId: string, userId: string, joined: seq<Participant>, id: string)
    requires Ordered(previous)
    ensures var after := Snapshot(previous, sessionId, userId, joined);
      && Ordered(after)
      && (id in after.values <==>
          id == sessionId || (id in Ids(joined) && (id != "" || id in previous.values)))
      && (id in after.values ==> after.values[id].sessionId == id && after.values[id].participant.sessionId == id)
      && (id in Ids(joined) && id != "" ==> after.values[id].participant == Latest(joined, id))
      && (id == sessionId && (id !in Ids(joined) || id == "") ==> after.values[id].userId == userId)
  {
    var current := Ids(joined) + {sessionId};
    SurvivingIs(previous.keys, current);
    var kept := Surviving(previous.keys, current);
    var me := StateOr(kept, sessionId);
    var mine := me.(userId := userId, sessionId := sessionId,
                    participant := me.participant.(userId := userId, sessionId := sessionId));
    PutKeepsOrdered(kept, sessionId, mine);
    assert WithMe(kept, sessionId, userId) == Put(kept, sessionId, mine);
    FilledIs(WithMe(kept, sessionId, userId), joined, id);
    if id in Ids(joined) {
      LatestHasId(joined, id);
    }
  }

  lemma SnapshotIsKeyed(previous: Roster, sessionId: string, userId: string, joined: seq<Participant>)
    requires Ordered(previous)
    ensures Keyed(Snapshot(previous, sessionId, userId, joined))
  {
    SnapshotIs(previous, sessionId, userId, joined, sessionId);
    forall id | id in Snapshot(previous, sessionId, userId, joined).values
      ensures Snapshot(previous, sessionId, userId, joined).values[id].sessionId == id
      ensures Snapshot(previous, sessionId, userId, joined).values[id].participant.sessionId == id
    {
      SnapshotIs(previous, sessionId, userId, joined, id);
    }
  }
}
