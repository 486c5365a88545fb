// What every operation does to the entries of the participants, field by field.
module ParticipantEntries {
  import opened IndexMap
  import opened ParticipantEvents
  import opened Participants
  import opened Wrappers

  // Only the entry of `id` differs, and a new one is the last.
  ghost predicate OnlyAt(before: Roster, after: Roster, id: string) {
    && id in after.values
    && after.keys == (if id in before.values then before.keys else before.keys + [id])
    && forall other :: other != id ==> Get(after, other) == Get(before, other)
  }

  // The prefix that is known unless a message brings one.
  function KnownPrefix(r: Roster, id: string): string {
    if id in r.values then r.values[id].prefix else ""
  }

  function PausedOf(r: Roster, id: string): set<i32> {
    if id in r.values then r.values[id].paused else {}
  }

  // A message with a session id replaces the participant and its tracks; an empty prefix
  // keeps the known one.
  lemma UpsertedIs(r: Roster, p: Participant)
    ensures p.sessionId == "" ==> Upserted(r, p) == r
    ensures p.sessionId != "" ==>
      var after := Upserted(r, p);
      && OnlyAt(r, after, p.sessionId)
      && var entry := after.values[p.sessionId];
      && entry.participant == p && entry.userId == p.userId && entry.sessionId == p.sessionId
      && (forall t :: t in entry.published <==> t in p.publishedTracks)
      && entry.prefix == (if p.prefix != "" then p.prefix else KnownPrefix(r, p.sessionId))
      && entry.paused == PausedOf(r, p.sessionId)
  {
  }

  // A published track is added under the given ids to what the hint, or else the call,
  // knows of the participant.
  lemma TrackAddedIs(r: Roster, userId: string, sessionId: string, track: i32, hint: Option<Participant>)
    ensures sessionId == "" ==> TrackAdded(r, userId, sessionId, track, hint) == r
    ensures sessionId != "" ==>
      var after := TrackAdded(r, userId, sessionId, track, hint);
      && OnlyAt(r, after, sessionId)
      && var entry, known := after.values[sessionId], StateOr(r, sessionId);
      var p := if hint.Some? then hint.value else known.participant;
      && entry.userId == userId && entry.sessionId == sessionId
      && entry.participant == p.(userId := userId, sessionId := sessionId,
           publishedTracks := if track in p.publishedTracks then p.publishedTracks else p.publishedTracks + [track])
      && (forall t :: t in entry.published <==> t == track || t in known.published)
      && entry.prefix == (if hint.Some? && hint.value.prefix != "" then hint.value.prefix
                          else KnownPrefix(r, sessionId))
      && entry.paused == PausedOf(r, sessionId)
  {
  }

  // A session not seen before is known with nothing but what a message says.
  lemma UnknownIsEmpty(r: Roster, id: string)
    ensures id in r.values ==> StateOr(r, id) == r.values[id]
    ensures id !in r.values ==> StateOr(r, id) == BareState("", "")
  {
  }

  lemma {:induction false} RetainedKeepsOrder(tracks: seq<i32>, track: i32, k: nat)
    requires k < |tracks| && tracks[k] == track && track !in tracks[..k] && track !in tracks[k + 1..]
    ensures Retained(tracks, track) == tracks[..k] + tracks[k + 1..]
  {
    if k == 0 {
      RetainedAll(tracks[1..], track);
    } else {
      assert tracks[..k] == [tracks[0]] + tracks[1..][..k - 1];
      assert tracks[1..][k..] == tracks[k + 1..];
      RetainedKeepsOrder(tracks[1..], track, k - 1);
    }
  }

  lemma {:induction false} RetainedAll(tracks: seq<i32>, track: i32)
    requires track !in tracks
    ensures Retained(tracks, track) == tracks
  {
    if tracks != [] {
      RetainedAll(tracks[1..], track);
    }
  }

  // `after` is `tracks` without `track`, if it lists that no more than once.
  ghost predicate TakenOut(tracks: seq<i32>, track: i32, after: seq<i32>) {
    && (track !in tracks ==> after == tracks)
    && forall k :: 0 <= k < |tracks| && tracks[k] == track && track !in tracks[..k] && track !in tracks[k + 1..] ==>
         after == tracks[..k] + tracks[k + 1..]
  }

  // An unpublished track leaves both records of a known session, in their order, and
  // nothing else changes.
  lemma TrackRemovedIs(r: Roster, sessionId: string, track: i32)
    ensures sessionId !in r.values ==> TrackRemoved(r, sessionId, track) == r
    ensures sessionId in r.values ==>
      var before, after := r.values[sessionId], TrackRemoved(r, sessionId, track);
      && OnlyAt(r, after, sessionId)
      && var tracks := after.values[sessionId].participant.publishedTracks;
      && after.values[sessionId] == before.(published := before.published - {track},
           participant := before.participant.(publishedTracks := tracks))
      && TakenOut(before.participant.publishedTracks, track, tracks)
  {
    if sessionId in r.values {
      var tracks := r.values[sessionId].participant.publishedTracks;
      if track !in tracks {
        RetainedAll(tracks, track);
      }
      forall k | 0 <= k < |tracks| && tracks[k] == track && track !in tracks[..k] && track !in tracks[k + 1..]
        ensures Retained(tracks, track) == tracks[..k] + tracks[k + 1..]
      {
        RetainedKeepsOrder(tracks, track, k);
      }
    }
  }

  lemma DroppedIs(keys: seq<string>, key: string)
    requires Distinct(keys)
    ensures key !in keys ==> Dropped(keys, key) == keys
    ensures forall k :: 0 <= k < |keys| && keys[k] == key ==> Dropped(keys, key) == keys[..k] + keys[k + 1..]
  {
    if key !in keys {
      DroppedNone(keys, key);
    }
    forall k | 0 <= k < |keys| && keys[k] == key
      ensures Dropped(keys, key) == keys[..k] + keys[k + 1..]
    {
      DroppedAt(keys, key, k);
    }
    hide Dropped;
  }

  lemma {:induction false} DroppedNone(keys: seq<string>, key: string)
    requires key !in keys
    ensures Dropped(keys, key) == keys
  {
    if keys != [] {
      assert keys == [keys[0]] + keys[1..];
      DroppedNone(keys[1..], key);
    }
  }

  lemma {:induction false} DroppedAt(keys: seq<string>, key: string, k: nat)
    requires Distinct(keys) && k < |keys| && keys[k] == key
    ensures Dropped(keys, key) == keys[..k] + keys[k + 1..]
  {
    var rest := keys[1..];
    if k == 0 {
      DroppedNone(rest, key);
    } else {
      DroppedAt(rest, key, k - 1);
      assert keys[..k] == [keys[0]] + rest[..k - 1] && rest[k..] == keys[k + 1..];
    }
  }

  // A removal takes out the one key and leaves the others where they are.
  lemma RemovedIs(r: Roster, id: string)
    requires Ordered(r)
    ensures id !in r.values ==> Without(r, id) == r
    ensures forall other :: other != id ==> Get(Without(r, id), other) == Get(r, other)
    ensures id !in Without(r, id).values
    ensures forall k :: 0 <= k < |r.keys| && r.keys[k] == id ==>
      Without(r, id).keys == r.keys[..k] + r.keys[k + 1..]
  {
    DroppedIs(r.keys, id);
    if id !in r.values {
      assert r.values - {id} == r.values;
    }
  }

  // ---- The entries of a snapshot -----------------------------------------------------------

  ghost predicate IsEntryOf(s: State, p: Participant) {
    && s.participant == p && s.userId == p.userId && s.sessionId == p.sessionId && s.prefix == p.prefix
    && (forall t :: t in s.published <==> t in p.publishedTracks) && s.paused == {}
  }

  lemma {:induction false} FilledEntry(r: Roster, joined: seq<Participant>, k: nat)
    requires Ordered(r) && DistinctIds(joined) && k < |joined|
    requires forall id :: id in r.values ==> r.values[id].prefix == "" && r.values[id].paused == {}
    ensures joined[k].sessionId in Filled(r, joined).values
    ensures IsEntryOf(Filled(r, joined).values[joined[k].sessionId], joined[k])
  {
    var front, last := joined[..|joined| - 1], joined[|joined| - 1];
    if k == |front| {
      FilledIs(r, front, last.sessionId);
      assert last.sessionId !in Ids(front);
    } else {
      FilledEntry(r, front, k);
    }
  }

  function BareState(userId: string, sessionId: string): State {
    State(userId, sessionId, "", {}, Participant(userId, sessionId, "", [], [], 0.0, false, 0, false, 0), {})
  }

  // Nothing known before survives a snapshot but the order: a listed session is what the
  // response says, and the local one, if it is not listed, has its ids and nothing else.
  lemma SnapshotEntryIs(previous: Roster, sessionId: string, userId: string, joined: seq<Participant>)
    requires Ordered(previous) && DistinctIds(joined)
    ensures var after := Snapshot(previous, sessionId, userId, joined);
      && (forall k :: 0 <= k < |joined| ==>
            joined[k].sessionId in after.values && IsEntryOf(after.values[joined[k].sessionId], joined[k]))
      && (sessionId !in Ids(joined) ==> Get(after, sessionId) == Some(BareState(userId, sessionId)))
  {
    var current := Ids(joined) + {sessionId};
    SurvivingIs(previous.keys, current);
    var kept := Surviving(previous.keys, current);
    var base := WithMe(kept, sessionId, userId);
    PutKeepsOrdered(kept, sessionId, base.values[sessionId]);
    assert StateOr(kept, sessionId) == NO_STATE;
    forall k | 0 <= k < |joined|
      ensures joined[k].sessionId in Filled(base, joined).values
      ensures IsEntryOf(Filled(base, joined).values[joined[k].sessionId], joined[k])
    {
      FilledEntry(base, joined, k);
    }
    FilledIs(base, joined, sessionId);
    hide Filled, Surviving, IsEntryOf;
  }
}
