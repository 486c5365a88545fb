// The two records of what a session publishes: the set `published`, which the
// subscriptions to targets read, and the list in its participant, which the policy reads.
module ParticipantTracks {
  import opened Wrappers
  import opened IndexMap
  import opened Participants

  ghost predicate InSync(s: State) {
    s.published == SetOf(s.participant.publishedTracks)
  }

  ghost predicate AllInSync(r: Roster) {
    forall id :: id in r.values ==> InSync(r.values[id])
  }

  lemma {:induction false} RetainedIs(tracks: seq<i32>, track: i32)
    ensures SetOf(Retained(tracks, track)) == SetOf(tracks) - {track}
  {
    if tracks != [] {
      RetainedIs(tracks[1..], track);
      var rest := Retained(tracks[1..], track);
      assert tracks == [tracks[0]] + tracks[1..];
      assert SetOf(tracks) == {tracks[0]} + SetOf(tracks[1..]);
      assert SetOf([tracks[0]] + rest) == {tracks[0]} + SetOf(rest);
      assert [] + rest == rest;
    }
  }

  lemma UpsertKeepsSync(r: Roster, p: Participant)
    requires AllInSync(r)
    ensures AllInSync(Upserted(r, p))
  {
  }

  lemma TrackRemovedKeepsSync(r: Roster, sessionId: string, track: i32)
    requires AllInSync(r)
    ensures AllInSync(TrackRemoved(r, sessionId, track))
  {
    if sessionId in r.values {
      RetainedIs(r.values[sessionId].participant.publishedTracks, track);
    }
  }

  // A snapshot puts every session in sync, whatever was known before.
  lemma SnapshotIsInSync(previous: Roster, sessionId: string, userId: string, joined: seq<Participant>)
    requires Ordered(previous)
    ensures AllInSync(Snapshot(previous, sessionId, userId, joined))
  {
    var after := Snapshot(previous, sessionId, userId, joined);
    var current := Ids(joined) + {sessionId};
    SurvivingIs(previous.keys, current);
    var base := WithMe(Surviving(previous.keys, current), sessionId, userId);
    assert Ordered(base) by {
      PutKeepsOrdered(Surviving(previous.keys, current), sessionId, base.values[sessionId]);
    }
    forall id | id in after.values
      ensures InSync(after.values[id])
    {
      FilledIs(base, joined, id);
    }
  }

  // A published track keeps them in sync without a hint. With one, exactly if the
  // participant of the hint lists what was known, give or take the track.
  lemma TrackAddedKeepsSyncIff(
      r: Roster, userId: string, sessionId: string, track: i32, hint: Option<Participant>)
    requires AllInSync(r)
    ensures AllInSync(TrackAdded(r, userId, sessionId, track, hint)) <==>
      sessionId == "" || hint.None?
      || SetOf(hint.value.publishedTracks) + {track} == StateOr(r, sessionId).published + {track}
  {
    if sessionId != "" {
      var before := WithHint(StateOr(r, sessionId), hint);
      var after := Published(before, userId, sessionId, track);
      var tracks := before.participant.publishedTracks;
      assert SetOf(tracks + [track]) == SetOf(tracks) + {track};
      assert SetOf(after.participant.publishedTracks) == SetOf(tracks) + {track};
      var values := TrackAdded(r, userId, sessionId, track, hint).values;
      assert values == r.values[sessionId := after];
      assert AllInSync(TrackAdded(r, userId, sessionId, track, hint)) <==> InSync(after) by {
        assert sessionId in values && values[sessionId] == after;
        hide InSync;
      }
      assert InSync(StateOr(r, sessionId));
      assert after.published == StateOr(r, sessionId).published + {track};
    }
  }

  // ---- Every run ------------------------------------------------------------------------

  datatype Change =
    | Upsert(participant: Participant)
    | Remove(sessionId: string)
    | TrackPublished(userId: string, sessionId: string, track: i32, hint: Option<Participant>)
    | TrackUnpublished(sessionId: string, track: i32)
    | JoinResponse(sessionId: string, userId: string, joined: seq<Participant>)

  function Changed(r: Roster, change: Change): Roster {
    match change
    case Upsert(p) => Upserted(r, p)
    case Remove(sessionId) => Without(r, sessionId)
    case TrackPublished(userId, sessionId, track, hint) => TrackAdded(r, userId, sessionId, track, hint)
    case TrackUnpublished(sessionId, track) => TrackRemoved(r, sessionId, track)
    case JoinResponse(sessionId, userId, joined) => Snapshot(r, sessionId, userId, joined)
  }

  function Changes(r: Roster, changes: seq<Change>): Roster {
    if changes == [] then r else Changed(Changes(r, changes[..|changes| - 1]), changes[|changes| - 1])
  }

  // A hint that lists what is not known, or leaves out what is.
  predicate Misleads(r: Roster, change: Change) {
    change.TrackPublished? && change.sessionId != "" && change.hint.Some?
    && SetOf(change.hint.value.publishedTracks) + {change.track}
       != StateOr(r, change.sessionId).published + {change.track}
  }

  lemma ChangeKeepsSyncIff(r: Roster, change: Change)
    requires Ordered(r) && AllInSync(r)
    ensures Ordered(Changed(r, change))
    ensures AllInSync(Changed(r, change)) <==> !Misleads(r, change)
  {
    match change {
      case Upsert(p) =>
        UpsertKeepsSync(r, p);
        if p.sessionId != "" {
          PutKeepsOrdered(r, p.sessionId, Refreshed(StateOr(r, p.sessionId), p));
        }
      case Remove(sessionId) =>
        WithoutKeepsOrdered(r, sessionId);
      case TrackPublished(userId, sessionId, track, hint) =>
        TrackAddedKeepsSyncIff(r, userId, sessionId, track, hint);
        if sessionId != "" {
          PutKeepsOrdered(r, sessionId, Published(WithHint(StateOr(r, sessionId), hint), userId, sessionId, track));
        }
      case TrackUnpublished(sessionId, track) =>
        TrackRemovedKeepsSync(r, sessionId, track);
      case JoinResponse(sessionId, userId, joined) =>
        SnapshotIsInSync(r, sessionId, userId, joined);
        SnapshotIsKeyed(r, sessionId, userId, joined);
    }
    hide AllInSync, SetOf, Snapshot;
  }

  predicate NoneMisleads(r: Roster, changes: seq<Change>) {
    changes == [] ||
    (NoneMisleads(r, changes[..|changes| - 1])
     && !Misleads(Changes(r, changes[..|changes| - 1]), changes[|changes| - 1]))
  }

  // The policy and the targets see the same tracks in every run without a misleading hint.
  lemma {:induction false} RunKeepsSync(changes: seq<Change>)
    requires NoneMisleads(EmptyMap(), changes)
    ensures Ordered(Changes(EmptyMap(), changes)) && AllInSync(Changes(EmptyMap(), changes))
  {
    if changes != [] {
      RunKeepsSync(changes[..|changes| - 1]);
      ChangeKeepsSyncIff(Changes(EmptyMap(), changes[..|changes| - 1]), changes[|changes| - 1]);
    }
  }

  // Publishing and unpublishing a track that was not published changes nothing else.
  lemma AddThenRemove(r: Roster, userId: string, sessionId: string, track: i32)
    requires AllInSync(r) && Ordered(r) && sessionId in r.values && sessionId != ""
    requires track !in r.values[sessionId].published
    ensures var after := TrackRemoved(TrackAdded(r, userId, sessionId, track, None), sessionId, track);
      && after.keys == r.keys
      && (forall id :: id in r.values && id != sessionId ==> id in after.values && after.values[id] == r.values[id])
      && after.values[sessionId].published == r.values[sessionId].published
      && after.values[sessionId].participant.publishedTracks == r.values[sessionId].participant.publishedTracks
  {
    var tracks := r.values[sessionId].participant.publishedTracks;
    assert track !in SetOf(tracks);
    RetainedAppend(tracks, track);
  }

  lemma {:induction false} RetainedAppend(tracks: seq<i32>, track: i32)
    requires track !in tracks
    ensures Retained(tracks + [track], track) == tracks
  {
    if tracks != [] {
      assert (tracks + [track])[1..] == tracks[1..] + [track];
      RetainedAppend(tracks[1..], track);
    } else {
      assert [track][1..] == [];
    }
  }
}
