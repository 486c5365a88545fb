// Which event a join response sends about a session, and in which order.
module ParticipantNews {
  import opened IndexMap
  import opened ParticipantEvents
  import opened Participants
  import opened Wrappers

  ghost predicate Lists(joined: seq<Participant>, id: string) {
    exists k :: 0 <= k < |joined| && joined[k].sessionId == id
  }

  // They differ in a field that has no events of its own.
  predicate Differ(known: Participant, now: Participant) {
    || known.userId != now.userId || known.sessionId != now.sessionId || known.prefix != now.prefix
    || known.publishedTracks != now.publishedTracks || known.roles != now.roles || known.profile != now.profile
  }

  lemma {:induction false} InAbout(events: seq<SfuEvent>, id: string, e: SfuEvent)
    ensures e in About(events, id) <==> e in events && e.participant.sessionId == id
  {
    if events != [] {
      assert events == [events[0]] + events[1..];
      InAbout(events[1..], id, e);
    }
  }

  function NewsFor(previous: Roster, p: Participant): seq<SfuEvent> {
    if p.sessionId !in previous.values then [ParticipantJoined(p)]
    else if Differ(previous.values[p.sessionId].participant, p) then [ParticipantUpdated(p)]
    else []
  }

  // The events about a session that is not a local one, of a response that names
  // none twice.
  lemma NewsOf(previous: Roster, joined: seq<Participant>, local: set<string>, id: string)
    requires Keyed(previous) && DistinctIds(joined) && id !in local
    ensures var events := About(SnapshotEvents(previous, joined, local), id);
      && (Lists(joined, id) ==>
            exists p :: p in joined && p.sessionId == id && events == NewsFor(previous, p))
      && (!Lists(joined, id) ==>
            events == if id in previous.values then [ParticipantLeft(previous.values[id].participant)] else [])
  {
    hide SnapshotEvents, About, Told, Differ;
    EventsOf(previous, joined, local, id);
    ListsIff(joined, id);
    hide Ids;
    if Lists(joined, id) {
      var k :| 0 <= k < |joined| && joined[k].sessionId == id;
      ToldOnce(Get(previous, id), joined, k);
      NewsIsEvent(previous, joined[k]);
    }
  }

  lemma ListsIff(joined: seq<Participant>, id: string)
    ensures Lists(joined, id) <==> id in Ids(joined)
  {
    if id in Ids(joined) {
      var p :| p in joined && p.sessionId == id;
    }
  }

  lemma NewsIsEvent(previous: Roster, p: Participant)
    ensures NewsFor(previous, p) == EventFor(Get(previous, p.sessionId), p)
  {
  }

  // A newcomer is announced as joined, a known session of which something else than its
  // masked fields changed as updated, and a known one the response leaves out as left;
  // each event carries the listed or the last known participant. Nothing else is sent.
  lemma NewsIff(previous: Roster, joined: seq<Participant>, local: set<string>, p: Participant)
    requires Keyed(previous) && DistinctIds(joined)
    ensures var events, id := SnapshotEvents(previous, joined, local), p.sessionId;
      && (ParticipantJoined(p) in events <==> p in joined && id !in previous.values && id !in local)
      && (ParticipantUpdated(p) in events <==>
            p in joined && id in previous.values && Differ(previous.values[id].participant, p) && id !in local)
      && (ParticipantLeft(p) in events <==>
            !Lists(joined, id) && id in previous.values && previous.values[id].participant == p && id !in local)
  {
    var events, id := SnapshotEvents(previous, joined, local), p.sessionId;
    InAbout(events, id, ParticipantJoined(p));
    InAbout(events, id, ParticipantUpdated(p));
    InAbout(events, id, ParticipantLeft(p));
    hide SnapshotEvents, Differ;
    if id in local {
      EventsOf(previous, joined, local, id);
      assert About(events, id) == [];
      hide About;
    } else {
      NewsOf(previous, joined, local, id);
      hide About;
      if Lists(joined, id) {
        var q :| q in joined && q.sessionId == id && About(events, id) == NewsFor(previous, q);
        assert p in joined <==> p == q;
      }
    }
  }

  // ---- The order -----------------------------------------------------------------------------

  function SessionsOf(events: seq<SfuEvent>): seq<string> {
    if events == [] then [] else [events[0].participant.sessionId] + SessionsOf(events[1..])
  }

  lemma {:induction false} SessionsConcat(a: seq<SfuEvent>, b: seq<SfuEvent>)
    ensures SessionsOf(a + b) == SessionsOf(a) + SessionsOf(b)
  {
    if a == [] {
      assert a + b == b;
    } else {
      assert (a + b)[1..] == a[1..] + b;
      SessionsConcat(a[1..], b);
    }
  }

  // `a` lists some of `b`, in the order of `b`.
  ghost predicate InOrder(a: seq<string>, b: seq<string>) {
    a == [] || (b != [] && ((a[0] == b[0] && InOrder(a[1..], b[1..])) || InOrder(a, b[1..])))
  }

  function IdsOf(joined: seq<Participant>): (r: seq<string>)
    ensures |r| == |joined| && forall k :: 0 <= k < |r| ==> r[k] == joined[k].sessionId
  {
    seq(|joined|, k requires 0 <= k < |joined| => joined[k].sessionId)
  }

  lemma OneSession(e: SfuEvent, rest: seq<SfuEvent>)
    ensures SessionsOf([e] + rest) == [e.participant.sessionId] + SessionsOf(rest)
  {
    assert ([e] + rest)[1..] == rest;
  }

  lemma InOrderNext(a: seq<string>, b: seq<string>)
    requires b != [] && InOrder(a, b[1..])
    ensures InOrder(a, b) && InOrder([b[0]] + a, b)
  {
    assert ([b[0]] + a)[1..] == a;
  }

  lemma {:induction false} JoinedInOrder(previous: Roster, joined: seq<Participant>, local: set<string>)
    requires Keyed(previous)
    ensures InOrder(SessionsOf(JoinedEvents(previous, joined, local)), IdsOf(joined))
    ensures forall e :: e in JoinedEvents(previous, joined, local) ==> !e.ParticipantLeft?
    decreases |joined|
  {
    if joined != [] {
      var id := joined[0].sessionId;
      var rest := JoinedEvents(Without(previous, id), joined[1..], local);
      WithoutIs(previous, id, id);
      JoinedInOrder(Without(previous, id), joined[1..], local);
      FirstJoined(previous, joined, local);
      assert IdsOf(joined)[1..] == IdsOf(joined[1..]);
      hide JoinedEvents, InOrder, SessionsOf, Keyed;
      InOrderNext(SessionsOf(rest), IdsOf(joined));
    }
  }

  lemma FirstJoined(previous: Roster, joined: seq<Participant>, local: set<string>)
    requires joined != []
    ensures var id := joined[0].sessionId; var rest := JoinedEvents(Without(previous, id), joined[1..], local);
      var events := JoinedEvents(previous, joined, local);
      || events == rest
      || (SessionsOf(events) == [id] + SessionsOf(rest) && events == [events[0]] + rest && !events[0].ParticipantLeft?)
  {
    var id := joined[0].sessionId;
    var rest := JoinedEvents(Without(previous, id), joined[1..], local);
    var first := if id in local then [] else EventFor(Get(previous, id), joined[0]);
    assert JoinedEvents(previous, joined, local) == first + rest;
    assert |first| <= 1 && (first != [] ==> first[0].participant == joined[0] && !first[0].ParticipantLeft?);
    hide JoinedEvents, SessionsOf, EventFor;
    if first == [] {
      assert first + rest == rest;
    } else {
      assert first == [first[0]];
      OneSession(first[0], rest);
    }
  }

  lemma {:induction false} LeftInOrder(r: Roster, keys: seq<string>, local: set<string>)
    requires Keyed(r) && forall key :: key in keys ==> key in r.values
    ensures InOrder(SessionsOf(LeftEvents(r, keys, local)), keys)
    ensures forall e :: e in LeftEvents(r, keys, local) ==> e.ParticipantLeft?
  {
    if keys != [] {
      LeftInOrder(r, keys[1..], local);
      var rest := LeftEvents(r, keys[1..], local);
      if keys[0] in local {
        assert LeftEvents(r, keys, local) == rest;
      } else {
        var first := ParticipantLeft(r.values[keys[0]].participant);
        assert LeftEvents(r, keys, local) == [first] + rest;
        assert ([first] + rest)[1..] == rest;
        assert SessionsOf([first] + rest) == [keys[0]] + SessionsOf(rest);
        assert ([keys[0]] + SessionsOf(rest))[1..] == SessionsOf(rest);
      }
    }
  }

  lemma {:induction false} InOrderLonger(a: seq<string>, b: seq<string>, x: string)
    requires InOrder(a, b)
    ensures InOrder(a, [x] + b)
  {
    assert ([x] + b)[1..] == b;
  }

  lemma {:induction false} InOrderTransitive(a: seq<string>, b: seq<string>, c: seq<string>)
    requires InOrder(a, b) && InOrder(b, c)
    ensures InOrder(a, c)
    decreases |b| + |c|
  {
    if a != [] {
      if b[0] == c[0] && InOrder(b[1..], c[1..]) {
        if a[0] == b[0] && InOrder(a[1..], b[1..]) {
          InOrderTransitive(a[1..], b[1..], c[1..]);
        } else {
          InOrderTransitive(a, b[1..], c[1..]);
        }
      } else {
        InOrderTransitive(a, b, c[1..]);
      }
    }
  }

  lemma {:induction false} DroppedInOrder(keys: seq<string>, key: string)
    ensures InOrder(Dropped(keys, key), keys)
  {
    if keys != [] {
      DroppedInOrder(keys[1..], key);
      if keys[0] == key {
        assert Dropped(keys, key) == Dropped(keys[1..], key);
      } else {
        assert Dropped(keys, key)[1..] == Dropped(keys[1..], key);
      }
    }
  }

  lemma {:induction false} GoneInOrder(previous: Roster, joined: seq<Participant>)
    ensures InOrder(Gone(previous, joined).keys, previous.keys)
    decreases |joined|
  {
    if joined == [] {
      InOrderSame(previous.keys);
    } else {
      var next := Without(previous, joined[0].sessionId);
      GoneInOrder(next, joined[1..]);
      DroppedInOrder(previous.keys, joined[0].sessionId);
      InOrderTransitive(Gone(next, joined[1..]).keys, next.keys, previous.keys);
    }
  }

  lemma {:induction false} InOrderSame(a: seq<string>)
    ensures InOrder(a, a)
  {
    if a != [] {
      InOrderSame(a[1..]);
    }
  }

  // The news of the response comes in its order, then the departures in the order in
  // which the call knew the sessions.
  lemma NewsInOrder(previous: Roster, joined: seq<Participant>, local: set<string>) returns (n: nat)
    requires Keyed(previous)
    ensures var events := SnapshotEvents(previous, joined, local);
      && n <= |events|
      && (forall i :: 0 <= i < |events| ==> (events[i].ParticipantLeft? <==> n <= i))
      && InOrder(SessionsOf(events[..n]), IdsOf(joined))
      && InOrder(SessionsOf(events[n..]), previous.keys)
  {
    GoneIs(previous, joined, "");
    var gone := Gone(previous, joined);
    var news, left := JoinedEvents(previous, joined, local), LeftEvents(gone, gone.keys, local);
    JoinedInOrder(previous, joined, local);
    LeftInOrder(gone, gone.keys, local);
    GoneInOrder(previous, joined);
    n := |news|;
    assert SnapshotEvents(previous, joined, local) == news + left;
    assert (news + left)[..n] == news && (news + left)[n..] == left;
    hide SnapshotEvents, JoinedEvents, LeftEvents, InOrder, Gone, SessionsOf;
    InOrderTransitive(SessionsOf(left), gone.keys, previous.keys);
  }
}
