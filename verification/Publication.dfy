// The local publications of a call, and the cache of publish qualities the SFU
// asked for.
module Publication {
  import opened TrackTypes
  import opened Wrappers

  datatype Status = PendingPublishNegotiation | PendingPublishMute | Published | PendingStopMute

  // What is read of a local track: `codec` is the subtype of its MIME type in lower case.
  // Its sender is not part of this model.
  datatype Track = Track(id: string, trackType: i32, codec: string)

  datatype LocalPublication = LocalPublication(track: Track, status: Status, optionId: i32)

  type Key = (i32, i32)

  datatype Media = Media(
    publications: seq<LocalPublication>, quality: map<Key, string>, retired: seq<(i32, Track)>)

  // One entry of a `ChangePublishQuality` event; `layers` are the settings.
  datatype VideoSender = VideoSender(optionId: i32, trackType: i32, layers: string)

  // How a track gets a publish option: any function that may fail. PublishOptions has the
  // one of the source.
  type Assign = (Track, set<Key>) -> Option<i32>

  function KeyOf(p: LocalPublication): Key {
    (p.optionId, p.track.trackType)
  }

  // ---- The operations as functions --------------------------------------------------------

  function Position(publications: seq<LocalPublication>, id: string): (r: Option<nat>)
    ensures r.Some? ==> r.value < |publications| && publications[r.value].track.id == id
    ensures r.Some? ==> forall i :: 0 <= i < r.value ==> publications[i].track.id != id
    ensures r.None? ==> forall i :: 0 <= i < |publications| ==> publications[i].track.id != id
  {
    if publications == [] then None
    else
      var last := |publications| - 1;
      match Position(publications[..last], id)
      case Some(i) => Some(i)
      case None => if publications[last].track.id == id then Some(last) else None
  }

  function Begun(m: Media, track: Track, optionId: i32): Media {
    if Position(m.publications, track.id).Some? then m
    else m.(publications := m.publications + [LocalPublication(track, PendingPublishNegotiation, optionId)])
  }

  function WithStatus(m: Media, id: string, status: Status): Media {
    match Position(m.publications, id)
    case None => m
    case Some(i) => m.(publications := m.publications[i := m.publications[i].(status := status)])
  }

  ghost predicate HasKey(publications: seq<LocalPublication>, key: Key) {
    exists i :: 0 <= i < |publications| && KeyOf(publications[i]) == key
  }

  function MatchCount(publications: seq<LocalPublication>, key: Key): nat {
    if publications == [] then 0
    else
      var last := |publications| - 1;
      MatchCount(publications[..last], key) + if KeyOf(publications[last]) == key then 1 else 0
  }

  lemma {:induction false} MatchCountIs(publications: seq<LocalPublication>, key: Key)
    ensures MatchCount(publications, key) > 0 <==> HasKey(publications, key)
  {
    if publications != [] {
      var front := publications[..|publications| - 1];
      MatchCountIs(front, key);
      if HasKey(front, key) {
        var i :| 0 <= i < |front| && KeyOf(front[i]) == key;
        assert KeyOf(publications[i]) == key;
      }
      if HasKey(publications, key) {
        var i :| 0 <= i < |publications| && KeyOf(publications[i]) == key;
        if i < |front| {
          assert KeyOf(front[i]) == key;
        }
      }
    }
  }

  function Removed(m: Media, id: string): Media {
    match Position(m.publications, id)
    case None => m
    case Some(i) =>
      var key, rest := KeyOf(m.publications[i]), m.publications[..i] + m.publications[i + 1..];
      m.(publications := rest, quality := if MatchCount(rest, key) > 0 then m.quality else m.quality - {key})
  }

  function Retired(m: Media, id: string): Media {
    match Position(m.publications, id)
    case None => m
    case Some(i) =>
      Removed(m, id).(retired := m.retired + [(m.publications[i].optionId, m.publications[i].track)])
  }

  const NO_MEDIA := Media([], map[], [])

  // The latest retired sender of a kind.
  function RetiredPosition(retired: seq<(i32, Track)>, trackType: i32, optionId: i32): (r: Option<nat>)
    ensures r.Some? ==> r.value < |retired| && retired[r.value].0 == optionId
                        && retired[r.value].1.trackType == trackType
    ensures forall i :: (if r.Some? then r.value + 1 else 0) <= i < |retired| ==>
      !(retired[i].0 == optionId && retired[i].1.trackType == trackType)
  {
    if retired == [] then None
    else
      var last := |retired| - 1;
      if retired[last].0 == optionId && retired[last].1.trackType == trackType then Some(last)
      else RetiredPosition(retired[..last], trackType, optionId)
  }

  function WithoutRetired(m: Media, trackType: i32, optionId: i32): Media {
    match RetiredPosition(m.retired, trackType, optionId)
    case None => m
    case Some(i) => m.(retired := m.retired[..i] + m.retired[i + 1..])
  }

  // The publications under new option ids: each assignment sees the keys given out
  // before it. `None` if one of them fails.
  function Reassigned(publications: seq<LocalPublication>, assign: Assign): Option<seq<LocalPublication>> {
    if publications == [] then Some([])
    else
      var last := |publications| - 1;
      var before :- Reassigned(publications[..last], assign);
      var optionId :- assign(publications[last].track, UsedKeys(before));
      Some(before + [publications[last].(optionId := optionId)])
  }

  function UsedKeys(publications: seq<LocalPublication>): set<Key> {
    set p | p in publications :: KeyOf(p)
  }

  // What a refresh leaves: where it fails, the earlier publications are reassigned
  // and nothing is pruned.
  function Refreshed(m: Media, assign: Assign): Media {
    match Reassigned(m.publications, assign)
    case Some(publications) =>
      Media(publications, map key | key in m.quality && MatchCount(publications, key) > 0 :: m.quality[key], m.retired)
    case None => m.(publications := PartlyReassigned(m.publications, assign))
  }

  function PartlyReassigned(publications: seq<LocalPublication>, assign: Assign): seq<LocalPublication> {
    if publications == [] then []
    else
      var last := |publications| - 1;
      match Reassigned(publications[..last], assign)
      case None => PartlyReassigned(publications[..last], assign) + [publications[last]]
      case Some(before) =>
        match assign(publications[last].track, UsedKeys(before))
        case None => before + [publications[last]]
        case Some(optionId) => before + [publications[last].(optionId := optionId)]
  }

  function WithQuality(m: Media, s: VideoSender): Media {
    if KnownType(s.trackType) && MatchCount(m.publications, (s.optionId, s.trackType)) > 0 then
      m.(quality := m.quality[(s.optionId, s.trackType) := s.layers])
    else m
  }

  function WithQualities(m: Media, senders: seq<VideoSender>): Media {
    if senders == [] then m
    else WithQuality(WithQualities(m, senders[..|senders| - 1]), senders[|senders| - 1])
  }

  function Matches(publications: seq<LocalPublication>, senders: seq<VideoSender>): nat {
    if senders == [] then 0
    else
      var s := senders[|senders| - 1];
      Matches(publications, senders[..|senders| - 1])
      + if KnownType(s.trackType) then MatchCount(publications, (s.optionId, s.trackType)) else 0
  }

  // ---- The object ---------------------------------------------------------------------------

  class MediaState {
    var publications: seq<LocalPublication>
    var publishQuality: map<Key, string>
    var retired: seq<(i32, Track)>

    function View(): Media
      reads this
    {
      Media(publications, publishQuality, retired)
    }

    constructor ()
      ensures View() == NO_MEDIA
    {
      publications, publishQuality, retired := [], map[], [];
    }

    method FindPosition(id: string) returns (position: Option<nat>)
      ensures position == Position(publications, id)
    {
      for i := 0 to |publications|
        invariant Position(publications[..i], id) == None
      {
        assert publications[..i + 1][..i] == publications[..i];
        if publications[i].track.id == id {
          FirstIsPosition(publications, id, i);
          return Some(i);
        }
      }
      assert publications[..|publications|] == publications;
      return None;
    }

    method BeginPublish(track: Track, optionId: i32) returns (status: Status)
      modifies this`publications
      ensures View() == Begun(old(View()), track, optionId)
      ensures publications ==
        if Position(old(publications), track.id).Some? then old(publications)
        else old(publications) + [LocalPublication(track, PendingPublishNegotiation, optionId)]
      ensures var i := Position(publications, track.id);
        i.Some? && status == publications[i.value].status
    {
      var position := FindPosition(track.id);
      if position.Some? {
        return publications[position.value].status;
      }
      publications := publications + [LocalPublication(track, PendingPublishNegotiation, optionId)];
      FirstIsPosition(publications, track.id, |publications| - 1);
      return PendingPublishNegotiation;
    }

    method SetStatus(id: string, status: Status)
      modifies this`publications
      ensures View() == WithStatus(old(View()), id, status)
      ensures |publications| == |old(publications)|
      ensures forall i :: 0 <= i < |publications| ==>
        publications[i] == if Position(old(publications), id) == Some(i) then old(publications)[i].(status := status)
                           else old(publications)[i]
    {
      var position := FindPosition(id);
      if position.Some? {
        publications := publications[position.value := publications[position.value].(status := status)];
      }
    }

    method Remove(id: string) returns (track: Option<Track>)
      modifies this
      ensures View() == Removed(old(View()), id) && retired == old(retired)
      ensures var i := Position(old(publications), id);
        publications == if i.None? then old(publications)
                        else old(publications)[..i.value] + old(publications)[i.value + 1..]
      ensures forall key :: key in publishQuality ==>
        key in old(publishQuality) && publishQuality[key] == old(publishQuality)[key]
      ensures var i := Position(old(publications), id);
        track == if i.None? then None else Some(old(publications)[i.value].track)
    {
      var position :- FindPosition(id);
      var publication := publications[position];
      publications := publications[..position] + publications[position + 1..];
      var key := KeyOf(publication);
      var others := CountMatches(key);
      if others == 0 {
        publishQuality := publishQuality - {key};
      }
      return Some(publication.track);
    }

    method CountMatches(key: Key) returns (count: nat)
      ensures count == MatchCount(publications, key)
    {
      count := 0;
      for i := 0 to |publications|
        invariant count == MatchCount(publications[..i], key)
      {
        assert publications[..i + 1][..i] == publications[..i];
        if KeyOf(publications[i]) == key {
          count := count + 1;
        }
      }
      assert publications[..|publications|] == publications;
    }

    method Retire(id: string) returns (track: Option<Track>)
      modifies this
      ensures View() == Retired(old(View()), id)
      ensures var i := Position(old(publications), id);
        && publications == (if i.None? then old(publications)
                            else old(publications)[..i.value] + old(publications)[i.value + 1..])
        && retired == (if i.None? then old(retired)
                       else old(retired) + [(old(publications)[i.value].optionId, old(publications)[i.value].track)])
      ensures var i := Position(old(publications), id);
        track == if i.None? then None else Some(old(publications)[i.value].track)
    {
      var position :- FindPosition(id);
      var optionId := publications[position].optionId;
      track := Remove(id);
      retired := retired + [(optionId, track.value)];
    }

    // The tracks it returns are the ones to stop.
    method StopAll() returns (stopped: seq<Track>)
      modifies this
      ensures View() == NO_MEDIA
      ensures |stopped| == |old(publications)|
      ensures forall i :: 0 <= i < |stopped| ==> stopped[i] == old(publications)[i].track
    {
      stopped := [];
      for i := 0 to |publications|
        invariant |stopped| == i
        invariant forall j :: 0 <= j < i ==> stopped[j] == publications[j].track
      {
        stopped := stopped + [publications[i].track];
      }
      publications, publishQuality, retired := [], map[], [];
    }

    method FindRetired(trackType: i32, optionId: i32) returns (position: Option<nat>)
      ensures position == RetiredPosition(retired, trackType, optionId)
    {
      for i := |retired| downto 0
        invariant RetiredPosition(retired, trackType, optionId) == RetiredPosition(retired[..i], trackType, optionId)
      {
        assert retired[..i + 1][..i] == retired[..i];
        if retired[i].1.trackType == trackType && retired[i].0 == optionId {
          return Some(i);
        }
      }
      return None;
    }

    method TakeRetired(trackType: i32, optionId: i32) returns (track: Option<Track>)
      modifies this`retired
      ensures View() == WithoutRetired(old(View()), trackType, optionId)
      ensures var i := RetiredPosition(old(retired), trackType, optionId);
        retired == if i.None? then old(retired) else old(retired)[..i.value] + old(retired)[i.value + 1..]
      ensures var i := RetiredPosition(old(retired), trackType, optionId);
        track == if i.None? then None else Some(old(retired)[i.value].1)
    {
      var position :- FindRetired(trackType, optionId);
      track := Some(retired[position].1);
      retired := retired[..position] + retired[position + 1..];
    }

    method RefreshPublishOptions(assign: Assign) returns (ok: bool)
      modifies this
      ensures ok <==> Reassigned(old(publications), assign).Some?
      ensures View() == Refreshed(old(View()), assign)
    {
      var used: set<Key> := {};
      ghost var was := publications;
      for i := 0 to |publications|
        invariant |publications| == |was| && publications[i..] == was[i..]
        invariant Reassigned(was[..i], assign) == Some(publications[..i])
        invariant used == UsedKeys(publications[..i])
        invariant publishQuality == old(publishQuality) && retired == old(retired)
      {
        assert was[..i + 1][..i] == was[..i];
        var next := assign(publications[i].track, used);
        if next.None? {
          FailureStops(was, assign, i);
          assert publications == publications[..i] + was[i..];
          return false;
        }
        publications := publications[i := publications[i].(optionId := next.value)];
        used := used + {KeyOf(publications[i])};
        assert publications[..i + 1] == publications[..i] + [publications[i]];
      }
      assert was[..|was|] == was && publications[..|publications|] == publications;
      publishQuality := map key | key in publishQuality && MatchCount(publications, key) > 0 :: publishQuality[key];
      return true;
    }

    method ApplyPublishQuality(senders: seq<VideoSender>) returns (matched: nat)
      modifies this`publishQuality
      ensures View() == WithQualities(old(View()), senders)
      ensures matched == Matches(old(publications), senders)
    {
      matched := 0;
      ghost var was := View();
      for i := 0 to |senders|
        invariant View() == WithQualities(was, senders[..i])
        invariant matched == Matches(publications, senders[..i])
      {
        assert senders[..i + 1][..i] == senders[..i];
        var sender := senders[i];
        if KnownType(sender.trackType) {
          var key := (sender.optionId, sender.trackType);
          var count := CountMatches(key);
          matched := matched + count;
          if count > 0 {
            publishQuality := publishQuality[key := sender.layers];
          }
        }
      }
      assert senders[..|senders|] == senders;
    }
  }

  lemma {:induction false} FirstIsPosition(publications: seq<LocalPublication>, id: string, i: nat)
    requires i < |publications| && publications[i].track.id == id
    requires forall j :: 0 <= j < i ==> publications[j].track.id != id
    ensures Position(publications, id) == Some(i)
  {
  }

  lemma {:induction false} FailureStops(publications: seq<LocalPublication>, assign: Assign, i: nat)
    requires i < |publications| && Reassigned(publications[..i], assign).Some?
    requires assign(publications[i].track, UsedKeys(Reassigned(publications[..i], assign).value)).None?
    ensures Reassigned(publications, assign).None?
    ensures PartlyReassigned(publications, assign) == Reassigned(publications[..i], assign).value + publications[i..]
    decreases |publications|
  {
    var last := |publications| - 1;
    if i < last {
      assert publications[..last][..i] == publications[..i];
      FailureStops(publications[..last], assign, i);
      assert publications[..last][i..] + [publications[last]] == publications[i..];
    }
  }

  // ---- Counts and assignments --------------------------------------------------------------------

  ghost function WithKey(publications: seq<LocalPublication>, key: Key): set<nat> {
    set i | 0 <= i < |publications| && KeyOf(publications[i]) == key
  }

  // The number of publications with a key.
  lemma {:induction false} MatchCountCounts(publications: seq<LocalPublication>, key: Key)
    ensures MatchCount(publications, key) == |WithKey(publications, key)|
  {
    if publications != [] {
      var last := |publications| - 1;
      MatchCountCounts(publications[..last], key);
      var before := WithKey(publications[..last], key);
      assert WithKey(publications, key)
          == if KeyOf(publications[last]) == key then before + {last} else before;
    }
  }

  // An event reaches, for each of its entries of a known type, the publications with its key.
  lemma {:induction false} MatchesAdd(publications: seq<LocalPublication>, senders: seq<VideoSender>, s: VideoSender)
    ensures Matches(publications, []) == 0
    ensures Matches(publications, senders + [s]) == Matches(publications, senders)
      + if 0 <= s.trackType <= 4 then |WithKey(publications, (s.optionId, s.trackType))| else 0
  {
    assert (senders + [s])[..|senders|] == senders;
    MatchCountCounts(publications, (s.optionId, s.trackType));
  }

  // Each publication gets what its track is assigned while the keys of those before it are
  // in use.
  lemma {:induction false} ReassignedIs(publications: seq<LocalPublication>, assign: Assign)
    requires Reassigned(publications, assign).Some?
    ensures var after := Reassigned(publications, assign).value;
      && |after| == |publications|
      && forall i :: 0 <= i < |after| ==>
           assign(publications[i].track, UsedKeys(after[..i])) == Some(after[i].optionId)
  {
    if publications != [] {
      var last := |publications| - 1;
      ReassignedIs(publications[..last], assign);
      var before, after := Reassigned(publications[..last], assign).value, Reassigned(publications, assign).value;
      assert after[..last] == before;
      assert forall i :: 0 <= i < last ==> after[..i] == before[..i];
    }
  }

  // A refresh that succeeds keeps exactly the qualities of the new keys.
  lemma RefreshPrunesIff(m: Media, assign: Assign, key: Key)
    requires Reassigned(m.publications, assign).Some?
    ensures var after := Refreshed(m, assign);
      && after.publications == Reassigned(m.publications, assign).value && after.retired == m.retired
      && (key in after.quality <==> key in m.quality && HasKey(after.publications, key))
      && (key in after.quality ==> after.quality[key] == m.quality[key])
  {
    MatchCountIs(Reassigned(m.publications, assign).value, key);
  }
}
