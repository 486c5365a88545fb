// What every sequence of operations keeps of the local publications.
module PublicationRuns {
  import opened Wrappers
  import opened Publication
  import opened TrackTypes

  datatype Op =
    | BeginPublish(track: Track, optionId: i32)
    | SetStatus(id: string, status: Status)
    | Remove(id: string)
    | Retire(id: string)
    | TakeRetired(trackType: i32, optionId: i32)
    | StopAll
    | Refresh(assign: Assign)
    | ApplyQuality(senders: seq<VideoSender>)

  function After(m: Media, op: Op): Media {
    match op
    case BeginPublish(track, optionId) => Begun(m, track, optionId)
    case SetStatus(id, status) => WithStatus(m, id, status)
    case Remove(id) => Removed(m, id)
    case Retire(id) => Retired(m, id)
    case TakeRetired(trackType, optionId) => WithoutRetired(m, trackType, optionId)
    case StopAll => NO_MEDIA
    case Refresh(assign) => Refreshed(m, assign)
    case ApplyQuality(senders) => WithQualities(m, senders)
  }

  // Only a refresh can fail.
  predicate Succeeds(m: Media, op: Op) {
    op.Refresh? ==> Reassigned(m.publications, op.assign).Some?
  }

  ghost predicate DistinctTracks(m: Media) {
    forall i, j :: 0 <= i < j < |m.publications| ==> m.publications[i].track.id != m.publications[j].track.id
  }

  ghost predicate QualityIsLive(m: Media) {
    forall key :: key in m.quality ==> HasKey(m.publications, key)
  }

  // ---- The track ids ---------------------------------------------------------------------------

  ghost predicate SameTracks(a: seq<LocalPublication>, b: seq<LocalPublication>) {
    |a| == |b| && forall i :: 0 <= i < |a| ==> a[i].track == b[i].track && a[i].status == b[i].status
  }

  // A refresh changes option ids and nothing else, whether it succeeds or not.
  lemma {:induction false} RefreshKeepsTracks(publications: seq<LocalPublication>, assign: Assign)
    ensures Reassigned(publications, assign).Some? ==>
      SameTracks(publications, Reassigned(publications, assign).value)
    ensures Reassigned(publications, assign).None? ==>
      SameTracks(publications, PartlyReassigned(publications, assign))
  {
    if publications != [] {
      RefreshKeepsTracks(publications[..|publications| - 1], assign);
    }
  }

  lemma {:induction false} QualitiesKeepPublications(m: Media, senders: seq<VideoSender>)
    ensures WithQualities(m, senders).publications == m.publications
    ensures WithQualities(m, senders).retired == m.retired
  {
    if senders != [] {
      QualitiesKeepPublications(m, senders[..|senders| - 1]);
    }
  }

  lemma RemovedKeepsDistinct(m: Media, id: string)
    requires DistinctTracks(m)
    ensures DistinctTracks(Removed(m, id))
  {
    hide MatchCount;
  }

  lemma BegunKeepsDistinct(m: Media, track: Track, optionId: i32)
    requires DistinctTracks(m)
    ensures DistinctTracks(Begun(m, track, optionId))
  {
  }

  lemma StepKeepsTracksDistinct(m: Media, op: Op)
    requires DistinctTracks(m)
    ensures DistinctTracks(After(m, op))
  {
    match op {
      case Refresh(assign) =>
        RefreshKeepsTracks(m.publications, assign);
      case ApplyQuality(senders) =>
        QualitiesKeepPublications(m, senders);
      case BeginPublish(track, optionId) =>
        BegunKeepsDistinct(m, track, optionId);
      case SetStatus(id, status) =>
      case Remove(id) =>
        RemovedKeepsDistinct(m, id);
      case Retire(id) =>
        RemovedKeepsDistinct(m, id);
      case TakeRetired(trackType, optionId) =>
      case StopAll =>
    }
    hide Removed, Begun;
  }

  // ---- The cached qualities -----------------------------------------------------------------------

  lemma RemovedKeepsLive(m: Media, id: string)
    requires QualityIsLive(m)
    ensures QualityIsLive(Removed(m, id))
  {
    match Position(m.publications, id) {
      case None =>
      case Some(i) =>
        var gone := KeyOf(m.publications[i]);
        var rest := m.publications[..i] + m.publications[i + 1..];
        MatchCountIs(rest, gone);
        forall key | key in Removed(m, id).quality
          ensures HasKey(rest, key)
        {
          if key != gone {
            var j :| 0 <= j < |m.publications| && KeyOf(m.publications[j]) == key;
            assert KeyOf(rest[if j < i then j else j - 1]) == key;
          }
        }
    }
  }

  lemma RefreshedKeepsLive(m: Media, assign: Assign)
    requires Reassigned(m.publications, assign).Some?
    ensures QualityIsLive(Refreshed(m, assign))
  {
    var after := Refreshed(m, assign);
    forall key | key in after.quality
      ensures HasKey(after.publications, key)
    {
      MatchCountIs(after.publications, key);
    }
  }

  lemma {:induction false} QualitiesKeepLive(m: Media, senders: seq<VideoSender>)
    requires QualityIsLive(m)
    ensures QualityIsLive(WithQualities(m, senders))
  {
    if senders != [] {
      var s := senders[|senders| - 1];
      QualitiesKeepLive(m, senders[..|senders| - 1]);
      MatchCountIs(WithQualities(m, senders[..|senders| - 1]).publications, (s.optionId, s.trackType));
    }
  }

  lemma MorePublicationsKeepKeys(publications: seq<LocalPublication>, more: seq<LocalPublication>, key: Key)
    requires HasKey(publications, key)
    requires |publications| <= |more|
    requires forall i :: 0 <= i < |publications| ==> KeyOf(more[i]) == KeyOf(publications[i])
    ensures HasKey(more, key)
  {
    var i :| 0 <= i < |publications| && KeyOf(publications[i]) == key;
    assert KeyOf(more[i]) == key;
  }

  lemma StepKeepsQualityLive(m: Media, op: Op)
    requires QualityIsLive(m) && Succeeds(m, op)
    ensures QualityIsLive(After(m, op))
  {
    match op {
      case Remove(id) =>
        RemovedKeepsLive(m, id);
      case Retire(id) =>
        RemovedKeepsLive(m, id);
      case Refresh(assign) =>
        RefreshedKeepsLive(m, assign);
      case ApplyQuality(senders) =>
        QualitiesKeepLive(m, senders);
      case BeginPublish(track, optionId) =>
        forall key | key in m.quality {
          MorePublicationsKeepKeys(m.publications, Begun(m, track, optionId).publications, key);
        }
      case SetStatus(id, status) =>
        forall key | key in m.quality {
          MorePublicationsKeepKeys(m.publications, WithStatus(m, id, status).publications, key);
        }
      case TakeRetired(trackType, optionId) =>
      case StopAll =>
    }
  }

  // ---- Every run --------------------------------------------------------------------------------------

  function Run(m: Media, ops: seq<Op>): Media {
    if ops == [] then m else After(Run(m, ops[..|ops| - 1]), ops[|ops| - 1])
  }

  predicate AllSucceed(m: Media, ops: seq<Op>) {
    ops == [] || (AllSucceed(m, ops[..|ops| - 1]) && Succeeds(Run(m, ops[..|ops| - 1]), ops[|ops| - 1]))
  }

  // From the empty state, the track ids are distinct after any operations, and
  // after successful ones every cached quality belongs to a live publication.
  lemma {:induction false} RunKeepsSound(ops: seq<Op>)
    ensures DistinctTracks(Run(NO_MEDIA, ops))
    ensures AllSucceed(NO_MEDIA, ops) ==> QualityIsLive(Run(NO_MEDIA, ops))
  {
    if ops != [] {
      var before := Run(NO_MEDIA, ops[..|ops| - 1]);
      RunKeepsSound(ops[..|ops| - 1]);
      StepKeepsTracksDistinct(before, ops[|ops| - 1]);
      if AllSucceed(NO_MEDIA, ops) {
        StepKeepsQualityLive(before, ops[|ops| - 1]);
      }
    }
  }

  // A refresh that fails does so at its first assignment that fails.
  lemma {:induction false} FirstFailure(publications: seq<LocalPublication>, assign: Assign) returns (k: nat)
    requires Reassigned(publications, assign).None?
    ensures k < |publications| && Reassigned(publications[..k], assign).Some?
    ensures assign(publications[k].track, UsedKeys(Reassigned(publications[..k], assign).value)).None?
  {
    var last := |publications| - 1;
    if Reassigned(publications[..last], assign).None? {
      k := FirstFailure(publications[..last], assign);
      assert publications[..last][..k] == publications[..k];
    } else {
      k := last;
    }
  }

  lemma HasKeyConcat(a: seq<LocalPublication>, b: seq<LocalPublication>, key: Key)
    ensures HasKey(a + b, key) <==> HasKey(a, key) || HasKey(b, key)
  {
    if HasKey(a, key) {
      var i :| 0 <= i < |a| && KeyOf(a[i]) == key;
      assert KeyOf((a + b)[i]) == key;
    }
    if HasKey(b, key) {
      var i :| 0 <= i < |b| && KeyOf(b[i]) == key;
      assert KeyOf((a + b)[|a| + i]) == key;
    }
    if HasKey(a + b, key) {
      var i :| 0 <= i < |a + b| && KeyOf((a + b)[i]) == key;
      assert if i < |a| then KeyOf(a[i]) == key else KeyOf(b[i - |a|]) == key;
    }
  }

  // Where a refresh stops, and what it leaves behind.
  ghost predicate StopsAt(m: Media, assign: Assign, k: nat) {
    && k < |m.publications| && Reassigned(m.publications[..k], assign).Some?
    && assign(m.publications[k].track, UsedKeys(Reassigned(m.publications[..k], assign).value)).None?
  }

  lemma StoppedKeepsLiveIff(m: Media, assign: Assign, k: nat)
    requires StopsAt(m, assign, k)
    ensures Reassigned(m.publications, assign).None?
    ensures QualityIsLive(Refreshed(m, assign)) <==>
      forall key :: key in m.quality ==>
        HasKey(Reassigned(m.publications[..k], assign).value, key) || HasKey(m.publications[k..], key)
  {
    FailureStops(m.publications, assign, k);
    var before, later := Reassigned(m.publications[..k], assign).value, m.publications[k..];
    var after := Refreshed(m, assign);
    assert after.publications == before + later && after.quality == m.quality;
    hide HasKey, Reassigned, PartlyReassigned, Refreshed;
    forall key {
      HasKeyConcat(before, later, key);
    }
  }

  // Every refresh that fails stops at a publication k; it keeps every cached quality live
  // exactly if each key is the new one of a publication before k or the old one of a
  // publication from k on.
  lemma FailedRefreshKeepsLiveIff(m: Media, assign: Assign) returns (k: nat)
    requires Reassigned(m.publications, assign).None?
    ensures StopsAt(m, assign, k)
    ensures QualityIsLive(Refreshed(m, assign)) <==>
      forall key :: key in m.quality ==>
        HasKey(Reassigned(m.publications[..k], assign).value, key) || HasKey(m.publications[k..], key)
  {
    k := FirstFailure(m.publications, assign);
    StoppedKeepsLiveIff(m, assign, k);
  }

  // Such a refresh can strand a quality.
  lemma FailedRefreshStrandsQuality() returns (m: Media, assign: Assign)
    ensures DistinctTracks(m) && QualityIsLive(m) && Reassigned(m.publications, assign).None?
    ensures !QualityIsLive(Refreshed(m, assign))
  {
    var first := LocalPublication(Track("a", 2, "vp9"), Published, 1);
    var second := LocalPublication(Track("b", 2, "vp9"), Published, 2);
    m := Media([first, second], map[(1, 2) := "full"], []);
    assign := (track: Track, used: set<Key>) => if track.id == "a" then Some(3) else None;
    assert KeyOf(m.publications[0]) == (1, 2);
    assert m.publications[..1] == [first] && [first][..0] == [];
    assert Reassigned([], assign) == Some([]);
    assert assign(first.track, UsedKeys([])) == Some(3);
    assert [] + [first.(optionId := 3)] == [first.(optionId := 3)];
    assert Reassigned([first], assign) == Some([first.(optionId := 3)]);
    StoppedKeepsLiveIff(m, assign, 1);
    assert !HasKey([first.(optionId := 3)], (1, 2)) && !HasKey(m.publications[1..], (1, 2));
  }

  // ---- What single operations achieve -----------------------------------------------------------------

  // If no assignment repeats a key given out before it, a refresh makes all keys distinct.
  lemma {:induction false} RefreshSpreadsKeys(publications: seq<LocalPublication>, assign: Assign)
    requires Reassigned(publications, assign).Some?
    requires forall track, used :: assign(track, used).Some? ==> (assign(track, used).value, track.trackType) !in used
    ensures var after := Reassigned(publications, assign).value;
      forall i, j :: 0 <= i < j < |after| ==> KeyOf(after[i]) != KeyOf(after[j])
  {
    if publications != [] {
      var front := publications[..|publications| - 1];
      RefreshSpreadsKeys(front, assign);
      var before := Reassigned(front, assign).value;
      forall i | 0 <= i < |before|
        ensures KeyOf(before[i]) in UsedKeys(before)
      {
        assert before[i] in before;
      }
    }
  }

  lemma RestHasKeyIff(publications: seq<LocalPublication>, i: nat, key: Key)
    requires i < |publications|
    ensures HasKey(publications[..i] + publications[i + 1..], key)
       <==> exists j :: 0 <= j < |publications| && j != i && KeyOf(publications[j]) == key
  {
    var rest := publications[..i] + publications[i + 1..];
    if HasKey(rest, key) {
      var j :| 0 <= j < |rest| && KeyOf(rest[j]) == key;
      assert KeyOf(publications[if j < i then j else j + 1]) == key;
    }
    if exists j :: 0 <= j < |publications| && j != i && KeyOf(publications[j]) == key {
      var j :| 0 <= j < |publications| && j != i && KeyOf(publications[j]) == key;
      assert KeyOf(rest[if j < i then j else j - 1]) == key;
    }
  }

  // No publication with this key but the one of `id`.
  ghost predicate OnlyOne(m: Media, id: string, key: Key) {
    forall j :: 0 <= j < |m.publications| && KeyOf(m.publications[j]) == key ==> m.publications[j].track.id == id
  }

  // What a removal forgets: the quality of its key if that was the last publication
  // with it, and no other quality.
  lemma RemovalPrunesIff(m: Media, id: string, key: Key)
    requires DistinctTracks(m) && key in m.quality
    ensures key !in Removed(m, id).quality <==>
      Position(m.publications, id).Some?
      && key == KeyOf(m.publications[Position(m.publications, id).value])
      && OnlyOne(m, id, key)
  {
    if Position(m.publications, id).Some? {
      var i := Position(m.publications, id).value;
      var rest := m.publications[..i] + m.publications[i + 1..];
      RestHasKeyIff(m.publications, i, key);
      MatchCountIs(rest, key);
      assert OnlyOne(m, id, key) <==>
        !exists j :: 0 <= j < |m.publications| && j != i && KeyOf(m.publications[j]) == key;
      hide HasKey, OnlyOne, DistinctTracks, MatchCount;
    }
  }

  function LastFor(senders: seq<VideoSender>, key: Key): Option<string> {
    if senders == [] then None
    else
      var s := senders[|senders| - 1];
      if (s.optionId, s.trackType) == key then Some(s.layers) else LastFor(senders[..|senders| - 1], key)
  }

  // After an event, a key with a live publication has the layers the event names
  // last for it; any other key has what it had.
  lemma {:induction false} LastSenderWins(m: Media, senders: seq<VideoSender>, key: Key)
    ensures var after := WithQualities(m, senders).quality;
      if KnownType(key.1) && HasKey(m.publications, key) && LastFor(senders, key).Some? then
        key in after && after[key] == LastFor(senders, key).value
      else (key in after <==> key in m.quality) && (key in after ==> after[key] == m.quality[key])
  {
    if senders != [] {
      LastSenderWins(m, senders[..|senders| - 1], key);
      QualitiesKeepPublications(m, senders[..|senders| - 1]);
      MatchCountIs(m.publications, key);
    }
  }

  // A retired sender is the next one taken for its kind, and taking it undoes the retirement.
  lemma RetireThenTake(m: Media, id: string)
    requires Position(m.publications, id).Some?
    ensures var p := m.publications[Position(m.publications, id).value];
      && RetiredPosition(Retired(m, id).retired, p.track.trackType, p.optionId) == Some(|m.retired|)
      && Retired(m, id).retired[|m.retired|].1 == p.track
      && WithoutRetired(Retired(m, id), p.track.trackType, p.optionId) == Removed(m, id)
  {
    var p := m.publications[Position(m.publications, id).value];
    assert Removed(m, id).retired == m.retired;
    assert (m.retired + [(p.optionId, p.track)])[..|m.retired|] == m.retired;
  }
}
