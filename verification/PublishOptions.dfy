// The publish options that the SFU advertises, how a track gets one, and that no two
// publications share one.
module PublishOptions {
  import opened Wrappers
  import opened Publication
  import opened PublicationRuns

  datatype PublishOption = PublishOption(id: i32, trackType: i32, codec: Option<string>)

  // `eq_ignore_ascii_case`
  function AsciiLower(c: char): char {
    if 'A' <= c <= 'Z' then c - 'A' + 'a' else c
  }

  predicate EqIgnoreAsciiCase(a: string, b: string) {
    |a| == |b| && forall i :: 0 <= i < |a| ==> AsciiLower(a[i]) == AsciiLower(b[i])
  }

  predicate Fits(option: PublishOption, track: Track) {
    && option.trackType == track.trackType
    && option.codec.Some? && EqIgnoreAsciiCase(option.codec.value, track.codec)
  }

  predicate Unused(option: PublishOption, used: set<Key>) {
    (option.id, option.trackType) !in used
  }

  ghost predicate IsFirstFit(options: seq<PublishOption>, i: nat, track: Track, used: set<Key>)
    requires i < |options|
  {
    && Fits(options[i], track) && Unused(options[i], used)
    && forall j :: 0 <= j < i ==> !(Fits(options[j], track) && Unused(options[j], used))
  }

  // `assign_publish_option`: the first option that fits the track and is unused.
  function AssignFrom(options: seq<PublishOption>, track: Track, used: set<Key>): (r: Option<i32>)
    ensures r.Some? ==>
      exists i :: 0 <= i < |options| && options[i].id == r.value && IsFirstFit(options, i, track, used)
    ensures r.None? ==> forall i :: 0 <= i < |options| ==> !(Fits(options[i], track) && Unused(options[i], used))
  {
    if options == [] then None
    else
      var last := |options| - 1;
      match AssignFrom(options[..last], track, used)
      case Some(id) =>
        assert forall i :: 0 <= i < last && IsFirstFit(options[..last], i, track, used) ==>
                             IsFirstFit(options, i, track, used);
        Some(id)
      case None =>
        assert Fits(options[last], track) && Unused(options[last], used) ==> IsFirstFit(options, last, track, used);
        if Fits(options[last], track) && Unused(options[last], used) then Some(options[last].id) else None
  }

  function Assigning(options: seq<PublishOption>): Assign {
    (track: Track, used: set<Key>) => AssignFrom(options, track, used)
  }

  ghost predicate DistinctKeys(publications: seq<LocalPublication>) {
    forall i, j :: 0 <= i < j < |publications| ==> KeyOf(publications[i]) != KeyOf(publications[j])
  }

  // Some option of the list has the id of the publication and fits its track.
  ghost predicate Advertised(p: LocalPublication, options: seq<PublishOption>) {
    exists i :: 0 <= i < |options| && options[i].id == p.optionId && Fits(options[i], p.track)
  }

  lemma AssignAvoidsUsed(options: seq<PublishOption>, track: Track, used: set<Key>)
    requires AssignFrom(options, track, used).Some?
    ensures (AssignFrom(options, track, used).value, track.trackType) !in used
  {
  }

  // A refresh that succeeds gives every publication an advertised option of its own.
  lemma {:induction false} RefreshedAreAdvertised(publications: seq<LocalPublication>, options: seq<PublishOption>)
    requires Reassigned(publications, Assigning(options)).Some?
    ensures var after := Reassigned(publications, Assigning(options)).value;
      DistinctKeys(after) && forall p :: p in after ==> Advertised(p, options)
  {
    forall track, used | Assigning(options)(track, used).Some?
      ensures (Assigning(options)(track, used).value, track.trackType) !in used
    {
      AssignAvoidsUsed(options, track, used);
    }
    RefreshSpreadsKeys(publications, Assigning(options));
    if publications != [] {
      RefreshedAreAdvertised(publications[..|publications| - 1], options);
    }
  }

  // ---- Every run ------------------------------------------------------------------------------

  // The operations with the options of their time; `Change` is one that assigns none.
  datatype OptionOp =
    | Publish(track: Track, options: seq<PublishOption>)
    | RefreshFrom(options: seq<PublishOption>)
    | Change(op: Op)

  // A publish assigns an option that no publication has, and fails if there is none;
  // it does nothing for a track that is published.
  function OpOf(m: Media, o: OptionOp): Option<Op> {
    match o
    case Publish(track, options) =>
      if Position(m.publications, track.id).Some? then None
      else
        var id :- AssignFrom(options, track, UsedKeys(m.publications));
        Some(BeginPublish(track, id))
    case RefreshFrom(options) => Some(Refresh(Assigning(options)))
    case Change(op) => if op.BeginPublish? || op.Refresh? then None else Some(op)
  }

  function Step(m: Media, o: OptionOp): Media {
    match OpOf(m, o)
    case None => m
    case Some(op) => After(m, op)
  }

  lemma BegunKeepsKeysDistinct(m: Media, track: Track, options: seq<PublishOption>)
    requires DistinctKeys(m.publications) && AssignFrom(options, track, UsedKeys(m.publications)).Some?
    ensures DistinctKeys(Begun(m, track, AssignFrom(options, track, UsedKeys(m.publications)).value).publications)
  {
    AssignAvoidsUsed(options, track, UsedKeys(m.publications));
    forall i | 0 <= i < |m.publications|
      ensures KeyOf(m.publications[i]) in UsedKeys(m.publications)
    {
      assert m.publications[i] in m.publications;
    }
  }

  lemma RemovedKeepsKeysDistinct(m: Media, id: string)
    requires DistinctKeys(m.publications)
    ensures DistinctKeys(Removed(m, id).publications)
  {
    hide MatchCount;
  }

  lemma StatusKeepsKeysDistinct(m: Media, id: string, status: Status)
    requires DistinctKeys(m.publications)
    ensures DistinctKeys(WithStatus(m, id, status).publications)
  {
    assert forall i :: 0 <= i < |m.publications| ==>
      KeyOf(WithStatus(m, id, status).publications[i]) == KeyOf(m.publications[i]);
  }

  lemma ChangeKeepsKeysDistinct(m: Media, op: Op)
    requires DistinctKeys(m.publications) && !op.BeginPublish? && !op.Refresh?
    ensures DistinctKeys(After(m, op).publications)
  {
    match op {
      case ApplyQuality(senders) =>
        QualitiesKeepPublications(m, senders);
      case SetStatus(id, status) =>
        StatusKeepsKeysDistinct(m, id, status);
      case Remove(id) =>
        RemovedKeepsKeysDistinct(m, id);
      case Retire(id) =>
        RemovedKeepsKeysDistinct(m, id);
      case _ =>
    }
    hide Removed, WithStatus, WithQualities;
  }

  // A refresh that stops at publication k mixes new keys with old ones.
  lemma StoppedKeepsKeysDistinctIff(m: Media, options: seq<PublishOption>, k: nat)
    requires DistinctKeys(m.publications) && StopsAt(m, Assigning(options), k)
    ensures DistinctKeys(Refreshed(m, Assigning(options)).publications) <==>
      forall key :: HasKey(Reassigned(m.publications[..k], Assigning(options)).value, key) ==>
        !HasKey(m.publications[k..], key)
  {
    FailureStops(m.publications, Assigning(options), k);
    RefreshedAreAdvertised(m.publications[..k], options);
    var before, later := Reassigned(m.publications[..k], Assigning(options)).value, m.publications[k..];
    assert Refreshed(m, Assigning(options)).publications == before + later;
    assert DistinctKeys(later);
    hide Reassigned, Refreshed, PartlyReassigned;
    DistinctKeysConcatIff(before, later);
  }

  lemma DistinctKeysConcatIff(a: seq<LocalPublication>, b: seq<LocalPublication>)
    requires DistinctKeys(a) && DistinctKeys(b)
    ensures DistinctKeys(a + b) <==> forall key :: HasKey(a, key) ==> !HasKey(b, key)
  {
    if key :| HasKey(a, key) && HasKey(b, key) {
      var i :| 0 <= i < |a| && KeyOf(a[i]) == key;
      var j :| 0 <= j < |b| && KeyOf(b[j]) == key;
      assert KeyOf((a + b)[i]) == KeyOf((a + b)[|a| + j]);
    } else {
      forall i, j | 0 <= i < j < |a + b|
        ensures KeyOf((a + b)[i]) != KeyOf((a + b)[j])
      {
        if i < |a| <= j {
          assert HasKey(a, KeyOf(a[i]));
          assert KeyOf(b[j - |a|]) == KeyOf((a + b)[j]);
        }
      }
    }
  }

  // A refresh that stops where a new key meets an old one.
  ghost predicate Meets(m: Media, options: seq<PublishOption>, k: nat, key: Key) {
    && StopsAt(m, Assigning(options), k)
    && HasKey(Reassigned(m.publications[..k], Assigning(options)).value, key) && HasKey(m.publications[k..], key)
  }

  ghost predicate Collides(m: Media, o: OptionOp) {
    o.RefreshFrom? && exists k: nat, key :: Meets(m, o.options, k, key)
  }

  // A step keeps the options of the publications apart exactly unless it is one.
  lemma StepKeepsKeysDistinctIff(m: Media, o: OptionOp)
    requires DistinctKeys(m.publications)
    ensures DistinctKeys(Step(m, o).publications) <==> !Collides(m, o)
  {
    match o {
      case Publish(track, options) =>
        if OpOf(m, o).Some? {
          BegunKeepsKeysDistinct(m, track, options);
        }
      case RefreshFrom(options) =>
        RefreshKeepsKeysDistinctIff(m, options);
      case Change(op) =>
        if OpOf(m, o).Some? {
          ChangeKeepsKeysDistinct(m, op);
        }
    }
    hide Begun, Refreshed, AssignFrom, Meets;
  }

  lemma RefreshKeepsKeysDistinctIff(m: Media, options: seq<PublishOption>)
    requires DistinctKeys(m.publications)
    ensures DistinctKeys(Refreshed(m, Assigning(options)).publications) <==> !Collides(m, RefreshFrom(options))
  {
    var assign := Assigning(options);
    if Reassigned(m.publications, assign).Some? {
      RefreshedAreAdvertised(m.publications, options);
      forall k: nat, key | Meets(m, options, k, key)
        ensures false
      {
        StoppedKeepsLiveIff(m, assign, k);
      }
    } else {
      var k := FailedRefreshKeepsLiveIff(m, assign);
      StoppedKeepsKeysDistinctIff(m, options, k);
      forall l: nat, key | Meets(m, options, l, key)
        ensures l == k
      {
        StopsOnce(m, assign, k, l);
      }
      assert forall key :: Meets(m, options, k, key) <==>
        HasKey(Reassigned(m.publications[..k], assign).value, key) && HasKey(m.publications[k..], key);
    }
  }

  lemma StopsOnce(m: Media, assign: Assign, k: nat, l: nat)
    requires StopsAt(m, assign, k) && StopsAt(m, assign, l)
    ensures k == l
  {
    if k != l {
      var first, second := if k < l then k else l, if k < l then l else k;
      var front := Media(m.publications[..second], m.quality, m.retired);
      assert m.publications[..second][..first] == m.publications[..first];
      assert StopsAt(front, assign, first);
      StoppedKeepsLiveIff(front, assign, first);
    }
  }

  function RunOptions(m: Media, ops: seq<OptionOp>): Media {
    if ops == [] then m else Step(RunOptions(m, ops[..|ops| - 1]), ops[|ops| - 1])
  }

  ghost predicate NoneCollides(m: Media, ops: seq<OptionOp>) {
    ops == [] || (NoneCollides(m, ops[..|ops| - 1]) && !Collides(RunOptions(m, ops[..|ops| - 1]), ops[|ops| - 1]))
  }

  lemma {:induction false} RunKeepsKeysDistinct(ops: seq<OptionOp>)
    requires NoneCollides(NO_MEDIA, ops)
    ensures DistinctKeys(RunOptions(NO_MEDIA, ops).publications)
  {
    if ops != [] {
      RunKeepsKeysDistinct(ops[..|ops| - 1]);
      StepKeepsKeysDistinctIff(RunOptions(NO_MEDIA, ops[..|ops| - 1]), ops[|ops| - 1]);
      hide Step, Collides;
    }
  }

  lemma OnlyOption(o: PublishOption, track: Track, used: set<Key>)
    ensures AssignFrom([o], track, used) == if Fits(o, track) && Unused(o, used) then Some(o.id) else None
  {
    assert [o][..0] == [];
    hide Fits, Unused, IsFirstFit;
  }

  lemma OneOfTwo(o: PublishOption, p: PublishOption, track: Track, used: set<Key>)
    requires Fits(o, track) && Fits(p, track)
    ensures AssignFrom([o, p], track, used)
         == if Unused(o, used) then Some(o.id) else if Unused(p, used) then Some(p.id) else None
  {
    assert [o, p][..1] == [o];
    OnlyOption(o, track, used);
    hide Fits, Unused, IsFirstFit;
  }

  const FIRST_OPTION := PublishOption(1, 2, Some("VP9"))
  const SECOND_OPTION := PublishOption(2, 2, Some("VP9"))
  const FIRST_TRACK := Track("a", 2, "vp9")
  const SECOND_TRACK := Track("b", 2, "vp9")
  const FIRST_PUBLICATION := LocalPublication(FIRST_TRACK, PendingPublishNegotiation, 1)
  const SECOND_PUBLICATION := LocalPublication(SECOND_TRACK, PendingPublishNegotiation, 2)

  lemma BothFit()
    ensures Fits(FIRST_OPTION, FIRST_TRACK) && Fits(SECOND_OPTION, FIRST_TRACK)
    ensures Fits(FIRST_OPTION, SECOND_TRACK) && Fits(SECOND_OPTION, SECOND_TRACK)
  {
    assert EqIgnoreAsciiCase("VP9", "vp9");
  }

  lemma OneUsedKey(p: LocalPublication)
    ensures UsedKeys([p]) == {KeyOf(p)}
  {
    assert [p][0] == p;
    assert KeyOf(p) in UsedKeys([p]);
  }

  lemma PublishFirst()
    ensures Step(NO_MEDIA, Publish(FIRST_TRACK, [FIRST_OPTION, SECOND_OPTION]))
         == Media([FIRST_PUBLICATION], map[], [])
  {
    BothFit();
    hide Fits;
    OneOfTwo(FIRST_OPTION, SECOND_OPTION, FIRST_TRACK, {});
    assert UsedKeys([]) == {};
    hide AssignFrom;
    assert [] + [FIRST_PUBLICATION] == [FIRST_PUBLICATION];
  }

  lemma PublishSecond()
    ensures Step(Media([FIRST_PUBLICATION], map[], []), Publish(SECOND_TRACK, [FIRST_OPTION, SECOND_OPTION]))
         == Media([FIRST_PUBLICATION, SECOND_PUBLICATION], map[], [])
  {
    BothFit();
    hide Fits;
    OneOfTwo(FIRST_OPTION, SECOND_OPTION, SECOND_TRACK, {(1, 2)});
    OneUsedKey(FIRST_PUBLICATION);
    hide AssignFrom;
    assert Position([FIRST_PUBLICATION], "b") == None;
    assert [FIRST_PUBLICATION] + [SECOND_PUBLICATION] == [FIRST_PUBLICATION, SECOND_PUBLICATION];
  }

  lemma RefreshFails()
    ensures Reassigned([FIRST_PUBLICATION, SECOND_PUBLICATION], Assigning([SECOND_OPTION])) == None
    ensures PartlyReassigned([FIRST_PUBLICATION, SECOND_PUBLICATION], Assigning([SECOND_OPTION]))
         == [FIRST_PUBLICATION.(optionId := 2), SECOND_PUBLICATION]
  {
    BothFit();
    hide Fits;
    var assign, moved := Assigning([SECOND_OPTION]), FIRST_PUBLICATION.(optionId := 2);
    OnlyOption(SECOND_OPTION, FIRST_TRACK, {});
    OnlyOption(SECOND_OPTION, SECOND_TRACK, {(2, 2)});
    OneUsedKey(moved);
    assert UsedKeys([]) == {};
    assert assign(FIRST_TRACK, {}) == Some(2) && assign(SECOND_TRACK, {(2, 2)}) == None;
    hide AssignFrom, Assigning, UsedKeys;
    assert [FIRST_PUBLICATION, SECOND_PUBLICATION][..1] == [FIRST_PUBLICATION] && [FIRST_PUBLICATION][..0] == [];
    assert Reassigned([], assign) == Some([]);
    assert [] + [moved] == [moved];
    assert Reassigned([FIRST_PUBLICATION], assign) == Some([moved]);
  }

  // Such a refresh is reached: two video tracks are published, and the SFU then
  // advertises the second one's option alone. The first track gets it, the refresh
  // fails at the second track, and both have it.
  lemma RefreshSharesOption()
    ensures var options := [FIRST_OPTION, SECOND_OPTION];
      var ops := [Publish(FIRST_TRACK, options), Publish(SECOND_TRACK, options), RefreshFrom([SECOND_OPTION])];
      var end := RunOptions(NO_MEDIA, ops).publications;
      |end| == 2 && KeyOf(end[0]) == KeyOf(end[1]) == (2, 2)
  {
    var options := [FIRST_OPTION, SECOND_OPTION];
    var a, b, c := Publish(FIRST_TRACK, options), Publish(SECOND_TRACK, options), RefreshFrom([SECOND_OPTION]);
    PublishFirst();
    PublishSecond();
    RefreshFails();
    assert Step(Media([FIRST_PUBLICATION, SECOND_PUBLICATION], map[], []), c).publications
        == [FIRST_PUBLICATION.(optionId := 2), SECOND_PUBLICATION];
    hide Step, RunOptions;
    RunOfThree(a, b, c);
  }

  lemma RunOfThree(a: OptionOp, b: OptionOp, c: OptionOp)
    ensures RunOptions(NO_MEDIA, [a, b, c]) == Step(Step(Step(NO_MEDIA, a), b), c)
  {
    hide Step;
    assert [a, b, c][..2] == [a, b] && [a, b][..1] == [a] && [a][..0] == [];
    assert RunOptions(NO_MEDIA, [a]) == Step(RunOptions(NO_MEDIA, []), a);
    assert RunOptions(NO_MEDIA, [a, b]) == Step(RunOptions(NO_MEDIA, [a]), b);
  }

  // ---- What fits a track -----------------------------------------------------------------------

  // An option of the track's type whose codec has its letters, in either case.
  lemma FitsIff(option: PublishOption, track: Track)
    ensures Fits(option, track) <==>
      && option.trackType == track.trackType && option.codec.Some? && |option.codec.value| == |track.codec|
      && forall i :: 0 <= i < |track.codec| ==> SameLetter(option.codec.value[i], track.codec[i])
  {
    if option.codec.Some? && |option.codec.value| == |track.codec| {
      forall i | 0 <= i < |track.codec|
        ensures AsciiLower(option.codec.value[i]) == AsciiLower(track.codec[i])
          <==> SameLetter(option.codec.value[i], track.codec[i])
      {
        LowerIff(option.codec.value[i], track.codec[i]);
      }
    }
    hide AsciiLower, SameLetter;
  }

  // The same character, or an ASCII letter in two cases.
  predicate SameLetter(a: char, b: char) {
    a == b || ('A' <= a <= 'Z' && b as int == a as int + 32) || ('A' <= b <= 'Z' && a as int == b as int + 32)
  }

  lemma LowerIff(a: char, b: char)
    ensures AsciiLower(a) == AsciiLower(b) <==> SameLetter(a, b)
  {
  }
}
