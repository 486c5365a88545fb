// What the list of an `UpdateSubscriptions` request holds.
module SubscriptionLists {
  import opened Wrappers
  import opened IndexMap
  import opened Participants
  import opened Sequences
  import opened Subscriptions
  import opened TrackTypes

  // ---- The order of keys -------------------------------------------------------------------

  lemma {:induction false} BeforeIsIrreflexive(a: string)
    ensures !Before(a, a)
  {
    if a != "" {
      BeforeIsIrreflexive(a[1..]);
    }
  }

  lemma {:induction false} BeforeIsTotal(a: string, b: string)
    ensures Before(a, b) || Before(b, a) || a == b
    ensures !(Before(a, b) && Before(b, a))
  {
    if a != "" && b != "" {
      BeforeIsTotal(a[1..], b[1..]);
      assert a == [a[0]] + a[1..] && b == [b[0]] + b[1..];
    }
  }

  lemma {:induction false} BeforeIsTransitive(a: string, b: string, c: string)
    requires Before(a, b) && Before(b, c)
    ensures Before(a, c)
  {
    if a != "" && b[0] == a[0] == c[0] {
      BeforeIsTransitive(a[1..], b[1..], c[1..]);
    }
  }

  lemma KeyOrder(a: TrackKey, b: TrackKey)
    ensures KeyBefore(a, b) || KeyBefore(b, a) || a == b
    ensures !(KeyBefore(a, b) && KeyBefore(b, a)) && !KeyBefore(a, a)
  {
    BeforeIsTotal(a.sessionId, b.sessionId);
    BeforeIsIrreflexive(a.sessionId);
  }

  lemma KeyBeforeIsTransitive(a: TrackKey, b: TrackKey, c: TrackKey)
    requires KeyBefore(a, b) && KeyBefore(b, c)
    ensures KeyBefore(a, c)
  {
    if a.sessionId != b.sessionId && b.sessionId != c.sessionId {
      BeforeIsTransitive(a.sessionId, b.sessionId, c.sessionId);
    }
    BeforeIsTotal(a.sessionId, b.sessionId);
    BeforeIsTotal(b.sessionId, c.sessionId);
  }

  // ---- The stable sort ---------------------------------------------------------------------

  // The entries of one key, in their order.
  function Of(tracks: seq<TrackDetails>, key: TrackKey): seq<TrackDetails> {
    if tracks == [] then []
    else (if KeyOf(tracks[0]) == key then [tracks[0]] else []) + Of(tracks[1..], key)
  }

  ghost predicate NonDecreasing(tracks: seq<TrackDetails>) {
    forall i, j :: 0 <= i < j < |tracks| ==> !KeyBefore(KeyOf(tracks[j]), KeyOf(tracks[i]))
  }

  ghost predicate Increasing(tracks: seq<TrackDetails>) {
    forall i, j :: 0 <= i < j < |tracks| ==> KeyBefore(KeyOf(tracks[i]), KeyOf(tracks[j]))
  }

  // No key of `tracks` comes before `key`.
  ghost predicate NoneBefore(key: TrackKey, tracks: seq<TrackDetails>) {
    forall i :: 0 <= i < |tracks| ==> !KeyBefore(KeyOf(tracks[i]), key)
  }

  lemma NotBeforeIsTransitive(a: TrackKey, b: TrackKey, c: TrackKey)
    requires !KeyBefore(b, a) && !KeyBefore(c, b)
    ensures !KeyBefore(c, a)
  {
    KeyOrder(a, b);
    KeyOrder(b, c);
    KeyOrder(a, c);
    if KeyBefore(a, b) && KeyBefore(b, c) {
      KeyBeforeIsTransitive(a, b, c);
    }
  }

  lemma HeadAndTail(tracks: seq<TrackDetails>)
    requires tracks != []
    ensures NonDecreasing(tracks) <==> NonDecreasing(tracks[1..]) && NoneBefore(KeyOf(tracks[0]), tracks[1..])
  {
    hide KeyBefore;
    assert tracks == [tracks[0]] + tracks[1..];
    if NonDecreasing(tracks[1..]) && NoneBefore(KeyOf(tracks[0]), tracks[1..]) {
      forall i, j | 0 <= i < j < |tracks|
        ensures !KeyBefore(KeyOf(tracks[j]), KeyOf(tracks[i]))
      {
        assert tracks[j] == tracks[1..][j - 1];
        assert i > 0 ==> tracks[i] == tracks[1..][i - 1];
      }
    }
  }

  // Inserting keeps the entries of every key in their order, the new one first.
  lemma {:induction false} InsertedKeepsOf(t: TrackDetails, sorted: seq<TrackDetails>, key: TrackKey)
    ensures Of(Inserted(t, sorted), key) == Of([t] + sorted, key)
  {
    assert ([t] + sorted)[1..] == sorted;
    if sorted != [] && KeyBefore(KeyOf(sorted[0]), KeyOf(t)) {
      KeyOrder(KeyOf(sorted[0]), KeyOf(t));
      hide KeyBefore;
      assert ([t] + sorted[1..])[1..] == sorted[1..];
      InsertedKeepsOf(t, sorted[1..], key);
      assert Inserted(t, sorted)[1..] == Inserted(t, sorted[1..]);
    }
  }

  lemma {:induction false} InsertedKeepsNoneBefore(t: TrackDetails, sorted: seq<TrackDetails>, key: TrackKey)
    requires NoneBefore(key, sorted) && !KeyBefore(KeyOf(t), key)
    ensures NoneBefore(key, Inserted(t, sorted))
  {
    hide KeyBefore;
    if sorted != [] && KeyBefore(KeyOf(sorted[0]), KeyOf(t)) {
      InsertedKeepsNoneBefore(t, sorted[1..], key);
    }
  }

  lemma {:induction false} InsertedIsSorted(t: TrackDetails, sorted: seq<TrackDetails>)
    requires NonDecreasing(sorted)
    ensures NonDecreasing(Inserted(t, sorted))
  {
    if sorted == [] || !KeyBefore(KeyOf(sorted[0]), KeyOf(t)) {
      FirstIsLeast(t, sorted);
      HeadAndTail([t] + sorted);
      assert ([t] + sorted)[1..] == sorted;
    } else {
      var head, rest := sorted[0], sorted[1..];
      KeyOrder(KeyOf(head), KeyOf(t));
      hide KeyBefore;
      HeadAndTail(sorted);
      InsertedIsSorted(t, rest);
      InsertedKeepsNoneBefore(t, rest, KeyOf(head));
      assert Inserted(t, sorted)[1..] == Inserted(t, rest);
      HeadAndTail(Inserted(t, sorted));
    }
  }

  // What does not come after the first entry comes after none.
  lemma FirstIsLeast(t: TrackDetails, sorted: seq<TrackDetails>)
    requires NonDecreasing(sorted) && (sorted != [] ==> !KeyBefore(KeyOf(sorted[0]), KeyOf(t)))
    ensures NoneBefore(KeyOf(t), sorted)
  {
    hide KeyBefore;
    forall i | 0 <= i < |sorted|
      ensures !KeyBefore(KeyOf(sorted[i]), KeyOf(t))
    {
      if i > 0 {
        NotBeforeIsTransitive(KeyOf(t), KeyOf(sorted[0]), KeyOf(sorted[i]));
      }
    }
  }

  // Sorting puts the keys in order and keeps the order within each key.
  lemma {:induction false} SortedIsStable(tracks: seq<TrackDetails>)
    ensures NonDecreasing(Sorted(tracks))
    ensures forall key :: Of(Sorted(tracks), key) == Of(tracks, key)
  {
    if tracks != [] {
      SortedIsStable(tracks[1..]);
      InsertedIsSorted(tracks[0], Sorted(tracks[1..]));
      forall key
        ensures Of(Sorted(tracks), key) == Of(tracks, key)
      {
        InsertedKeepsOf(tracks[0], Sorted(tracks[1..]), key);
        assert ([tracks[0]] + Sorted(tracks[1..]))[1..] == Sorted(tracks[1..]);
      }
    }
  }

  // ---- The list without duplicates ----------------------------------------------------------

  lemma {:induction false} OfConcat(a: seq<TrackDetails>, b: seq<TrackDetails>, key: TrackKey)
    ensures Of(a + b, key) == Of(a, key) + Of(b, key)
  {
    if a == [] {
      assert a + b == b;
    } else {
      assert (a + b)[1..] == a[1..] + b;
      OfConcat(a[1..], b, key);
    }
  }

  lemma {:induction false} OfIsEmptyIff(tracks: seq<TrackDetails>, key: TrackKey)
    ensures Of(tracks, key) == [] <==> forall i :: 0 <= i < |tracks| ==> KeyOf(tracks[i]) != key
  {
    if tracks != [] {
      OfIsEmptyIff(tracks[1..], key);
      assert tracks == [tracks[0]] + tracks[1..];
      if KeyOf(tracks[0]) != key && Of(tracks[1..], key) == [] {
        forall i | 0 <= i < |tracks|
          ensures KeyOf(tracks[i]) != key
        {
          assert i > 0 ==> tracks[i] == tracks[1..][i - 1];
        }
      }
      if forall i :: 0 <= i < |tracks| ==> KeyOf(tracks[i]) != key {
        forall i | 0 <= i < |tracks[1..]|
          ensures KeyOf(tracks[1..][i]) != key
        {
          assert tracks[1..][i] == tracks[i + 1];
        }
      }
    }
  }

  function Firsts<T>(s: seq<T>): seq<T> {
    if s == [] then [] else [s[0]]
  }

  // The last entry either repeats the key before it or comes after everything.
  lemma LastIsAfter(tracks: seq<TrackDetails>, i: nat)
    requires NonDecreasing(tracks) && i + 1 < |tracks|
    requires KeyOf(tracks[|tracks| - 2]) != KeyOf(tracks[|tracks| - 1])
    ensures KeyBefore(KeyOf(tracks[i]), KeyOf(tracks[|tracks| - 1]))
    ensures KeyOf(tracks[i]) != KeyOf(tracks[|tracks| - 1])
  {
    var key, middle, last := KeyOf(tracks[i]), KeyOf(tracks[|tracks| - 2]), KeyOf(tracks[|tracks| - 1]);
    KeyOrder(middle, last);
    KeyOrder(key, middle);
    KeyOrder(key, last);
    if key != middle {
      KeyBeforeIsTransitive(key, middle, last);
    }
  }

  lemma DedupedEnds(tracks: seq<TrackDetails>)
    ensures Deduped(tracks) == [] <==> tracks == []
    ensures tracks != [] ==> KeyOf(Deduped(tracks)[|Deduped(tracks)| - 1]) == KeyOf(tracks[|tracks| - 1])
    ensures |Deduped(tracks)| <= |tracks|
  {
  }

  lemma {:induction false} DedupedIs(tracks: seq<TrackDetails>, key: TrackKey)
    requires NonDecreasing(tracks)
    ensures Of(Deduped(tracks), key) == Firsts(Of(tracks, key))
  {
    if tracks != [] {
      var front, last := tracks[..|tracks| - 1], tracks[|tracks| - 1];
      assert tracks == front + [last];
      DedupedIs(front, key);
      DedupedEnds(front);
      OfConcat(front, [last], key);
      OfConcat(Deduped(front), [last], key);
      OfIsEmptyIff(front, key);
      hide NonDecreasing, KeyBefore;
      if front != [] && KeyOf(front[|front| - 1]) != KeyOf(last) {
        forall i | 0 <= i < |front|
          ensures KeyOf(front[i]) != KeyOf(last)
        {
          LastIsAfter(tracks, i);
        }
      }
    }
  }

  lemma {:induction false} DedupedIncreases(tracks: seq<TrackDetails>)
    requires NonDecreasing(tracks)
    ensures Increasing(Deduped(tracks))
    ensures forall e :: e in Deduped(tracks) ==> e in tracks
  {
    if tracks != [] {
      var front, last := tracks[..|tracks| - 1], tracks[|tracks| - 1];
      assert tracks == front + [last];
      DedupedIncreases(front);
      DedupedEnds(front);
      var kept := Deduped(front);
      if front != [] && KeyOf(front[|front| - 1]) != KeyOf(last) {
        forall i | 0 <= i < |kept|
          ensures KeyBefore(KeyOf(kept[i]), KeyOf(last))
        {
          assert kept[i] in front;
          var j :| 0 <= j < |front| && front[j] == kept[i];
          LastIsAfter(tracks, j);
        }
      }
      hide KeyBefore, NonDecreasing;
    }
  }

  // The list sent is strictly increasing, and holds for each key exactly what was
  // listed first for it.
  lemma SentListIs(tracks: seq<TrackDetails>)
    ensures Increasing(Deduped(Sorted(tracks)))
    ensures forall key :: Of(Deduped(Sorted(tracks)), key) == Firsts(Of(tracks, key))
    ensures |Deduped(Sorted(tracks))| <= |tracks|
  {
    SortedIsStable(tracks);
    DedupedIncreases(Sorted(tracks));
    forall key {
      DedupedIs(Sorted(tracks), key);
    }
    DedupedEnds(Sorted(tracks));
    SortedLength(tracks);
  }

  lemma {:induction false} InsertedLength(t: TrackDetails, sorted: seq<TrackDetails>)
    ensures |Inserted(t, sorted)| == |sorted| + 1
  {
    if sorted != [] {
      InsertedLength(t, sorted[1..]);
    }
  }

  lemma {:induction false} SortedLength(tracks: seq<TrackDetails>)
    ensures |Sorted(tracks)| == |tracks|
  {
    if tracks != [] {
      SortedLength(tracks[1..]);
      InsertedLength(tracks[0], Sorted(tracks[1..]));
    }
  }

  lemma LeastKey(tracks: seq<TrackDetails>, key: TrackKey)
    requires Increasing(tracks) && Of(tracks, key) != []
    ensures tracks != [] && !KeyBefore(key, KeyOf(tracks[0]))
    ensures key == KeyOf(tracks[0]) ==> Of(tracks, key) == [tracks[0]]
  {
    OfIsEmptyIff(tracks, key);
    var i :| 0 <= i < |tracks| && KeyOf(tracks[i]) == key;
    KeyOrder(KeyOf(tracks[0]), key);
    if key == KeyOf(tracks[0]) {
      OfIsEmptyIff(tracks[1..], key);
      forall j | 0 <= j < |tracks[1..]|
        ensures KeyOf(tracks[1..][j]) != key
      {
        KeyOrder(KeyOf(tracks[0]), KeyOf(tracks[j + 1]));
      }
    }
  }

  lemma EmptyTogether(a: seq<TrackDetails>, b: seq<TrackDetails>)
    requires forall key :: Of(a, key) == Of(b, key)
    ensures a == [] <==> b == []
  {
    if a != [] {
      OfIsEmptyIff(a, KeyOf(a[0]));
      assert Of(b, KeyOf(a[0])) != [];
    }
    if b != [] {
      OfIsEmptyIff(b, KeyOf(b[0]));
      assert Of(a, KeyOf(b[0])) != [];
    }
  }

  lemma {:induction false} SameListIf(a: seq<TrackDetails>, b: seq<TrackDetails>)
    requires Increasing(a) && Increasing(b) && forall key :: Of(a, key) == Of(b, key)
    ensures a == b
  {
    EmptyTogether(a, b);
    if a != [] {
      var first, other := KeyOf(a[0]), KeyOf(b[0]);
      LeastKey(a, first);
      LeastKey(b, first);
      LeastKey(a, other);
      LeastKey(b, other);
      KeyOrder(first, other);
      forall key
        ensures Of(a[1..], key) == Of(b[1..], key)
      {
        assert Of(a, key) == Of(b, key);
        assert Of(a[1..], key) == if key == first then Of(a, key)[1..] else Of(a, key);
        assert Of(b[1..], key) == if key == first then Of(b, key)[1..] else Of(b, key);
      }
      SameListIf(a[1..], b[1..]);
      assert a == [a[0]] + a[1..] && b == [b[0]] + b[1..];
    }
  }

  lemma SameFirstsSameRequest(a: seq<TrackDetails>, b: seq<TrackDetails>)
    requires forall key :: Firsts(Of(a, key)) == Firsts(Of(b, key))
    ensures Deduped(Sorted(a)) == Deduped(Sorted(b))
  {
    SentListIs(a);
    SentListIs(b);
    hide Of, Firsts, Sorted, Deduped, Increasing;
    SameListIf(Deduped(Sorted(a)), Deduped(Sorted(b)));
  }

  lemma SameRequestSameFirsts(a: seq<TrackDetails>, b: seq<TrackDetails>, key: TrackKey)
    requires Deduped(Sorted(a)) == Deduped(Sorted(b))
    ensures Firsts(Of(a, key)) == Firsts(Of(b, key))
  {
    SentListIs(a);
    SentListIs(b);
    hide Of, Firsts, Sorted, Deduped, Increasing;
    assert Of(Deduped(Sorted(a)), key) == Firsts(Of(a, key));
  }

  ghost predicate SameFirsts(a: seq<TrackDetails>, b: seq<TrackDetails>) {
    forall key :: Firsts(Of(a, key)) == Firsts(Of(b, key))
  }

  // Two lists lead to the same request exactly when they agree on what comes first
  // for every key, in whatever order and however often they list it.
  lemma SameRequestIff(a: seq<TrackDetails>, b: seq<TrackDetails>)
    ensures Deduped(Sorted(a)) == Deduped(Sorted(b)) <==> SameFirsts(a, b)
  {
    hide Of, Firsts, Sorted, Deduped;
    if SameFirsts(a, b) {
      SameFirstsSameRequest(a, b);
    }
    if Deduped(Sorted(a)) == Deduped(Sorted(b)) {
      forall key {
        SameRequestSameFirsts(a, b, key);
      }
    }
  }

  // ---- Which keys are wanted -------------------------------------------------------------------

  // The rule of the first role that has a filter, or else the default.
  ghost predicate IsRule(config: Config, roles: seq<string>, rule: Rule) {
    || ((forall j :: 0 <= j < |roles| ==> roles[j] !in config.roleFilters) && rule == config.defaultRule)
    || exists k :: 0 <= k < |roles| && IsFirstFiltered(config, roles, k) && rule == config.roleFilters[roles[k]]
  }

  ghost predicate IsFirstFiltered(config: Config, roles: seq<string>, k: nat)
    requires k < |roles|
  {
    roles[k] in config.roleFilters && forall j :: 0 <= j < k ==> roles[j] !in config.roleFilters
  }

  // A known type of track that the rule of some participant names, which publishes it,
  // and that the user did not unsubscribe from.
  ghost predicate PolicyWants(
      config: Config, participants: seq<Participant>, unsubscribed: set<TrackKey>, key: TrackKey)
  {
    && 0 <= key.trackType <= 4 && key !in unsubscribed
    && exists p :: p in participants && p.sessionId == key.sessionId && key.trackType in p.publishedTracks
         && exists rule :: IsRule(config, p.roles, rule) && key.trackType in rule.trackTypes
  }

  lemma {:induction false} RuleForIs(config: Config, roles: seq<string>, rule: Rule)
    ensures IsRule(config, roles, rule) <==> rule == RuleFor(config, roles)
  {
    if roles != [] {
      var rest := roles[1..];
      RuleForIs(config, rest, rule);
      if roles[0] in config.roleFilters {
        assert IsFirstFiltered(config, roles, 0);
        assert forall k :: 0 < k < |roles| ==> !IsFirstFiltered(config, roles, k);
      } else {
        assert forall j :: 0 <= j < |rest| ==> rest[j] == roles[j + 1];
        forall k | 0 <= k < |rest|
          ensures IsFirstFiltered(config, rest, k) <==> IsFirstFiltered(config, roles, k + 1)
        {
          assert forall j :: 0 <= j < k ==> rest[j] == roles[j + 1];
          assert forall j :: 0 < j < k + 1 ==> roles[j] == rest[j - 1];
        }
        assert !IsFirstFiltered(config, roles, 0);
        assert IsRule(config, roles, rule) <==> IsRule(config, rest, rule) by {
          if k :| 0 <= k < |rest| && IsFirstFiltered(config, rest, k) && rule == config.roleFilters[rest[k]] {
            assert IsFirstFiltered(config, roles, k + 1);
          }
          if k :| 0 <= k < |roles| && IsFirstFiltered(config, roles, k) && rule == config.roleFilters[roles[k]] {
            assert IsFirstFiltered(config, rest, k - 1);
          }
        }
      }
    }
  }

  ghost predicate PolicyFollows(
      config: Config, participants: seq<Participant>, unsubscribed: set<TrackKey>, key: TrackKey)
  {
    exists p :: p in participants && p.sessionId == key.sessionId && key.trackType in p.publishedTracks
      && Follows(RuleFor(config, p.roles), p, key.trackType, unsubscribed)
  }

  lemma PolicyFollowsIff(
      config: Config, participants: seq<Participant>, unsubscribed: set<TrackKey>, key: TrackKey)
    ensures PolicyFollows(config, participants, unsubscribed, key)
       <==> PolicyWants(config, participants, unsubscribed, key)
  {
    forall p: Participant, rule {
      RuleForIs(config, p.roles, rule);
    }
    forall p | p in participants && p.sessionId == key.sessionId && key.trackType in p.publishedTracks
      ensures Follows(RuleFor(config, p.roles), p, key.trackType, unsubscribed) <==>
        && 0 <= key.trackType <= 4 && key !in unsubscribed
        && exists rule :: IsRule(config, p.roles, rule) && key.trackType in rule.trackTypes
    {
      assert IsRule(config, p.roles, RuleFor(config, p.roles));
    }
    hide IsRule, RuleFor, Follows;
  }

  lemma OfOne(t: TrackDetails, key: TrackKey)
    ensures Of([t], key) == if KeyOf(t) == key then [t] else []
  {
    assert [t][1..] == [];
  }

  lemma {:induction false} TracksOfIff(
      rule: Rule, p: Participant, tracks: seq<i32>, unsubscribed: set<TrackKey>, key: TrackKey)
    ensures Of(TracksOf(rule, p, tracks, unsubscribed), key) != [] <==>
      key.sessionId == p.sessionId && key.trackType in tracks && Follows(rule, p, key.trackType, unsubscribed)
  {
    if tracks != [] {
      var front, last := tracks[..|tracks| - 1], tracks[|tracks| - 1];
      assert tracks == front + [last];
      TracksOfIff(rule, p, front, unsubscribed, key);
      AppendNothing(TracksOf(rule, p, front, unsubscribed));
      OfOne(DetailsBy(rule, p, last), key);
      OfConcat(TracksOf(rule, p, front, unsubscribed), [DetailsBy(rule, p, last)], key);
    }
  }

  lemma {:induction false} UnlimitedFollows(
      config: Config, participants: seq<Participant>, unsubscribed: set<TrackKey>, key: TrackKey)
    ensures Of(Unlimited(config, participants, unsubscribed), key) != [] <==>
      PolicyFollows(config, participants, unsubscribed, key)
  {
    if participants != [] {
      var front, p := participants[..|participants| - 1], participants[|participants| - 1];
      assert participants == front + [p];
      UnlimitedFollows(config, front, unsubscribed, key);
      TracksOfIff(RuleFor(config, p.roles), p, p.publishedTracks, unsubscribed, key);
      OfConcat(Unlimited(config, front, unsubscribed),
               TracksOf(RuleFor(config, p.roles), p, p.publishedTracks, unsubscribed), key);
      hide Follows, RuleFor, TracksOf, Of;
    }
  }

  // Without a limit the policy lists exactly the wanted keys.
  lemma UnlimitedIff(config: Config, participants: seq<Participant>, unsubscribed: set<TrackKey>, key: TrackKey)
    ensures Of(Unlimited(config, participants, unsubscribed), key) != [] <==>
      PolicyWants(config, participants, unsubscribed, key)
  {
    UnlimitedFollows(config, participants, unsubscribed, key);
    PolicyFollowsIff(config, participants, unsubscribed, key);
    hide PolicyFollows, PolicyWants;
  }

  // What an entry of the policy's list says of its track: the size is that of the rule.
  ghost predicate IsPolicyEntry(
      config: Config, participants: seq<Participant>, unsubscribed: set<TrackKey>, t: TrackDetails)
  {
    && 0 <= t.trackType <= 4 && TrackKey(t.sessionId, t.trackType) !in unsubscribed
    && exists p :: p in participants && p.sessionId == t.sessionId && p.userId == t.userId
         && t.trackType in p.publishedTracks
         && exists rule :: IsRule(config, p.roles, rule) && t.trackType in rule.trackTypes
              && t.dimension == (if t.trackType == 2 then Some(rule.videoDimension)
                                 else if t.trackType == 3 then Some(rule.screenshareDimension)
                                 else None)
  }

  lemma {:induction false} TracksOfAre(
      config: Config, p: Participant, tracks: seq<i32>, unsubscribed: set<TrackKey>, t: TrackDetails)
    requires t in TracksOf(RuleFor(config, p.roles), p, tracks, unsubscribed)
    requires forall track :: track in tracks ==> track in p.publishedTracks
    ensures IsPolicyEntry(config, [p], unsubscribed, t)
  {
    var front, last := tracks[..|tracks| - 1], tracks[|tracks| - 1];
    if t in TracksOf(RuleFor(config, p.roles), p, front, unsubscribed) {
      TracksOfAre(config, p, front, unsubscribed, t);
    } else {
      RuleForIs(config, p.roles, RuleFor(config, p.roles));
      assert t == DetailsBy(RuleFor(config, p.roles), p, last);
      assert p in [p] && last in p.publishedTracks;
    }
  }

  lemma {:induction false} UnlimitedAre(
      config: Config, participants: seq<Participant>, unsubscribed: set<TrackKey>, t: TrackDetails)
    requires t in Unlimited(config, participants, unsubscribed)
    ensures IsPolicyEntry(config, participants, unsubscribed, t)
  {
    var front, p := participants[..|participants| - 1], participants[|participants| - 1];
    if t in Unlimited(config, front, unsubscribed) {
      UnlimitedAre(config, front, unsubscribed, t);
      assert forall q :: q in front ==> q in participants;
    } else {
      TracksOfAre(config, p, p.publishedTracks, unsubscribed, t);
      assert forall q :: q in [p] ==> q in participants;
    }
    hide Unlimited, TracksOf, IsRule;
  }

  function TargetKey(t: Target): TrackKey {
    TrackKey(t.sessionId, t.trackType)
  }

  ghost predicate TargetsWant(
      targets: seq<Target>, roster: Roster, self: string, unsubscribed: set<TrackKey>, key: TrackKey)
  {
    exists i :: 0 <= i < |targets| && TargetKey(targets[i]) == key && Reachable(roster, self, unsubscribed, targets[i])
  }

  // A target names the track, another session publishes it, and the user did not
  // unsubscribe from it.
  ghost predicate TargetsName(
      targets: seq<Target>, roster: Roster, self: string, unsubscribed: set<TrackKey>, key: TrackKey)
  {
    && key !in unsubscribed && key.sessionId != self
    && key.sessionId in roster.values && key.trackType in roster.values[key.sessionId].published
    && exists i :: 0 <= i < |targets| && targets[i].sessionId == key.sessionId && targets[i].trackType == key.trackType
  }

  lemma TargetsWantIff(
      targets: seq<Target>, roster: Roster, self: string, unsubscribed: set<TrackKey>, key: TrackKey)
    requires Keyed(roster)
    ensures TargetsWant(targets, roster, self, unsubscribed, key)
       <==> TargetsName(targets, roster, self, unsubscribed, key)
  {
    if i :| 0 <= i < |targets| && targets[i].sessionId == key.sessionId && targets[i].trackType == key.trackType {
      assert TargetsName(targets, roster, self, unsubscribed, key) ==>
        TargetKey(targets[i]) == key && Reachable(roster, self, unsubscribed, targets[i]);
    }
  }

  // The user id of the session, and for video and screen share the size of the target,
  // or 1920 x 1080.
  predicate IsTargetEntry(roster: Roster, target: Target, t: TrackDetails) {
    && target.sessionId in roster.values && t.userId == roster.values[target.sessionId].userId
    && t.sessionId == target.sessionId && t.trackType == target.trackType
    && t.dimension == (if t.trackType == 2 || t.trackType == 3 then
                         (if target.dimension.Some? then target.dimension else Some((1920, 1080)))
                       else None)
  }

  // The listed targets that can be had, of one key.
  function TargetsOf(
      targets: seq<Target>, roster: Roster, self: string, unsubscribed: set<TrackKey>, key: TrackKey)
    : seq<TrackDetails>
  {
    if targets == [] then []
    else
      var t := targets[|targets| - 1];
      TargetsOf(targets[..|targets| - 1], roster, self, unsubscribed, key)
      + if TargetKey(t) == key && Reachable(roster, self, unsubscribed, t) then
          [DetailsFor(roster.values[t.sessionId], t)]
        else []
  }

  lemma {:induction false} TargetsByKey(
      targets: seq<Target>, roster: Roster, self: string, unsubscribed: set<TrackKey>, key: TrackKey)
    requires Keyed(roster)
    ensures Of(ByTargets(targets, roster, self, unsubscribed), key)
         == TargetsOf(targets, roster, self, unsubscribed, key)
  {
    if targets != [] {
      var front, t := targets[..|targets| - 1], targets[|targets| - 1];
      var listed := ByTargets(front, roster, self, unsubscribed);
      TargetsByKey(front, roster, self, unsubscribed, key);
      AppendNothing(listed);
      if Reachable(roster, self, unsubscribed, t) {
        OfOne(DetailsFor(roster.values[t.sessionId], t), key);
        OfConcat(listed, [DetailsFor(roster.values[t.sessionId], t)], key);
        hide Of;
      }
    }
  }

  lemma {:induction false} TargetsOfIff(
      targets: seq<Target>, roster: Roster, self: string, unsubscribed: set<TrackKey>, key: TrackKey)
    ensures TargetsOf(targets, roster, self, unsubscribed, key) != [] <==>
      TargetsWant(targets, roster, self, unsubscribed, key)
  {
    if targets != [] {
      var front := targets[..|targets| - 1];
      TargetsOfIff(front, roster, self, unsubscribed, key);
      hide Reachable, DetailsFor;
      if TargetsWant(front, roster, self, unsubscribed, key) {
        var i :| 0 <= i < |front| && TargetKey(front[i]) == key && Reachable(roster, self, unsubscribed, front[i]);
        assert TargetKey(targets[i]) == key && Reachable(roster, self, unsubscribed, targets[i]);
      }
      if TargetsWant(targets, roster, self, unsubscribed, key) {
        var i :| 0 <= i < |targets| && TargetKey(targets[i]) == key
                 && Reachable(roster, self, unsubscribed, targets[i]);
        if i < |front| {
          assert TargetKey(front[i]) == key && Reachable(roster, self, unsubscribed, front[i]);
        }
      }
    }
  }

  // Of several targets for one track, the first listed gives the dimension.
  lemma {:induction false} FirstTargetWins(
      targets: seq<Target>, roster: Roster, self: string, unsubscribed: set<TrackKey>, i: nat)
    requires i < |targets| && Reachable(roster, self, unsubscribed, targets[i])
    requires forall j :: 0 <= j < i ==> TargetKey(targets[j]) != TargetKey(targets[i])
    ensures Firsts(TargetsOf(targets, roster, self, unsubscribed, TargetKey(targets[i])))
         == [DetailsFor(roster.values[targets[i].sessionId], targets[i])]
    decreases |targets|
  {
    var front := targets[..|targets| - 1];
    if i < |front| {
      FirstTargetWins(front, roster, self, unsubscribed, i);
    } else {
      TargetsOfIff(front, roster, self, unsubscribed, TargetKey(targets[i]));
    }
    hide Reachable, DetailsFor;
  }

  // What the policy keeps under its limit.
  function WithinLimit(config: Config, all: seq<TrackDetails>): seq<TrackDetails> {
    all[..if config.maxSubscriptions.Some? then Min(config.maxSubscriptions.value, |all|) else |all|]
  }

  // The request holds a key exactly when a target wants it, or without targets when
  // it is listed in the part of the policy's list that the limit keeps: the first
  // entries in participant order. It holds what is listed there first for the key.
  lemma DesiredIff(w: Wants, roster: Roster, self: string, key: TrackKey)
    requires Keyed(roster)
    ensures Increasing(Desired(w, roster, self))
    ensures w.targets.Some? ==>
      (Of(Desired(w, roster, self), key) != [] <==>
       TargetsName(w.targets.value, roster, self, w.unsubscribed, key))
    ensures w.targets.None? ==>
      var all := Unlimited(w.config, Others(roster, roster.keys, self), w.unsubscribed);
      && Of(Desired(w, roster, self), key) == Firsts(Of(WithinLimit(w.config, all), key))
      && (Of(Desired(w, roster, self), key) != [] <==> Of(WithinLimit(w.config, all), key) != [])
      && |Desired(w, roster, self)| <= |WithinLimit(w.config, all)|
    ensures w.targets.None? && w.config.maxSubscriptions.None? ==>
      (Of(Desired(w, roster, self), key) != [] <==>
       PolicyWants(w.config, Others(roster, roster.keys, self), w.unsubscribed, key))
  {
    var listed := Listed(w, roster, self);
    SentListIs(listed);
    assert Of(Desired(w, roster, self), key) == Firsts(Of(listed, key));
    match w.targets {
      case Some(targets) =>
        TargetsByKey(targets, roster, self, w.unsubscribed, key);
        TargetsOfIff(targets, roster, self, w.unsubscribed, key);
        TargetsWantIff(targets, roster, self, w.unsubscribed, key);
      case None =>
        var all := Unlimited(w.config, Others(roster, roster.keys, self), w.unsubscribed);
        assert listed == WithinLimit(w.config, all);
        assert all[..|all|] == all;
        UnlimitedIff(w.config, Others(roster, roster.keys, self), w.unsubscribed, key);
    }
  }

  // So the request carries the first listed of the targets for a track.
  lemma FirstTargetIsSent(targets: seq<Target>, w: Wants, roster: Roster, self: string, i: nat)
    requires Keyed(roster) && w.targets == Some(targets) && i < |targets|
    requires TargetsName(targets, roster, self, w.unsubscribed, TargetKey(targets[i]))
    requires forall j :: 0 <= j < i ==> TargetKey(targets[j]) != TargetKey(targets[i])
    ensures var sent := Of(Desired(w, roster, self), TargetKey(targets[i]));
      |sent| == 1 && IsTargetEntry(roster, targets[i], sent[0])
  {
    assert Reachable(roster, self, w.unsubscribed, targets[i]);
    SentListIs(Listed(w, roster, self));
    TargetsByKey(targets, roster, self, w.unsubscribed, TargetKey(targets[i]));
    FirstTargetWins(targets, roster, self, w.unsubscribed, i);
    hide Of, Firsts, TargetsOf, Sorted, Deduped;
    assert Of(Desired(w, roster, self), TargetKey(targets[i]))
        == Firsts(Of(Listed(w, roster, self), TargetKey(targets[i])));
  }

  // The policy never lists the local session.
  lemma {:induction false} OthersAreOther(roster: Roster, keys: seq<string>, self: string)
    ensures forall p :: p in Others(roster, keys, self) <==>
      exists key :: key in keys && key in roster.values && roster.values[key].participant == p && p.sessionId != self
  {
    if keys != [] {
      var front, last := keys[..|keys| - 1], keys[|keys| - 1];
      assert keys == front + [last];
      OthersAreOther(roster, front, self);
    }
  }

  // ---- What is never requested ------------------------------------------------------------------

  lemma {:induction false} OfHas(tracks: seq<TrackDetails>, t: TrackDetails)
    ensures t in tracks <==> t in Of(tracks, KeyOf(t))
  {
    if tracks != [] {
      assert tracks == [tracks[0]] + tracks[1..];
      OfHas(tracks[1..], t);
    }
  }

  // Every entry of a request was listed.
  lemma RequestedIsListed(w: Wants, roster: Roster, self: string, t: TrackDetails)
    requires t in Desired(w, roster, self)
    ensures t in Listed(w, roster, self)
  {
    var listed := Listed(w, roster, self);
    SentListIs(listed);
    OfHas(Desired(w, roster, self), t);
    OfHas(listed, t);
    assert Of(Desired(w, roster, self), KeyOf(t)) == Firsts(Of(listed, KeyOf(t)));
    hide Of, Listed, Desired;
  }

  lemma {:induction false} ByTargetsAre(
      targets: seq<Target>, roster: Roster, self: string, unsubscribed: set<TrackKey>, t: TrackDetails)
    requires Keyed(roster) && t in ByTargets(targets, roster, self, unsubscribed)
    ensures TargetsName(targets, roster, self, unsubscribed, KeyOf(t))
    ensures exists i :: 0 <= i < |targets| && IsTargetEntry(roster, targets[i], t)
  {
    var front, last := targets[..|targets| - 1], targets[|targets| - 1];
    if t in ByTargets(front, roster, self, unsubscribed) {
      ByTargetsAre(front, roster, self, unsubscribed, t);
      var i :| 0 <= i < |front| && IsTargetEntry(roster, front[i], t);
      assert targets[i] == front[i];
    } else {
      assert IsTargetEntry(roster, targets[|front|], t);
    }
  }

  // No request names a track the user unsubscribed from or one of the local session, and
  // each entry says what its rule or its target says.
  lemma RequestedIsWanted(w: Wants, roster: Roster, self: string, t: TrackDetails)
    requires Keyed(roster) && t in Desired(w, roster, self)
    ensures KeyOf(t) !in w.unsubscribed && t.sessionId != self && t.sessionId in roster.values
    ensures w.targets.Some? ==>
      exists i :: 0 <= i < |w.targets.value| && IsTargetEntry(roster, w.targets.value[i], t)
    ensures w.targets.None? ==>
      IsPolicyEntry(w.config, Others(roster, roster.keys, self), w.unsubscribed, t)
  {
    RequestedIsListed(w, roster, self, t);
    match w.targets {
      case Some(targets) =>
        ByTargetsAre(targets, roster, self, w.unsubscribed, t);
      case None =>
        var others := Others(roster, roster.keys, self);
        UnlimitedAre(w.config, others, w.unsubscribed, t);
        OthersAreOther(roster, roster.keys, self);
        var p :| p in others && p.sessionId == t.sessionId;
        hide IsPolicyEntry, Desired, Unlimited, Others;
    }
  }

  // ---- The order of session ids --------------------------------------------------------------------

  // The shorter of two strings that agree, or the one with the smaller character where
  // they first differ, comes first.
  lemma {:induction false} BeforeIff(a: string, b: string)
    ensures Before(a, b) <==>
      exists k :: 0 <= k <= |a| && k < |b| && a[..k] == b[..k] && (k == |a| || a[k] < b[k])
  {
    if b != "" && a != "" && a[0] == b[0] {
      BeforeIff(a[1..], b[1..]);
      if Before(a, b) {
        var k :| 0 <= k <= |a[1..]| && k < |b[1..]| && a[1..][..k] == b[1..][..k]
                 && (k == |a[1..]| || a[1..][k] < b[1..][k]);
        assert a[..k + 1] == [a[0]] + a[1..][..k] && b[..k + 1] == [b[0]] + b[1..][..k];
      }
      if k :| 0 <= k <= |a| && k < |b| && a[..k] == b[..k] && (k == |a| || a[k] < b[k]) {
        assert k > 0;
        assert a[1..][..k - 1] == a[..k][1..] && b[1..][..k - 1] == b[..k][1..];
      }
    } else if b != "" && a != "" {
      assert a[..0] == b[..0];
      if k :| 0 < k <= |a| && k < |b| && a[..k] == b[..k] {
        assert a[..k][0] == b[..k][0];
      }
    } else if b != "" {
      assert a[..0] == b[..0];
    }
  }
}
