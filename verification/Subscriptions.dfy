// Which remote tracks a call subscribes to: the policy or the list of targets,
// put in order, freed of duplicates, and sent when it changed.
module Subscriptions {
  import opened Wrappers
  import opened IndexMap
  import opened Participants
  import opened TrackTypes

  const DEFAULT_VIDEO_DIMENSION: (u32, u32) := (1920, 1080)

  datatype Rule = Rule(
    trackTypes: seq<i32>, videoDimension: (u32, u32), screenshareDimension: (u32, u32))

  datatype Config = Config(
    defaultRule: Rule, roleFilters: map<string, Rule>, maxSubscriptions: Option<nat>)

  datatype Target = Target(sessionId: string, trackType: i32, dimension: Option<(u32, u32)>)

  datatype TrackDetails = TrackDetails(
    userId: string, sessionId: string, trackType: i32, dimension: Option<(u32, u32)>)

  function KeyOf(t: TrackDetails): TrackKey {
    TrackKey(t.sessionId, t.trackType)
  }

  // ---- The policy ---------------------------------------------------------------------------

  // The rule of the first role that has one.
  function RuleFor(config: Config, roles: seq<string>): Rule {
    if roles == [] then config.defaultRule
    else if roles[0] in config.roleFilters then config.roleFilters[roles[0]]
    else RuleFor(config, roles[1..])
  }

  predicate Follows(rule: Rule, p: Participant, trackType: i32, unsubscribed: set<TrackKey>) {
    KnownType(trackType) && trackType in rule.trackTypes && TrackKey(p.sessionId, trackType) !in unsubscribed
  }

  function DetailsBy(rule: Rule, p: Participant, trackType: i32): TrackDetails {
    TrackDetails(p.userId, p.sessionId, trackType,
                 if trackType == VIDEO then Some(rule.videoDimension)
                 else if trackType == SCREEN_SHARE then Some(rule.screenshareDimension)
                 else None)
  }

  function TracksOf(rule: Rule, p: Participant, tracks: seq<i32>, unsubscribed: set<TrackKey>): seq<TrackDetails> {
    if tracks == [] then []
    else
      var last := tracks[|tracks| - 1];
      TracksOf(rule, p, tracks[..|tracks| - 1], unsubscribed)
      + if Follows(rule, p, last, unsubscribed) then [DetailsBy(rule, p, last)] else []
  }

  // Everything the policy wants, in the order of the participants.
  function Unlimited(config: Config, participants: seq<Participant>, unsubscribed: set<TrackKey>): seq<TrackDetails> {
    if participants == [] then []
    else
      var p := participants[|participants| - 1];
      Unlimited(config, participants[..|participants| - 1], unsubscribed)
      + TracksOf(RuleFor(config, p.roles), p, p.publishedTracks, unsubscribed)
  }

  // The limit keeps a prefix.
  function ByPolicy(config: Config, participants: seq<Participant>, unsubscribed: set<TrackKey>): seq<TrackDetails> {
    var all := Unlimited(config, participants, unsubscribed);
    if config.maxSubscriptions.Some? && config.maxSubscriptions.value < |all| then
      all[..config.maxSubscriptions.value]
    else all
  }

  method FindRule(config: Config, roles: seq<string>) returns (rule: Rule)
    ensures rule == RuleFor(config, roles)
  {
    for i := 0 to |roles|
      invariant RuleFor(config, roles) == RuleFor(config, roles[i..])
    {
      assert roles[i..][1..] == roles[i + 1..];
      if roles[i] in config.roleFilters {
        return config.roleFilters[roles[i]];
      }
    }
    return config.defaultRule;
  }

  method TrackSubscriptions(config: Config, participants: seq<Participant>, unsubscribed: set<TrackKey>)
    returns (tracks: seq<TrackDetails>)
    ensures tracks == ByPolicy(config, participants, unsubscribed)
  {
    tracks := [];
    for i := 0 to |participants|
      invariant tracks == Unlimited(config, participants[..i], unsubscribed)
    {
      var p := participants[i];
      assert participants[..i + 1][..i] == participants[..i];
      var rule := FindRule(config, p.roles);
      ghost var before := tracks;
      for j := 0 to |p.publishedTracks|
        invariant tracks == before + TracksOf(rule, p, p.publishedTracks[..j], unsubscribed)
      {
        var trackType := p.publishedTracks[j];
        assert p.publishedTracks[..j + 1][..j] == p.publishedTracks[..j];
        if Follows(rule, p, trackType, unsubscribed) {
          tracks := tracks + [DetailsBy(rule, p, trackType)];
        }
      }
      assert p.publishedTracks[..|p.publishedTracks|] == p.publishedTracks;
    }
    assert participants[..|participants|] == participants;
    if config.maxSubscriptions.Some? && config.maxSubscriptions.value < |tracks| {
      tracks := tracks[..config.maxSubscriptions.value];
    }
  }

  // ---- The targets ---------------------------------------------------------------------------

  predicate Reachable(roster: Roster, self: string, unsubscribed: set<TrackKey>, t: Target) {
    t.sessionId in roster.values &&
    var entry := roster.values[t.sessionId];
    && entry.sessionId != self && t.trackType in entry.published
    && TrackKey(entry.sessionId, t.trackType) !in unsubscribed
  }

  function DetailsFor(entry: State, t: Target): TrackDetails {
    TrackDetails(entry.userId, entry.sessionId, t.trackType,
                 if t.trackType == VIDEO || t.trackType == SCREEN_SHARE then
                   Some(if t.dimension.Some? then t.dimension.value else DEFAULT_VIDEO_DIMENSION)
                 else None)
  }

  function ByTargets(targets: seq<Target>, roster: Roster, self: string, unsubscribed: set<TrackKey>)
    : seq<TrackDetails>
  {
    if targets == [] then []
    else
      var last := targets[|targets| - 1];
      ByTargets(targets[..|targets| - 1], roster, self, unsubscribed)
      + if Reachable(roster, self, unsubscribed, last) then [DetailsFor(roster.values[last.sessionId], last)] else []
  }

  method TargetSubscriptions(targets: seq<Target>, roster: Roster, self: string, unsubscribed: set<TrackKey>)
    returns (tracks: seq<TrackDetails>)
    ensures tracks == ByTargets(targets, roster, self, unsubscribed)
  {
    tracks := [];
    for i := 0 to |targets|
      invariant tracks == ByTargets(targets[..i], roster, self, unsubscribed)
    {
      assert targets[..i + 1][..i] == targets[..i];
      if Reachable(roster, self, unsubscribed, targets[i]) {
        tracks := tracks + [DetailsFor(roster.values[targets[i].sessionId], targets[i])];
      }
    }
    assert targets[..|targets|] == targets;
  }

  // ---- Order and duplicates -------------------------------------------------------------------

  // The order of strings, by their characters.
  predicate Before(a: string, b: string) {
    b != "" && (a == "" || a[0] < b[0] || (a[0] == b[0] && Before(a[1..], b[1..])))
  }

  predicate KeyBefore(a: TrackKey, b: TrackKey) {
    Before(a.sessionId, b.sessionId) || (a.sessionId == b.sessionId && a.trackType < b.trackType)
  }

  // The library's stable sort.
  function Sorted(tracks: seq<TrackDetails>): seq<TrackDetails> {
    if tracks == [] then [] else Inserted(tracks[0], Sorted(tracks[1..]))
  }

  function Inserted(t: TrackDetails, sorted: seq<TrackDetails>): seq<TrackDetails> {
    if sorted == [] || !KeyBefore(KeyOf(sorted[0]), KeyOf(t)) then [t] + sorted
    else [sorted[0]] + Inserted(t, sorted[1..])
  }

  function Deduped(tracks: seq<TrackDetails>): seq<TrackDetails> {
    if tracks == [] then []
    else
      var kept, last := Deduped(tracks[..|tracks| - 1]), tracks[|tracks| - 1];
      if kept != [] && KeyOf(kept[|kept| - 1]) == KeyOf(last) then kept else kept + [last]
  }

  method Dedup(tracks: seq<TrackDetails>) returns (kept: seq<TrackDetails>)
    ensures kept == Deduped(tracks)
  {
    kept := [];
    for i := 0 to |tracks|
      invariant kept == Deduped(tracks[..i])
    {
      assert tracks[..i + 1][..i] == tracks[..i];
      if |kept| > 0 && kept[|kept| - 1].sessionId == tracks[i].sessionId
         && kept[|kept| - 1].trackType == tracks[i].trackType
      {
        continue;
      }
      kept := kept + [tracks[i]];
    }
    assert tracks[..|tracks|] == tracks;
  }

  // ---- One recompute ----------------------------------------------------------------------------

  // The participants a policy looks at, in the order of the roster.
  function Others(roster: Roster, keys: seq<string>, self: string): seq<Participant> {
    if keys == [] then []
    else
      var last := keys[|keys| - 1];
      Others(roster, keys[..|keys| - 1], self)
      + if last in roster.values && roster.values[last].participant.sessionId != self then
          [roster.values[last].participant]
        else []
  }

  // What the local side wants; with targets set, the policy is not asked.
  datatype Wants = Wants(config: Config, targets: Option<seq<Target>>, unsubscribed: set<TrackKey>)

  function Listed(w: Wants, roster: Roster, self: string): seq<TrackDetails> {
    match w.targets
    case Some(targets) => ByTargets(targets, roster, self, w.unsubscribed)
    case None => ByPolicy(w.config, Others(roster, roster.keys, self), w.unsubscribed)
  }

  function Desired(w: Wants, roster: Roster, self: string): seq<TrackDetails> {
    Deduped(Sorted(Listed(w, roster, self)))
  }

  datatype Link = Link(generation: u64, sessionId: string)

  // One `UpdateSubscriptions` request.
  datatype Request = Request(sessionId: string, tracks: seq<TrackDetails>)

  // The request a recompute sends, if any.
  function RequestOf(
      enabled: bool, active: u64, generation: u64, link: Option<Link>, lastSent: seq<TrackDetails>,
      w: Wants, roster: Roster): Option<Request>
  {
    if !enabled || active != generation || link.None? || link.value.generation != generation then None
    else
      var tracks := Desired(w, roster, link.value.sessionId);
      if lastSent == tracks then None else Some(Request(link.value.sessionId, tracks))
  }

  class SubscriptionCache {
    var enabled: bool
    var wants: Wants
    var activeSubs: seq<TrackDetails>

    constructor (config: Config)
      ensures !enabled && wants == Wants(config, None, {}) && activeSubs == []
    {
      enabled, wants, activeSubs := false, Wants(config, None, {}), [];
    }

    // `recompute_subscriptions_for_generation` while nothing else happens to the
    // connection; `answer` is whether the call to the SFU succeeds.
    method Recompute(active: u64, generation: u64, link: Option<Link>, roster: Roster, answer: bool)
      returns (request: Option<Request>)
      modifies this`activeSubs
      ensures request == RequestOf(enabled, active, generation, link, old(activeSubs), wants, roster)
      ensures activeSubs == if request.Some? && answer then request.value.tracks else old(activeSubs)
      ensures request.Some? ==>
        enabled && active == generation && link.Some? && link.value == Link(generation, request.value.sessionId)
      ensures enabled && active == generation && link.Some? && link.value.generation == generation ==>
        var desired := Desired(wants, roster, link.value.sessionId);
        request == if desired == old(activeSubs) then None else Some(Request(link.value.sessionId, desired))
    {
      if !enabled || active != generation {
        return None;
      }
      if link.None? || link.value.generation != generation {
        return None;
      }
      var self := link.value.sessionId;
      var tracks: seq<TrackDetails>;
      match wants.targets {
        case Some(targets) =>
          tracks := TargetSubscriptions(targets, roster, self, wants.unsubscribed);
        case None =>
          var others := [];
          for i := 0 to |roster.keys|
            invariant others == Others(roster, roster.keys[..i], self)
          {
            assert roster.keys[..i + 1][..i] == roster.keys[..i];
            var key := roster.keys[i];
            if key in roster.values && roster.values[key].participant.sessionId != self {
              others := others + [roster.values[key].participant];
            }
          }
          assert roster.keys[..|roster.keys|] == roster.keys;
          tracks := TrackSubscriptions(wants.config, others, wants.unsubscribed);
      }
      tracks := Dedup(Sorted(tracks));
      if activeSubs == tracks {
        return None;
      }
      request := Some(Request(self, tracks));
      if answer {
        activeSubs := tracks;
      }
    }

    // A new connection: the SFU has no subscriptions yet.
    method Forget()
      modifies this`activeSubs
      ensures activeSubs == []
    {
      activeSubs := [];
    }
  }
}
