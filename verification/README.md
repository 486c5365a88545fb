# A model of the call runtime

A Dafny model of the hard parts of the Rust SDK's real-time call: what keeps its
concurrent join, leave and reconnect tasks apart, how a lost connection is
recovered, what goes onto the wire, and how the state mirrored from the SFU is
kept in step. `dafny verify dfyconfig.toml` checks everything.

How the files fit together:

- `Lifecycle` holds the shared fields of a call as a class with one method per
  critical section. `LifecycleRuns` interleaves these sections for any number of
  joins, leaves, dropped joins and reconnect runs, each known by the generation it
  captured, and of actors that check first and leave later; `LifecycleTheorems` states
  what every interleaving guarantees, and `LifecycleEvents` adds the event loops, which
  check first and write later, and the end of the call.
- `RateLimiter`, `ReconnectPolicy` and `ReconnectRun` are the limiter, the decisions
  and the loop of a reconnect; `ReconnectTheorems` bounds its attempts and orders
  its strategies, and `ReconnectOutcomes` says how a run ends and what it leaves. `JoinLoop` is the retry loop of the first join.
- `VpxPacketizer` is the RTP packetizer. `Vp9Descriptor` and `Vp8Descriptor` hold
  parsers written from section 4.2 of RFC 9628 and section 4.2 of RFC 7741, and
  `VpxRoundTrip` a receiver that undoes whole runs. `VpxPackets`, `VpxPictureIds` and
  `VpxTemporal` add sizes and markers, the picture ids, and temporal scalability;
  `VpxReceived` says what each received frame must say.
- `Participants` (over `IndexMap`) reconciles the roster with the snapshot of a join
  response; `ParticipantEvents` relates the events it sends to the new roster,
  `ParticipantNews` says which event is sent when, `ParticipantEntries` what each
  operation does to an entry, and `ParticipantTracks` relates the two records of
  published tracks.
- `Subscriptions` builds the list of wanted tracks; `SubscriptionLists` says what it
  holds and `SubscriptionRuns` why an equal list need not be sent again.
- `Publication` and `PublicationRuns` are the local publications and the cache of
  publish qualities, `PublishOptions` the options they share out. `Tracer` and
  `TraceRuns` are the bounded trace buffers and the reports that drain them,
  `TraceDelivery` what the SFU then has.
- `VideoFrame`, `PcmChunks` and `RtpClock` are the integer kernels of the media path.

Time is in integer milliseconds. The clock, the random seeds, the answers of the
network and the outcomes of the tasks are parameters. A method with a loop or with
fields is proved equal to a function of its inputs or of the old fields; the lemmas
are about that function.

## Model

| member | source | states |
|---|---|---|
| `Lifecycle.RtcCore.SetState` | src/rtc/join/mod.rs:297-306 | Assigning the present state broadcasts nothing; another one is assigned and broadcast once, and nothing else changes. |
| `Lifecycle.RtcCore.SetStateIfCurrent` | src/rtc/join/mod.rs:695-702 | A state change reaches the call exactly when the captured generation is the current one. |
| `Lifecycle.RtcCore.BeginJoin` | src/rtc/join/mod.rs:754-778 | A join begins exactly from `Idle` or `Left`; it gets a generation of its own, an empty call state and cache, no reconnect claim, and fresh reconnect limits under the options set last. From any other state nothing changes. |
| `Lifecycle.RtcCore.CancelGeneration` | src/rtc/join/mod.rs:780-788 | A leave takes the next generation (wrapping at 64 bits) and touches nothing else. |
| `Lifecycle.RtcCore.ClaimReconnect` | src/rtc/join/mod.rs:790-804 | A run is claimed exactly by the current generation while no claim is held. |
| `Lifecycle.RtcCore.ReleaseReconnect` | src/rtc/join/mod.rs:806-814 | A release clears the claim of its own generation only. |
| `Lifecycle.RtcCore.ClearCallState` | src/rtc/join/lifecycle.rs:737-762 | Clears the call data, the end mark, the last subscriptions sent, delivered tracks, capabilities and the reconnect claim; state, generation, events and slot stay. |
| `Lifecycle.RtcCore.MarkEnded` | src/rtc/join/lifecycle.rs:702-712 | The first end report of a call marks it, and only that one goes on to leave. |
| `Lifecycle.RtcCore.ApplyCallState` | src/rtc/join/participants.rs:94-105 | A join response is applied exactly for the current generation. |
| `Lifecycle.RtcCore.CheckInstall` | src/rtc/join/lifecycle.rs:345-351 | The generation check inside the slot's critical section. |
| `Lifecycle.RtcCore.Install` | src/rtc/join/lifecycle.rs:352-354 | The replacement puts the new connection into the slot and hands the old one to its caller. |
| `Lifecycle.RtcCore.TakeForLeave` | src/rtc/join/lifecycle.rs:661-667 | The teardown takes the connection exactly if its generation is less than that of the leave. |
| `Lifecycle.RtcCore.ClearForLeave` | src/rtc/join/lifecycle.rs:723-731 | The first critical section of `finish_leave` clears only what the leave still owns. |
| `Lifecycle.RtcCore.FinishLeave` | src/rtc/join/lifecycle.rs:723-733 | A leave that still owns the generation clears the call and ends in `Left`; one that does not changes nothing. |
| `Lifecycle.RtcCore.AbandonJoin` | src/rtc/join/lifecycle.rs:773-789 | A dropped join takes a new generation and goes to `Idle` exactly while it is current and still joining. |
| `LifecycleRuns.RunKeepsInv` | src/rtc/join/mod.rs:754-814 | Every interleaving of joins, leaves of the user or of tasks that decided earlier, dropped joins, installs and reconnect runs keeps the invariant that ties slot, call data, claim, state and events to the owner of the current generation. |
| `LifecycleTheorems.TeardownIsFinal` | src/rtc/join/lifecycle.rs:345-366 | Once a leave's teardown went through the slot, no connection of an older generation is in it or on its way there, however the run goes on. |
| `LifecycleTheorems.TeardownTakesOnlyOlder` | src/rtc/join/lifecycle.rs:651-667 | The teardown never takes the connection of a join begun after the leave, and always takes an older one. |
| `LifecycleTheorems.OwnerDecidesState` | src/rtc/join/lifecycle.rs:723-802 | A finished leave that owns the generation left the call in `Left` without data, a dropped join in `Idle`; from both a join can begin. |
| `LifecycleTheorems.StateChangeHasOwner` | src/rtc/join/mod.rs:695-702 | Between two points of a run the state differs only if a join began or a holder of the current generation acted. |
| `LifecycleTheorems.IssuedIff` | src/rtc/join/mod.rs:754-778 | The next generation goes to a join exactly at a begin from `Idle` or `Left`, and to nobody exactly at a drop of the current join while it is joining. |
| `LifecycleTheorems.LiveCallIsNotJoined` | src/rtc/join/mod.rs:769-773 | A second join over a call that is not over changes nothing. |
| `LifecycleTheorems.JoinsNeedAnEnd` | src/rtc/join/mod.rs:754-778 | Over every run, wherever a join got its generation the call before it was over. |
| `LifecycleTheorems.OlderRunIsHarmlessIff` | src/rtc/join/reconnect_runtime.rs:171-338 | What leaves, dropped joins, installs, join responses and reconnect runs of older generations still do keeps a current join's state, events, origin of the call data, claim and connection exactly if none of it is a `leave` whose check passed before that join began. |
| `LifecycleTheorems.OlderActorsAreHarmlessIff` | src/rtc/join/mod.rs:695-788 | A current join is safe from every run of older actors exactly if none of them has decided to leave and not yet left. |
| `LifecycleTheorems.OlderDecisionEndsJoin` | src/rtc/join/mod.rs:780-788 | Such a leave ends the current join: `Left`, no connection, no call data, no claim. |
| `LifecycleTheorems.OlderDecisionIsReached` | src/rtc/join/reconnect_runtime.rs:174-183 | A run that reaches it: the first join decides to leave, the call is left and joined again, and the new join is connected. |
| `LifecycleEvents.EventsKeepLifecycle` | src/rtc/join/connection.rs:262-268 | Event handlers that check the generation and write later leave state, generation, events, slot and claim alone: every run with them and with the tasks of end reports is a run of the lifecycle's own steps. |
| `LifecycleEvents.CallSurvivesIff` | src/rtc/join/lifecycle.rs:698-720 | With event loops and end reports too, a current join keeps its part of the lifecycle exactly if no older actor has decided to leave and not yet left. |
| `LifecycleEvents.DataSurvivesIff` | src/rtc/join/connection.rs:262-360 | It keeps its participants and its end mark as well exactly if moreover no older handler passed its check before the join and has still to write. |
| `LifecycleEvents.EndReportLeavesIff` | src/rtc/join/lifecycle.rs:698-720 | The end report of the current call starts a task that leaves it exactly if the call is not marked as ended; the task decides to leave if it still finds the call current. |
| `LifecycleEvents.OlderMarkHidesEndReport` | src/rtc/join/lifecycle.rs:698-720 | A mark of an older handler hides the current call's own end report, and its task leaves nothing. |
| `LifecycleEvents.OlderMarkIsReached` | src/rtc/join/lifecycle.rs:698-720 | A run in which handlers of the first join can still write into the call of the next. |
| `LifecycleTheorems.LeaveOvertakenByJoin` | src/rtc/join/lifecycle.rs:723-733 | From the start of a call on, a leave overtaken by a later join, and every other older actor, leaves that join's state and call data untouched exactly unless it is a decided leave. |
| `LifecycleTheorems.EventsFollowState` | src/rtc/join/mod.rs:297-306 | The broadcast states never repeat a value and the last one is the state. |
| `LifecycleTheorems.OneReconnectRun` | src/rtc/join/mod.rs:562-571 | At most one reconnect run of a generation is alive; a stale release clears no newer claim and a stale claim never stops a new generation. |
| `LifecycleTheorems.TeardownEmptiesSlotIff` | src/rtc/join/lifecycle.rs:661-667 | A leave empties an occupied slot exactly when its generation has not wrapped at 2^64. |
| `LifecycleTheorems.WrappedLeaveKeepsConnection` | src/rtc/join/mod.rs:780-788 | A run in which the leave that wraps the counter leaves the last connection in the slot. |
| `ReconnectRun.ReconnectLoop.RunReconnect` | src/rtc/join/reconnect_runtime.rs:215-379 | The loop computes the fold of its turns: attempts, strategies, times, limiter, limits, state and outcome. |
| `ReconnectRun.ReconnectLoop.TakeTurn` | src/rtc/join/reconnect_runtime.rs:251-301 | One turn up to the attempt: generation, timeout and rate limit are checked in this order. |
| `ReconnectRun.ReconnectLoop.FinishTurn` | src/rtc/join/reconnect_runtime.rs:302-350 | What follows each result of an attempt: joined, failed, left after three negotiation failures, or backoff. |
| `ReconnectRun.ReconnectLoop.SleepAndEscalate` | src/rtc/join/reconnect_runtime.rs:341-375 | The backoff and the choice of the next strategy and state. |
| `ReconnectTheorems.AttemptStrategies` | src/rtc/join/reconnect_runtime.rs:226-375 | Migrate is attempted at most once and only first, Rejoin follows it, every attempt from the fifth on is Rejoin, and the state is `Migrating` exactly while the strategy is Migrate. |
| `ReconnectTheorems.TimeoutBoundsAttempts` | src/rtc/join/reconnect_runtime.rs:251-272 | With a timeout of D > 0 ms a run makes at most D / 250 + 1 attempts, however long each takes, and then has ended. |
| `ReconnectTheorems.LimiterBoundsAttempts` | src/rtc/join/reconnect_runtime.rs:274-290 | If every attempt takes less than 7 s, a run makes at most 14 attempts, whatever the timeout and the limiter's past, and then has ended. |
| `ReconnectTheorems.NegotiationFailuresAreFew` | src/rtc/join/reconnect_runtime.rs:328-340 | A run makes no attempt after its third negotiation failure, whatever was counted before it. |
| `ReconnectTheorems.EveryRun` | src/rtc/join/reconnect_runtime.rs:215-379 | The order of strategies and the three bounds, for every way the loop is started. |
| `ReconnectTheorems.UnlimitedRun` | src/rtc/join/reconnect_runtime.rs:251-379 | Seven seconds are the exact threshold: without a timeout, attempts of 7 s make runs of any length. |
| `ReconnectTheorems.RejoinIsLeftIff` | src/rtc/reconnect.rs:273-296 | When a run that fell back to Rejoin goes back to Fast, for every turn; the source's comment says never. |
| `ReconnectTheorems.FastAfterRejoin` | src/rtc/reconnect.rs:273-296 | A run whose attempts are Rejoin and then Fast. |
| `ReconnectOutcomes.TurnIs` | src/rtc/join/reconnect_runtime.rs:250-379 | For every turn: whether it comes to an attempt, how it ends the run or how it goes on, and the state, counts and attempts it leaves. |
| `ReconnectOutcomes.RunEnds` | src/rtc/join/reconnect_runtime.rs:215-379 | Every run that ended left at the second connection without ICE, or its last turn says how: reconnected and `Joined`, failed and `ReconnectingFailed`, or gone for a refused registration or the third negotiation failure. |
| `ReconnectOutcomes.EveryRunIsSound` | src/rtc/join/reconnect_runtime.rs:291-379 | A success and an unrecoverable failure are the last attempt, the one after a rejected Fast is Rejoin, and a run ends reconnected only with a successful attempt. |
| `ReconnectOutcomes.BegunIs` | src/rtc/join/reconnect_runtime.rs:215-248 | The state, the counts and the first strategy of a run, and whether it leaves at once. |
| `ReconnectPolicy.RetryIntervalRange` | src/rtc/reconnect.rs:84-103 | The backoff lies between its bounds, within 250 and 5000 ms, for every attempt number and clock reading. |
| `ReconnectPolicy.RetryTable` | src/rtc/reconnect.rs:84-103 | The backoff of each attempt: 250 to 500 ms after the first, 5000 ms from the fifth on. |
| `ReconnectPolicy.RetryIntervalReaches` | src/rtc/reconnect.rs:84-103 | Every value between the bounds is taken for some clock reading. |
| `ReconnectPolicy.FailureLimits.RecordIceNeverConnected` | src/rtc/reconnect.rs:223-227 | The limit is reached from the second failure on. |
| `ReconnectPolicy.FailureLimits.RecordNegotiationFailure` | src/rtc/reconnect.rs:235-239 | The limit is reached from the third failure on. |
| `ReconnectPolicy.SfuRejoinFailures.Record` | src/rtc/reconnect.rs:255-264 | Counts and confirmed edges always follow the history of recorded failures. |
| `ReconnectPolicy.ConfirmedIffTwice` | src/rtc/reconnect.rs:249-270 | An edge is confirmed exactly when its count is at least two, and once. |
| `ReconnectPolicy.ConfirmedIff` | src/rtc/reconnect.rs:249-270 | An edge is confirmed bad exactly if it failed twice, or once in a way that forces a switch. |
| `ReconnectPolicy.ConfirmedKeepsOrder` | src/rtc/reconnect.rs:255-269 | A longer history confirms the same edges first: confirmations are never reordered or withdrawn. |
| `RateLimiter.SlidingWindowRateLimiter.TryRegister` | src/rtc/reconnect.rs:180-196 | The deque after a call, and whether the call is allowed. |
| `RateLimiter.LimiterRefinesNaive` | src/rtc/reconnect.rs:157-196 | Under a clock that does not go back, the evicting deque accepts exactly what a limiter accepts that forgets nothing. |
| `RateLimiter.NoWindowOverflows` | src/rtc/reconnect.rs:157-196 | Over any run any max + 1 acceptances in a row span at least the window. |
| `RateLimiter.RefusedIff` | src/rtc/reconnect.rs:180-196 | A call is refused exactly if the one accepted `max` acceptances ago is younger than the window; what is younger is remembered. |
| `JoinLoop.RunJoinLoop` | src/rtc/join/lifecycle.rs:154-281 | At most max(1, retries) + 1 requests; each is determined by the calls before it, and the loop ends at the first call that ends it, with that call's outcome. |
| `JoinLoop.TakeCall` | src/rtc/join/lifecycle.rs:206-273 | One pass of the loop after a join attempt: how it ends, or the retry or the counted failure it goes on with. |
| `JoinLoop.CountFailure` | src/rtc/join/lifecycle.rs:229-268 | A failure that is retried leaves counts, excluded edges and the last bad edge as the longer history says. |
| `JoinLoop.BadEdgesIff` | src/rtc/join/lifecycle.rs:160-281 | An edge is excluded exactly if it failed with a join error code or twice; the list has no duplicates and holds `migrating_from`. |
| `JoinLoop.EndIs` | src/rtc/join/lifecycle.rs:206-273 | The loop goes on exactly after a first expired token that is refreshed, or a failure that may be repeated; otherwise it ends, joined, cancelled, failed, or without a fresh token. |
| `JoinLoop.WithoutRetryIs` | src/rtc/join/lifecycle.rs:206-228 | Every call but the first expired one counts towards attempts and edges. |
| `JoinLoop.BadEdgesGrow` | src/rtc/join/lifecycle.rs:260-268 | What is avoided stays avoided, in the order in which it was found. |
| `JoinLoop.LastBadEdgeIs` | src/rtc/join/lifecycle.rs:255-268 | The single edge of a request is that of the latest failure that made one bad. |
| `Vp9Descriptor.DescriptorRoundTrip` | src/rtc/codecs/rtp_vpx.rs:119-149 | A parser written from section 4.2 of RFC 9628 reads back every field and the fragment. |
| `Vp9Descriptor.ScalabilityRoundTrip` | src/rtc/codecs/rtp_vpx.rs:307-338 | A parser written from section 4.2.1 of RFC 9628 reads back layers, sizes and the picture group. |
| `Vp8Descriptor.Vp8RoundTrip` | src/rtc/codecs/rtp_vpx.rs:226-257 | A parser written from section 4.2 of RFC 7741 reads back the picture id, the partition start and the fragment. |
| `VpxPacketizer.VpxRtpPacketizer.constructor` | src/rtc/codecs/rtp_vpx.rs:37-47 | The first picture id is cut to 15 bits. |
| `VpxPacketizer.VpxRtpPacketizer.Packetize` | src/rtc/codecs/rtp_vpx.rs:49-64 | The payloads of a single-layer picture, and the counters after it. |
| `VpxPacketizer.VpxRtpPacketizer.PacketizeVp9` | src/rtc/codecs/rtp_vpx.rs:164-224 | The fragmentation loop yields the fragments of the picture. |
| `VpxPacketizer.VpxRtpPacketizer.PacketizeVp8` | src/rtc/codecs/rtp_vpx.rs:226-257 | The fragmentation loop yields the fragments of the picture. |
| `VpxPacketizer.VpxRtpPacketizer.PacketizeSvcPicture` | src/rtc/codecs/rtp_vpx.rs:69-162 | The payloads of all layers of a picture, and the counters after it; an empty picture changes nothing. |
| `VpxPacketizer.PacketizeFrame` | src/rtc/codecs/rtp_vpx.rs:104-156 | The fragmentation loop of one layer. |
| `VpxPacketizer.PlanPicture` | src/rtc/codecs/rtp_vpx.rs:76-97 | TID, switching flag, TL0PICIDX and sizes of a picture, from the counters it finds. |
| `VpxPacketizer.SvcDescriptor` | src/rtc/codecs/rtp_vpx.rs:119-148 | The descriptor bytes, flag by flag, are those of the specified fields. |
| `VpxPacketizer.WriteScalabilityStructure` | src/rtc/codecs/rtp_vpx.rs:307-338 | The bytes written are those of the structure that the parser reads back. |
| `VpxPacketizer.ScalabilityLenIsExact` | src/rtc/codecs/rtp_vpx.rs:276-284 | The reserved length is the length written, for every mode. |
| `VpxPacketizer.FragmentLen` | src/rtc/codecs/rtp_vpx.rs:114-117 | Every fragment makes progress and stays inside the frame, also when the descriptor fills the limit. |
| `VpxRoundTrip.SvcRoundTrip` | src/rtc/codecs/rtp_vpx.rs:69-162 | Over every run of SVC pictures, for any payload limits, a receiver gets back each non-empty layer's bytes with SID, TID, D, P, the shared PID and the structure. |
| `VpxRoundTrip.Vp9RoundTrip` | src/rtc/codecs/rtp_vpx.rs:164-224 | The same for every run of single-layer VP9 pictures. |
| `VpxRoundTrip.Vp8RunRoundTrip` | src/rtc/codecs/rtp_vpx.rs:226-257 | The same for every run of VP8 pictures. |
| `VpxReceived.ReceivedSvcFrameIs` | src/rtc/codecs/rtp_vpx.rs:69-162 | Of every run a receiver gets the layers with data, in order; each says P and Z exactly outside key pictures, D exactly above the base of a key picture, its own layer, TID, switching flag and counters, and carries the structure exactly on the base of a key picture, with a size per layer and the pattern. |
| `VpxReceived.ReceivedVp9FrameIs` | src/rtc/codecs/rtp_vpx.rs:164-224 | The same for single-layer VP9: P exactly outside key frames, one fixed layer, and the size with a key frame. |
| `VpxReceived.SingleTl0Counts` | src/rtc/codecs/rtp_vpx.rs:57-63 | TL0PICIDX of a single-layer picture is its start plus the number of pictures, modulo 256. |
| `VpxPackets.PayloadsFitIff` | src/rtc/codecs/rtp_vpx.rs:108-117 | All payloads of a frame fit the limit exactly when it exceeds the descriptor of the first one. |
| `VpxPackets.PayloadBound` | src/rtc/codecs/rtp_vpx.rs:108-117 | No payload exceeds the larger of the limit and a descriptor with one byte. |
| `VpxPackets.PayloadsAreFull` | src/rtc/codecs/rtp_vpx.rs:108-117 | Every payload but the last of a frame is as long as the limit, or as a descriptor and one byte. |
| `VpxPackets.DescriptorLengths` | src/rtc/codecs/rtp_vpx.rs:276-284 | The lengths of all descriptors. |
| `VpxPackets.HighestIsMax` | src/rtc/codecs/rtp_vpx.rs:90-97 | The marked layer is one of the picture, and none is above it. |
| `VpxPackets.MarkerEndsPicture` | src/rtc/codecs/rtp_vpx.rs:149-156 | Given the encoder's contract, the marker is set exactly on the last packet of a picture. |
| `VpxPackets.MarkerEndsFrame` | src/rtc/codecs/rtp_vpx.rs:164-257 | The marker is set exactly on the last packet of a single-layer picture. |
| `VpxPackets.LayersAdvertiseTheirSize` | src/rtc/codecs/rtp_vpx.rs:286-305 | The structure advertises for each layer of the picture that layer's own size. |
| `VpxPictureIds.SentSplits` | src/rtc/codecs/rtp_vpx.rs:49-64 | Each picture of a single-layer run is sent with the counters its position gives. |
| `VpxPictureIds.PictureIdsAreConsecutive` | src/rtc/codecs/rtp_vpx.rs:57-63 | Picture n has the id of the first plus n, modulo 2^15. |
| `VpxPictureIds.SvcPictureIdsAreConsecutive` | src/rtc/codecs/rtp_vpx.rs:159-161 | The same for SVC pictures, all layers of one sharing it. |
| `VpxPictureIds.NextIdIs` | src/rtc/codecs/rtp_vpx.rs:61-61 | The next id is one more, modulo 2^15. |
| `VpxTemporal.SentAt` | src/rtc/codecs/rtp_vpx.rs:69-162 | What is sent for picture i of a run is its plan from the counters it finds. |
| `VpxTemporal.GofIndexCounts` | src/rtc/codecs/rtp_vpx.rs:80-91 | The group index is the number of pictures since the key picture modulo the pattern length, key pictures anywhere. |
| `VpxTemporal.WireMatchesGof` | src/rtc/codecs/rtp_vpx.rs:260-338 | With libvpx's temporal pattern, the TID and U bit on the wire equal the advertised group entry at (pictures since key) mod N_G. |
| `VpxTemporal.Tl0CountsBasePictures` | src/rtc/codecs/rtp_vpx.rs:84-97 | TL0PICIDX equals its start plus the number of TID 0 pictures so far, modulo 256. |
| `VpxTemporal.ReferenceIsNoHigher` | src/rtc/codecs/rtp_vpx.rs:307-338 | Every P_DIFF reference lands at or after the last key picture, on a picture of no higher TID. |
| `VpxTemporal.DroppingLayersIsClosed` | src/rtc/codecs/rtp_vpx.rs:307-338 | So when all pictures above a TID are dropped, everything a kept picture needs, directly or through others, is kept too and belongs to its key picture. |
| `Participants.CallParticipants.Upsert` | src/rtc/join/participants.rs:202-216 | A message replaces the entry of its session, keeps a known prefix over an empty one, and keeps the order. |
| `ParticipantEntries.UpsertedIs` | src/rtc/join/participants.rs:202-216 | Field by field: the participant and its tracks are replaced, an empty prefix keeps the known one, and only this entry changes. |
| `Participants.CallParticipants.Remove` | src/rtc/join/participants.rs:218-223 | Removal keeps the order of the others. |
| `ParticipantEntries.RemovedIs` | src/rtc/join/participants.rs:218-223 | It takes out the one key and leaves the others and their order. |
| `Participants.CallParticipants.AddPublishedTrack` | src/rtc/join/participants.rs:227-256 | The entry after a published track, with or without a participant hint, and the manual unsubscription that a republish clears. |
| `ParticipantEntries.TrackAddedIs` | src/rtc/join/participants.rs:227-256 | Field by field: the hint or what is known, under the given ids, with the track once in both records. |
| `Participants.CallParticipants.RemovePublishedTrack` | src/rtc/join/participants.rs:266-275 | The track leaves both records of a known session; an unknown session is not created. |
| `ParticipantEntries.TrackRemovedIs` | src/rtc/join/participants.rs:266-275 | The track is taken out of both records, in place, and nothing else changes. |
| `Participants.CallParticipants.ApplySnapshot` | src/rtc/join/participants.rs:94-199 | For the current generation, the new roster and the events of the difference; otherwise nothing. |
| `Participants.SnapshotIs` | src/rtc/join/participants.rs:123-163 | Exactly which sessions a snapshot knows, each with what the response says last about it. |
| `ParticipantEntries.SnapshotEntryIs` | src/rtc/join/participants.rs:123-163 | Every listed session is what the response says and nothing of what was known; an unlisted local one has its ids alone. |
| `ParticipantEvents.SnapshotOrder` | src/rtc/join/participants.rs:123-163 | Survivors keep their order, then the local session if new, then newcomers in response order. |
| `ParticipantEvents.EventsOf` | src/rtc/join/participants.rs:164-197 | The events of each session: none for a local one, else what the response says, else its departure. |
| `ParticipantEvents.OneEventEach` | src/rtc/join/participants.rs:164-197 | Each session gets at most one event, for distinct ids. |
| `ParticipantNews.NewsIff` | src/rtc/join/participants.rs:164-197 | Joined is sent exactly for a listed session that was not known, updated exactly for a known one that differs in a field without events of its own, left exactly for a known one that is not listed; each with the listed or the last known participant, and none for a local session. |
| `ParticipantNews.NewsInOrder` | src/rtc/join/participants.rs:164-197 | The news comes in the order of the response, then the departures in the order of the roster. |
| `ParticipantEvents.ReplayGivesSnapshot` | src/rtc/join/participants.rs:94-199 | Replaying the events on the previous participants gives the new ones for every non-local session, up to the four masked fields; duplicate ids do no harm. |
| `ParticipantEvents.EmptyIdIsHeardNotKept` | src/rtc/join/participants.rs:142-145 | Replay and roster agree on the empty session id exactly when the response does not list it. |
| `ParticipantTracks.SnapshotIsInSync` | src/rtc/join/participants.rs:123-163 | After a snapshot both records of every session's published tracks agree. |
| `ParticipantTracks.TrackRemovedKeepsSync` | src/rtc/join/participants.rs:266-275 | Unpublishing keeps them in agreement. |
| `ParticipantTracks.TrackAddedKeepsSyncIff` | src/rtc/join/participants.rs:227-256 | Publishing keeps them in agreement exactly without a hint, or with one that lists what was known, give or take the track. |
| `ParticipantTracks.ChangeKeepsSyncIff` | src/rtc/join/participants.rs:94-275 | Any change of the roster keeps them in agreement exactly unless it carries a hint that disagrees with what was known. |
| `ParticipantTracks.RunKeepsSync` | src/rtc/join/participants.rs:94-275 | So they agree after every run without such a hint. |
| `ParticipantTracks.AddThenRemove` | src/rtc/join/participants.rs:227-275 | Unpublishing undoes publishing. |
| `Tracer.Tracer.constructor` | src/rtc/tracer.rs:53-59 | A bound of zero becomes one. |
| `Tracer.Tracer.Trace` | src/rtc/tracer.rs:68-73 | The record is appended, then the buffer is bounded. |
| `Tracer.Tracer.Take` | src/rtc/tracer.rs:77-80 | The records leave the buffer, all of them. |
| `Tracer.Tracer.Restore` | src/rtc/tracer.rs:84-92 | The records go back in front of what arrived since, then the buffer is bounded; nothing to restore changes nothing. |
| `Tracer.CapBuffer` | src/rtc/tracer.rs:108-122 | The bounded buffer, never longer than the bound. |
| `Tracer.StatsReporter.ReportOnce` | src/rtc/stats.rs:153-220 | A report carries the three buffers in order and the two samples; if it fails and nothing was traced meanwhile, every buffer is as before. |
| `Tracer.NewestIsKeptIff` | src/rtc/tracer.rs:68-73 | A full buffer keeps the record just traced exactly unless its bound is one. |
| `Tracer.CrumbUndercounts` | src/rtc/tracer.rs:108-122 | The breadcrumb has its tag, id and time, and counts one entry less than the cap removes. |
| `Tracer.UncappedIsWhole` | src/rtc/tracer.rs:84-122 | Within the bound nothing is dropped, and what is restored stands in front. |
| `TraceRuns.NothingIsLost` | src/rtc/tracer.rs:68-93 | With traces at any point of any number of reports, acknowledged, in-flight and buffered records are the history, in order and once, exactly unless a buffer overflowed or a report was dropped with records in flight. |
| `TraceRuns.FewNeverOverflow` | src/rtc/tracer.rs:108-122 | A source that traced no more than its bound has not overflowed. |
| `TraceRuns.NewestSurvive` | src/rtc/stats.rs:153-220 | With overflow, buffers keep their bound, the records are a subsequence of the history, and the newest bound - 1 are all there unless a report was dropped. |
| `TraceRuns.RunKeepsInv` | src/rtc/stats.rs:153-220 | Every interleaving of the three tracers with takes, sends, restores and dropped reports keeps each source's accounting. |
| `TraceDelivery.BaseIsRun` | src/rtc/stats.rs:153-220 | Runs in which the SFU takes reports with or without an answer are runs of the reporter, so all of the above holds of them. |
| `TraceDelivery.SfuHasEachOnceIff` | src/rtc/stats.rs:194-218 | The SFU has what it acknowledged and what it took of the running report, exactly unless it took entries of a report that failed or was dropped. |
| `TraceDelivery.EverythingArrivesOrWaits` | src/rtc/stats.rs:194-218 | Without overflow or a dropped report, everything traced has arrived, is in flight or is buffered, in order. |
| `TraceDelivery.LostAnswerSendsTwice` | src/rtc/stats.rs:210-218 | After a lost answer the SFU has the entries of the report, and they wait to be sent again. |
| `Subscriptions.FindRule` | src/rtc/subscriptions.rs:178-184 | The first role with a rule selects it, else the default. |
| `Subscriptions.TrackSubscriptions` | src/rtc/subscriptions.rs:140-176 | The nested loops list the wanted tracks in participant order; the limit keeps a prefix. |
| `Subscriptions.TargetSubscriptions` | src/rtc/join/subscriptions_runtime.rs:119-144 | The list for explicit targets. |
| `Subscriptions.Dedup` | src/rtc/join/subscriptions_runtime.rs:158-160 | The loop that drops repeated keys. |
| `Subscriptions.SubscriptionCache.Recompute` | src/rtc/join/subscriptions_runtime.rs:84-184 | The request a recompute sends, if any, and the list it then remembers. |
| `SubscriptionLists.SortedIsStable` | src/rtc/join/subscriptions_runtime.rs:155-157 | The sort orders the keys and keeps the order within each. |
| `SubscriptionLists.SentListIs` | src/rtc/join/subscriptions_runtime.rs:155-160 | The list sent is strictly increasing and holds for each key exactly what was listed first. |
| `SubscriptionLists.SameRequestIff` | src/rtc/join/subscriptions_runtime.rs:162-165 | Two lists lead to the same request exactly when they agree on what comes first for every key. |
| `SubscriptionLists.UnlimitedIff` | src/rtc/subscriptions.rs:140-176 | Without a limit the policy lists exactly the tracks of a known type that their participant publishes, that the rule of its first filtered role or the default names, and that the user did not unsubscribe from. |
| `SubscriptionLists.RuleForIs` | src/rtc/subscriptions.rs:178-186 | The rule is that of the first role with a filter, or else the default. |
| `SubscriptionLists.DesiredIff` | src/rtc/join/subscriptions_runtime.rs:119-160 | The request holds a key exactly if a target wants it, or without targets if it is in the prefix of the policy's list that the limit keeps, and then what comes first there. |
| `SubscriptionLists.FirstTargetIsSent` | src/rtc/join/subscriptions_runtime.rs:122-160 | Of several targets for one track the first listed is sent, with its size or 1920 x 1080. |
| `SubscriptionLists.RequestedIsWanted` | src/rtc/join/subscriptions_runtime.rs:119-160 | No request names a track the user unsubscribed from or one of the local session; each entry has the user id, and the size of its rule or target. |
| `SubscriptionLists.BeforeIff` | src/rtc/join/subscriptions_runtime.rs:155-157 | Session ids are ordered by their first different character. |
| `SubscriptionLists.OthersAreOther` | src/rtc/join/subscriptions_runtime.rs:145-152 | The policy sees every participant but the local session. |
| `SubscriptionRuns.RecomputeIsFourSteps` | src/rtc/join/subscriptions_runtime.rs:84-184 | An uninterrupted recompute is a look at the slot, a comparison, an answer and a recording: same list, same condition, same memory. |
| `SubscriptionRuns.StepKeepsAgreementIff` | src/rtc/join/subscriptions_runtime.rs:95-183 | With every step of a recompute and of a replacement on its own, a step keeps the last list sent and the SFU of the current connection in agreement exactly unless it is one of the named breaks: a list taken before the clearing or with its answer lost, one taken or recorded across a migration, a recompute or an install dropped half way. |
| `SubscriptionRuns.RunKeepsAgreement` | src/rtc/join/lifecycle.rs:345-372 | So they agree after every run without such a break, in whatever order the outstanding recording and clearings come. |
| `SubscriptionRuns.SkippingIsSoundIff` | src/rtc/join/subscriptions_runtime.rs:162-165 | After such a run a recompute skips only what the SFU holds exactly if the install of the connection has cleared the last list, or there was none. |
| `SubscriptionRuns.RecomputeIsSound` | src/rtc/join/subscriptions_runtime.rs:162-183 | Then it leaves the SFU with the wanted list whether it sends or skips, or is sent again. |
| `SubscriptionRuns.ClearingHidesAList` | src/rtc/join/lifecycle.rs:354-372 | A list taken between the replacement and the clearing is forgotten, and a later wish for nothing is not sent. |
| `SubscriptionRuns.ClearingRepairsASkip` | src/rtc/join/lifecycle.rs:354-372 | A wrong skip there is made good by the first recompute after the clearing. |
| `SubscriptionRuns.MigrationHidesAnEmptySfu` | src/rtc/join/reconnect_runtime.rs:619-632 | A migration after the look at the slot, or before the recording, leaves the new SFU with nothing while the list counts as sent. |
| `SubscriptionRuns.LostAnswerHidesAChange` | src/rtc/join/subscriptions_runtime.rs:171-176 | After a lost answer the previous list is skipped though the SFU holds another. |
| `SubscriptionRuns.FirstWindowIsReached` | src/rtc/join/lifecycle.rs:345-372 | A run without a break to the state that ClearingHidesAList starts from. |
| `SubscriptionRuns.JoinedIsReached` | src/rtc/join/lifecycle.rs:345-372 | One to the state that MigrationHidesAnEmptySfu and LostAnswerHidesAChange start from. |
| `SubscriptionRuns.LaterWindowIsReached` | src/rtc/join/lifecycle.rs:345-372 | One to the state that ClearingRepairsASkip starts from. |
| `Publication.Position` | src/rtc/join/publication.rs:36-40 | The first publication of a track id. |
| `Publication.MediaState.BeginPublish` | src/rtc/join/publication.rs:57-73 | A track id is published once; the status returned is that of its publication. |
| `Publication.MediaState.SetStatus` | src/rtc/join/publication.rs:75-79 | Only the status of the track changes. |
| `Publication.MediaState.Remove` | src/rtc/join/publication.rs:81-97 | Removes the publication, and the quality of its key if nothing else has the key. |
| `Publication.MediaState.Retire` | src/rtc/join/publication.rs:102-107 | Removes the publication and keeps its sender with its option id. |
| `Publication.MediaState.StopAll` | src/rtc/join/publication.rs:111-115 | Every published track is stopped once and the state is empty. |
| `Publication.RetiredPosition` | src/rtc/join/publication.rs:138-142 | The latest retired sender of the kind. |
| `Publication.MediaState.TakeRetired` | src/rtc/join/publication.rs:129-136 | Takes that sender and no other. |
| `Publication.MediaState.RefreshPublishOptions` | src/rtc/join/publication.rs:144-169 | The reassigned publications and the pruned qualities, or where it fails the half-assigned state. |
| `Publication.ReassignedIs` | src/rtc/join/publication.rs:144-160 | Each publication gets what its track is assigned while the new keys of those before it are in use. |
| `Publication.RefreshPrunesIff` | src/rtc/join/publication.rs:161-169 | A refresh that succeeds keeps exactly the qualities of the new keys. |
| `Publication.MediaState.ApplyPublishQuality` | src/rtc/join/publication.rs:202-224 | The cached qualities after an event, and how many publications it reached. |
| `Publication.MatchesAdd` | src/rtc/join/publication.rs:202-224 | Each entry of a known type reaches the publications with its key. |
| `PublicationRuns.RunKeepsSound` | src/rtc/join/publication.rs:35-224 | After any operations the track ids are distinct, and after successful ones every cached quality has a live publication. |
| `PublicationRuns.FailedRefreshKeepsLiveIff` | src/rtc/join/publication.rs:144-160 | Every refresh that fails stops at a publication k, and keeps every cached quality live exactly if each key is the new one of a publication before k or the old one of one from k on. |
| `PublicationRuns.FailedRefreshStrandsQuality` | src/rtc/join/publication.rs:144-160 | One that strands a quality. |
| `PublicationRuns.RefreshKeepsTracks` | src/rtc/join/publication.rs:144-160 | A refresh changes option ids only, whether it succeeds or not. |
| `PublicationRuns.RefreshSpreadsKeys` | src/rtc/join/publication.rs:148-160 | If assignments avoid the keys given out before them, all keys are distinct after a refresh. |
| `PublicationRuns.RemovalPrunesIff` | src/rtc/join/publication.rs:84-95 | A removal forgets a quality exactly if it removes the last publication of its key. |
| `PublicationRuns.LastSenderWins` | src/rtc/join/publication.rs:202-224 | Per key the last entry of an event wins, if the key is live; other keys keep their quality. |
| `PublicationRuns.RetireThenTake` | src/rtc/join/publication.rs:102-142 | Taking a retired sender undoes its retirement: last in, first out per kind. |
| `PublishOptions.AssignFrom` | src/rtc/peer/publisher.rs:163-187 | A track gets the first advertised option of its type and codec, up to ASCII case, that no publication uses; none exactly if there is none. |
| `PublishOptions.FitsIff` | src/rtc/peer/publisher.rs:163-187 | An option fits a track of its type whose codec has the same letters in either case. |
| `PublishOptions.RefreshedAreAdvertised` | src/rtc/join/publication.rs:144-160 | After a successful refresh every publication has an advertised option that fits it, and no two share one. |
| `PublishOptions.StepKeepsKeysDistinctIff` | src/rtc/join/publish.rs:50-64 | An operation keeps the options of the publications apart exactly unless it is a refresh that stops where a new option meets an old one. |
| `PublishOptions.RunKeepsKeysDistinct` | src/rtc/join/publish.rs:50-64 | So no two publications share an option after any run without such a refresh. |
| `PublishOptions.RefreshSharesOption` | src/rtc/join/publication.rs:144-160 | Such a run: after the SFU withdraws the first track's option, both tracks have the second one's. |
| `VideoFrame.AverageBox` | src/rtc/video_frame.rs:163-171 | The loops compute the average with a 32-bit sum and count. |
| `VideoFrame.BoxDownscale` | src/rtc/video_frame.rs:155-175 | Every output pixel is the average of its source rectangle; all accesses are in bounds. |
| `VideoFrame.IntervalIsInsideIff` | src/rtc/video_frame.rs:157-162 | A source interval is never empty, and inside the source exactly if that is not empty. |
| `VideoFrame.IntervalIs` | src/rtc/video_frame.rs:157-162 | An interval starts at the floor and ends at the ceiling of the exact one. |
| `VideoFrame.IntervalsCover` | src/rtc/video_frame.rs:157-162 | Every source index is in some interval. |
| `VideoFrame.IntervalsMeet` | src/rtc/video_frame.rs:157-162 | Neighbouring intervals leave no gap and share at most one index. |
| `VideoFrame.AverageIsMean` | src/rtc/video_frame.rs:163-171 | Up to 16843009 pixels the average is the floor of the mean, between the rectangle's extremes. |
| `VideoFrame.AverageIsMeanIff` | src/rtc/video_frame.rs:163-171 | It is the floor of the mean exactly as long as the sum fits 32 bits. |
| `VideoFrame.WhiteWrapsIff` | src/rtc/video_frame.rs:163-171 | The 32-bit sum of white pixels wraps exactly beyond that. |
| `VideoFrame.CommonPlanesAreExact` | src/rtc/video_frame.rs:155-175 | Nothing wraps for planes up to 4096 x 4096. |
| `VideoFrame.SameSizeIsIdentity` | src/rtc/video_frame.rs:155-175 | Scaling to the same size returns the plane. |
| `VideoFrame.PlanesAreTheData` | src/rtc/video_frame.rs:61-68 | The three planes are the packed data, each of its own size. |
| `VideoFrame.PackedLengths` | src/rtc/video_frame.rs:61-68 | A chroma side is half a luma side, rounded up. |
| `VideoFrame.SideShrinksIff` | src/rtc/video_frame.rs:105-107 | A side becomes even and at least 2, and does not grow exactly if it had two pixels; the doc comment says it only shrinks. |
| `VideoFrame.Downscale` | src/rtc/video_frame.rs:105-133 | Either the frame itself, or its three planes scaled and packed in exactly the I420 length. |
| `PcmChunks.ChunksAre` | src/rtc/pcm/chunk.rs:38-60 | There are ceil(frames / step) chunks, and chunk k starts at frame k * step. |
| `PcmChunks.ChunkIs` | src/rtc/pcm/chunk.rs:38-60 | Chunk k holds the frames from k * step up to the chunk length or the end, in the same format. |
| `PcmChunks.ChunksRebuild` | src/rtc/pcm/chunk.rs:38-60 | The first `step` frames of each unpadded chunk, joined, are all frames of the block, for any channel count. |
| `PcmChunks.PaddedChunks` | src/rtc/pcm/chunk.rs:52-58 | Padding only appends zeros and gives every chunk the full length. |
| `RtpClock.Clock.Decode` | src/rtc/codecs/vpx.rs:750-761 | The time of a sample is that of the unwrapped timestamps so far; empty data is not remembered. |
| `RtpClock.StepIsExactIff` | src/rtc/codecs/vpx.rs:755-757 | A step between timestamps is read right exactly if it fits 32 signed bits. |
| `RtpClock.UnwrapIsExactIff` | src/rtc/codecs/vpx.rs:755-758 | For such steps the ticks equal the true offset from the first sample exactly as long as it fits 64 bits. |
| `RtpClock.TicksSaturate` | src/rtc/codecs/vpx.rs:755-758 | Beyond that they stop at the ends of 64 bits. |
| `RtpClock.ElapsedIsTrue` | src/rtc/codecs/vpx.rs:759-761 | The time is the floor of max(offset, 0) * 10^9 / 90000 ns. |
| `RtpClock.SplitIsExact` | src/rtc/codecs/vpx.rs:759-761 | Adding whole seconds and nanoseconds loses nothing to rounding. |
| `RtpClock.ElapsedIsMonotone` | src/rtc/codecs/vpx.rs:759-761 | Times are ordered as the ticks, and distinct. |

## Left out

- LifecycleTheorems: the guarantees hold while fewer than 2^64 generations have been issued; what a wrap costs is stated exactly for the slot, not for the other fields.
- LifecycleEvents: which participants an event changes is not part of it, only which generations have written, and every write counts as a change; an actor may decide to leave more than once, of which the code's runs are a part.
- Connection epochs, the migration waiter and the lock around the token refresh: they guard steps (transport callbacks, migration, token exchange) that are not modelled.
- The delivered-track table and the own capabilities are only cleared here; what fills them comes from transport callbacks and the coordinator.
- ReconnectRun.ReconnectLoop.RunReconnect: one reading of the clock per turn in whole milliseconds, with the time of the attempt and of waking up after the backoff as an input; `reconnect_once` and `refresh_call_data` are outcomes.
- ReconnectTheorems.LimiterBoundsAttempts: the time of an attempt is the whole time from the start of its turn to its backoff.
- The comment that a run stays with Rejoin (src/rtc/reconnect.rs:273-274) is not what the code does before the fifth attempt; the model follows the code.
- JoinLoop.RunJoinLoop: the location lookup, the delay between attempts and the final state change are outcomes of the call, since they depend on the network and the lifecycle.
- VpxTemporal.WireMatchesGof: agreement with the advertised table, not RFC 9628's meaning of the U bit; for three temporal layers entry 3 refers two pictures back and does not satisfy it.
- The encoder is its output contract: libvpx and libopus are foreign code.
- Audio levels are real numbers, so a NaN level, which differs from itself, is not modelled.
- Updates of single participant fields (connection quality, audio level, dominant speaker, pins, counts): each overwrites one field by session id and no modelled decision reads it.
- SubscriptionRuns: recomputes run one at a time; two concurrent ones can record their lists in either order, and the code does not keep them apart.
- SubscriptionRuns: the SFU of a new connection holds nothing, as the comment at src/rtc/join/lifecycle.rs:367-368 says; what it may take over from the reconnect details of its join request is not modelled.
- SubscriptionRuns: generations are counted without the wrap of 64 bits.
- Subscriptions.SubscriptionCache.Recompute: the library's stable sort is the function `Sorted`, and track keys are ordered by characters.
- TraceDelivery: the SFU takes a report while it is being sent or not at all; a request that arrives after its sender gave up is not modelled.
- TraceRuns.NewestSurvive: a report dropped between its take and its end loses what it took, as the code does; then only order, bounds and the absence of duplicates are stated.
- PublicationRuns.RunKeepsSound: liveness of the cached qualities is stated for successful refreshes; FailedRefreshKeepsLiveIff says when a failed one keeps it, and the direct retain on a reconnect (src/rtc/join/reconnect_runtime.rs:16-26) is not an operation here.
- Publication: pacing, stopping and the layer settings of a track's senders (src/rtc/tracks/local.rs) are not modelled; operations say only which tracks they reach and how often.
- PublishOptions: whether the SFU connection takes a track's transceiver (src/rtc/join/publish.rs:64-125) is an outcome; a publish that fails there changes no publication.
- VideoFrame.BoxDownscale: requires a plane with at least one pixel, as the code indexes outside an empty one.
- `to_rgb8` and `downscale_to_fit`: the first is a fixed colour matrix per pixel, the second rounds in floating point.
- VideoFrame.Downscale: "only ever shrinks" (src/rtc/video_frame.rs:106-107) is not true of a side of one pixel; the model follows the code.
- PcmChunks: indices do not overflow the machine word; `append`, `head` and `tail` work on durations in floating point or convert between rates, and are not modelled.
- REST calls, webhooks, tokens, HTTP retries, ICE, SDP negotiation, the G.711 tables and the choice of simulcast layers: the modelled state does not depend on their contents.
