// The kinds of tracks the SFU knows.
module TrackTypes {
  import opened Wrappers

  const VIDEO: i32 := 2
  const SCREEN_SHARE: i32 := 3

  // One kind of track of one session.
  datatype TrackKey = TrackKey(sessionId: string, trackType: i32)

  // `TrackType::try_from`: unspecified, audio, video, screen share, screen share audio.
  predicate KnownType(trackType: i32) {
    0 <= trackType <= 4
  }
}
