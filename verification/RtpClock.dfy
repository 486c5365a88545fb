// The clock of a decoded video track: 32-bit RTP timestamps unwrapped into ticks
// of 90 kHz, and the ticks as nanoseconds.
module RtpClock {
  import opened Wrappers

  const CLOCK_RATE := 90_000

  // `wrapping_sub`, read as a signed number.
  function SignedStep(now: u32, last: u32): i32 {
    var step := (now - last) % TWO_TO_32;
    if step >= TWO_TO_32 / 2 then step - TWO_TO_32 else step
  }

  function SaturatingAdd(a: i64, b: i64): i64 {
    Max(Min(a + b, TWO_TO_63 - 1), -TWO_TO_63)
  }

  datatype Seen = Seen(timestamp: u32, ticks: i64)

  function Ticks(last: Option<Seen>, timestamp: u32): i64 {
    match last
    case None => 0
    case Some(seen) => SaturatingAdd(seen.ticks, SignedStep(timestamp, seen.timestamp))
  }

  // What the decoder remembers after the samples with these timestamps.
  function After(timestamps: seq<u32>): Option<Seen> {
    if timestamps == [] then None
    else
      var now := timestamps[|timestamps| - 1];
      Some(Seen(now, Ticks(After(timestamps[..|timestamps| - 1]), now)))
  }

  // The floor of max(ticks, 0) / 90000 seconds, in nanoseconds.
  function ElapsedNanos(ticks: int): nat {
    Max(ticks, 0) * 1_000_000_000 / CLOCK_RATE
  }

  class Clock {
    var last: Option<Seen>
    ghost var timestamps: seq<u32>

    ghost predicate Valid()
      reads this
    {
      last == After(timestamps)
    }

    constructor ()
      ensures Valid() && timestamps == []
    {
      last, timestamps := None, [];
    }

    // The head of `decode`: empty data has no time and is not remembered.
    method Decode(data: seq<u8>, timestamp: u32) returns (elapsed: Option<nat>)
      requires Valid()
      modifies this
      ensures Valid()
      ensures data == [] ==> elapsed == None && timestamps == old(timestamps)
      ensures data != [] ==> timestamps == old(timestamps) + [timestamp]
      ensures data != [] ==> elapsed == Some(ElapsedNanos(After(timestamps).value.ticks))
    {
      if data == [] {
        return None;
      }
      var ticks: i64 := 0;
      match last {
        case None =>
        case Some(seen) =>
          ticks := SaturatingAdd(seen.ticks, SignedStep(timestamp, seen.timestamp));
      }
      last := Some(Seen(timestamp, ticks));
      timestamps := timestamps + [timestamp];
      assert timestamps[..|timestamps| - 1] == old(timestamps);
      var count: u64 := if ticks < 0 then 0 else ticks;
      SplitIsExact(count);
      var nanos: u64 := count % CLOCK_RATE * 100_000;
      elapsed := Some(count / CLOCK_RATE * 1_000_000_000 + nanos / 9);
    }
  }

  // Whole seconds and the rest, added up, lose nothing to rounding.
  lemma SplitIsExact(count: nat)
    ensures count / CLOCK_RATE * 1_000_000_000 + count % CLOCK_RATE * 100_000 / 9 == ElapsedNanos(count)
  {
    var whole, rest := count / CLOCK_RATE, count % CLOCK_RATE;
    assert count == whole * CLOCK_RATE + rest;
    assert count * 1_000_000_000 == whole * 1_000_000_000 * CLOCK_RATE + rest * 1_000_000_000;
    assert rest * 1_000_000_000 / CLOCK_RATE == rest * 100_000 / 9;
  }

  // A step is read right exactly when it fits a signed 32-bit number.
  lemma StepIsExactIff(now: int, last: int)
    ensures SignedStep(now % TWO_TO_32, last % TWO_TO_32) == now - last
       <==> -(TWO_TO_32 / 2) <= now - last < TWO_TO_32 / 2
  {
    var gap := now % TWO_TO_32 - last % TWO_TO_32;
    assert now - last == gap + (now / TWO_TO_32 - last / TWO_TO_32) * TWO_TO_32;
    assert (now - last) % TWO_TO_32 == gap % TWO_TO_32;
  }

  // The ticks stop at the ends of 64 bits.
  lemma TicksSaturate(seen: Seen, timestamp: u32)
    ensures var sum := seen.ticks + SignedStep(timestamp, seen.timestamp);
      Ticks(Some(seen), timestamp) ==
        if sum > 0x7FFF_FFFF_FFFF_FFFF then 0x7FFF_FFFF_FFFF_FFFF
        else if sum < -0x8000_0000_0000_0000 then -0x8000_0000_0000_0000
        else sum
  {
  }

  // The timestamps of the true tick counts `times`.
  function Wrapped(times: seq<int>): (r: seq<u32>)
    ensures |r| == |times|
    ensures forall i :: 0 <= i < |r| ==> r[i] == times[i] % TWO_TO_32
  {
    seq(|times|, i requires 0 <= i < |times| => times[i] % TWO_TO_32)
  }

  ghost predicate SmallSteps(times: seq<int>) {
    forall i :: 0 < i < |times| ==> -(TWO_TO_32 / 2) <= times[i] - times[i - 1] < TWO_TO_32 / 2
  }

  predicate FitsI64(n: int) {
    -TWO_TO_63 <= n < TWO_TO_63
  }

  lemma {:induction false} TrackedIsTrue(times: seq<int>)
    requires times != [] && SmallSteps(times)
    requires forall i :: 0 <= i < |times| ==> FitsI64(times[i] - times[0])
    ensures After(Wrapped(times)).Some?
    ensures After(Wrapped(times)).value.timestamp == times[|times| - 1] % TWO_TO_32
    ensures After(Wrapped(times)).value.ticks == times[|times| - 1] - times[0]
  {
    var front := times[..|times| - 1];
    assert Wrapped(times)[..|times| - 1] == Wrapped(front);
    if front != [] {
      TrackedIsTrue(front);
      StepIsExactIff(times[|times| - 1], front[|front| - 1]);
      assert FitsI64(times[|times| - 1] - times[0]);
    }
  }

  // For steps that fit, the tracked ticks follow the true offset from the first
  // sample for as long as, and only as long as, the offset fits 64 bits.
  lemma {:induction false} UnwrapIsExactIff(times: seq<int>)
    requires times != [] && SmallSteps(times)
    ensures (forall n :: 0 < n <= |times| ==> After(Wrapped(times[..n])).value.ticks == times[n - 1] - times[0])
       <==> (forall i :: 0 <= i < |times| ==> FitsI64(times[i] - times[0]))
  {
    if forall i :: 0 <= i < |times| ==> FitsI64(times[i] - times[0]) {
      forall n | 0 < n <= |times|
        ensures After(Wrapped(times[..n])).value.ticks == times[n - 1] - times[0]
      {
        TrackedIsTrue(times[..n]);
      }
    }
    if forall n :: 0 < n <= |times| ==> After(Wrapped(times[..n])).value.ticks == times[n - 1] - times[0] {
      forall i | 0 <= i < |times|
        ensures FitsI64(times[i] - times[0])
      {
        assert After(Wrapped(times[..i + 1])).value.ticks == times[i] - times[0];
      }
    }
  }

  // So the time of a frame is the true one, whatever wrapped in between.
  lemma ElapsedIsTrue(times: seq<int>)
    requires times != [] && SmallSteps(times)
    requires forall i :: 0 <= i < |times| ==> FitsI64(times[i] - times[0])
    ensures ElapsedNanos(After(Wrapped(times)).value.ticks)
         == Max(times[|times| - 1] - times[0], 0) * 1_000_000_000 / CLOCK_RATE
  {
    TrackedIsTrue(times);
  }

  // Later ticks have a later time, and no two of them the same one.
  lemma ElapsedIsMonotone(a: nat, b: nat)
    ensures a <= b <==> ElapsedNanos(a) <= ElapsedNanos(b)
  {
    SplitIsExact(a);
    SplitIsExact(b);
  }
}
