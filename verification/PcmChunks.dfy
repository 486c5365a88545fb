// Overlapping chunks of an audio frame. Lengths count frames: one sample of
// every channel.
module PcmChunks {
  import opened Arithmetic
  import opened Wrappers

  type i16 = x: int | -0x8000 <= x < 0x8000

  datatype PcmFrame = PcmFrame(samples: seq<i16>, sampleRate: u32, channels: nat, pts: Option<u32>)

  // `PcmFrame::new`
  function NewFrame(samples: seq<i16>, sampleRate: u32, channels: nat): PcmFrame {
    PcmFrame(samples, sampleRate, Max(channels, 1), None)
  }

  function Width(f: PcmFrame): (r: nat)
    ensures r > 0
  {
    Max(f.channels, 1)
  }

  function Frames(f: PcmFrame): nat {
    |f.samples| / Width(f)
  }

  function ChunkLen(chunkFrames: nat): (r: nat)
    ensures r > 0
  {
    Max(chunkFrames, 1)
  }

  function Step(chunkFrames: nat, overlapFrames: nat): (r: nat)
    ensures 0 < r <= ChunkLen(chunkFrames)
  {
    Max(Max(ChunkLen(chunkFrames) - overlapFrames, 0), 1)
  }

  // `(start..total).step_by(step)`
  function Starts(start: nat, total: nat, step: nat): seq<nat>
    requires step > 0
    decreases total - start
  {
    if start >= total then [] else [start] + Starts(start + step, total, step)
  }

  // The samples of the frames from `from` up to `to`.
  function Slice(f: PcmFrame, from: nat, to: nat): (r: seq<i16>)
    requires from <= to <= Frames(f)
    ensures |r| == (to - from) * Width(f)
  {
    SliceFits(from, to, Frames(f), Width(f), |f.samples|);
    f.samples[from * Width(f)..to * Width(f)]
  }

  function Resized(samples: seq<i16>, len: nat): seq<i16> {
    if |samples| >= len then samples[..len] else samples + seq(len - |samples|, _ => 0)
  }

  function ChunkAt(f: PcmFrame, start: nat, chunkFrames: nat, padLast: bool): PcmFrame
    requires start < Frames(f)
  {
    var samples := Slice(f, start, Min(start + ChunkLen(chunkFrames), Frames(f)));
    NewFrame(if padLast then Resized(samples, ChunkLen(chunkFrames) * Width(f)) else samples,
             f.sampleRate, f.channels)
  }

  function Chunks(f: PcmFrame, chunkFrames: nat, overlapFrames: nat, padLast: bool): seq<PcmFrame> {
    var starts := Starts(0, Frames(f), Step(chunkFrames, overlapFrames));
    StartsAre(0, Frames(f), Step(chunkFrames, overlapFrames));
    seq(|starts|, k requires 0 <= k < |starts| => ChunkAt(f, starts[k], chunkFrames, padLast))
  }

  // ---- Arithmetic ------------------------------------------------------------------------

  lemma SliceFits(from: nat, to: nat, frames: nat, width: nat, len: nat)
    requires from <= to <= frames && width > 0 && frames == len / width
    ensures from * width <= to * width <= len && to * width - from * width == (to - from) * width
  {
    Distribute(from, to - from, width);
    MulOrder(from, to, width);
    MulOrder(to, frames, width);
    assert frames * width <= len;
  }

  lemma CeilDivStep(left: nat, step: nat)
    requires left > 0 && step > 0
    ensures CeilDiv(left, step) == 1 + CeilDiv(Max(left - step, 0), step)
  {
    if left <= step {
      DivIs(left + step - 1, step, 1, left - 1);
      DivIs(step - 1, step, 0, step - 1);
    } else {
      var q, r := (left - 1) / step, (left - 1) % step;
      Distribute(q, 1, step);
      DivIs(left + step - 1, step, q + 1, r);
    }
  }

  lemma CeilDivCovers(a: nat, b: nat)
    requires b > 0
    ensures a <= CeilDiv(a, b) * b
  {
  }

  // ---- The chunks --------------------------------------------------------------------------

  lemma {:induction false} StartsAre(start: nat, total: nat, step: nat)
    requires step > 0
    ensures |Starts(start, total, step)| == CeilDiv(Max(total - start, 0), step)
    ensures forall k :: 0 <= k < |Starts(start, total, step)| ==>
      Starts(start, total, step)[k] == start + k * step && Starts(start, total, step)[k] < total
    decreases total - start
  {
    if start < total {
      CeilDivStep(total - start, step);
      hide CeilDiv;
      StartsAre(start + step, total, step);
      var rest := Starts(start + step, total, step);
      forall k | 0 <= k < |Starts(start, total, step)|
        ensures Starts(start, total, step)[k] == start + k * step && Starts(start, total, step)[k] < total
      {
        if k > 0 {
          assert Starts(start, total, step)[k] == rest[k - 1];
          Distribute(k - 1, 1, step);
        }
      }
    }
  }

  // There are ceil(frames / step) chunks, and chunk k holds the frames from k * step.
  lemma ChunksAre(f: PcmFrame, chunkFrames: nat, overlapFrames: nat, padLast: bool)
    ensures var chunks, step := Chunks(f, chunkFrames, overlapFrames, padLast), Step(chunkFrames, overlapFrames);
      && |chunks| == CeilDiv(Frames(f), step)
      && forall k :: 0 <= k < |chunks| ==>
        k * step < Frames(f) && chunks[k] == ChunkAt(f, k * step, chunkFrames, padLast)
  {
    hide CeilDiv, ChunkAt, Starts, Step, Frames, ChunkLen, Width;
    var step := Step(chunkFrames, overlapFrames);
    StartsAre(0, Frames(f), step);
    var starts := Starts(0, Frames(f), step);
    var chunks := Chunks(f, chunkFrames, overlapFrames, padLast);
    assert |chunks| == |starts|;
    forall k | 0 <= k < |chunks|
      ensures k * step < Frames(f) && chunks[k] == ChunkAt(f, k * step, chunkFrames, padLast)
    {
      assert starts[k] == k * step;
    }
  }

  // Chunk k holds the frames from k * step up to the chunk length or the end of the block,
  // and keeps the format without a timestamp; only the step is shortened by the overlap.
  lemma ChunkIs(f: PcmFrame, chunkFrames: nat, overlapFrames: nat, k: nat)
    requires k < |Chunks(f, chunkFrames, overlapFrames, false)|
    ensures var len := if chunkFrames == 0 then 1 else chunkFrames;
      var step := if overlapFrames < len then len - overlapFrames else 1;
      var width := if f.channels == 0 then 1 else f.channels;
      var chunk, end := Chunks(f, chunkFrames, overlapFrames, false)[k], Min(k * step + len, |f.samples| / width);
      && 0 <= k * step * width <= end * width <= |f.samples|
      && chunk == PcmFrame(f.samples[k * step * width..end * width], f.sampleRate, width, None)
  {
    ChunksAre(f, chunkFrames, overlapFrames, false);
    SizesAre(f, chunkFrames, overlapFrames);
    var start := k * Step(chunkFrames, overlapFrames);
    ChunkSamples(f, start, chunkFrames);
    hide Chunks, ChunkAt, CeilDiv, Step, Width, ChunkLen, Frames;
  }

  lemma SizesAre(f: PcmFrame, chunkFrames: nat, overlapFrames: nat)
    ensures var len := if chunkFrames == 0 then 1 else chunkFrames;
      && ChunkLen(chunkFrames) == len
      && Step(chunkFrames, overlapFrames) == (if overlapFrames < len then len - overlapFrames else 1)
    ensures Width(f) == if f.channels == 0 then 1 else f.channels
    ensures Frames(f) == |f.samples| / Width(f)
  {
  }

  lemma ChunkSamples(f: PcmFrame, start: nat, chunkFrames: nat)
    requires start < Frames(f)
    ensures var end, width := Min(start + ChunkLen(chunkFrames), Frames(f)), Width(f);
      && 0 <= start * width <= end * width <= |f.samples|
      && ChunkAt(f, start, chunkFrames, false)
         == PcmFrame(f.samples[start * width..end * width], f.sampleRate, width, None)
  {
    SliceFits(start, Min(start + ChunkLen(chunkFrames), Frames(f)), Frames(f), Width(f), |f.samples|);
  }

  // The samples of the first `n` chunks, each cut after `len` samples.
  function Heads(chunks: seq<PcmFrame>, n: nat, len: nat): seq<i16>
    requires n <= |chunks|
  {
    if n == 0 then []
    else Heads(chunks, n - 1, len) + chunks[n - 1].samples[..Min(len, |chunks[n - 1].samples|)]
  }

  lemma HeadOfSlice(f: PcmFrame, from: nat, to: nat, step: nat)
    requires from <= to <= Frames(f)
    ensures Slice(f, from, to)[..Min(step * Width(f), |Slice(f, from, to)|)] == Slice(f, from, Min(from + step, to))
  {
    var cut := Min(from + step, to);
    SliceFits(from, to, Frames(f), Width(f), |f.samples|);
    SliceFits(from, cut, Frames(f), Width(f), |f.samples|);
    MulOrder(cut - from, to - from, Width(f));
    MulOrder(cut - from, step, Width(f));
    if step < to - from {
      MulOrder(step, to - from, Width(f));
    } else {
      MulOrder(to - from, step, Width(f));
    }
    hide Width, Frames;
  }

  lemma JoinSlices(f: PcmFrame, middle: nat, to: nat)
    requires middle <= to <= Frames(f)
    ensures Slice(f, 0, middle) + Slice(f, middle, to) == Slice(f, 0, to)
  {
    SliceFits(middle, to, Frames(f), Width(f), |f.samples|);
    hide Width, Frames;
  }

  lemma HeadOfChunk(f: PcmFrame, chunkFrames: nat, overlapFrames: nat, from: nat)
    requires from < Frames(f)
    ensures var step, chunk := Step(chunkFrames, overlapFrames), ChunkAt(f, from, chunkFrames, false);
      chunk.samples[..Min(step * Width(f), |chunk.samples|)] == Slice(f, from, Min(from + step, Frames(f)))
  {
    HeadOfSlice(f, from, Min(from + ChunkLen(chunkFrames), Frames(f)), Step(chunkFrames, overlapFrames));
    hide Slice, Frames, Width, Step;
  }

  lemma {:induction false} HeadsAreAPrefix(f: PcmFrame, chunkFrames: nat, overlapFrames: nat, n: nat)
    requires n <= |Chunks(f, chunkFrames, overlapFrames, false)|
    ensures var step := Step(chunkFrames, overlapFrames);
      Heads(Chunks(f, chunkFrames, overlapFrames, false), n, step * Width(f))
      == Slice(f, 0, Min(n * step, Frames(f)))
  {
    var step := Step(chunkFrames, overlapFrames);
    hide Chunks, ChunkAt, Slice, Frames, Width, Step, CeilDiv;
    if n == 0 {
      assert 0 * step == 0 && |Slice(f, 0, 0)| == 0;
    } else {
      HeadsAreAPrefix(f, chunkFrames, overlapFrames, n - 1);
      ChunksAre(f, chunkFrames, overlapFrames, false);
      Distribute(n - 1, 1, step);
      var from := (n - 1) * step;
      HeadOfChunk(f, chunkFrames, overlapFrames, from);
      JoinSlices(f, from, Min(from + step, Frames(f)));
      assert Min(n * step, Frames(f)) == Min(from + step, Frames(f));
      assert Min(from, Frames(f)) == from;
    }
  }

  // Cutting every chunk after `step` frames and joining the pieces gives back all
  // the frames, each once.
  lemma ChunksRebuild(f: PcmFrame, chunkFrames: nat, overlapFrames: nat)
    ensures var chunks, step := Chunks(f, chunkFrames, overlapFrames, false), Step(chunkFrames, overlapFrames);
      Heads(chunks, |chunks|, step * Width(f)) == f.samples[..Frames(f) * Width(f)]
  {
    hide *;
    var chunks, step := Chunks(f, chunkFrames, overlapFrames, false), Step(chunkFrames, overlapFrames);
    ChunksAre(f, chunkFrames, overlapFrames, false);
    HeadsAreAPrefix(f, chunkFrames, overlapFrames, |chunks|);
    CeilDivCovers(Frames(f), step);
    MinIsLast(|chunks| * step, Frames(f));
    WholeSlice(f);
  }

  lemma MinIsLast(a: int, b: int)
    requires b <= a
    ensures Min(a, b) == b
  {
  }

  lemma WholeSlice(f: PcmFrame)
    ensures Slice(f, 0, Frames(f)) == f.samples[..Frames(f) * Width(f)]
  {
    hide Width, Frames;
  }

  lemma DivOfMul(a: nat, n: nat)
    requires n > 0
    ensures a * n / n == a
  {
    DivIs(a * n, n, a, 0);
  }

  lemma PaddedChunk(f: PcmFrame, start: nat, chunkFrames: nat)
    requires start < Frames(f)
    ensures var plain, padded := ChunkAt(f, start, chunkFrames, false), ChunkAt(f, start, chunkFrames, true);
      && Frames(padded) == ChunkLen(chunkFrames) && 0 < Frames(plain) <= Frames(padded)
      && plain.samples <= padded.samples && padded == plain.(samples := padded.samples)
      && forall i :: |plain.samples| <= i < |padded.samples| ==> padded.samples[i] == 0
  {
    var len := Min(start + ChunkLen(chunkFrames), Frames(f)) - start;
    MulOrder(len, ChunkLen(chunkFrames), Width(f));
    DivOfMul(len, Width(f));
    DivOfMul(ChunkLen(chunkFrames), Width(f));
    assert Width(ChunkAt(f, start, chunkFrames, true)) == Width(f);
    assert Width(ChunkAt(f, start, chunkFrames, false)) == Width(f);
    hide Slice, Width;
  }

  // Padding gives every chunk the same length and changes nothing before it.
  lemma PaddedChunks(f: PcmFrame, chunkFrames: nat, overlapFrames: nat, k: nat)
    requires k < |Chunks(f, chunkFrames, overlapFrames, true)|
    ensures |Chunks(f, chunkFrames, overlapFrames, false)| == |Chunks(f, chunkFrames, overlapFrames, true)|
    ensures var plain := Chunks(f, chunkFrames, overlapFrames, false)[k];
      var padded := Chunks(f, chunkFrames, overlapFrames, true)[k];
      && Frames(padded) == ChunkLen(chunkFrames) && 0 < Frames(plain) <= Frames(padded)
      && plain.samples <= padded.samples && padded == plain.(samples := padded.samples)
      && forall i :: |plain.samples| <= i < |padded.samples| ==> padded.samples[i] == 0
  {
    hide Chunks, ChunkAt, Step, Frames, CeilDiv;
    ChunksAre(f, chunkFrames, overlapFrames, false);
    ChunksAre(f, chunkFrames, overlapFrames, true);
    PaddedChunk(f, k * Step(chunkFrames, overlapFrames), chunkFrames);
  }
}
