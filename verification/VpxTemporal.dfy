// Temporal scalability over whole runs: key pictures at arbitrary places, and an
// encoder that restarts its fixed temporal pattern at each of them.
module VpxTemporal {
  import opened Wrappers
  import opened Vp9Descriptor
  import opened VpxPacketizer
  import opened VpxRoundTrip

  // ---- The encoder -----------------------------------------------------------

  // The temporal id of the k-th picture since a key picture in libvpx's layering
  // modes: none, 0101 and 0212.
  function EncoderTid(temporal: Layers, k: nat): bv8 {
    match temporal
    case 1 => 0
    case 2 => [0, 1][k % 2]
    case _ => [0, 2, 1, 2][k % 4]
  }

  predicate IsKey(run: seq<SvcPicture>, i: nat)
    requires i < |run| && run[i].frames != []
  {
    run[i].frames[0].key
  }

  // A run of one mode that starts with a key picture.
  predicate IsRun(run: seq<SvcPicture>, mode: SvcMode) {
    && (forall i :: 0 <= i < |run| ==> run[i].frames != [] && run[i].mode == mode)
    && (run != [] ==> IsKey(run, 0))
  }

  function SinceKey(run: seq<SvcPicture>, mode: SvcMode, i: nat): (k: nat)
    requires IsRun(run, mode) && i < |run|
    ensures k <= i
  {
    if IsKey(run, i) then 0 else SinceKey(run, mode, i - 1) + 1
  }

  predicate EncoderFollows(run: seq<SvcPicture>, mode: SvcMode)
    requires IsRun(run, mode)
  {
    forall i :: 0 <= i < |run| ==> run[i].frames[0].temporalId == EncoderTid(mode.temporal, SinceKey(run, mode, i))
  }

  // ---- What is sent for picture i --------------------------------------------

  function CountersAt(c: Counters, run: seq<SvcPicture>, i: nat): Counters
    requires i <= |run|
  {
    if i == 0 then c else SvcNext(CountersAt(c, run, i - 1), run[i - 1].frames, run[i - 1].mode)
  }

  function PlanAt(c: Counters, run: seq<SvcPicture>, i: nat): SvcPlan
    requires i < |run| && run[i].frames != []
  {
    PlanOf(CountersAt(c, run, i), run[i].frames, run[i].mode, run[i].full)
  }

  lemma {:induction false} CountersShift(c: Counters, run: seq<SvcPicture>, i: nat)
    requires 0 < i <= |run|
    ensures CountersAt(c, run, i) == CountersAt(SvcNext(c, run[0].frames, run[0].mode), run[1..], i - 1)
  {
    hide SvcNext;
    if i > 1 {
      CountersShift(c, run, i - 1);
    }
  }

  // Picture i of the run is sent with the plan of the counters it finds.
  lemma {:induction false} SentAt(c: Counters, run: seq<SvcPicture>, i: nat)
    requires i < |run|
    ensures |SvcSent(c, run[..i])| <= |SvcSent(c, run)|
    ensures PictureSent(CountersAt(c, run, i), run[i]) <= SvcSent(c, run)[|SvcSent(c, run[..i])|..]
    decreases i
  {
    hide SvcNext, PictureSent;
    if i == 0 {
      assert run[..0] == [];
    } else {
      var next := SvcNext(c, run[0].frames, run[0].mode);
      CountersShift(c, run, i);
      SentAt(next, run[1..], i - 1);
      assert run[..i][1..] == run[1..][..i - 1];
      var first := PictureSent(c, run[0]);
      assert SvcSent(c, run) == first + SvcSent(next, run[1..]);
      assert SvcSent(c, run[..i]) == first + SvcSent(next, run[1..][..i - 1]);
      assert SvcSent(c, run)[|SvcSent(c, run[..i])|..]
          == SvcSent(next, run[1..])[|SvcSent(next, run[1..][..i - 1])|..];
    }
  }

  lemma NextInPattern(temporal: Layers, k: nat)
    ensures (k % PatternLen(temporal) + 1) % PatternLen(temporal) == (k + 1) % PatternLen(temporal)
  {
  }

  lemma {:induction false} GofIndexCounts(c: Counters, run: seq<SvcPicture>, mode: SvcMode, i: nat)
    requires IsRun(run, mode) && i < |run|
    ensures SvcGofIndex(CountersAt(c, run, i), run[i].frames)
         == SinceKey(run, mode, i) % PatternLen(mode.temporal)
  {
    hide PatternLen, SvcTl0;
    if IsKey(run, i) {
      StartOfPattern(mode.temporal);
    } else {
      GofIndexCounts(c, run, mode, i - 1);
      NextInPattern(mode.temporal, SinceKey(run, mode, i - 1));
    }
  }

  lemma StartOfPattern(temporal: Layers)
    ensures 0 % PatternLen(temporal) == 0
    ensures EncoderTid(temporal, 0) == 0
  {
  }

  lemma TablesAgree(temporal: Layers, k: nat)
    ensures temporal > 1 ==>
              var entry := Gof(temporal)[k % |Gof(temporal)|];
              EncoderTid(temporal, k) == entry.tid && UpSwitch(temporal, k % PatternLen(temporal)) == entry.up
    ensures temporal == 1 ==> EncoderTid(temporal, k) == 0 && UpSwitch(temporal, k % PatternLen(temporal))
  {
    assert k % 4 % 4 == k % 4 && k % 2 % 2 == k % 2;
  }

  // The temporal id and the switching flag on the wire are those of the entry
  // that the key picture advertised for this place in the group.
  lemma WireMatchesGof(c: Counters, run: seq<SvcPicture>, mode: SvcMode, i: nat)
    requires IsRun(run, mode) && EncoderFollows(run, mode) && i < |run|
    ensures mode.temporal > 1 ==>
              var entry := Gof(mode.temporal)[SinceKey(run, mode, i) % |Gof(mode.temporal)|];
              PlanAt(c, run, i).tid == entry.tid && PlanAt(c, run, i).up == entry.up
    ensures mode.temporal == 1 ==> PlanAt(c, run, i).tid == 0 && PlanAt(c, run, i).up
  {
    GofIndexCounts(c, run, mode, i);
    TablesAgree(mode.temporal, SinceKey(run, mode, i));
    StartOfPattern(mode.temporal);
    hide Gof, UpSwitch, EncoderTid, PatternLen, SvcDimensions, HighestSid, CountersAt;
  }

  // ---- TL0PICIDX ---------------------------------------------------------------

  // The number a byte stands for.
  function ByteValue(b: bv8): int {
    b as int
  }

  lemma NextByteValue(b: bv8)
    ensures 0 <= ByteValue(b) < 256
    ensures ByteValue(b + 1) == if ByteValue(b) == 255 then 0 else ByteValue(b) + 1
  {
  }

  predicate IsBase(frames: seq<EncodedFrame>)
    requires frames != []
  {
    SvcTid(frames) == 0
  }

  // Pictures of temporal layer 0 among the first `n`.
  function BasePictures(run: seq<SvcPicture>, n: nat): nat
    requires n <= |run| && forall i :: 0 <= i < |run| ==> run[i].frames != []
  {
    if n == 0 then 0
    else BasePictures(run, n - 1) + if IsBase(run[n - 1].frames) then 1 else 0
  }

  lemma Tl0IsNext(c: Counters, p: SvcPicture)
    requires p.frames != []
    ensures PlanOf(c, p.frames, p.mode, p.full).tl0PicIdx == SvcNext(c, p.frames, p.mode).tl0PicIdx
    ensures SvcNext(c, p.frames, p.mode).tl0PicIdx == if IsBase(p.frames) then c.tl0PicIdx + 1 else c.tl0PicIdx
  {
  }

  lemma Tl0OfPlan(c: Counters, p: SvcPicture)
    requires p.frames != []
    ensures ByteValue(PlanOf(c, p.frames, p.mode, p.full).tl0PicIdx)
         == ByteValue(SvcNext(c, p.frames, p.mode).tl0PicIdx)
         == (ByteValue(c.tl0PicIdx) + if IsBase(p.frames) then 1 else 0) % 256
  {
    hide ByteValue, SvcDimensions, HighestSid, UpSwitch, PatternLen, NextPictureId;
    NextByteValue(c.tl0PicIdx);
    Tl0IsNext(c, p);
    hide PlanOf, SvcNext, IsBase;
  }

  lemma {:induction false} CountBasePictures(c: Counters, run: seq<SvcPicture>, n: nat)
    requires n <= |run| && forall i :: 0 <= i < |run| ==> run[i].frames != []
    ensures ByteValue(CountersAt(c, run, n).tl0PicIdx) == (ByteValue(c.tl0PicIdx) + BasePictures(run, n)) % 256
  {
    hide ByteValue, SvcNext, PlanOf, IsBase;
    if n == 0 {
      NextByteValue(c.tl0PicIdx);
    } else {
      CountBasePictures(c, run, n - 1);
      Tl0OfPlan(CountersAt(c, run, n - 1), run[n - 1]);
    }
  }

  // TL0PICIDX is its start plus the number of pictures of temporal layer 0 so far,
  // modulo 256.
  lemma Tl0CountsBasePictures(c: Counters, run: seq<SvcPicture>, mode: SvcMode, i: nat)
    requires IsRun(run, mode) && i < |run|
    ensures ByteValue(PlanAt(c, run, i).tl0PicIdx) == (ByteValue(c.tl0PicIdx) + BasePictures(run, i + 1)) % 256
  {
    PlanAtNext(c, run, i);
    CountBasePictures(c, run, i + 1);
    hide *;
  }

  lemma PlanAtNext(c: Counters, run: seq<SvcPicture>, i: nat)
    requires i < |run| && run[i].frames != []
    ensures ByteValue(PlanAt(c, run, i).tl0PicIdx) == ByteValue(CountersAt(c, run, i + 1).tl0PicIdx)
  {
    Tl0OfPlan(CountersAt(c, run, i), run[i]);
    hide ByteValue, PlanOf, SvcNext, IsBase;
  }

  // ---- Dropping temporal layers --------------------------------------------------

  // The pictures that picture i refers to, as distances back.
  function References(run: seq<SvcPicture>, mode: SvcMode, i: nat): Bytes
    requires IsRun(run, mode) && i < |run| && mode.temporal > 1
  {
    if IsKey(run, i) then [] else Gof(mode.temporal)[SinceKey(run, mode, i) % |Gof(mode.temporal)|].references
  }

  function Distance(reference: bv8): nat {
    if reference == 1 then 1 else if reference == 2 then 2 else 4
  }

  predicate NoHigher(tid: bv8, than: bv8) {
    tid <= than
  }

  lemma NoHigherIsTransitive(a: bv8, b: bv8, c: bv8)
    requires NoHigher(a, b) && NoHigher(b, c)
    ensures NoHigher(a, c)
  {
  }

  lemma GofReferences(temporal: Layers, k: nat, r: nat)
    requires temporal > 1 && k > 0
    requires r < |Gof(temporal)[k % |Gof(temporal)|].references|
    ensures var d := Distance(Gof(temporal)[k % |Gof(temporal)|].references[r]);
            && 0 < d <= k
            && NoHigher(Gof(temporal)[(k - d) % |Gof(temporal)|].tid, Gof(temporal)[k % |Gof(temporal)|].tid)
  {
    if temporal == 2 {
      assert k % 2 == 0 ==> k >= 2 && (k - 2) % 2 == 0;
      assert k % 2 == 1 ==> (k - 1) % 2 == 0;
    } else {
      assert k % 4 == 0 ==> k >= 4 && (k - 4) % 4 == 0;
      assert k % 4 == 1 ==> (k - 1) % 4 == 0;
      assert k % 4 == 2 ==> (k - 2) % 4 == 0;
      assert k % 4 == 3 ==> (k - 1) % 4 == 2 && (k - 2) % 4 == 1;
    }
  }

  lemma {:induction false} SinceKeyBack(run: seq<SvcPicture>, mode: SvcMode, i: nat, d: nat)
    requires IsRun(run, mode) && i < |run| && d <= SinceKey(run, mode, i)
    ensures SinceKey(run, mode, i - d) == SinceKey(run, mode, i) - d
  {
    if d > 0 {
      SinceKeyBack(run, mode, i - 1, d - 1);
    }
  }

  lemma ReferencesAre(run: seq<SvcPicture>, mode: SvcMode, i: nat)
    requires IsRun(run, mode) && i < |run| && mode.temporal > 1 && References(run, mode, i) != []
    ensures var k := SinceKey(run, mode, i);
      && k > 0 && |Gof(mode.temporal)| > 0
      && References(run, mode, i) == Gof(mode.temporal)[k % |Gof(mode.temporal)|].references
  {
  }

  // Every reference lands on a picture of the same key group and of no higher
  // temporal layer.
  lemma ReferenceIsNoHigher(c: Counters, run: seq<SvcPicture>, mode: SvcMode, i: nat, r: nat)
    requires IsRun(run, mode) && EncoderFollows(run, mode) && i < |run| && mode.temporal > 1
    requires r < |References(run, mode, i)|
    ensures var d := Distance(References(run, mode, i)[r]);
            && 0 < d <= SinceKey(run, mode, i) <= i
            && SinceKey(run, mode, i - d) == SinceKey(run, mode, i) - d
            && NoHigher(PlanAt(c, run, i - d).tid, PlanAt(c, run, i).tid)
  {
    hide *;
    var k := SinceKey(run, mode, i);
    ReferencesAre(run, mode, i);
    var d := Distance(References(run, mode, i)[r]);
    GofReferences(mode.temporal, k, r);
    SinceKeyBack(run, mode, i, d);
    WireMatchesGof(c, run, mode, i);
    WireMatchesGof(c, run, mode, i - d);
  }

  ghost predicate RefersTo(run: seq<SvcPicture>, mode: SvcMode, i: nat, j: nat)
    requires IsRun(run, mode) && i < |run| && mode.temporal > 1
  {
    exists r :: 0 <= r < |References(run, mode, i)| && i == j + Distance(References(run, mode, i)[r])
  }

  // Pictures of which each refers to the next.
  ghost predicate IsChain(run: seq<SvcPicture>, mode: SvcMode, chain: seq<nat>)
    requires IsRun(run, mode) && mode.temporal > 1
  {
    && (forall n :: 0 <= n < |chain| ==> chain[n] < |run|)
    && forall n :: 0 <= n < |chain| - 1 ==> RefersTo(run, mode, chain[n], chain[n + 1])
  }

  predicate IsKept(c: Counters, run: seq<SvcPicture>, limit: bv8, i: nat)
    requires i < |run| && run[i].frames != []
  {
    NoHigher(PlanAt(c, run, i).tid, limit)
  }

  // Whatever a picture needs, directly or through others, is kept with it when all
  // pictures of a layer above `limit` are dropped, and belongs to its key picture.
  lemma {:induction false} DroppingLayersIsClosed(
      c: Counters, run: seq<SvcPicture>, mode: SvcMode, chain: seq<nat>, limit: bv8)
    requires IsRun(run, mode) && EncoderFollows(run, mode) && mode.temporal > 1
    requires IsChain(run, mode, chain) && chain != [] && IsKept(c, run, limit, chain[0])
    ensures var last := chain[|chain| - 1];
      && IsKept(c, run, limit, last) && last <= chain[0]
      && last - SinceKey(run, mode, last) == chain[0] - SinceKey(run, mode, chain[0])
  {
    if |chain| > 1 {
      var front := chain[..|chain| - 1];
      var i, j := chain[|chain| - 2], chain[|chain| - 1];
      DroppingLayersIsClosed(c, run, mode, front, limit);
      assert RefersTo(run, mode, i, j);
      ReferenceIsKept(c, run, mode, i, j, limit);
      hide IsKept, IsRun, EncoderFollows;
    }
  }

  lemma ReferenceIsKept(c: Counters, run: seq<SvcPicture>, mode: SvcMode, i: nat, j: nat, limit: bv8)
    requires IsRun(run, mode) && EncoderFollows(run, mode) && i < |run| && mode.temporal > 1
    requires RefersTo(run, mode, i, j) && IsKept(c, run, limit, i)
    ensures j < i && IsKept(c, run, limit, j)
    ensures j - SinceKey(run, mode, j) == i - SinceKey(run, mode, i)
  {
    hide References, SinceKey, PlanAt, EncoderFollows, Distance, NoHigher;
    var r :| 0 <= r < |References(run, mode, i)| && i == j + Distance(References(run, mode, i)[r]);
    ReferenceIsNoHigher(c, run, mode, i, r);
    NoHigherIsTransitive(PlanAt(c, run, j).tid, PlanAt(c, run, i).tid, limit);
  }
}
