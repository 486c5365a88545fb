// What a receiver finds in each frame of a run, in terms of what the encoder put in
// and of the counters of its picture.
module VpxReceived {
  import opened Wrappers
  import opened Vp9Descriptor
  import opened VpxPacketizer
  import opened VpxPictureIds
  import opened VpxRoundTrip
  import opened VpxTemporal

  // ---- What a layer of an SVC picture must say -------------------------------------------

  // The switching flags of the layering modes, by the place in their pattern.
  predicate MaySwitchUp(temporal: Layers, index: nat) {
    if temporal == 1 then true
    else if temporal == 2 then index % 2 == 1
    else index % 4 == 1 || index % 4 == 2
  }

  // The pattern itself, as the group of pictures of a key picture.
  predicate IsPattern(pictures: Option<seq<GofEntry>>, temporal: Layers) {
    if temporal == 1 then pictures == None
    else if temporal == 2 then
      pictures == Some([GofEntry(0, false, [2]), GofEntry(1, true, [1])])
    else
      pictures == Some([GofEntry(0, false, [4]), GofEntry(2, true, [1]),
                        GofEntry(1, true, [2]), GofEntry(2, false, [1, 2])])
  }

  function Sid(index: nat): bv8
    requires index < 3
  {
    match index
    case 0 => 0
    case 1 => 1
    case _ => 2
  }

  // A side of a lower layer: half of it per layer below the highest, at least two.
  function Scaled(side: bv16, below: nat): bv16
    requires below < 3
  {
    var whole: bv16 := if side < 2 then 2 else side;
    var part := Halved(whole, below);
    if part < 2 then 2 else part
  }

  ghost predicate IsFirstOf(frames: seq<EncodedFrame>, k: nat, sid: bv8)
    requires k < |frames|
  {
    frames[k].spatialId == sid && forall j :: 0 <= j < k ==> frames[j].spatialId != sid
  }

  // The size of the layer's first frame, or without one what the full size leaves for it.
  ghost predicate IsLayerSize(size: Resolution, p: SvcPicture, index: nat)
    requires index < p.mode.spatial
  {
    && (forall k :: 0 <= k < |p.frames| && IsFirstOf(p.frames, k, Sid(index)) ==>
          size == Resolution(p.frames[k].width, p.frames[k].height))
    && ((forall k :: 0 <= k < |p.frames| ==> p.frames[k].spatialId != Sid(index)) ==>
          size == Resolution(Scaled(p.full.width, p.mode.spatial - 1 - index),
                             Scaled(p.full.height, p.mode.spatial - 1 - index)))
  }

  ghost predicate IsStructure(s: Scalability, p: SvcPicture) {
    && s.layers == Sid(p.mode.spatial - 1)
    && s.resolutions.Some? && |s.resolutions.value| == p.mode.spatial
    && (forall index :: 0 <= index < p.mode.spatial ==> IsLayerSize(s.resolutions.value[index], p, index))
    && IsPattern(s.pictures, p.mode.temporal)
  }

  // The TID of a picture; a key picture starts the temporal pattern anew.
  function TidOf(p: SvcPicture): bv8
    requires p.frames != []
  {
    if p.frames[0].key then 0 else p.frames[0].temporalId
  }

  // The upper layers of a key picture depend on the lower ones, those of other pictures
  // do not.
  ghost predicate IsLayerOf(layer: Layer, c: Counters, p: SvcPicture, e: EncodedFrame)
    requires p.frames != []
  {
    var key := p.frames[0].key;
    && layer.sid == e.spatialId && layer.tid == TidOf(p)
    && (layer.up <==> MaySwitchUp(p.mode.temporal, if key then 0 else c.gofIndex))
    && (layer.dependent <==> key && e.spatialId > 0)
  }

  // Only a key picture stands alone; the structure comes with its base layer.
  ghost predicate IsSvcFrame(f: Frame, c: Counters, p: SvcPicture, e: EncodedFrame)
    requires p.frames != []
  {
    var key := p.frames[0].key;
    && f.data == e.data
    && f.head.pictureId == Some(PictureId(true, c.pictureId))
    && (f.head.inter <==> !key) && (f.head.notReferenced <==> !key)
    && !f.head.flexible && f.head.references == []
    && f.head.tl0PicIdx == Some(if TidOf(p) == 0 then c.tl0PicIdx + 1 else c.tl0PicIdx)
    && f.head.layer.Some? && IsLayerOf(f.head.layer.value, c, p, e)
    && (f.head.scalability.Some? <==> key && e.spatialId == 0)
    && (f.head.scalability.Some? ==> IsStructure(f.head.scalability.value, p))
  }

  // ---- SVC runs ------------------------------------------------------------------------------

  // The frames of a picture that have data.
  function Carried(frames: seq<EncodedFrame>): seq<EncodedFrame> {
    if frames == [] then []
    else (if frames[0].data == [] then [] else [frames[0]]) + Carried(frames[1..])
  }

  // How many frames the first `n` pictures carry.
  function CarriedBefore(run: seq<SvcPicture>, n: nat): nat
    requires n <= |run|
  {
    if n == 0 then 0 else CarriedBefore(run, n - 1) + |Carried(run[n - 1].frames)|
  }

  lemma {:induction false} FirstFound(frames: seq<EncodedFrame>, k: nat, sid: bv8)
    requires k < |frames| && IsFirstOf(frames, k, sid)
    ensures FindLayer(frames, sid) == Some(frames[k])
  {
    if k > 0 {
      assert IsFirstOf(frames[1..], k - 1, sid) by {
        assert forall j :: 0 <= j < k - 1 ==> frames[1..][j] == frames[j + 1];
      }
      FirstFound(frames[1..], k - 1, sid);
    }
  }

  lemma {:induction false} NoneFound(frames: seq<EncodedFrame>, sid: bv8)
    requires forall k :: 0 <= k < |frames| ==> frames[k].spatialId != sid
    ensures FindLayer(frames, sid) == None
  {
    if frames != [] {
      NoneFound(frames[1..], sid);
    }
  }

  lemma ScaledIs(side: bv16, below: nat)
    requires below < 3
    ensures LayerSide(side, below) == Scaled(side, below)
  {
    hide Halved;
  }

  // Halving by a number of times is that many shifts.
  lemma HalvedIs(side: bv16)
    ensures Halved(side, 0) == side && Halved(side, 1) == side >> 1 && Halved(side, 2) == side >> 2
  {
  }

  lemma CarriedDimension(p: SvcPicture, index: nat)
    requires index < p.mode.spatial && FindLayer(p.frames, SpatialId(index)).Some?
    ensures var frame := FindLayer(p.frames, SpatialId(index)).value;
      LayerDimension(p.frames, p.mode, p.full, index) == Resolution(frame.width, frame.height)
  {
    hide FindLayer, LayerSide, SpatialId;
  }

  lemma LeftDimension(p: SvcPicture, index: nat)
    requires index < p.mode.spatial && FindLayer(p.frames, SpatialId(index)).None?
    ensures LayerDimension(p.frames, p.mode, p.full, index)
         == Resolution(Scaled(p.full.width, p.mode.spatial - 1 - index),
                       Scaled(p.full.height, p.mode.spatial - 1 - index))
  {
    var below := p.mode.spatial - index - 1;
    ScaledIs(p.full.width, below);
    ScaledIs(p.full.height, below);
    hide FindLayer, LayerSide, SpatialId, Scaled;
  }

  lemma DimensionIsSize(p: SvcPicture, index: nat)
    requires index < p.mode.spatial
    ensures IsLayerSize(LayerDimension(p.frames, p.mode, p.full, index), p, index)
  {
    hide LayerDimension, FindLayer, Scaled, Sid, SpatialId, IsFirstOf;
    SidIs(index);
    if FindLayer(p.frames, SpatialId(index)).Some? {
      CarriedDimension(p, index);
    } else {
      LeftDimension(p, index);
    }
    forall k | 0 <= k < |p.frames| && IsFirstOf(p.frames, k, Sid(index))
      ensures FindLayer(p.frames, Sid(index)) == Some(p.frames[k])
    {
      FirstFound(p.frames, k, Sid(index));
    }
    if forall k :: 0 <= k < |p.frames| ==> p.frames[k].spatialId != Sid(index) {
      NoneFound(p.frames, Sid(index));
    }
  }

  lemma SidIs(index: nat)
    requires index < 3
    ensures SpatialId(index) == Sid(index)
  {
  }

  lemma StructureIs(p: SvcPicture)
    ensures IsStructure(ScalabilityOf(p.mode, SvcDimensions(p.frames, p.mode, p.full)), p)
  {
    forall index | 0 <= index < p.mode.spatial
      ensures IsLayerSize(SvcDimensions(p.frames, p.mode, p.full)[index], p, index)
    {
      DimensionIsSize(p, index);
    }
    hide IsLayerSize, LayerDimension;
  }

  lemma FlagsAre(temporal: Layers, index: nat)
    ensures UpSwitch(temporal, index) <==> MaySwitchUp(temporal, index)
  {
  }

  lemma LayerIs(c: Counters, p: SvcPicture, e: EncodedFrame)
    requires p.frames != []
    ensures IsLayerOf(FieldsOf(PlanOf(c, p.frames, p.mode, p.full), e.spatialId).layer, c, p, e)
  {
    hide UpSwitch, MaySwitchUp, ScalabilityOf, SvcDimensions, HighestSid, SvcTl0;
    FlagsAre(p.mode.temporal, SvcGofIndex(c, p.frames));
  }

  lemma Tl0Is(c: Counters, p: SvcPicture)
    requires p.frames != []
    ensures SvcTl0(c, p.frames) == if TidOf(p) == 0 then c.tl0PicIdx + 1 else c.tl0PicIdx
  {
  }

  lemma HeadIs(c: Counters, p: SvcPicture, e: EncodedFrame)
    requires p.frames != []
    ensures IsSvcFrame(Frame(Head(FieldsOf(PlanOf(c, p.frames, p.mode, p.full), e.spatialId)), e.data), c, p, e)
  {
    hide UpSwitch, IsStructure, ScalabilityOf, SvcDimensions, HighestSid, IsLayerOf, SvcTl0, SvcTid, TidOf, SvcGofIndex;
    StructureIs(p);
    LayerIs(c, p, e);
    Tl0Is(c, p);
  }

  lemma {:induction false} PlanSentAt(plan: SvcPlan, frames: seq<EncodedFrame>, k: nat)
    requires k < |Carried(frames)|
    ensures k < |PlanSent(plan, frames)|
    ensures var e := Carried(frames)[k];
      PlanSent(plan, frames)[k] == Frame(Head(FieldsOf(plan, e.spatialId)), e.data)
  {
    hide Head, FieldsOf;
    if frames[0].data == [] {
      PlanSentAt(plan, frames[1..], k);
    } else if k > 0 {
      PlanSentAt(plan, frames[1..], k - 1);
    }
  }

  lemma {:induction false} PlanSentLength(plan: SvcPlan, frames: seq<EncodedFrame>)
    ensures |PlanSent(plan, frames)| == |Carried(frames)|
  {
    hide Head, FieldsOf;
    if frames != [] {
      PlanSentLength(plan, frames[1..]);
    }
  }

  lemma PictureSentAt(c: Counters, p: SvcPicture, k: nat)
    ensures |PictureSent(c, p)| == |Carried(p.frames)|
    ensures k < |Carried(p.frames)| ==> p.frames != [] && IsSvcFrame(PictureSent(c, p)[k], c, p, Carried(p.frames)[k])
  {
    if p.frames != [] {
      PlanSentLength(PlanOf(c, p.frames, p.mode, p.full), p.frames);
      if k < |Carried(p.frames)| {
        PlanSentAt(PlanOf(c, p.frames, p.mode, p.full), p.frames, k);
        HeadIs(c, p, Carried(p.frames)[k]);
      }
    }
    hide PlanSent, PlanOf, Head, FieldsOf, IsSvcFrame;
  }

  lemma {:induction false} SentLength(c: Counters, run: seq<SvcPicture>)
    ensures |SvcSent(c, run)| == CarriedBefore(run, |run|)
    decreases |run|
  {
    hide PictureSent, SvcNext, Carried, IsSvcFrame, PlanOf, PlanSent;
    if run != [] {
      PictureSentAt(c, run[0], 0);
      SentLength(SvcNext(c, run[0].frames, run[0].mode), run[1..]);
      CarriedShift(run, |run|);
    }
  }

  lemma {:induction false} CarriedShift(run: seq<SvcPicture>, n: nat)
    requires 0 < n <= |run|
    ensures CarriedBefore(run, n) == |Carried(run[0].frames)| + CarriedBefore(run[1..], n - 1)
  {
    if n > 1 {
      CarriedShift(run, n - 1);
    }
  }

  lemma {:induction false} CarriedOfStart(run: seq<SvcPicture>, i: nat, n: nat)
    requires n <= i <= |run|
    ensures CarriedBefore(run[..i], n) == CarriedBefore(run, n)
  {
    if n > 0 {
      CarriedOfStart(run, i, n - 1);
    }
  }

  // A receiver of a run gets its frames with data, in their order, and the k-th of
  // picture i says what that layer must say, with the counters of its picture.
  lemma ReceivedSvcFrameIs(c: Counters, run: seq<SvcPicture>, i: nat, k: nat)
    requires c.pictureId < 0x8000
    requires forall j :: 0 <= j < |run| ==> IndicesFit(run[j].frames)
    requires i < |run| && k < |Carried(run[i].frames)|
    ensures run[i].frames != []
    ensures var got := Receive(None, SvcRun(c, run));
      && got.Some? && |got.value| == CarriedBefore(run, |run|) && CarriedBefore(run, i) + k < |got.value|
      && IsSvcFrame(got.value[CarriedBefore(run, i) + k], CountersAt(c, run, i), run[i], Carried(run[i].frames)[k])
  {
    SvcRoundTrip(c, run);
    SentLength(c, run);
    SentLength(c, run[..i]);
    CarriedOfStart(run, i, i);
    SentAt(c, run, i);
    PictureSentAt(CountersAt(c, run, i), run[i], k);
    hide *;
    var sent, here := SvcSent(c, run), PictureSent(CountersAt(c, run, i), run[i]);
    assert sent[CarriedBefore(run, i)..][k] == here[k];
  }

  // ---- Single-layer runs ------------------------------------------------------------------------

  // One layer, no temporal pattern: only a key frame stands alone, and says its size.
  ghost predicate IsSingleFrame(f: Frame, c: Counters, p: Picture) {
    && f.data == p.frame
    && f.head.pictureId == Some(PictureId(true, c.pictureId))
    && (f.head.inter <==> !p.key) && !f.head.notReferenced
    && !f.head.flexible && f.head.references == []
    && f.head.layer == Some(Layer(0, false, 0, false)) && f.head.tl0PicIdx == Some(c.tl0PicIdx)
    && f.head.scalability == (if p.key then Some(Scalability(0, Some([p.size]), None)) else None)
  }

  function SingleBefore(run: seq<SinglePicture>, n: nat): nat
    requires n <= |run|
  {
    if n == 0 then 0 else SingleBefore(run, n - 1) + if run[n - 1].picture.frame == [] then 0 else 1
  }

  lemma {:induction false} Vp9SentLength(c: Counters, run: seq<SinglePicture>)
    ensures |Vp9Sent(c, run)| == SingleBefore(run, |run|)
    decreases |run|
  {
    if run != [] {
      Vp9SentLength(PictureNext(c), run[1..]);
      SingleShift(run, |run|);
    }
  }

  lemma {:induction false} SingleShift(run: seq<SinglePicture>, n: nat)
    requires 0 < n <= |run|
    ensures SingleBefore(run, n) == (if run[0].picture.frame == [] then 0 else 1) + SingleBefore(run[1..], n - 1)
  {
    if n > 1 {
      SingleShift(run, n - 1);
    }
  }

  lemma {:induction false} SingleOfStart(run: seq<SinglePicture>, i: nat, n: nat)
    requires n <= i <= |run|
    ensures SingleBefore(run[..i], n) == SingleBefore(run, n)
  {
    if n > 0 {
      SingleOfStart(run, i, n - 1);
    }
  }

  lemma SingleHeadIs(c: Counters, p: Picture)
    ensures IsSingleFrame(Frame(Head(PictureHeader(VpxVp9, c, p).fields), p.frame), c, p)
  {
  }

  // The same for single-layer VP9.
  lemma ReceivedVp9FrameIs(c: Counters, run: seq<SinglePicture>, i: nat)
    requires c.pictureId < 0x8000
    requires i < |run| && run[i].picture.frame != []
    ensures var got := Receive(None, SingleRun(VpxVp9, c, run));
      && got.Some? && |got.value| == SingleBefore(run, |run|) && SingleBefore(run, i) < |got.value|
      && IsSingleFrame(got.value[SingleBefore(run, i)], SingleAt(c, i), run[i].picture)
  {
    hide *;
    assert run == run[..i] + run[i..];
    Vp9RoundTrip(c, run);
    Vp9SentLength(c, run);
    Vp9SentLength(c, run[..i]);
    SingleOfStart(run, i, i);
    SentSplits(c, run[..i], run[i..]);
    SingleHeadIs(SingleAt(c, i), run[i].picture);
    FirstSent(SingleAt(c, i), run[i..]);
  }

  lemma FirstSent(c: Counters, run: seq<SinglePicture>)
    requires run != [] && run[0].picture.frame != []
    ensures Vp9Sent(c, run) != []
    ensures Vp9Sent(c, run)[0] == Frame(Head(PictureHeader(VpxVp9, c, run[0].picture).fields), run[0].picture.frame)
  {
    hide Head, PictureHeader;
  }

  // Every single-layer picture counts for TL0PICIDX.
  lemma {:induction false} SingleTl0Counts(c: Counters, n: nat)
    ensures ByteValue(SingleAt(c, n).tl0PicIdx) == (ByteValue(c.tl0PicIdx) + n) % 256
    decreases n
  {
    NextByteValue(c.tl0PicIdx);
    hide ByteValue, NextPictureId;
    if n > 0 {
      SingleTl0Counts(PictureNext(c), n - 1);
    }
  }
}
