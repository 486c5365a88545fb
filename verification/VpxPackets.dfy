// Packet-level guarantees: sizes, the RTP marker and the advertised sizes.
module VpxPackets {
  import opened Wrappers
  import opened Vp9Descriptor
  import opened Vp8Descriptor
  import opened VpxPacketizer

  // ---- Payload sizes -------------------------------------------------------

  lemma HeaderLenIsFixed(h: Header, start: bool, end: bool)
    ensures |HeaderBytes(h, start, end)| == HeaderLen(h, start)
    ensures HeaderLen(h, false) <= HeaderLen(h, true)
  {
  }

  // No payload is longer than the limit, or than a descriptor and one byte.
  lemma {:induction false} PayloadBound(h: Header, frame: Bytes, offset: nat, maxPayload: nat, top: bool, i: nat)
    requires offset <= |frame| && i < |Fragments(h, frame, offset, maxPayload, top)|
    ensures |Fragments(h, frame, offset, maxPayload, top)[i].data| <= Max(maxPayload, HeaderLen(h, true) + 1)
    decreases |frame| - offset
  {
    var n := FragmentLen(h, frame, offset, maxPayload);
    hide HeaderBytes;
    if i == 0 {
      HeaderLenIsFixed(h, offset == 0, offset + n == |frame|);
      HeaderLenIsFixed(h, true, false);
    } else {
      PayloadBound(h, frame, offset + n, maxPayload, top, i - 1);
    }
  }

  // All payloads of a frame fit exactly when the limit exceeds the descriptor
  // of the first packet.
  lemma PayloadsFitIff(h: Header, frame: Bytes, maxPayload: nat, top: bool)
    requires frame != []
    ensures var payloads := Fragments(h, frame, 0, maxPayload, top);
            (forall i :: 0 <= i < |payloads| ==> |payloads[i].data| <= maxPayload)
            <==> maxPayload > HeaderLen(h, true)
  {
    var payloads := Fragments(h, frame, 0, maxPayload, top);
    var n := FragmentLen(h, frame, 0, maxPayload);
    HeaderLenIsFixed(h, true, n == |frame|);
    assert payloads[0].data == HeaderBytes(h, true, n == |frame|) + frame[0..n];
    assert |frame[0..n]| == n;
    assert |payloads[0].data| == HeaderLen(h, true) + n;
    if maxPayload > HeaderLen(h, true) {
      forall i | 0 <= i < |payloads|
        ensures |payloads[i].data| <= maxPayload
      {
        PayloadBound(h, frame, 0, maxPayload, top, i);
      }
    } else {
      assert |payloads[0].data| > maxPayload;
    }
  }

  // Every payload but the last of its frame is as long as the limit, or as a descriptor
  // and one byte.
  lemma {:induction false} PayloadsAreFull(h: Header, frame: Bytes, offset: nat, maxPayload: nat, top: bool, i: nat)
    requires offset <= |frame| && i + 1 < |Fragments(h, frame, offset, maxPayload, top)|
    ensures |Fragments(h, frame, offset, maxPayload, top)[i].data|
         == Max(maxPayload, HeaderLen(h, offset == 0 && i == 0) + 1)
    decreases |frame| - offset
  {
    var n := FragmentLen(h, frame, offset, maxPayload);
    hide HeaderBytes;
    if i == 0 {
      HeaderLenIsFixed(h, offset == 0, offset + n == |frame|);
    } else {
      PayloadsAreFull(h, frame, offset + n, maxPayload, top, i - 1);
    }
  }

  // The descriptor of an SVC packet has five bytes, and before the structure of a key
  // picture's base layer nothing else; a single-layer one has five or, with it, ten, and
  // a VP8 one four.
  lemma DescriptorLengths(p: SvcPlan, sid: bv8, c: Counters, picture: Picture, start: bool)
    requires |p.dimensions| == p.mode.spatial
    ensures HeaderLen(Vp9Header(FieldsOf(p, sid)), start)
         == if start && p.key && sid == 0 then
              6 + 4 * p.mode.spatial + (if p.mode.temporal == 1 then 0 else if p.mode.temporal == 2 then 5 else 10)
            else 5
    ensures HeaderLen(PictureHeader(VpxVp9, c, picture), start) == if start && picture.key then 10 else 5
    ensures HeaderLen(PictureHeader(VpxVp8, c, picture), start) == 4
  {
    SvcHeaderLen(p, sid, start);
    PictureHeaderLen(c, picture, start);
    hide FieldsOf;
  }

  // ---- The marker ----------------------------------------------------------

  // The spatial id of some frame, and at most that of none.
  lemma {:induction false} HighestIsMax(frames: seq<EncodedFrame>, j: nat) returns (k: nat)
    requires j < |frames|
    ensures k < |frames| && frames[k].spatialId == HighestSid(frames) && frames[j].spatialId <= HighestSid(frames)
  {
    var rest := HighestSid(frames[1..]);
    k := 0;
    if |frames| > 1 {
      var l := HighestIsMax(frames[1..], if j == 0 then 0 else j - 1);
      if rest >= frames[0].spatialId {
        k := l + 1;
        HighestOfTwo(frames);
      }
    } else {
      assert frames[1..] == [];
    }
    HighestOfTwo(frames);
  }

  lemma HighestOfTwo(frames: seq<EncodedFrame>)
    requires frames != []
    ensures var first, rest := frames[0].spatialId, HighestSid(frames[1..]);
      && HighestSid(frames) == (if rest < first then first else rest)
      && first <= HighestSid(frames) && rest <= HighestSid(frames)
  {
  }

  ghost predicate MarkedAtEnd(payloads: seq<RtpPayload>) {
    forall i :: 0 <= i < |payloads| ==> (payloads[i].last <==> i == |payloads| - 1)
  }

  ghost predicate Unmarked(payloads: seq<RtpPayload>) {
    forall i :: 0 <= i < |payloads| ==> !payloads[i].last
  }

  lemma {:induction false} FragmentMarks(h: Header, frame: Bytes, offset: nat, maxPayload: nat, top: bool)
    requires offset < |frame|
    ensures var payloads := Fragments(h, frame, offset, maxPayload, top);
            payloads != [] && if top then MarkedAtEnd(payloads) else Unmarked(payloads)
    decreases |frame| - offset
  {
    var n := FragmentLen(h, frame, offset, maxPayload);
    hide HeaderBytes, FragmentLen;
    if offset + n < |frame| {
      FragmentMarks(h, frame, offset + n, maxPayload, top);
    }
  }

  // What `VpxSvcEncoder::encode` returns: the layers it produced, none empty,
  // in increasing order, all with the temporal id of the picture.
  ghost predicate EncoderContract(frames: seq<EncodedFrame>, mode: SvcMode) {
    && frames != []
    && (forall i :: 0 <= i < |frames| ==>
          && frames[i].data != []
          && frames[i].spatialId < LayerCount(mode.spatial)
          && frames[i].temporalId == frames[0].temporalId < LayerCount(mode.temporal))
    && (forall i, j :: 0 <= i < j < |frames| ==> frames[i].spatialId < frames[j].spatialId)
  }

  function LayerCount(layers: Layers): bv8 {
    SpatialId(layers - 1) + 1
  }

  lemma {:induction false} HighestIsLast(frames: seq<EncodedFrame>)
    requires frames != []
    requires forall i, j :: 0 <= i < j < |frames| ==> frames[i].spatialId < frames[j].spatialId
    ensures HighestSid(frames) == frames[|frames| - 1].spatialId
  {
    if |frames| == 1 {
      assert frames[1..] == [];
    } else {
      HighestIsLast(frames[1..]);
    }
  }

  lemma {:induction false} PlanMarks(p: SvcPlan, frames: seq<EncodedFrame>, maxPayload: nat)
    requires frames != [] && forall i :: 0 <= i < |frames| ==> frames[i].data != []
    requires forall i :: 0 <= i < |frames| ==> (frames[i].spatialId == p.highest <==> i == |frames| - 1)
    ensures PlanPayloads(p, frames, maxPayload) != [] && MarkedAtEnd(PlanPayloads(p, frames, maxPayload))
  {
    var frame := frames[0];
    var first := FramePayloads(p, frame, maxPayload);
    FragmentMarks(Vp9Header(FieldsOf(p, frame.spatialId)), frame.data, 0, maxPayload, frame.spatialId == p.highest);
    hide FramePayloads;
    if |frames| == 1 {
      assert frames[1..] == [];
      assert PlanPayloads(p, frames, maxPayload) == first + [];
    } else {
      PlanMarks(p, frames[1..], maxPayload);
    }
  }

  // The marker is set on the last packet of a picture and on no other.
  lemma MarkerEndsPicture(c: Counters, frames: seq<EncodedFrame>, mode: SvcMode, full: Resolution, maxPayload: nat)
    requires EncoderContract(frames, mode)
    ensures SvcPayloads(c, frames, mode, full, maxPayload) != []
    ensures MarkedAtEnd(SvcPayloads(c, frames, mode, full, maxPayload))
  {
    HighestIsLast(frames);
    hide PlanPayloads, SvcDimensions;
    PlanMarks(PlanOf(c, frames, mode, full), frames, maxPayload);
  }

  lemma MarkerEndsFrame(codec: VpxCodec, c: Counters, p: Picture, maxPayload: nat)
    ensures MarkedAtEnd(PicturePayloads(codec, c, p, maxPayload))
  {
    if p.frame != [] {
      FragmentMarks(PictureHeader(codec, c, p), p.frame, 0, maxPayload, true);
    }
  }

  // ---- The advertised sizes -------------------------------------------------

  lemma {:induction false} FindLayerFinds(frames: seq<EncodedFrame>, k: nat)
    requires k < |frames|
    requires forall i, j :: 0 <= i < j < |frames| ==> frames[i].spatialId < frames[j].spatialId
    ensures FindLayer(frames, frames[k].spatialId) == Some(frames[k])
  {
    if k > 0 {
      FindLayerFinds(frames[1..], k - 1);
    }
  }

  // A key picture advertises for each layer it carries the size of that layer.
  lemma LayersAdvertiseTheirSize(frames: seq<EncodedFrame>, mode: SvcMode, full: Resolution, k: nat, index: nat)
    requires EncoderContract(frames, mode) && k < |frames|
    requires index < mode.spatial && frames[k].spatialId == SpatialId(index)
    ensures SvcDimensions(frames, mode, full)[index] == Resolution(frames[k].width, frames[k].height)
  {
    FindLayerFinds(frames, k);
  }
}
