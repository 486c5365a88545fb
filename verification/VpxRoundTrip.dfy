// A receiver that follows the descriptors of RFC 9628 and RFC 7741 gets back
// what went into the packetizer, over whole runs of pictures.
module VpxRoundTrip {
  import opened Wrappers
  import opened Vp9Descriptor
  import opened Vp8Descriptor
  import opened VpxPacketizer

  // ---- Receivers ---------------------------------------------------------

  // A reassembled frame: the descriptor of its first packet, without the flags
  // for start and end, and its bytes.
  datatype Frame = Frame(head: Descriptor, data: Bytes)

  function Unflagged(d: Descriptor): Descriptor {
    d.(start := false, end := false)
  }

  // The packets of a frame agree in everything but the scalability structure.
  predicate Continues(head: Descriptor, d: Descriptor) {
    !d.start && Unflagged(d).(scalability := None) == head.(scalability := None)
  }

  function Prepend<T>(first: seq<T>, rest: Option<seq<T>>): Option<seq<T>> {
    if rest.Some? then Some(first + rest.value) else None
  }

  // One packet: the frame it starts or goes on with, and whether it ends it.
  function Take(open: Option<Frame>, data: Bytes): Option<(Frame, bool)> {
    var (d, fragment) :- Parse(data);
    if d.start then
      if open.Some? then None else Some((Frame(Unflagged(d), fragment), d.end))
    else
      if open.None? || !Continues(open.value.head, d) then None
      else Some((Frame(open.value.head, open.value.data + fragment), d.end))
  }

  // The frames of a packet sequence. None when a descriptor is malformed, or a
  // frame starts inside another, goes on without a start, or does not end.
  function Receive(open: Option<Frame>, payloads: seq<RtpPayload>): Option<seq<Frame>>
    decreases |payloads|
  {
    if payloads == [] then
      if open.None? then Some([]) else None
    else
      var (frame, ended) :- Take(open, payloads[0].data);
      if ended then Prepend([frame], Receive(None, payloads[1..]))
      else Receive(Some(frame), payloads[1..])
  }

  // VP8 has no end flag: the RTP marker ends the frame.
  datatype Vp8Frame = Vp8Frame(pictureId: bv16, data: Bytes)

  function TakeVp8(open: Option<Vp8Frame>, data: Bytes): Option<Vp8Frame> {
    var (d, fragment) :- ParseVp8(data);
    if d.pictureId.None? || !d.pictureId.value.extended || d.partition != 0 then None
    else
      var id := d.pictureId.value.value;
      if d.start then
        if open.Some? then None else Some(Vp8Frame(id, fragment))
      else
        if open.None? || open.value.pictureId != id then None
        else Some(Vp8Frame(id, open.value.data + fragment))
  }

  function ReceiveVp8(open: Option<Vp8Frame>, payloads: seq<RtpPayload>): Option<seq<Vp8Frame>>
    decreases |payloads|
  {
    if payloads == [] then
      if open.None? then Some([]) else None
    else
      var frame :- TakeVp8(open, payloads[0].data);
      if payloads[0].last then Prepend([frame], ReceiveVp8(None, payloads[1..]))
      else ReceiveVp8(Some(frame), payloads[1..])
  }

  // ---- One frame ----------------------------------------------------------

  function Head(f: Fields): Descriptor {
    Unflagged(AsDescriptor(f, true, false))
  }

  function OpenAt(f: Fields, frame: Bytes, offset: nat): Option<Frame>
    requires offset <= |frame|
  {
    if offset == 0 then None else Some(Frame(Head(f), frame[..offset]))
  }

  lemma TakeFragment(f: Fields, frame: Bytes, offset: nat, n: nat, end: bool)
    requires Fits(f) && offset + n <= |frame| && n > 0
    ensures Take(OpenAt(f, frame, offset), Write(f, offset == 0, end) + frame[offset..offset + n])
         == Some((Frame(Head(f), frame[..offset + n]), end))
  {
    DescriptorRoundTrip(f, offset == 0, end, frame[offset..offset + n]);
    hide Parse, Write, Fits;
    assert frame[..offset] + frame[offset..offset + n] == frame[..offset + n];
    assert frame[0..n] == frame[..n];
  }

  lemma ReceiveStep(open: Option<Frame>, payload: RtpPayload, rest: seq<RtpPayload>)
    requires Take(open, payload.data).Some?
    ensures var (frame, ended) := Take(open, payload.data).value;
            (Receive(open, [payload] + rest)
             == if ended then Prepend([frame], Receive(None, rest)) else Receive(Some(frame), rest))
  {
    assert ([payload] + rest)[1..] == rest;
  }

  // The first payload of what is left of a frame.
  function FragmentAt(h: Header, frame: Bytes, offset: nat, maxPayload: nat, top: bool): RtpPayload
    requires offset < |frame|
  {
    var n := FragmentLen(h, frame, offset, maxPayload);
    var end := offset + n == |frame|;
    RtpPayload(HeaderBytes(h, offset == 0, end) + frame[offset..offset + n], end && top)
  }

  lemma FragmentsUnfold(h: Header, frame: Bytes, offset: nat, maxPayload: nat, top: bool, more: seq<RtpPayload>)
    requires offset < |frame|
    ensures var n := FragmentLen(h, frame, offset, maxPayload);
            && Fragments(h, frame, offset, maxPayload, top) + more
            == [FragmentAt(h, frame, offset, maxPayload, top)] + (Fragments(h, frame, offset + n, maxPayload, top) + more)
            && (offset + n == |frame| ==> Fragments(h, frame, offset + n, maxPayload, top) + more == more)
  {
    var n := FragmentLen(h, frame, offset, maxPayload);
    if offset + n == |frame| {
      assert Fragments(h, frame, offset + n, maxPayload, top) == [];
    }
  }

  lemma {:induction false} FrameRoundTrip(f: Fields, frame: Bytes, offset: nat, maxPayload: nat, top: bool,
                                          more: seq<RtpPayload>)
    requires Fits(f) && offset < |frame|
    ensures Receive(OpenAt(f, frame, offset), Fragments(Vp9Header(f), frame, offset, maxPayload, top) + more)
         == Prepend([Frame(Head(f), frame)], Receive(None, more))
    decreases |frame| - offset
  {
    hide Take, Fragments, Write, Fits, Head, FragmentLen, Receive;
    var h := Vp9Header(f);
    var n := FragmentLen(h, frame, offset, maxPayload);
    var end := offset + n == |frame|;
    TakeFragment(f, frame, offset, n, end);
    FragmentsUnfold(h, frame, offset, maxPayload, top, more);
    ReceiveStep(OpenAt(f, frame, offset), FragmentAt(h, frame, offset, maxPayload, top),
                Fragments(h, frame, offset + n, maxPayload, top) + more);
    if end {
      assert frame[..offset + n] == frame;
    } else {
      FrameRoundTrip(f, frame, offset + n, maxPayload, top, more);
    }
  }

  // ---- Runs of SVC pictures -----------------------------------------------

  datatype SvcPicture = SvcPicture(frames: seq<EncodedFrame>, mode: SvcMode, full: Resolution, maxPayload: nat)

  function SvcRun(c: Counters, pictures: seq<SvcPicture>): seq<RtpPayload>
    decreases |pictures|
  {
    if pictures == [] then []
    else
      var p := pictures[0];
      SvcPayloads(c, p.frames, p.mode, p.full, p.maxPayload) + SvcRun(SvcNext(c, p.frames, p.mode), pictures[1..])
  }

  function PlanSent(p: SvcPlan, frames: seq<EncodedFrame>): seq<Frame> {
    if frames == [] then []
    else
      (if frames[0].data == [] then [] else [Frame(Head(FieldsOf(p, frames[0].spatialId)), frames[0].data)])
      + PlanSent(p, frames[1..])
  }

  function PictureSent(c: Counters, p: SvcPicture): seq<Frame> {
    if p.frames == [] then [] else PlanSent(PlanOf(c, p.frames, p.mode, p.full), p.frames)
  }

  // What the encoder put in: every non-empty layer of every picture, with the
  // picture id, the layer indices, the dependencies and, on the base layer of a
  // key picture, the scalability structure.
  function SvcSent(c: Counters, pictures: seq<SvcPicture>): seq<Frame>
    decreases |pictures|
  {
    if pictures == [] then []
    else
      PictureSent(c, pictures[0]) + SvcSent(SvcNext(c, pictures[0].frames, pictures[0].mode), pictures[1..])
  }

  // The layer indices fit their three bits, as every supported mode's do.
  predicate IndicesFit(frames: seq<EncodedFrame>) {
    forall i :: 0 <= i < |frames| ==> frames[i].spatialId < 8 && frames[i].temporalId < 8
  }

  lemma PrependNothing<T>(rest: Option<seq<T>>)
    ensures Prepend([], rest) == rest
  {
    if rest.Some? {
      assert [] + rest.value == rest.value;
    }
  }

  lemma PrependTwice<T>(a: seq<T>, b: seq<T>, rest: Option<seq<T>>)
    ensures Prepend(a, Prepend(b, rest)) == Prepend(a + b, rest)
  {
    if rest.Some? {
      assert a + (b + rest.value) == (a + b) + rest.value;
    }
  }

  lemma PlanFieldsFit(p: SvcPlan, sid: bv8)
    requires p.pictureId < 0x8000 && p.tid < 8 && sid < 8 && |p.dimensions| == p.mode.spatial
    ensures Fits(FieldsOf(p, sid))
  {
    ScalabilityOfFits(p.mode, p.dimensions);
  }

  lemma {:induction false} PlanRoundTrip(p: SvcPlan, frames: seq<EncodedFrame>, maxPayload: nat,
                                         more: seq<RtpPayload>)
    requires p.pictureId < 0x8000 && p.tid < 8 && |p.dimensions| == p.mode.spatial
    requires IndicesFit(frames)
    ensures Receive(None, PlanPayloads(p, frames, maxPayload) + more)
         == Prepend(PlanSent(p, frames), Receive(None, more))
    decreases |frames|
  {
    hide Receive, Fits, FieldsOf, Fragments;
    if frames == [] {
      assert PlanPayloads(p, frames, maxPayload) + more == more;
      PrependNothing(Receive(None, more));
    } else {
      var frame := frames[0];
      var rest := PlanPayloads(p, frames[1..], maxPayload) + more;
      PlanStep(p, frames, maxPayload, []);
      assert PlanPayloads(p, frames, maxPayload) + more == FramePayloads(p, frame, maxPayload) + rest;
      PlanRoundTrip(p, frames[1..], maxPayload, more);
      if frame.data == [] {
        assert FramePayloads(p, frame, maxPayload) + rest == rest;
        assert PlanSent(p, frames) == PlanSent(p, frames[1..]);
      } else {
        var f := FieldsOf(p, frame.spatialId);
        PlanFieldsFit(p, frame.spatialId);
        FrameRoundTrip(f, frame.data, 0, maxPayload, frame.spatialId == p.highest, rest);
        PrependTwice([Frame(Head(f), frame.data)], PlanSent(p, frames[1..]), Receive(None, more));
      }
    }
  }

  // Parsing the payloads of a run of SVC pictures gives back every layer, with
  // empty layers and pictures left out, for any payload limit.
  lemma {:induction false} SvcRoundTrip(c: Counters, pictures: seq<SvcPicture>)
    requires c.pictureId < 0x8000
    requires forall i :: 0 <= i < |pictures| ==> IndicesFit(pictures[i].frames)
    ensures Receive(None, SvcRun(c, pictures)) == Some(SvcSent(c, pictures))
    decreases |pictures|
  {
    if pictures != [] {
      var p := pictures[0];
      var next := SvcNext(c, p.frames, p.mode);
      assert next.pictureId < 0x8000;
      SvcRoundTrip(next, pictures[1..]);
      PictureRoundTrip(c, p, SvcRun(next, pictures[1..]));
    }
  }

  lemma PictureRoundTrip(c: Counters, p: SvcPicture, more: seq<RtpPayload>)
    requires c.pictureId < 0x8000 && IndicesFit(p.frames)
    ensures Receive(None, SvcPayloads(c, p.frames, p.mode, p.full, p.maxPayload) + more)
         == Prepend(PictureSent(c, p), Receive(None, more))
  {
    hide Receive, PlanPayloads, PlanSent;
    if p.frames == [] {
      assert SvcPayloads(c, p.frames, p.mode, p.full, p.maxPayload) + more == more;
      PrependNothing(Receive(None, more));
    } else {
      PlanRoundTrip(PlanOf(c, p.frames, p.mode, p.full), p.frames, p.maxPayload, more);
    }
  }

  // ---- Runs of single-layer frames ----------------------------------------

  datatype SinglePicture = SinglePicture(picture: Picture, maxPayload: nat)

  function SingleRun(codec: VpxCodec, c: Counters, pictures: seq<SinglePicture>): seq<RtpPayload>
    decreases |pictures|
  {
    if pictures == [] then []
    else PicturePayloads(codec, c, pictures[0].picture, pictures[0].maxPayload)
         + SingleRun(codec, PictureNext(c), pictures[1..])
  }

  // The picture id advances for every frame, also for an empty one, of which
  // nothing is sent.
  function Vp9Sent(c: Counters, pictures: seq<SinglePicture>): seq<Frame>
    decreases |pictures|
  {
    if pictures == [] then []
    else
      var p := pictures[0].picture;
      (if p.frame == [] then [] else [Frame(Head(PictureHeader(VpxVp9, c, p).fields), p.frame)])
      + Vp9Sent(PictureNext(c), pictures[1..])
  }

  function Vp8Sent(c: Counters, pictures: seq<SinglePicture>): seq<Vp8Frame>
    decreases |pictures|
  {
    if pictures == [] then []
    else
      (if pictures[0].picture.frame == [] then [] else [Vp8Frame(c.pictureId, pictures[0].picture.frame)])
      + Vp8Sent(PictureNext(c), pictures[1..])
  }

  lemma PictureFieldsFit(c: Counters, p: Picture)
    requires c.pictureId < 0x8000
    ensures Fits(PictureHeader(VpxVp9, c, p).fields)
  {
    CountSmall([p.size]);
  }

  lemma {:induction false} Vp9RoundTrip(c: Counters, pictures: seq<SinglePicture>)
    requires c.pictureId < 0x8000
    ensures Receive(None, SingleRun(VpxVp9, c, pictures)) == Some(Vp9Sent(c, pictures))
    decreases |pictures|
  {
    if pictures != [] {
      Vp9RoundTrip(PictureNext(c), pictures[1..]);
      Vp9PictureRoundTrip(c, pictures[0], SingleRun(VpxVp9, PictureNext(c), pictures[1..]));
    }
  }

  lemma Vp9PictureRoundTrip(c: Counters, p: SinglePicture, more: seq<RtpPayload>)
    requires c.pictureId < 0x8000
    ensures Receive(None, PicturePayloads(VpxVp9, c, p.picture, p.maxPayload) + more)
         == Prepend(if p.picture.frame == [] then []
                    else [Frame(Head(PictureHeader(VpxVp9, c, p.picture).fields), p.picture.frame)],
                    Receive(None, more))
  {
    var h := PictureHeader(VpxVp9, c, p.picture);
    PictureFieldsFit(c, p.picture);
    hide Receive, Fits, PictureHeader;
    if p.picture.frame == [] {
      assert PicturePayloads(VpxVp9, c, p.picture, p.maxPayload) + more == more;
      PrependNothing(Receive(None, more));
    } else {
      FrameRoundTrip(h.fields, p.picture.frame, 0, p.maxPayload, true, more);
    }
  }

  function OpenVp8At(pictureId: bv16, frame: Bytes, offset: nat): Option<Vp8Frame>
    requires offset <= |frame|
  {
    if offset == 0 then None else Some(Vp8Frame(pictureId, frame[..offset]))
  }

  lemma TakeVp8Fragment(pictureId: bv16, frame: Bytes, offset: nat, n: nat)
    requires pictureId < 0x8000 && offset + n <= |frame| && n > 0
    ensures TakeVp8(OpenVp8At(pictureId, frame, offset), WriteVp8(pictureId, offset == 0) + frame[offset..offset + n])
         == Some(Vp8Frame(pictureId, frame[..offset + n]))
  {
    Vp8RoundTrip(pictureId, offset == 0, frame[offset..offset + n]);
    hide ParseVp8, WriteVp8;
    assert frame[..offset] + frame[offset..offset + n] == frame[..offset + n];
    assert frame[0..n] == frame[..n];
  }

  lemma ReceiveVp8Step(open: Option<Vp8Frame>, payload: RtpPayload, rest: seq<RtpPayload>)
    requires TakeVp8(open, payload.data).Some?
    ensures var frame := TakeVp8(open, payload.data).value;
            (ReceiveVp8(open, [payload] + rest)
             == if payload.last then Prepend([frame], ReceiveVp8(None, rest)) else ReceiveVp8(Some(frame), rest))
  {
    assert ([payload] + rest)[1..] == rest;
  }

  lemma {:induction false} Vp8FrameRoundTrip(pictureId: bv16, frame: Bytes, offset: nat, maxPayload: nat,
                                             more: seq<RtpPayload>)
    requires pictureId < 0x8000 && offset < |frame|
    ensures ReceiveVp8(OpenVp8At(pictureId, frame, offset),
                       Fragments(Vp8Header(pictureId), frame, offset, maxPayload, true) + more)
         == Prepend([Vp8Frame(pictureId, frame)], ReceiveVp8(None, more))
    decreases |frame| - offset
  {
    hide TakeVp8, Fragments, WriteVp8, FragmentLen, ReceiveVp8;
    var h := Vp8Header(pictureId);
    var n := FragmentLen(h, frame, offset, maxPayload);
    TakeVp8Fragment(pictureId, frame, offset, n);
    FragmentsUnfold(h, frame, offset, maxPayload, true, more);
    ReceiveVp8Step(OpenVp8At(pictureId, frame, offset), FragmentAt(h, frame, offset, maxPayload, true),
                   Fragments(h, frame, offset + n, maxPayload, true) + more);
    if offset + n == |frame| {
      assert frame[..offset + n] == frame;
    } else {
      Vp8FrameRoundTrip(pictureId, frame, offset + n, maxPayload, more);
    }
  }

  lemma {:induction false} Vp8RunRoundTrip(c: Counters, pictures: seq<SinglePicture>)
    requires c.pictureId < 0x8000
    ensures ReceiveVp8(None, SingleRun(VpxVp8, c, pictures)) == Some(Vp8Sent(c, pictures))
    decreases |pictures|
  {
    if pictures != [] {
      Vp8RunRoundTrip(PictureNext(c), pictures[1..]);
      Vp8PictureRoundTrip(c, pictures[0], SingleRun(VpxVp8, PictureNext(c), pictures[1..]));
    }
  }

  lemma Vp8PictureRoundTrip(c: Counters, p: SinglePicture, more: seq<RtpPayload>)
    requires c.pictureId < 0x8000
    ensures ReceiveVp8(None, PicturePayloads(VpxVp8, c, p.picture, p.maxPayload) + more)
         == Prepend(if p.picture.frame == [] then [] else [Vp8Frame(c.pictureId, p.picture.frame)],
                    ReceiveVp8(None, more))
  {
    hide ReceiveVp8;
    if p.picture.frame == [] {
      assert PicturePayloads(VpxVp8, c, p.picture, p.maxPayload) + more == more;
      PrependNothing(ReceiveVp8(None, more));
    } else {
      Vp8FrameRoundTrip(c.pictureId, p.picture.frame, 0, p.maxPayload, more);
    }
  }
}
