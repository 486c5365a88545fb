// The RTP payload packetizer for VP8, single-layer VP9 and VP9 SVC pictures.
module VpxPacketizer {
  import opened Sequences
  import opened Wrappers
  import opened Vp9Descriptor
  import opened Vp8Descriptor

  datatype VpxCodec = VpxVp8 | VpxVp9

  datatype EncodedFrame = EncodedFrame(
    data: Bytes, key: bool, spatialId: bv8, temporalId: bv8, width: bv16, height: bv16)

  datatype RtpPayload = RtpPayload(data: Bytes, last: bool)

  type Layers = n: nat | 1 <= n <= 3 witness 1

  datatype SvcMode = SvcMode(spatial: Layers, temporal: Layers)

  // The counters that one picture hands to the next.
  datatype Counters = Counters(pictureId: bv16, tl0PicIdx: bv8, gofIndex: nat)

  function NextPictureId(id: bv16): bv16 {
    (id + 1) & 0x7FFF
  }

  // ---- Temporal and spatial tables --------------------------------------

  function PatternLen(temporal: Layers): nat {
    match temporal
    case 1 => 1
    case 2 => 2
    case _ => 4
  }

  function UpSwitch(temporal: Layers, gofIndex: nat): bool {
    match temporal
    case 1 => true
    case 2 => [false, true][gofIndex % 2]
    case _ => [false, true, true, false][gofIndex % 4]
  }

  // The group of pictures that key pictures advertise.
  function Gof(temporal: Layers): seq<GofEntry> {
    match temporal
    case 1 => []
    case 2 => [GofEntry(0, false, [2]), GofEntry(1, true, [1])]
    case _ => [GofEntry(0, false, [4]), GofEntry(2, true, [1]),
               GofEntry(1, true, [2]), GofEntry(2, false, [1, 2])]
  }

  function SpatialId(index: nat): bv8
    requires index < 3
  {
    if index == 0 then 0 else if index == 1 then 1 else 2
  }

  function ScalabilityLen(mode: SvcMode): nat {
    var gof := match mode.temporal
      case 1 => 0
      case 2 => 1 + 2 * 2
      case _ => 1 + 2 + 2 + 2 + 3;
    1 + mode.spatial * 4 + gof
  }

  function FindLayer(frames: seq<EncodedFrame>, spatialId: bv8): Option<EncodedFrame> {
    if frames == [] then None
    else if frames[0].spatialId == spatialId then Some(frames[0])
    else FindLayer(frames[1..], spatialId)
  }

  function AtLeastTwo(x: bv16): bv16 {
    if x < 2 then 2 else x
  }

  function Halved(side: bv16, times: nat): bv16
    requires times < 3
  {
    side >> times
  }

  function LayerSide(full: bv16, shift: nat): bv16
    requires shift < 3
  {
    AtLeastTwo(Halved(AtLeastTwo(full), shift))
  }

  function LayerDimension(frames: seq<EncodedFrame>, mode: SvcMode, full: Resolution, index: nat): Resolution
    requires index < mode.spatial
  {
    match FindLayer(frames, SpatialId(index))
    case Some(frame) => Resolution(frame.width, frame.height)
    case None =>
      var shift := mode.spatial - index - 1;
      Resolution(LayerSide(full.width, shift), LayerSide(full.height, shift))
  }

  function SvcDimensions(frames: seq<EncodedFrame>, mode: SvcMode, full: Resolution): (r: seq<Resolution>)
    ensures |r| == mode.spatial
  {
    seq(mode.spatial, i requires 0 <= i < mode.spatial => LayerDimension(frames, mode, full, i))
  }

  function ScalabilityOf(mode: SvcMode, dimensions: seq<Resolution>): Scalability {
    Scalability(SpatialId(mode.spatial - 1), Some(dimensions),
                if mode.temporal > 1 then Some(Gof(mode.temporal)) else None)
  }

  lemma Append3(a: Bytes, b: Bytes, c: Bytes, d: Bytes)
    ensures ((a + b) + c) + d == a + (b + (c + d))
  {
  }

  method AppendGofEntry(data: Bytes, tid: bv8, up: bool, references: Bytes) returns (out: Bytes)
    requires CountOf(references) < 4 && Counted(CountOf(references), references)
    ensures out == data + WriteGofEntry(GofEntry(tid, up, references))
  {
    out := data + [(tid << 5) | ((if up then 1 else 0) << 4) | (CountOf(references) << 2)];
    out := out + references;
  }

  lemma WriteResolutionsAppend(dimensions: seq<Resolution>, next: Resolution)
    ensures WriteResolutions(dimensions + [next])
         == WriteResolutions(dimensions) + ToBigEndian(next.width) + ToBigEndian(next.height)
  {
    hide ToBigEndian;
    if dimensions == [] {
      assert dimensions + [next] == [next];
    } else {
      assert (dimensions + [next])[1..] == dimensions[1..] + [next];
      WriteResolutionsAppend(dimensions[1..], next);
    }
  }

  function SmallCount(n: nat): bv8
    requires n <= 4
  {
    if n == 0 then 0 else if n == 1 then 1 else if n == 2 then 2 else if n == 3 then 3 else 4
  }

  lemma {:induction false} CountSmall<T>(s: seq<T>)
    requires |s| <= 4
    ensures CountOf(s) == SmallCount(|s|) && Counted(CountOf(s), s)
    decreases |s|
  {
    if s != [] {
      CountSmall(s[1..]);
    }
  }

  lemma WriteGofCons(entry: GofEntry, more: seq<GofEntry>)
    ensures WriteGof([entry] + more) == WriteGofEntry(entry) + WriteGof(more)
  {
    assert ([entry] + more)[1..] == more;
  }

  lemma WriteGofGrows(entry: GofEntry, more: seq<GofEntry>)
    ensures |WriteGof([entry] + more)| == 1 + |entry.references| + |WriteGof(more)|
  {
    assert ([entry] + more)[1..] == more;
  }

  lemma GofFitsAll(temporal: Layers)
    ensures GofFits(Gof(temporal))
    ensures CountOf(Gof(temporal)) == SmallCount(|Gof(temporal)|)
  {
    var g := Gof(temporal);
    CountSmall(g);
    forall i | 0 <= i < |g|
      ensures CountOf(g[i].references) < 4 && Counted(CountOf(g[i].references), g[i].references)
    {
      CountSmall(g[i].references);
    }
  }

  lemma WriteResolutionsLen(dimensions: seq<Resolution>)
    ensures |WriteResolutions(dimensions)| == 4 * |dimensions|
  {
  }

  lemma WriteGofLen(temporal: Layers)
    ensures |WriteGof(Gof(temporal))| == (if temporal == 1 then 0 else if temporal == 2 then 4 else 9)
  {
    var g := Gof(temporal);
    if temporal == 2 {
      assert g == [g[0]] + [g[1]];
      WriteGofGrows(g[0], [g[1]]);
      assert [g[1]] == [g[1]] + [];
      WriteGofGrows(g[1], []);
    } else if temporal == 3 {
      WriteGofGrows(g[0], [g[1], g[2], g[3]]);
      WriteGofGrows(g[1], [g[2], g[3]]);
      WriteGofGrows(g[2], [g[3]]);
      WriteGofGrows(g[3], []);
      assert g == [g[0]] + [g[1], g[2], g[3]] && [g[1], g[2], g[3]] == [g[1]] + [g[2], g[3]];
      assert [g[2], g[3]] == [g[2]] + [g[3]] && [g[3]] == [g[3]] + [];
    }
  }

  // The length the packetizer reserves is the length it writes.
  lemma ScalabilityLenIsExact(mode: SvcMode, dimensions: seq<Resolution>)
    requires |dimensions| == mode.spatial
    ensures |WriteScalability(ScalabilityOf(mode, dimensions))| == ScalabilityLen(mode)
  {
    var s := ScalabilityOf(mode, dimensions);
    WriteResolutionsLen(dimensions);
    WriteGofLen(mode.temporal);
    assert |WriteResolutionPart(s.resolutions)| == mode.spatial * 4;
    assert |WriteScalability(s)| == 1 + |WriteResolutionPart(s.resolutions)| + |WriteGofPart(s.pictures)|;
  }

  lemma ScalabilityOfFits(mode: SvcMode, dimensions: seq<Resolution>)
    requires |dimensions| == mode.spatial
    ensures ScalabilityFits(ScalabilityOf(mode, dimensions))
  {
    GofFitsAll(mode.temporal);
    CountSmall(dimensions);
  }

  // ---- Payloads ----------------------------------------------------------

  // What the descriptors of all packets of one frame share.
  datatype Header = Vp8Header(pictureId: bv16) | Vp9Header(fields: Fields)

  function HeaderBytes(h: Header, start: bool, end: bool): Bytes {
    match h
    case Vp8Header(pictureId) => WriteVp8(pictureId, start)
    case Vp9Header(fields) => Write(fields, start, end)
  }

  function HeaderLen(h: Header, start: bool): nat {
    |HeaderBytes(h, start, false)|
  }

  // Bytes of the frame in the packet that starts at `offset`: what is left of
  // the payload after the descriptor, at least one.
  function FragmentLen(h: Header, frame: Bytes, offset: nat, maxPayload: nat): (n: nat)
    requires offset < |frame|
    ensures 0 < n <= |frame| - offset
  {
    Min(Max(maxPayload - HeaderLen(h, offset == 0), 1), |frame| - offset)
  }

  // The payloads of a frame from `offset` on; `top` when its last packet ends
  // the picture.
  function Fragments(h: Header, frame: Bytes, offset: nat, maxPayload: nat, top: bool): seq<RtpPayload>
    requires offset <= |frame|
    decreases |frame| - offset
  {
    if offset == |frame| then []
    else
      var n := FragmentLen(h, frame, offset, maxPayload);
      var end := offset + n == |frame|;
      [RtpPayload(HeaderBytes(h, offset == 0, end) + frame[offset..offset + n], end && top)]
      + Fragments(h, frame, offset + n, maxPayload, top)
  }

  // One turn of the fragmentation loops: `done` are the payloads before it.
  lemma FragmentsStep(h: Header, frame: Bytes, offset: nat, maxPayload: nat, top: bool, done: seq<RtpPayload>,
                      descriptorLen: nat, payload: RtpPayload, n: nat)
    requires offset < |frame| && descriptorLen == HeaderLen(h, offset == 0)
    requires n == Min(Max(Max(maxPayload - descriptorLen, 0), 1), |frame| - offset)
    requires payload.data == HeaderBytes(h, offset == 0, offset + n == |frame|) + frame[offset..offset + n]
    requires payload.last == (offset + n == |frame| && top)
    ensures done + Fragments(h, frame, offset, maxPayload, top)
         == (done + [payload]) + Fragments(h, frame, offset + n, maxPayload, top)
  {
  }

  function SvcTid(frames: seq<EncodedFrame>): bv8
    requires frames != []
  {
    if frames[0].key then 0 else frames[0].temporalId
  }

  function SvcGofIndex(c: Counters, frames: seq<EncodedFrame>): nat
    requires frames != []
  {
    if frames[0].key then 0 else c.gofIndex
  }

  function SvcTl0(c: Counters, frames: seq<EncodedFrame>): bv8
    requires frames != []
  {
    if SvcTid(frames) == 0 then c.tl0PicIdx + 1 else c.tl0PicIdx
  }

  function HighestSid(frames: seq<EncodedFrame>): bv8 {
    if frames == [] then 0
    else
      var rest := HighestSid(frames[1..]);
      if rest < frames[0].spatialId then frames[0].spatialId else rest
  }

  // What `packetize_svc_picture` settles before it looks at the single frames.
  datatype SvcPlan = SvcPlan(
    pictureId: bv16, key: bool, tid: bv8, up: bool, tl0PicIdx: bv8,
    mode: SvcMode, dimensions: seq<Resolution>, highest: bv8)

  function PlanOf(c: Counters, frames: seq<EncodedFrame>, mode: SvcMode, full: Resolution): (p: SvcPlan)
    requires frames != []
    ensures |p.dimensions| == mode.spatial == p.mode.spatial
  {
    SvcPlan(c.pictureId, frames[0].key, SvcTid(frames), UpSwitch(mode.temporal, SvcGofIndex(c, frames)),
            SvcTl0(c, frames), mode, SvcDimensions(frames, mode, full), HighestSid(frames))
  }

  function FieldsOf(p: SvcPlan, sid: bv8): Fields {
    Fields(p.pictureId, !p.key, !p.key, Layer(p.tid, p.up, sid, p.key && sid > 0), p.tl0PicIdx,
           if p.key && sid == 0 then Some(ScalabilityOf(p.mode, p.dimensions)) else None)
  }

  function FramePayloads(p: SvcPlan, frame: EncodedFrame, maxPayload: nat): seq<RtpPayload> {
    Fragments(Vp9Header(FieldsOf(p, frame.spatialId)), frame.data, 0, maxPayload, frame.spatialId == p.highest)
  }

  function PlanPayloads(p: SvcPlan, frames: seq<EncodedFrame>, maxPayload: nat): seq<RtpPayload> {
    if frames == [] then []
    else FramePayloads(p, frames[0], maxPayload) + PlanPayloads(p, frames[1..], maxPayload)
  }

  function SvcPayloads(c: Counters, frames: seq<EncodedFrame>, mode: SvcMode, full: Resolution, maxPayload: nat)
    : seq<RtpPayload>
  {
    if frames == [] then [] else PlanPayloads(PlanOf(c, frames, mode, full), frames, maxPayload)
  }

  function SvcNext(c: Counters, frames: seq<EncodedFrame>, mode: SvcMode): Counters {
    if frames == [] then c
    else Counters(NextPictureId(c.pictureId), SvcTl0(c, frames),
                  (SvcGofIndex(c, frames) + 1) % PatternLen(mode.temporal))
  }

  // A single-layer frame.
  datatype Picture = Picture(frame: Bytes, key: bool, size: Resolution)

  function PictureHeader(codec: VpxCodec, c: Counters, p: Picture): Header {
    match codec
    case VpxVp8 => Vp8Header(c.pictureId)
    case VpxVp9 =>
      Vp9Header(Fields(c.pictureId, !p.key, false, Layer(0, false, 0, false), c.tl0PicIdx,
                       if p.key then Some(Scalability(0, Some([p.size]), None)) else None))
  }

  function PicturePayloads(codec: VpxCodec, c: Counters, p: Picture, maxPayload: nat): seq<RtpPayload> {
    Fragments(PictureHeader(codec, c, p), p.frame, 0, maxPayload, true)
  }

  function PictureNext(c: Counters): Counters {
    c.(pictureId := NextPictureId(c.pictureId), tl0PicIdx := c.tl0PicIdx + 1)
  }

  lemma WriteGofOfTwo()
    ensures var g := Gof(2); WriteGof(g) == WriteGofEntry(g[0]) + WriteGofEntry(g[1])
  {
    var g := Gof(2);
    WriteGofCons(g[0], [g[1]]);
    WriteGofCons(g[1], []);
    assert g == [g[0]] + [g[1]] && [g[1]] == [g[1]] + [];
    assert WriteGofEntry(g[1]) + [] == WriteGofEntry(g[1]);
  }

  lemma WriteGofOfThree()
    ensures var g := Gof(3);
            WriteGof(g) == WriteGofEntry(g[0]) + (WriteGofEntry(g[1]) + (WriteGofEntry(g[2]) + WriteGofEntry(g[3])))
  {
    var g := Gof(3);
    WriteGofCons(g[0], [g[1], g[2], g[3]]);
    WriteGofCons(g[1], [g[2], g[3]]);
    WriteGofCons(g[2], [g[3]]);
    WriteGofCons(g[3], []);
    assert g == [g[0]] + [g[1], g[2], g[3]] && [g[1], g[2], g[3]] == [g[1]] + [g[2], g[3]];
    assert [g[2], g[3]] == [g[2]] + [g[3]] && [g[3]] == [g[3]] + [];
    assert WriteGofEntry(g[3]) + [] == WriteGofEntry(g[3]);
  }

  method AppendGof(data: Bytes, temporal: Layers) returns (out: Bytes)
    requires temporal > 1
    ensures out == data + ([CountOf(Gof(temporal))] + WriteGof(Gof(temporal)))
  {
    GofFitsAll(temporal);
    ghost var g := Gof(temporal);
    CountSmall([1 as bv8]);
    CountSmall([2 as bv8]);
    CountSmall([4 as bv8]);
    CountSmall([1 as bv8, 2]);
    if temporal == 2 {
      var n: Bytes := [2];
      out := AppendGofEntry(data + n, 0, false, [2]);
      out := AppendGofEntry(out, 1, true, [1]);
      WriteGofOfTwo();
      Append3(data, n, WriteGofEntry(g[0]), WriteGofEntry(g[1]));
    } else {
      var n: Bytes := [4];
      out := AppendGofEntry(data + n, 0, false, [4]);
      out := AppendGofEntry(out, 2, true, [1]);
      out := AppendGofEntry(out, 1, true, [2]);
      out := AppendGofEntry(out, 2, false, [1, 2]);
      WriteGofOfThree();
      Append3(data + n, WriteGofEntry(g[0]), WriteGofEntry(g[1]), WriteGofEntry(g[2]) + WriteGofEntry(g[3]));
      Append3(data + n + WriteGofEntry(g[0]), WriteGofEntry(g[1]), WriteGofEntry(g[2]), WriteGofEntry(g[3]));
      ConcatIsAssociative(data, n, WriteGof(g));
    }
  }

  lemma ScalabilityFirstByte(layers: bv8, hasGof: bool)
    ensures (layers << 5) | 0x10 | ((if hasGof then 1 else 0) << 3) == (layers << 5) | Bit(true, 0x10) | Bit(hasGof, 0x08)
  {
  }

  method AppendDimensions(data: Bytes, dimensions: seq<Resolution>) returns (out: Bytes)
    ensures out == data + WriteResolutions(dimensions)
  {
    out := data;
    for i := 0 to |dimensions|
      invariant out == data + WriteResolutions(dimensions[..i])
    {
      out := out + ToBigEndian(dimensions[i].width);
      out := out + ToBigEndian(dimensions[i].height);
      assert dimensions[..i + 1] == dimensions[..i] + [dimensions[i]];
      WriteResolutionsAppend(dimensions[..i], dimensions[i]);
    }
    assert dimensions[..|dimensions|] == dimensions;
  }

  // The parts in the order they are pushed make up the structure.
  lemma AssembleScalability(data: Bytes, first: bv8, s: Scalability)
    requires first == (s.layers << 5) | Bit(s.resolutions.Some?, 0x10) | Bit(s.pictures.Some?, 0x08)
    ensures ((data + [first]) + WriteResolutionPart(s.resolutions)) + WriteGofPart(s.pictures)
         == data + WriteScalability(s)
  {
    ConcatIsAssociative(data + [first], WriteResolutionPart(s.resolutions), WriteGofPart(s.pictures));
    ConcatIsAssociative(data, [first], WriteResolutionPart(s.resolutions) + WriteGofPart(s.pictures));
  }

  method WriteScalabilityStructure(data: Bytes, mode: SvcMode, dimensions: seq<Resolution>) returns (out: Bytes)
    requires |dimensions| == mode.spatial
    ensures out == data + WriteScalability(ScalabilityOf(mode, dimensions))
  {
    var hasGof := mode.temporal > 1;
    var layers := SpatialId(mode.spatial - 1);
    var first := (layers << 5) | 0x10 | ((if hasGof then 1 else 0) << 3);
    out := data + [first];
    out := AppendDimensions(out, dimensions);
    if hasGof {
      out := AppendGof(out, mode.temporal);
    }
    ScalabilityFirstByte(layers, hasGof);
    AssembleScalability(data, first, ScalabilityOf(mode, dimensions));
  }

  class VpxRtpPacketizer {
    const codec: VpxCodec
    var pictureId: bv16
    var tl0PicIdx: bv8
    var gofIndex: nat

    function View(): Counters
      reads this
    {
      Counters(pictureId, tl0PicIdx, gofIndex)
    }

    // `firstId` and `firstTl0` are the random values of the source.
    constructor (codec: VpxCodec, firstId: bv16, firstTl0: bv8)
      ensures this.codec == codec
      ensures View() == Counters(firstId & 0x7FFF, firstTl0, 0)
    {
      this.codec := codec;
      pictureId := firstId & 0x7FFF;
      tl0PicIdx := firstTl0;
      gofIndex := 0;
    }

    method Packetize(p: Picture, maxPayload: nat) returns (payloads: seq<RtpPayload>)
      modifies this
      ensures payloads == PicturePayloads(codec, old(View()), p, maxPayload)
      ensures View() == PictureNext(old(View()))
    {
      match codec {
        case VpxVp9 => payloads := PacketizeVp9(p, maxPayload);
        case VpxVp8 => payloads := PacketizeVp8(p.frame, maxPayload);
      }
      pictureId := (pictureId + 1) & 0x7FFF;
      tl0PicIdx := tl0PicIdx + 1;
    }

    method PacketizeVp8(frame: Bytes, maxPayload: nat) returns (payloads: seq<RtpPayload>)
      ensures payloads == Fragments(Vp8Header(pictureId), frame, 0, maxPayload, true)
    {
      if frame == [] {
        return [];
      }
      payloads := [];
      var total, offset, first := |frame|, 0, true;
      var descLen := 4;
      ghost var h := Vp8Header(pictureId);
      while offset < total
        invariant offset <= total
        invariant first <==> offset == 0
        invariant payloads + Fragments(h, frame, offset, maxPayload, true) == Fragments(h, frame, 0, maxPayload, true)
      {
        var room := Max(Max(maxPayload - descLen, 0), 1);
        var frag := Min(room, total - offset);
        var last := offset + frag >= total;
        var data := Vp8Packet(first);
        data := data + frame[offset..offset + frag];
        FragmentsStep(h, frame, offset, maxPayload, true, payloads, descLen, RtpPayload(data, last), frag);
        payloads := payloads + [RtpPayload(data, last)];
        offset := offset + frag;
        first := false;
      }
    }

    method Vp8Packet(first: bool) returns (data: Bytes)
      ensures data == WriteVp8(pictureId, first)
    {
      var x: bv8 := 0x80;
      if first {
        x := x | 0x10;
      }
      data := [x, 0x80, 0x80 | (((pictureId >> 8) & 0xFF) as bv8 & 0x7F), (pictureId & 0xFF) as bv8];
    }

    method PacketizeVp9(p: Picture, maxPayload: nat) returns (payloads: seq<RtpPayload>)
      ensures payloads == Fragments(PictureHeader(VpxVp9, View(), p), p.frame, 0, maxPayload, true)
    {
      var frame := p.frame;
      if frame == [] {
        return [];
      }
      payloads := [];
      var total, offset, first := |frame|, 0, true;
      ghost var h := PictureHeader(VpxVp9, View(), p);
      while offset < total
        invariant offset <= total
        invariant first <==> offset == 0
        invariant payloads + Fragments(h, frame, offset, maxPayload, true) == Fragments(h, frame, 0, maxPayload, true)
      {
        var ss := p.key && first;
        var descLen := 5 + if ss then 5 else 0;
        PictureHeaderLen(View(), p, first);
        var room := Max(Max(maxPayload - descLen, 0), 1);
        var frag := Min(room, total - offset);
        var last := offset + frag >= total;
        var data := Vp9Packet(p, first, last);
        data := data + frame[offset..offset + frag];
        FragmentsStep(h, frame, offset, maxPayload, true, payloads, descLen, RtpPayload(data, last), frag);
        payloads := payloads + [RtpPayload(data, last)];
        offset := offset + frag;
        first := false;
      }
    }

    method Vp9Packet(p: Picture, first: bool, last: bool) returns (data: Bytes)
      ensures data == HeaderBytes(PictureHeader(VpxVp9, View(), p), first, last)
    {
      var ss := p.key && first;
      var b0 := FirstByteOf(!p.key, false, first, last, ss);
      data := [b0, 0x80 | (((pictureId >> 8) & 0xFF) as bv8 & 0x7F), (pictureId & 0xFF) as bv8, 0x00, tl0PicIdx];
      if ss {
        data := data + [0x10];
        data := data + ToBigEndian(p.size.width);
        data := data + ToBigEndian(p.size.height);
        SingleScalability(p.size);
      }
    }

    method PacketizeSvcPicture(frames: seq<EncodedFrame>, mode: SvcMode, full: Resolution, maxPayload: nat)
      returns (payloads: seq<RtpPayload>)
      modifies this
      ensures payloads == SvcPayloads(old(View()), frames, mode, full, maxPayload)
      ensures View() == SvcNext(old(View()), frames, mode)
    {
      if frames == [] {
        return [];
      }
      var plan, gof := PlanPicture(View(), frames, mode, full);
      gofIndex := gof;
      tl0PicIdx := plan.tl0PicIdx;
      payloads := PacketizeFrames(plan, frames, maxPayload);
      pictureId := (pictureId + 1) & 0x7FFF;
      gofIndex := (gofIndex + 1) % PatternLen(mode.temporal);
    }
  }

  // The counters and tables for one picture.
  method PlanPicture(c: Counters, frames: seq<EncodedFrame>, mode: SvcMode, full: Resolution)
    returns (plan: SvcPlan, gof: nat)
    requires frames != []
    ensures plan == PlanOf(c, frames, mode, full)
    ensures gof == SvcGofIndex(c, frames)
  {
    hide SvcDimensions, HighestSid, UpSwitch, SvcTid, SvcTl0;
    var key := frames[0].key;
    var temporalId, tl0 := TidAndTl0(c, frames);
    gof := c.gofIndex;
    if key {
      gof := 0;
    }
    var up := UpSwitch(mode.temporal, gof);
    var highest := HighestSid(frames);
    var dimensions := SvcDimensions(frames, mode, full);
    plan := SvcPlan(c.pictureId, key, temporalId, up, tl0, mode, dimensions, highest);
  }

  // TL0PICIDX counts the picture of layer 0 itself.
  method TidAndTl0(c: Counters, frames: seq<EncodedFrame>) returns (temporalId: bv8, tl0: bv8)
    requires frames != []
    ensures temporalId == SvcTid(frames) && tl0 == SvcTl0(c, frames)
  {
    temporalId := if frames[0].key then 0 else frames[0].temporalId;
    tl0 := c.tl0PicIdx;
    if temporalId == 0 {
      tl0 := tl0 + 1;
    }
  }

  // The loop over the frames of a picture.
  method PacketizeFrames(p: SvcPlan, frames: seq<EncodedFrame>, maxPayload: nat) returns (payloads: seq<RtpPayload>)
    requires |p.dimensions| == p.mode.spatial
    ensures payloads == PlanPayloads(p, frames, maxPayload)
  {
    hide *;
    payloads := [];
    AppendNothing(PlanPayloads(p, frames, maxPayload));
    assert frames[0..] == frames;
    for i := 0 to |frames|
      invariant payloads + PlanPayloads(p, frames[i..], maxPayload) == PlanPayloads(p, frames, maxPayload)
    {
      var frame := frames[i];
      PlanStep(p, frames[i..], maxPayload, payloads);
      assert frames[i..][1..] == frames[i + 1..];
      if frame.data == [] {
        continue;
      }
      var packets := PacketizeFrame(p, frame, maxPayload);
      payloads := payloads + packets;
    }
    PlanStep(p, [], maxPayload, payloads);
    assert frames[|frames|..] == [];
    AppendNothing(payloads);
  }

  // One turn of the loop over the frames of a picture.
  lemma PlanStep(p: SvcPlan, frames: seq<EncodedFrame>, maxPayload: nat, done: seq<RtpPayload>)
    ensures frames == [] ==> PlanPayloads(p, frames, maxPayload) == []
    ensures frames != [] ==> (done + PlanPayloads(p, frames, maxPayload)
         == (done + FramePayloads(p, frames[0], maxPayload)) + PlanPayloads(p, frames[1..], maxPayload))
    ensures frames != [] && frames[0].data == [] ==> FramePayloads(p, frames[0], maxPayload) == []
  {
  }

  // The fragmentation loop of `packetize_svc_picture`.
  method PacketizeFrame(p: SvcPlan, frame: EncodedFrame, maxPayload: nat) returns (payloads: seq<RtpPayload>)
    requires |p.dimensions| == p.mode.spatial
    ensures payloads == FramePayloads(p, frame, maxPayload)
  {
    payloads := [];
    var total, offset, first := |frame.data|, 0, true;
    ghost var f, top := FieldsOf(p, frame.spatialId), frame.spatialId == p.highest;
    while offset < total
      invariant offset <= total
      invariant first <==> offset == 0
      invariant payloads + Fragments(Vp9Header(f), frame.data, offset, maxPayload, top)
             == Fragments(Vp9Header(f), frame.data, 0, maxPayload, top)
    {
      var hasSs := p.key && frame.spatialId == 0 && first;
      var ssLen := if hasSs then ScalabilityLen(p.mode) else 0;
      var descriptorLen := 5 + ssLen;
      SvcHeaderLen(p, frame.spatialId, first);
      var room := Max(Max(maxPayload - descriptorLen, 0), 1);
      var fragmentLen := Min(room, total - offset);
      var end := offset + fragmentLen >= total;
      var data := SvcDescriptor(p, frame.spatialId, first, end, hasSs);
      data := data + frame.data[offset..offset + fragmentLen];
      var payload := RtpPayload(data, end && frame.spatialId == p.highest);
      FragmentsStep(Vp9Header(f), frame.data, offset, maxPayload, top, payloads, descriptorLen, payload, fragmentLen);
      payloads := payloads + [payload];
      offset := offset + fragmentLen;
      first := false;
    }
  }

  method SvcDescriptor(p: SvcPlan, sid: bv8, first: bool, end: bool, hasSs: bool) returns (data: Bytes)
    requires |p.dimensions| == p.mode.spatial && hasSs == (p.key && sid == 0 && first)
    ensures data == Write(FieldsOf(p, sid), first, end)
  {
    data := SvcFixedBytes(p, sid, first, end, hasSs);
    if hasSs {
      data := WriteScalabilityStructure(data, p.mode, p.dimensions);
    }
  }

  method SvcFixedBytes(p: SvcPlan, sid: bv8, first: bool, end: bool, hasSs: bool) returns (data: Bytes)
    requires hasSs == (p.key && sid == 0 && first)
    ensures data == WriteFixed(FieldsOf(p, sid), first, end)
  {
    var b0 := FirstByteOf(!p.key, !p.key, first, end, hasSs);
    var interLayer := p.key && sid > 0;
    LayerByteFlags(p.tid, p.up, sid, interLayer);
    var layer := (p.tid << 5) | ((if p.up then 1 else 0) << 4) | (sid << 1) | (if interLayer then 1 else 0);
    data := [b0, 0x80 | (((p.pictureId >> 8) & 0xFF) as bv8 & 0x7F), (p.pictureId & 0xFF) as bv8, layer, p.tl0PicIdx];
  }

  // The first descriptor byte, flag by flag.
  method FirstByteOf(inter: bool, notReferenced: bool, first: bool, end: bool, ss: bool) returns (b0: bv8)
    ensures b0 == 0xA0 | Bit(inter, 0x40) | Bit(first, 0x08) | Bit(end, 0x04) | Bit(ss, 0x02) | Bit(notReferenced, 0x01)
  {
    b0 := 0x80 | 0x20;
    if inter {
      b0 := b0 | 0x40;
    }
    if notReferenced {
      b0 := b0 | 0x01;
    }
    if first {
      b0 := b0 | 0x08;
    }
    if end {
      b0 := b0 | 0x04;
    }
    if ss {
      b0 := b0 | 0x02;
    }
  }

  lemma SvcHeaderLen(p: SvcPlan, sid: bv8, start: bool)
    requires |p.dimensions| == p.mode.spatial
    ensures HeaderLen(Vp9Header(FieldsOf(p, sid)), start)
         == 5 + if start && p.key && sid == 0 then ScalabilityLen(p.mode) else 0
  {
    ScalabilityLenIsExact(p.mode, p.dimensions);
  }

  lemma PictureHeaderLen(c: Counters, p: Picture, start: bool)
    ensures HeaderLen(PictureHeader(VpxVp9, c, p), start) == 5 + if start && p.key then 5 else 0
  {
    SingleScalability(p.size);
  }

  lemma SingleScalability(size: Resolution)
    ensures WriteScalability(Scalability(0, Some([size]), None))
         == [0x10] + (ToBigEndian(size.width) + ToBigEndian(size.height))
  {
    assert [size][1..] == [];
    assert WriteResolutions([size]) == ToBigEndian(size.width) + ToBigEndian(size.height);
  }

  lemma LayerByteFlags(tid: bv8, up: bool, sid: bv8, dependent: bool)
    ensures (tid << 5) | ((if up then 1 else 0) << 4) | (sid << 1) | (if dependent then 1 else 0)
         == (tid << 5) | Bit(up, 0x10) | (sid << 1) | Bit(dependent, 0x01)
  {
  }
}
