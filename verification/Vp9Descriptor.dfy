// The VP9 payload descriptor. `Parse*` read it as section 4.2 of RFC 9628
// defines it, in both modes and with every optional field; `Write*` are the
// bytes the packetizer puts in front of a fragment.
module Vp9Descriptor {
  import opened Wrappers

  type Bytes = seq<bv8>

  datatype Resolution = Resolution(width: bv16, height: bv16)

  datatype GofEntry = GofEntry(tid: bv8, up: bool, references: Bytes)

  // `layers` is N_S, one less than the number of spatial layers.
  datatype Scalability = Scalability(
    layers: bv8,
    resolutions: Option<seq<Resolution>>,
    pictures: Option<seq<GofEntry>>)

  datatype PictureId = PictureId(extended: bool, value: bv16)

  datatype Layer = Layer(tid: bv8, up: bool, sid: bv8, dependent: bool)

  datatype Descriptor = Descriptor(
    pictureId: Option<PictureId>,
    inter: bool,
    layer: Option<Layer>,
    flexible: bool,
    tl0PicIdx: Option<bv8>,
    references: Bytes,
    start: bool,
    end: bool,
    scalability: Option<Scalability>,
    notReferenced: bool)

  // ---- Parser ----------------------------------------------------------

  predicate Has(b: bv8, mask: bv8) {
    b & mask != 0
  }

  function BigEndian(high: bv8, low: bv8): bv16 {
    ((high as bv16) << 8) | (low as bv16)
  }

  function ParsePictureId(data: Bytes): Option<(PictureId, Bytes)> {
    if data == [] then None
    else if !Has(data[0], 0x80) then Some((PictureId(false, (data[0] & 0x7F) as bv16), data[1..]))
    else if |data| < 2 then None
    else Some((PictureId(true, BigEndian(data[0] & 0x7F, data[1])), data[2..]))
  }

  function ParseLayer(data: Bytes): Option<(Layer, Bytes)> {
    if data == [] then None
    else Some((Layer(data[0] >> 5, Has(data[0], 0x10), (data[0] >> 1) & 0x07, Has(data[0], 0x01)), data[1..]))
  }

  // P_DIFF bytes of the flexible mode: seven bits each, the lowest bit says
  // that another one follows, at most three.
  function ParseFlexibleReferences(left: nat, data: Bytes): Option<(Bytes, Bytes)> {
    if left == 0 || data == [] then None
    else if !Has(data[0], 0x01) then Some(([data[0] >> 1], data[1..]))
    else
      var (more, rest) :- ParseFlexibleReferences(left - 1, data[1..]);
      Some(([data[0] >> 1] + more, rest))
  }

  function ParseResolutions(count: bv8, data: Bytes): Option<(seq<Resolution>, Bytes)>
    decreases |data|
  {
    if count == 0 then Some(([], data))
    else if |data| < 4 then None
    else
      var (more, rest) :- ParseResolutions(count - 1, data[4..]);
      Some(([Resolution(BigEndian(data[0], data[1]), BigEndian(data[2], data[3]))] + more, rest))
  }

  function ParseBytes(count: bv8, data: Bytes): Option<(Bytes, Bytes)>
    decreases |data|
  {
    if count == 0 then Some(([], data))
    else if data == [] then None
    else
      var (more, rest) :- ParseBytes(count - 1, data[1..]);
      Some(([data[0]] + more, rest))
  }

  lemma ParseBytesShrinks(count: bv8, data: Bytes)
    ensures ParseBytes(count, data).Some? ==> |ParseBytes(count, data).value.1| <= |data|
    decreases |data|
  {
    if count != 0 && data != [] {
      ParseBytesShrinks(count - 1, data[1..]);
    }
  }

  // The fields of the first byte of a picture group entry.
  function EntryTid(b: bv8): bv8 {
    b >> 5
  }

  function EntryCount(b: bv8): bv8 {
    (b >> 2) & 0x03
  }

  function ParseGof(count: bv8, data: Bytes): Option<(seq<GofEntry>, Bytes)>
    decreases |data|
  {
    if count == 0 then Some(([], data))
    else if data == [] then None
    else
      var (references, rest) :- ParseBytes(EntryCount(data[0]), data[1..]);
      ParseBytesShrinks(EntryCount(data[0]), data[1..]);
      var (more, end) :- ParseGof(count - 1, rest);
      Some(([GofEntry(EntryTid(data[0]), Has(data[0], 0x10), references)] + more, end))
  }

  // One optional part of the descriptor: its value and the bytes after it.
  type Part<T> = Option<(Option<T>, Bytes)>

  function ParseResolutionPart(b: bv8, data: Bytes): Part<seq<Resolution>> {
    if !Has(b, 0x10) then Some((None, data))
    else
      var (resolutions, rest) :- ParseResolutions((b >> 5) + 1, data);
      Some((Some(resolutions), rest))
  }

  function ParseGofPart(b: bv8, data: Bytes): Part<seq<GofEntry>> {
    if !Has(b, 0x08) then Some((None, data))
    else if data == [] then None
    else
      var (pictures, rest) :- ParseGof(data[0], data[1..]);
      Some((Some(pictures), rest))
  }

  function ParseScalability(data: Bytes): Option<(Scalability, Bytes)> {
    if data == [] then None
    else
      var (resolutions, afterY) :- ParseResolutionPart(data[0], data[1..]);
      var (pictures, rest) :- ParseGofPart(data[0], afterY);
      Some((Scalability(data[0] >> 5, resolutions, pictures), rest))
  }

  function ParseIdPart(b0: bv8, data: Bytes): Part<PictureId> {
    if !Has(b0, 0x80) then Some((None, data))
    else
      var (id, rest) :- ParsePictureId(data);
      Some((Some(id), rest))
  }

  function ParseLayerPart(b0: bv8, data: Bytes): Part<Layer> {
    if !Has(b0, 0x20) then Some((None, data))
    else
      var (layer, rest) :- ParseLayer(data);
      Some((Some(layer), rest))
  }

  function ParseTl0Part(b0: bv8, data: Bytes): Part<bv8> {
    if !Has(b0, 0x20) || Has(b0, 0x10) then Some((None, data))
    else if data == [] then None
    else Some((Some(data[0]), data[1..]))
  }

  function ParseReferencesPart(b0: bv8, data: Bytes): Option<(Bytes, Bytes)> {
    if Has(b0, 0x10) && Has(b0, 0x40) then ParseFlexibleReferences(3, data) else Some(([], data))
  }

  function ParseScalabilityPart(b0: bv8, data: Bytes): Part<Scalability> {
    if !Has(b0, 0x02) then Some((None, data))
    else
      var (scalability, rest) :- ParseScalability(data);
      Some((Some(scalability), rest))
  }

  // The descriptor and the bytes after it.
  function Parse(data: Bytes): Option<(Descriptor, Bytes)> {
    if data == [] then None
    else
      var b0 := data[0];
      var (id, afterI) :- ParseIdPart(b0, data[1..]);
      var (layer, afterL) :- ParseLayerPart(b0, afterI);
      var (tl0, afterT) :- ParseTl0Part(b0, afterL);
      var (references, afterR) :- ParseReferencesPart(b0, afterT);
      var (scalability, rest) :- ParseScalabilityPart(b0, afterR);
      Some((Descriptor(id, Has(b0, 0x40), layer, Has(b0, 0x10), tl0, references,
                       Has(b0, 0x08), Has(b0, 0x04), scalability, Has(b0, 0x01)), rest))
  }

  // ---- Writer ----------------------------------------------------------

  // What the packetizer chooses for the descriptors of one frame. The
  // scalability structure goes on its first packet only.
  datatype Fields = Fields(
    pictureId: bv16,
    inter: bool,
    notReferenced: bool,
    layer: Layer,
    tl0PicIdx: bv8,
    scalability: Option<Scalability>)

  function Bit(on: bool, mask: bv8): bv8 {
    if on then mask else 0
  }

  function ToBigEndian(x: bv16): Bytes {
    [(x >> 8) as bv8, (x & 0xFF) as bv8]
  }

  function CountOf<T>(s: seq<T>): bv8 {
    if s == [] then 0 else CountOf(s[1..]) + 1
  }

  function WriteResolutions(dimensions: seq<Resolution>): Bytes {
    if dimensions == [] then []
    else ToBigEndian(dimensions[0].width) + ToBigEndian(dimensions[0].height) + WriteResolutions(dimensions[1..])
  }

  function EntryByte(tid: bv8, up: bool, count: bv8): bv8 {
    (tid << 5) | Bit(up, 0x10) | (count << 2)
  }

  function WriteGofEntry(e: GofEntry): Bytes {
    [EntryByte(e.tid, e.up, CountOf(e.references))] + e.references
  }

  function WriteGof(pictures: seq<GofEntry>): Bytes {
    if pictures == [] then [] else WriteGofEntry(pictures[0]) + WriteGof(pictures[1..])
  }

  function WriteResolutionPart(resolutions: Option<seq<Resolution>>): Bytes {
    if resolutions.Some? then WriteResolutions(resolutions.value) else []
  }

  function WriteGofPart(pictures: Option<seq<GofEntry>>): Bytes {
    if pictures.Some? then [CountOf(pictures.value)] + WriteGof(pictures.value) else []
  }

  function WriteScalability(s: Scalability): Bytes {
    [(s.layers << 5) | Bit(s.resolutions.Some?, 0x10) | Bit(s.pictures.Some?, 0x08)]
    + (WriteResolutionPart(s.resolutions) + WriteGofPart(s.pictures))
  }

  function WriteFixed(f: Fields, start: bool, end: bool): Bytes {
    [0xA0 | Bit(f.inter, 0x40) | Bit(start, 0x08) | Bit(end, 0x04)
     | Bit(start && f.scalability.Some?, 0x02) | Bit(f.notReferenced, 0x01),
     0x80 | (((f.pictureId >> 8) & 0xFF) as bv8 & 0x7F),
     (f.pictureId & 0xFF) as bv8,
     (f.layer.tid << 5) | Bit(f.layer.up, 0x10) | (f.layer.sid << 1) | Bit(f.layer.dependent, 0x01),
     f.tl0PicIdx]
  }

  function Write(f: Fields, start: bool, end: bool): Bytes {
    WriteFixed(f, start, end)
    + if start && f.scalability.Some? then WriteScalability(f.scalability.value) else []
  }

  // ---- The parser undoes the writer -------------------------------------

  // `count` is the length of `s`, without leaving eight bits.
  ghost predicate Counted<T>(count: bv8, s: seq<T>) {
    if s == [] then count == 0 else count != 0 && Counted(count - 1, s[1..])
  }

  ghost predicate GofFits(pictures: seq<GofEntry>) {
    && Counted(CountOf(pictures), pictures)
    && forall i :: 0 <= i < |pictures| ==>
         && pictures[i].tid < 8
         && CountOf(pictures[i].references) < 4
         && Counted(CountOf(pictures[i].references), pictures[i].references)
  }

  ghost predicate ScalabilityFits(s: Scalability) {
    && s.layers < 8
    && (s.resolutions.Some? ==> Counted(s.layers + 1, s.resolutions.value))
    && (s.pictures.Some? ==> GofFits(s.pictures.value))
  }

  // The values fit the bits the descriptor has for them.
  ghost predicate Fits(f: Fields) {
    && f.pictureId < 0x8000 && f.layer.tid < 8 && f.layer.sid < 8
    && (f.scalability.Some? ==> ScalabilityFits(f.scalability.value))
  }

  function AsDescriptor(f: Fields, start: bool, end: bool): Descriptor {
    Descriptor(Some(PictureId(true, f.pictureId)), f.inter, Some(f.layer), false, Some(f.tl0PicIdx), [],
               start, end, if start then f.scalability else None, f.notReferenced)
  }

  lemma BigEndianRoundTrip(x: bv16)
    ensures BigEndian(ToBigEndian(x)[0], ToBigEndian(x)[1]) == x
  {
  }

  lemma {:induction false} ResolutionsRoundTrip(count: bv8, dimensions: seq<Resolution>, rest: Bytes)
    requires Counted(count, dimensions)
    ensures ParseResolutions(count, WriteResolutions(dimensions) + rest) == Some((dimensions, rest))
    decreases |dimensions|
  {
    if dimensions == [] {
      assert WriteResolutions(dimensions) + rest == rest;
    } else {
      var data := WriteResolutions(dimensions) + rest;
      assert data[4..] == WriteResolutions(dimensions[1..]) + rest;
      assert dimensions == [dimensions[0]] + dimensions[1..];
      ResolutionsRoundTrip(count - 1, dimensions[1..], rest);
      BigEndianRoundTrip(dimensions[0].width);
      BigEndianRoundTrip(dimensions[0].height);
    }
  }

  lemma {:induction false} BytesRoundTrip(count: bv8, bytes: Bytes, rest: Bytes)
    requires Counted(count, bytes)
    ensures ParseBytes(count, bytes + rest) == Some((bytes, rest))
    decreases |bytes|
  {
    if bytes == [] {
      assert bytes + rest == rest;
    } else {
      assert (bytes + rest)[1..] == bytes[1..] + rest;
      BytesRoundTrip(count - 1, bytes[1..], rest);
      assert bytes == [bytes[0]] + bytes[1..];
    }
  }

  lemma {:induction false} GofRoundTrip(count: bv8, pictures: seq<GofEntry>, rest: Bytes)
    requires Counted(count, pictures)
    requires forall i :: 0 <= i < |pictures| ==>
               && pictures[i].tid < 8
               && CountOf(pictures[i].references) < 4
               && Counted(CountOf(pictures[i].references), pictures[i].references)
    ensures ParseGof(count, WriteGof(pictures) + rest) == Some((pictures, rest))
    decreases |pictures|
  {
    hide EntryByte, EntryTid, EntryCount, Has, ParseBytes;
    if pictures == [] {
      assert WriteGof(pictures) + rest == rest;
    } else {
      var e := pictures[0];
      var data := WriteGof(pictures) + rest;
      var tail := WriteGof(pictures[1..]) + rest;
      assert data[1..] == e.references + tail;
      GofByte(e.tid, e.up, CountOf(e.references));
      BytesRoundTrip(CountOf(e.references), e.references, tail);
      GofRoundTrip(count - 1, pictures[1..], rest);
      assert pictures == [e] + pictures[1..];
    }
  }

  lemma GofByte(tid: bv8, up: bool, count: bv8)
    requires tid < 8 && count < 4
    ensures var b := EntryByte(tid, up, count);
            EntryTid(b) == tid && Has(b, 0x10) == up && EntryCount(b) == count
  {
  }

  lemma ScalabilityByte(layers: bv8, y: bool, g: bool)
    requires layers < 8
    ensures var b := (layers << 5) | Bit(y, 0x10) | Bit(g, 0x08);
            b >> 5 == layers && Has(b, 0x10) == y && Has(b, 0x08) == g
  {
  }

  lemma ResolutionPartRoundTrip(b: bv8, resolutions: Option<seq<Resolution>>, rest: Bytes)
    requires Has(b, 0x10) == resolutions.Some?
    requires resolutions.Some? ==> Counted((b >> 5) + 1, resolutions.value)
    ensures ParseResolutionPart(b, WriteResolutionPart(resolutions) + rest) == Some((resolutions, rest))
  {
    if resolutions.Some? {
      ResolutionsRoundTrip((b >> 5) + 1, resolutions.value, rest);
    } else {
      assert WriteResolutionPart(resolutions) + rest == rest;
    }
  }

  lemma GofPartRoundTrip(b: bv8, pictures: Option<seq<GofEntry>>, rest: Bytes)
    requires Has(b, 0x08) == pictures.Some?
    requires pictures.Some? ==> GofFits(pictures.value)
    ensures ParseGofPart(b, WriteGofPart(pictures) + rest) == Some((pictures, rest))
  {
    if pictures.Some? {
      assert (WriteGofPart(pictures) + rest)[1..] == WriteGof(pictures.value) + rest;
      GofRoundTrip(CountOf(pictures.value), pictures.value, rest);
    } else {
      assert WriteGofPart(pictures) + rest == rest;
    }
  }

  lemma ScalabilityPartsRoundTrip(b: bv8, s: Scalability, rest: Bytes)
    requires b >> 5 == s.layers && Has(b, 0x10) == s.resolutions.Some? && Has(b, 0x08) == s.pictures.Some?
    requires ScalabilityFits(s)
    ensures ParseScalability([b] + (WriteResolutionPart(s.resolutions) + WriteGofPart(s.pictures)) + rest)
         == Some((s, rest))
  {
    hide ParseResolutionPart, ParseGofPart, WriteResolutionPart, WriteGofPart;
    var data := [b] + (WriteResolutionPart(s.resolutions) + WriteGofPart(s.pictures)) + rest;
    assert data[1..] == WriteResolutionPart(s.resolutions) + (WriteGofPart(s.pictures) + rest);
    ResolutionPartRoundTrip(b, s.resolutions, WriteGofPart(s.pictures) + rest);
    GofPartRoundTrip(b, s.pictures, rest);
  }

  lemma ScalabilityRoundTrip(s: Scalability, rest: Bytes)
    requires ScalabilityFits(s)
    ensures ParseScalability(WriteScalability(s) + rest) == Some((s, rest))
  {
    ScalabilityByte(s.layers, s.resolutions.Some?, s.pictures.Some?);
    ScalabilityPartsRoundTrip(WriteScalability(s)[0], s, rest);
  }

  lemma FirstByte(inter: bool, start: bool, end: bool, ss: bool, unused: bool)
    ensures var b := 0xA0 | Bit(inter, 0x40) | Bit(start, 0x08) | Bit(end, 0x04) | Bit(ss, 0x02) | Bit(unused, 0x01);
            && Has(b, 0x80) && Has(b, 0x40) == inter && Has(b, 0x20) && !Has(b, 0x10)
            && Has(b, 0x08) == start && Has(b, 0x04) == end && Has(b, 0x02) == ss && Has(b, 0x01) == unused
  {
  }

  lemma PictureIdBytes(id: bv16)
    requires id < 0x8000
    ensures var high := 0x80 | (((id >> 8) & 0xFF) as bv8 & 0x7F);
            Has(high, 0x80) && BigEndian(high & 0x7F, (id & 0xFF) as bv8) == id
  {
  }

  lemma LayerByte(l: Layer)
    requires l.tid < 8 && l.sid < 8
    ensures var b := (l.tid << 5) | Bit(l.up, 0x10) | (l.sid << 1) | Bit(l.dependent, 0x01);
            ParseLayer([b]) == Some((l, []))
  {
    var b := (l.tid << 5) | Bit(l.up, 0x10) | (l.sid << 1) | Bit(l.dependent, 0x01);
    assert b >> 5 == l.tid && Has(b, 0x10) == l.up && (b >> 1) & 0x07 == l.sid && Has(b, 0x01) == l.dependent;
    assert [b][1..] == [];
  }

  // The five fixed bytes hold what `d` says.
  ghost predicate FixedHold(d: Descriptor, fixed: Bytes) {
    && |fixed| == 5 && d.pictureId.Some? && d.layer.Some? && d.tl0PicIdx.Some?
    && Has(fixed[0], 0x80) && Has(fixed[0], 0x20) && !Has(fixed[0], 0x10)
    && Has(fixed[0], 0x02) == d.scalability.Some?
    && Has(fixed[1], 0x80)
    && d.pictureId.value == PictureId(true, BigEndian(fixed[1] & 0x7F, fixed[2]))
    && ParseLayer([fixed[3]]) == Some((d.layer.value, []))
    && d.tl0PicIdx.value == fixed[4]
    && d == Descriptor(d.pictureId, Has(fixed[0], 0x40), d.layer, false, d.tl0PicIdx, [],
                       Has(fixed[0], 0x08), Has(fixed[0], 0x04), d.scalability, Has(fixed[0], 0x01))
  }

  lemma PartsRoundTrip(d: Descriptor, fixed: Bytes, ss: Bytes, fragment: Bytes)
    requires FixedHold(d, fixed)
    requires d.scalability.Some? ==> ParseScalability(ss + fragment) == Some((d.scalability.value, fragment))
    requires d.scalability.None? ==> ss == []
    ensures Parse(fixed + ss + fragment) == Some((d, fragment))
  {
    hide ParseScalability;
    var data := fixed + ss + fragment;
    assert data[1..][2..] == data[3..] && data[3..][1..] == data[4..] && data[4..][1..] == data[5..];
    assert data[5..] == ss + fragment;
    assert ParseIdPart(data[0], data[1..]) == Some((d.pictureId, data[3..]));
    assert ParseLayerPart(data[0], data[3..]) == Some((d.layer, data[4..]));
    assert ParseTl0Part(data[0], data[4..]) == Some((d.tl0PicIdx, data[5..]));
    assert d.scalability.None? ==> data[5..] == fragment;
  }

  lemma FixedRoundTrip(f: Fields, start: bool, end: bool)
    requires Fits(f)
    ensures FixedHold(AsDescriptor(f, start, end), WriteFixed(f, start, end))
  {
    FirstByte(f.inter, start, end, start && f.scalability.Some?, f.notReferenced);
    PictureIdBytes(f.pictureId);
    LayerByte(f.layer);
  }

  // A receiver reads back every field and the fragment, whatever follows.
  lemma DescriptorRoundTrip(f: Fields, start: bool, end: bool, fragment: Bytes)
    requires Fits(f)
    ensures Parse(Write(f, start, end) + fragment) == Some((AsDescriptor(f, start, end), fragment))
  {
    hide FixedHold, WriteFixed, WriteScalability, ParseScalability, Parse;
    FixedRoundTrip(f, start, end);
    var ss := if start && f.scalability.Some? then WriteScalability(f.scalability.value) else [];
    if start && f.scalability.Some? {
      ScalabilityRoundTrip(f.scalability.value, fragment);
    }
    PartsRoundTrip(AsDescriptor(f, start, end), WriteFixed(f, start, end), ss, fragment);
  }
}
