// The VP8 payload descriptor: the parser of section 4.2 of RFC 7741 and the
// four bytes the packetizer writes.
module Vp8Descriptor {
  import opened Wrappers
  import opened Vp9Descriptor

  datatype Vp8 = Vp8(
    pictureId: Option<PictureId>,
    nonReference: bool,
    start: bool,
    partition: bv8,
    tl0PicIdx: Option<bv8>,
    tidAndKey: Option<bv8>)

  function ParseByteIf(present: bool, data: Bytes): Part<bv8> {
    if !present then Some((None, data))
    else if data == [] then None
    else Some((Some(data[0]), data[1..]))
  }

  function ParseVp8(data: Bytes): Option<(Vp8, Bytes)> {
    if data == [] then None
    else
      var b0 := data[0];
      var (extension, afterX) :- ParseByteIf(Has(b0, 0x80), data[1..]);
      var x := if extension.Some? then extension.value else 0;
      var (id, afterI) :- ParseIdPart(x, afterX);
      var (tl0, afterL) :- ParseByteIf(Has(x, 0x40), afterI);
      var (tidAndKey, rest) :- ParseByteIf(Has(x, 0x20) || Has(x, 0x10), afterL);
      Some((Vp8(id, Has(b0, 0x20), Has(b0, 0x10), b0 & 0x07, tl0, tidAndKey), rest))
  }

  function WriteVp8(pictureId: bv16, start: bool): Bytes {
    [0x80 | Bit(start, 0x10), 0x80, 0x80 | (((pictureId >> 8) & 0xFF) as bv8 & 0x7F), (pictureId & 0xFF) as bv8]
  }

  lemma Vp8RoundTrip(pictureId: bv16, start: bool, fragment: Bytes)
    requires pictureId < 0x8000
    ensures ParseVp8(WriteVp8(pictureId, start) + fragment)
         == Some((Vp8(Some(PictureId(true, pictureId)), false, start, 0, None, None), fragment))
  {
    var data := WriteVp8(pictureId, start) + fragment;
    PictureIdBytes(pictureId);
    assert data[1..][1..] == data[2..] && data[2..][2..] == fragment;
    assert ParseIdPart(0x80, data[2..]) == Some((Some(PictureId(true, pictureId)), fragment));
  }
}
