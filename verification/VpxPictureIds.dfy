// The picture ids of whole runs.
module VpxPictureIds {
  import opened Sequences
  import opened Vp9Descriptor
  import opened Vp8Descriptor
  import opened VpxPacketizer
  import opened VpxRoundTrip
  import opened VpxTemporal

  // ---- Counting in 15 bits ----------------------------------------------------------------

  // The number an id stands for, and its two bytes: a carry is easier to follow byte
  // by byte.
  function IdValue(id: bv16): int {
    id as int
  }

  function High(id: bv16): bv8 {
    ((id >> 8) & 0xFF) as bv8
  }

  function Low(id: bv16): bv8 {
    (id & 0xFF) as bv8
  }

  lemma ValueOfBytes(id: bv16)
    ensures IdValue(id) == 256 * ByteValue(High(id)) + ByteValue(Low(id))
  {
  }

  lemma NextBytes(id: bv16)
    requires id < 0x7FFF
    ensures Low(NextPictureId(id)) == Low(id) + 1
    ensures High(NextPictureId(id)) == if Low(id) == 0xFF then High(id) + 1 else High(id)
    ensures High(id) < 0x80
  {
  }

  lemma ByteIsFull(b: bv8)
    ensures ByteValue(b) == 255 <==> b == 0xFF
    ensures b < 0x80 ==> ByteValue(b) < 128
  {
  }

  lemma NextIdWraps()
    ensures NextPictureId(0x7FFF) == 0 && IdValue(0) == 0 && IdValue(0x7FFF) == 0x7FFF
  {
  }

  lemma NextIdInRange(id: bv16)
    requires id < 0x8000
    ensures NextPictureId(id) < 0x8000
    ensures id == 0x7FFF || id < 0x7FFF
  {
  }

  lemma NextByteValues(id: bv16)
    requires id < 0x7FFF
    ensures var low, high := ByteValue(Low(id)), ByteValue(High(id));
      && 0 <= low < 256 && 0 <= high < 128
      && ByteValue(Low(NextPictureId(id))) == (if low == 255 then 0 else low + 1)
      && ByteValue(High(NextPictureId(id))) == (if low == 255 then high + 1 else high)
  {
    NextBytes(id);
    ByteIsFull(Low(id));
    ByteIsFull(High(id));
    NextByteValue(Low(id));
    NextByteValue(High(id));
    hide High, Low, ByteValue, NextPictureId;
  }

  // The next id is one more, modulo 2^15.
  lemma NextIdIs(id: bv16)
    requires id < 0x8000
    ensures NextPictureId(id) < 0x8000
    ensures 0 <= IdValue(NextPictureId(id)) < 0x8000
    ensures IdValue(NextPictureId(id)) == (IdValue(id) + 1) % 0x8000
  {
    hide IdValue, High, Low, ByteValue, NextPictureId;
    NextIdInRange(id);
    if id == 0x7FFF {
      NextIdWraps();
    } else {
      ValueOfBytes(id);
      ValueOfBytes(NextPictureId(id));
      NextByteValues(id);
      ValueInRange(id);
    }
  }

  lemma HighInRange(id: bv16)
    requires id < 0x8000
    ensures High(id) < 0x80
    ensures id == 0x7FFF <==> High(id) == 0x7F && Low(id) == 0xFF
  {
  }

  lemma FullBytes(high: bv8, low: bv8)
    requires high < 0x80
    ensures ByteValue(high) == 127 && ByteValue(low) == 255 <==> high == 0x7F && low == 0xFF
    ensures 0 <= ByteValue(high) < 128 && 0 <= ByteValue(low) < 256
  {
  }

  lemma ValueInRange(id: bv16)
    requires id < 0x8000
    ensures 0 <= IdValue(id) < 0x8000
    ensures IdValue(id) == 0x7FFF <==> id == 0x7FFF
  {
    hide *;
    ValueOfBytes(id);
    HighInRange(id);
    FullBytes(High(id), Low(id));
  }

  // ---- The ids of a run -------------------------------------------------------------------

  // The counters after `n` single-layer pictures.
  function SingleAt(c: Counters, n: nat): Counters
    decreases n
  {
    if n == 0 then c else SingleAt(PictureNext(c), n - 1)
  }

  // What is sent for a run is what is sent for its start, then for the rest with
  // the counters found there.
  lemma {:induction false} SentSplits(c: Counters, front: seq<SinglePicture>, back: seq<SinglePicture>)
    ensures Vp9Sent(c, front + back) == Vp9Sent(c, front) + Vp9Sent(SingleAt(c, |front|), back)
    ensures Vp8Sent(c, front + back) == Vp8Sent(c, front) + Vp8Sent(SingleAt(c, |front|), back)
    decreases |front|
  {
    if front == [] {
      assert front + back == back;
      AppendNothing(Vp9Sent(c, back));
      AppendNothing(Vp8Sent(c, back));
    } else {
      assert (front + back)[1..] == front[1..] + back;
      SentSplits(PictureNext(c), front[1..], back);
      var p := front[0].picture;
      ConcatIsAssociative(
        if p.frame == [] then [] else [Frame(Head(PictureHeader(VpxVp9, c, p).fields), p.frame)],
        Vp9Sent(PictureNext(c), front[1..]), Vp9Sent(SingleAt(c, |front|), back));
      ConcatIsAssociative(
        if p.frame == [] then [] else [Vp8Frame(c.pictureId, p.frame)],
        Vp8Sent(PictureNext(c), front[1..]), Vp8Sent(SingleAt(c, |front|), back));
    }
  }

  // Picture n, sent or empty, has the id of the first plus n, modulo 2^15.
  lemma {:induction false} PictureIdsAreConsecutive(c: Counters, n: nat)
    requires c.pictureId < 0x8000
    ensures IdValue(SingleAt(c, n).pictureId) == (IdValue(c.pictureId) + n) % 0x8000
    decreases n
  {
    hide IdValue, NextPictureId;
    if n == 0 {
      ValueInRange(c.pictureId);
    } else {
      NextIdIs(c.pictureId);
      PictureIdsAreConsecutive(PictureNext(c), n - 1);
    }
  }

  // The same for SVC pictures, where an empty one takes no id.
  lemma {:induction false} SvcPictureIdsAreConsecutive(c: Counters, run: seq<SvcPicture>, n: nat)
    requires c.pictureId < 0x8000 && n <= |run|
    requires forall i :: 0 <= i < n ==> run[i].frames != []
    ensures CountersAt(c, run, n).pictureId < 0x8000
    ensures IdValue(CountersAt(c, run, n).pictureId) == (IdValue(c.pictureId) + n) % 0x8000
  {
    hide *;
    if n == 0 {
      StartOfRun(c, run);
      ValueInRange(c.pictureId);
    } else {
      SvcPictureIdsAreConsecutive(c, run, n - 1);
      NextIdIs(CountersAt(c, run, n - 1).pictureId);
      NextSvcId(c, run, n);
      OneMore(IdValue(CountersAt(c, run, n - 1).pictureId), IdValue(c.pictureId) + n - 1);
    }
  }

  lemma StartOfRun(c: Counters, run: seq<SvcPicture>)
    ensures CountersAt(c, run, 0) == c
  {
  }

  lemma NextSvcId(c: Counters, run: seq<SvcPicture>, n: nat)
    requires 0 < n <= |run| && run[n - 1].frames != []
    ensures CountersAt(c, run, n).pictureId == NextPictureId(CountersAt(c, run, n - 1).pictureId)
  {
    hide NextPictureId, SvcTl0, SvcGofIndex;
  }

  lemma OneMore(x: int, y: int)
    requires x == y % 0x8000
    ensures (x + 1) % 0x8000 == (y + 1) % 0x8000
  {
  }
}
