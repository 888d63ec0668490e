// The published guarantee of burst_tolerance (dbs/container/stream.py): damage confined to one range
// of that many bytes, wherever it lies, leaves the whole plaintext readable.
module BurstSafety {
  import opened Wrappers
  import opened Sequences
  import opened Bytes
  import opened Encoder
  import opened CopyRepair
  import opened Layout
  import opened Records
  import opened Container
  import opened EndOfStream
  import opened BlockRepair
  import opened Reader
  import opened WrittenContainer
  import opened ContainerRead

  // The bytes outside one range are those of the original.
  ghost predicate DamagedWithin(original: seq<Byte>, source: seq<Byte>, start: nat, length: nat) {
    |source| == |original| && forall k: nat :: k < |source| && (k < start || k >= start + length) ==> source[k] == original[k]
  }

  ghost predicate Disjoint(start: nat, length: nat, offset: nat, size: nat) {
    offset + size <= start || start + length <= offset
  }

  lemma OutsideIsIntact(original: seq<Byte>, source: seq<Byte>, start: nat, length: nat, offset: nat, size: nat)
    requires DamagedWithin(original, source, start, length) && Disjoint(start, length, offset, size)
    requires offset + size <= |original|
    ensures source[offset..offset + size] == original[offset..offset + size]
  {}

  // ----- the assumption on the hashes: a record that was altered fails its own check

  ghost predicate HeadersDetect(original: seq<Byte>, source: seq<Byte>, format: HeaderFormat) {
    && (format.verified(FrontHeader(source)) ==> FrontHeader(source) == FrontHeader(original))
    && (BackHeader(source).Some? && format.verified(BackHeader(source).value) ==> BackHeader(source) == BackHeader(original))
  }

  // An altered first copy fails its tag, unless it became the slot of another block, whose index its
  // descriptor shows.  Second copies need no such assumption.
  ghost predicate SlotsDetect(w: Written, source: seq<Byte>)
    requires w.Valid()
  {
    forall i: nat :: i < |w.Chunks()| ==> FirstDetects(w, source, i)
  }

  ghost predicate FirstDetects(w: Written, source: seq<Byte>, i: nat)
    requires w.Valid()
  {
    var p := FirstCopyPosition(i, w.layout.interleave);
    RawSlot(source, w.layout, p) != RawSlot(w.Bytes(), w.layout, p) ==> NotOfBlock(w, RawSlot(source, w.layout, p), i)
  }

  ghost predicate NotOfBlock(w: Written, raw: seq<Byte>, i: nat)
    requires w.Valid()
  {
    TagFails(w, raw) || exists j: nat :: j < |w.Slots()| && j != i && raw == w.Slots()[j]
  }

  predicate TagFails(w: Written, raw: seq<Byte>)
    requires w.layout.Valid()
  {
    |raw| == w.layout.SlotSize() ==> w.codec.slotTag(raw[..w.layout.EncodedSize()]) != raw[w.layout.EncodedSize()..]
  }

  ghost predicate TrailersDetect(w: Written, source: seq<Byte>)
    requires w.Valid()
  {
    && TrailerDetects(w, ReadAt(source, TrailerOffset(w), TRAILER_SIZE))
    && TrailerDetects(w, ReadAt(source, TrailerOffset(w) + TRAILER_SIZE, TRAILER_SIZE))
  }

  predicate TrailerDetects(w: Written, raw: seq<Byte>)
    requires w.Valid()
  {
    OpenTrailer(raw, w.codec.checksum, w.codec.containerId, w.layout).Some? ==> raw == w.Trailer().Seal(w.codec.checksum)
  }

  ghost predicate Detected(w: Written, source: seq<Byte>, format: HeaderFormat)
    requires w.Valid()
  {
    HeadersDetect(w.Bytes(), source, format) && SlotsDetect(w, source) && TrailersDetect(w, source)
  }

  function TrailerOffset(w: Written): nat
    requires w.Valid()
  {
    w.layout.SlotOffset(2 * |w.Chunks()|)
  }

  // ----- geometry of one burst

  ghost predicate Tolerated(w: Written, source: seq<Byte>, start: nat, length: nat)
    requires w.Valid()
  {
    DamagedWithin(w.Bytes(), source, start, length) && length <= w.layout.BurstTolerance(|w.Chunks()|)
  }

  lemma ToleratedMeans(w: Written, source: seq<Byte>, start: nat, length: nat)
    requires w.Valid() && Tolerated(w, source, start, length)
    ensures DamagedWithin(w.Bytes(), source, start, length) && |source| == |w.Bytes()|
    ensures length <= w.layout.BurstTolerance(|w.Chunks()|)
  {
    hide Written.Valid, Written.Bytes;
  }

  lemma UntouchedSlot(w: Written, source: seq<Byte>, start: nat, length: nat, p: nat)
    requires w.Valid() && DamagedWithin(w.Bytes(), source, start, length) && p < 2 * |w.Chunks()|
    requires !Touches(w.layout, start, length, p)
    ensures RawSlot(source, w.layout, p) == RawSlot(w.Bytes(), w.layout, p)
    ensures w.layout.SlotOffset(p) + w.layout.SlotSize() <= |source|
  {
    hide *;
    WrittenMeans(w);
    SlotStands(w, p);
    UntouchedIsDisjoint(w.layout, start, length, p);
    SameSize(w.Bytes(), source, start, length);
    OutsideIsIntact(w.Bytes(), source, start, length, w.layout.SlotOffset(p), w.layout.SlotSize());
    RawSlotIs(source, w.layout, p);
    RawSlotIs(w.Bytes(), w.layout, p);
  }

  lemma SameSize(original: seq<Byte>, source: seq<Byte>, start: nat, length: nat)
    requires DamagedWithin(original, source, start, length)
    ensures |source| == |original|
  {}

  lemma UntouchedIsDisjoint(layout: StreamLayout, start: nat, length: nat, p: nat)
    requires layout.Valid() && !Touches(layout, start, length, p)
    ensures Disjoint(start, length, layout.SlotOffset(p), layout.SlotSize())
  {
    hide StreamLayout.SlotOffset, StreamLayout.SlotSize;
  }

  // One of the two copies of every block is untouched.
  lemma SomeCopyIsIntact(w: Written, source: seq<Byte>, start: nat, length: nat, i: nat)
    requires w.Valid() && Tolerated(w, source, start, length) && i < |w.Chunks()|
    ensures var (p, q) := (FirstCopyPosition(i, w.layout.interleave), SecondCopyPosition(i, |w.Chunks()|, w.layout.interleave));
            && p < 2 * |w.Chunks()| && q < 2 * |w.Chunks()|
            && (RawSlot(source, w.layout, p) == RawSlot(w.Bytes(), w.layout, p) || RawSlot(source, w.layout, q) == RawSlot(w.Bytes(), w.layout, q))
  {
    hide *;
    WrittenMeans(w);
    ToleratedMeans(w, source, start, length);
    var (p, q) := (FirstCopyPosition(i, w.layout.interleave), SecondCopyPosition(i, |w.Chunks()|, w.layout.interleave));
    CopyPositions(w, i);
    OneCopySurvives(w.layout, |w.Chunks()|, start, length, i);
    if !Touches(w.layout, start, length, p) {
      UntouchedSlot(w, source, start, length, p);
    } else {
      UntouchedSlot(w, source, start, length, q);
    }
  }

  // Both copies of a block hold its slot.
  lemma CopyPositions(w: Written, i: nat)
    requires w.Valid() && i < |w.Chunks()|
    ensures |w.Slots()| == |w.Chunks()| && w.layout.Valid()
    ensures var (p, q) := (FirstCopyPosition(i, w.layout.interleave), SecondCopyPosition(i, |w.Chunks()|, w.layout.interleave));
            && p < 2 * |w.Chunks()| && RawSlot(w.Bytes(), w.layout, p) == w.Slots()[i]
            && q < 2 * |w.Chunks()| && RawSlot(w.Bytes(), w.layout, q) == w.Slots()[i]
  {
    hide *;
    WrittenMeans(w);
    SlotAt(w, i);
    SchedulePlaces(|w.Chunks()|, w.layout.interleave, i);
    SlotStands(w, FirstCopyPosition(i, w.layout.interleave));
    SlotStands(w, SecondCopyPosition(i, |w.Chunks()|, w.layout.interleave));
  }

  lemma SchedulePlaces(blocks: nat, interleave: nat, i: nat)
    requires i < blocks
    ensures |ScheduleOf(blocks, interleave)| == 2 * blocks
    ensures var p := FirstCopyPosition(i, interleave); p < 2 * blocks && ScheduleOf(blocks, interleave)[p].index == i
    ensures var q := SecondCopyPosition(i, blocks, interleave); q < 2 * blocks && ScheduleOf(blocks, interleave)[q].index == i
  {
    ScheduleIsBijective(blocks, interleave);
    hide ScheduleOf, FirstCopyPosition, SecondCopyPosition;
    assert PositionOf(i, true, blocks, interleave) == FirstCopyPosition(i, interleave);
    assert PositionOf(i, false, blocks, interleave) == SecondCopyPosition(i, blocks, interleave);
  }

  // ----- every block is delivered

  lemma AlteredIsNotClean(view: View, w: Written, raw: seq<Byte>, i: nat)
    requires w.Valid() && ViewFits(view, w) && NotOfBlock(w, raw, i)
    ensures view.layout.Valid() && Clean(view, raw, i).None?
  {
    hide *;
    FitsMeans(view, w);
    WrittenMeans(w);
    SlotCountIs(w);
    if TagFails(w, raw) {
      FailingTag(view, w, raw, i);
    } else {
      var j := OtherBlock(w, raw, i);
      GenuineIsClean(view, w, j);
      CleanForOneIndex(view, raw, j, i);
    }
  }

  lemma OtherBlock(w: Written, raw: seq<Byte>, i: nat) returns (j: nat)
    requires w.Valid() && NotOfBlock(w, raw, i) && !TagFails(w, raw)
    ensures j < |w.Slots()| && j != i && raw == w.Slots()[j]
  {
    hide TagFails, Written.Slots, Written.Valid;
    j :| j < |w.Slots()| && j != i && raw == w.Slots()[j];
  }

  lemma FailingTag(view: View, w: Written, raw: seq<Byte>, i: nat)
    requires view.layout.Valid() && view.codec == w.codec && view.layout == w.layout && TagFails(w, raw)
    ensures Clean(view, raw, i).None?
  {
    hide StripParity, ChunkLen, StreamLayout.Valid, EncodedLength;
  }

  // A descriptor names one block only.
  lemma CleanForOneIndex(view: View, raw: seq<Byte>, j: nat, i: nat)
    requires view.layout.Valid() && Clean(view, raw, j).Some? && i != j
    ensures Clean(view, raw, i).None?
  {
    hide StripParity, StreamLayout.Valid, EncodedLength, UnpackDescriptor, ReservedIsZero;
  }

  // What the first clean copy decides.
  lemma DeliveredFirst(view: View, w: Written, i: nat)
    requires w.Valid() && ViewFits(view, w) && i < |w.Chunks()|
    requires i < |w.Slots()| && FirstSlot(view, i) == w.Slots()[i]
    ensures |w.Chunks()[i]| <= w.layout.ChunkCapacity() && |w.Slots()[i]| >= SLOT_TAG_SIZE && view.Valid()
    ensures BlockAt(view, i) == Some(GenuineBlock(w, i))
  {
    hide *;
    FitsMeans(view, w);
    GenuineIsClean(view, w, i);
    SlotSizeMeans(w.layout);
    FirstDecides(view, i);
  }

  lemma SlotSizeMeans(layout: StreamLayout)
    requires layout.Valid()
    ensures layout.SlotSize() >= SLOT_TAG_SIZE
  {}

  lemma DeliveredSecond(view: View, w: Written, i: nat)
    requires w.Valid() && ViewFits(view, w) && i < |w.Chunks()|
    requires view.layout.Valid() && NotOfBlock(w, FirstSlot(view, i), i) && i < |w.Slots()| && SecondSlot(view, i) == w.Slots()[i]
    ensures |w.Chunks()[i]| <= w.layout.ChunkCapacity() && |w.Slots()[i]| >= SLOT_TAG_SIZE && view.Valid()
    ensures BlockAt(view, i) == Some(GenuineBlock(w, i))
  {
    hide *;
    FitsMeans(view, w);
    GenuineIsClean(view, w, i);
    SlotSizeMeans(w.layout);
    AlteredIsNotClean(view, w, FirstSlot(view, i), i);
    FirstDecides(view, i);
    SecondDecides(view, i);
    SecondIsTaken(view, i, Complete(view.layout, FirstSlot(view, i)), w.Slots()[i]);
    CompleteSlot(view.layout, w.Slots()[i]);
  }

  lemma CompleteSlot(layout: StreamLayout, raw: seq<Byte>)
    requires layout.Valid() && |raw| == layout.SlotSize()
    ensures Complete(layout, raw) == Some(raw)
  {}

  lemma SecondIsTaken(view: View, i: nat, first: Option<seq<Byte>>, raw: seq<Byte>)
    requires view.Valid() && (first.Some? ==> |first.value| == view.layout.SlotSize())
    requires |raw| == view.layout.SlotSize() && Clean(view, raw, i).Some?
    ensures RepairedBlock(view, i, first, Some(raw)) == Some(Repaired(Clean(view, raw, i).value, SecondCopy, false))
  {
    hide Clean, DecoderContract, StreamLayout.Valid, Codec.Sound;
  }

  // ----- the blocks add up to what was written

  ghost predicate AllDelivered(view: View, w: Written)
    requires w.Valid() && view.Valid()
  {
    hide *;
    WrittenMeans(w);
    forall i: nat :: i < |w.Chunks()| ==> Delivered(view, w, i)
  }

  ghost predicate Delivered(view: View, w: Written, i: nat)
    requires w.Valid() && view.Valid() && i < |w.Chunks()|
  {
    hide *;
    WrittenMeans(w);
    && i < |w.Slots()|
    && |w.Chunks()[i]| <= w.layout.ChunkCapacity() && |w.Slots()[i]| >= SLOT_TAG_SIZE && BlockAt(view, i) == Some(GenuineBlock(w, i))
  }

  lemma DeliveredMeans(view: View, w: Written, i: nat)
    requires w.Valid() && view.Valid() && AllDelivered(view, w) && i < |w.Chunks()|
    ensures i < |w.Slots()| && |w.Chunks()[i]| <= w.layout.ChunkCapacity() && |w.Slots()[i]| >= SLOT_TAG_SIZE
    ensures BlockAt(view, i) == Some(GenuineBlock(w, i))
  {
    hide Written.Valid, View.Valid, BlockAt, Written.Chunks, Written.Slots, GenuineBlock, StreamLayout.ChunkCapacity;
    AllMeansOne(view, w, i);
  }

  lemma AllMeansOne(view: View, w: Written, i: nat)
    requires w.Valid() && view.Valid() && AllDelivered(view, w) && i < |w.Chunks()|
    ensures Delivered(view, w, i)
  {
    hide Written.Valid, View.Valid, Delivered, Written.Chunks;
  }

  lemma DeliveredIntro(view: View, w: Written, i: nat)
    requires w.Valid() && view.Valid() && i < |w.Chunks()| && w.layout.Valid() && i < |w.Slots()|
    requires |w.Chunks()[i]| <= w.layout.ChunkCapacity() && |w.Slots()[i]| >= SLOT_TAG_SIZE && BlockAt(view, i) == Some(GenuineBlock(w, i))
    ensures Delivered(view, w, i)
  {
    hide Written.Valid, View.Valid, BlockAt, Written.Chunks, Written.Slots, GenuineBlock;
  }

  lemma DeliveredOpens(view: View, w: Written, i: nat)
    requires w.Valid() && ViewFits(view, w) && i < |w.Chunks()| && w.codec.Opens(w.Chunks())
    requires |w.Chunks()[i]| <= w.layout.ChunkCapacity() && |w.Slots()[i]| >= SLOT_TAG_SIZE
    requires view.Valid() && BlockAt(view, i) == Some(GenuineBlock(w, i))
    ensures PlainAt(view, i) == Some(w.Chunks()[i])
  {
    hide *;
    WrittenMeans(w);
    FitsMeans(view, w);
    GenuineBlockIs(w, i);
    PlainMeans(view, i);
    BlockParts(w.codec, w.layout, i, w.Chunks()[i], i == |w.Chunks()| - 1);
    CiphertextIs(GenuineBlock(w, i));
    OpensMeans(w.codec, w.Chunks(), i);
  }

  lemma CiphertextIs(block: Block)
    requires DESCRIPTOR_SIZE + block.chunkLen <= |block.data|
    ensures Ciphertext(block) == block.data[DESCRIPTOR_SIZE..DESCRIPTOR_SIZE + block.chunkLen]
  {}

  lemma OpensMeans(codec: Codec, chunks: seq<seq<Byte>>, i: nat)
    requires codec.Opens(chunks) && i < |chunks|
    ensures codec.open(i, codec.seal(i, chunks[i], i == |chunks| - 1), i == |chunks| - 1) == Some(chunks[i])
  {}

  lemma {:induction false} PlainsAddUp(view: View, chunks: seq<seq<Byte>>, count: nat)
    requires view.Valid() && count <= |chunks| && forall i: nat :: i < count ==> PlainAt(view, i) == Some(chunks[i])
    ensures AllPlain(view, count) && PlainUpTo(view, count) == Flatten(chunks[..count])
  {
    hide View.Valid, PlainAt;
    if count > 0 {
      PlainsAddUp(view, chunks, count - 1);
      assert chunks[..count][..count - 1] == chunks[..count - 1];
    } else {
      assert chunks[..0] == [];
    }
  }

  predicate LongSlots(slots: seq<seq<Byte>>) {
    forall i :: 0 <= i < |slots| ==> |slots[i]| >= SLOT_TAG_SIZE
  }

  function AllTags(slots: seq<seq<Byte>>): (tags: seq<seq<Byte>>)
    requires LongSlots(slots)
    ensures |tags| == |slots|
    ensures forall i :: 0 <= i < |slots| ==> |slots[i]| >= SLOT_TAG_SIZE && tags[i] == TagOf(slots[i])
  {
    TagsOf(slots)
  }

  ghost predicate TagMatches(view: View, slots: seq<seq<Byte>>, i: nat)
    requires view.Valid() && i < |slots| && LongSlots(slots)
  {
    BlockAt(view, i).Some? && BlockAt(view, i).value.tag == TagOf(slots[i])
  }

  lemma {:induction false} TagsAddUp(view: View, slots: seq<seq<Byte>>, count: nat)
    requires view.Valid() && count <= |slots| && LongSlots(slots)
    requires forall i: nat :: i < count ==> TagMatches(view, slots, i)
    ensures TagsUpTo(view, count) == AllTags(slots)[..count]
  {
    hide View.Valid, BlockAt, LongSlots;
    if count > 0 {
      TagsAddUp(view, slots, count - 1);
      assert TagMatches(view, slots, count - 1);
      assert AllTags(slots)[..count] == AllTags(slots)[..count - 1] + [AllTags(slots)[count - 1]];
    }
  }

  // All blocks delivered means all plaintext, and a trailer that agrees.
  lemma DeliveredIsWhole(view: View, w: Written)
    requires w.Valid() && ViewFits(view, w) && w.codec.Opens(w.Chunks()) && view.Valid() && AllDelivered(view, w)
    ensures view.blocks == |w.Chunks()| && AllPlain(view, view.blocks) && DigestAgrees(view)
    ensures PlainUpTo(view, view.blocks) == w.data
  {
    hide *;
    FitsMeans(view, w);
    forall i: nat | i < |w.Chunks()| ensures PlainAt(view, i) == Some(w.Chunks()[i]) {
      DeliveredMeans(view, w, i);
      DeliveredOpens(view, w, i);
    }
    PlainsAddUp(view, w.Chunks(), |w.Chunks()|);
    assert w.Chunks()[..|w.Chunks()|] == w.Chunks();
    ChunksAddUp(w);
    DigestIs(w);
    forall i: nat | i < |w.Slots()| ensures TagMatches(view, w.Slots(), i) {
      DeliveredMeans(view, w, i);
      GenuineBlockIs(w, i);
      TagMatchesIntro(view, w.Slots(), i);
    }
    TagsAddUp(view, w.Slots(), |w.Slots()|);
    assert AllTags(w.Slots())[..|w.Slots()|] == AllTags(w.Slots());
    DigestAgreesIntro(view, w.Trailer());
  }

  lemma TagMatchesIntro(view: View, slots: seq<seq<Byte>>, i: nat)
    requires view.Valid() && i < |slots| && LongSlots(slots) && BlockAt(view, i).Some? && BlockAt(view, i).value.tag == TagOf(slots[i])
    ensures TagMatches(view, slots, i)
  {
    hide View.Valid, BlockAt, LongSlots;
  }

  lemma ChunksAddUp(w: Written)
    requires w.Valid()
    ensures Flatten(w.Chunks()) == w.data
  {
    CutIsFaithful(w.data, w.layout.ChunkCapacity());
  }

  lemma DigestIs(w: Written)
    requires w.Valid()
    ensures |w.Slots()| == |w.Chunks()| && LongSlots(w.Slots())
    ensures w.Trailer().blocksDigest == w.codec.digest(AllTags(w.Slots()))
  {
    SlotsAreLong(w.codec, w.layout, w.Chunks());
    hide Cut, SlotsOf, TagsOf, FitsLayout, StreamLayout.Valid, Codec.Sound, Flatten;
  }

  lemma DigestAgreesIntro(view: View, trailer: Trailer)
    requires view.Valid() && view.codec.digest(TagsUpTo(view, view.blocks)) == trailer.blocksDigest
    requires view.trailer == None || view.trailer == Some(trailer)
    ensures DigestAgrees(view)
  {
    hide View.Valid, TagsUpTo;
  }

  // ----- the end is found

  lemma AcceptedTrailer(w: Written, raw: seq<Byte>, consistent: Trailer -> bool)
    requires w.Valid() && TrailerDetects(w, raw) && consistent(w.Trailer())
    ensures var accepted := Accepted(raw, w.codec.checksum, w.codec.containerId, w.layout, consistent);
            && (accepted == None || accepted == Some(w.Trailer()))
            && (raw == w.Trailer().Seal(w.codec.checksum) ==> accepted == Some(w.Trailer()))
  {
    TrailerOpens(w.codec, w.layout, w.data);
    hide OpenTrailer, Written.Trailer, TrailerOf, Cut, FitsLayout, Codec.Sound, StreamLayout.Valid, Trailer.Seal, Trailer.Packable, Trailer.Plausible;
    assert w.Trailer() == TrailerOf(w.codec, w.layout, w.Chunks());
  }

  // Whichever trailer is accepted is the genuine one, and an intact trailer is accepted.
  lemma FoundTrailers(w: Written, source: seq<Byte>, consistent: Trailer -> bool)
    requires w.Valid() && TrailersDetect(w, source) && consistent(w.Trailer())
    ensures var found := ReadTrailers(source, TrailerOffset(w), w.codec.checksum, w.codec.containerId, w.layout, consistent);
            && (Chosen(found) == None || Chosen(found) == Some(w.Trailer()))
            && (ReadAt(source, TrailerOffset(w), TRAILER_SIZE) == w.Trailer().Seal(w.codec.checksum)
                || ReadAt(source, TrailerOffset(w) + TRAILER_SIZE, TRAILER_SIZE) == w.Trailer().Seal(w.codec.checksum)
                ==> Chosen(found).Some?)
  {
    hide *;
    OffsetPastHeader(w);
    TrailersMean(w, source);
    AcceptedTrailer(w, ReadAt(source, TrailerOffset(w), TRAILER_SIZE), consistent);
    AcceptedTrailer(w, ReadAt(source, TrailerOffset(w) + TRAILER_SIZE, TRAILER_SIZE), consistent);
    ReadTrailersIs(source, TrailerOffset(w), w.codec, w.layout, consistent);
  }

  lemma TrailersMean(w: Written, source: seq<Byte>)
    requires w.Valid() && TrailersDetect(w, source)
    ensures TrailerDetects(w, ReadAt(source, TrailerOffset(w), TRAILER_SIZE))
    ensures TrailerDetects(w, ReadAt(source, TrailerOffset(w) + TRAILER_SIZE, TRAILER_SIZE))
  {
    hide TrailerDetects, ReadAt, TrailerOffset, Written.Valid;
  }

  lemma ReadTrailersIs(source: seq<Byte>, start: nat, codec: Codec, layout: StreamLayout, consistent: Trailer -> bool)
    requires layout.Valid() && start >= HEADER_SIZE
    ensures var found := ReadTrailers(source, start, codec.checksum, codec.containerId, layout, consistent);
            && found.0 == Accepted(ReadAt(source, start, TRAILER_SIZE), codec.checksum, codec.containerId, layout, consistent)
            && found.1 == Accepted(ReadAt(source, start + TRAILER_SIZE, TRAILER_SIZE), codec.checksum, codec.containerId, layout, consistent)
            && Chosen(found) == if found.0.Some? then found.0 else found.1
  {
    hide Accepted, ReadAt, StreamLayout.Valid;
  }

  lemma OffsetPastHeader(w: Written)
    requires w.Valid()
    ensures TrailerOffset(w) >= HEADER_SIZE && w.layout.Valid() && TrailerOffset(w) == w.layout.SlotOffset(2 * |w.Chunks()|)
  {
    hide *;
    EndsStand(w);
    WrittenMeans(w);
    TrailerOffsetIs(w);
  }

  lemma TrailerOffsetIs(w: Written)
    requires w.Valid()
    ensures w.layout.Valid() && TrailerOffset(w) == w.layout.SlotOffset(2 * |w.Chunks()|)
  {
    hide StreamLayout.SlotOffset, StreamLayout.Valid, Written.Chunks, Codec.Sound, FitsLayout;
  }

  lemma IntactIsGenuine(w: Written, source: seq<Byte>, p: nat)
    requires w.Valid() && |source| == |w.Bytes()| && p < 2 * |w.Chunks()| && RawSlot(source, w.layout, p) == RawSlot(w.Bytes(), w.layout, p)
    ensures GenuineAt(source, w.layout, w.codec.decoder, |w.Chunks()|, p)
    ensures DescriptorAt(source, w.layout.SlotOffset(p), w.layout.nsym, w.codec.decoder).Some?
  {
    hide *;
    WrittenMeans(w);
    SlotStands(w, p);
    RawSlotIs(source, w.layout, p);
    var entry := ScheduleOf(|w.Chunks()|, w.layout.interleave)[p];
    SlotCountIs(w);
    DescriptorShows(w, w.codec.decoder, source, w.layout.SlotOffset(p), entry.index);
    GenuineIntro(source, w.layout, w.codec.decoder, |w.Chunks()|, p);
  }

  lemma SlotCountIs(w: Written)
    requires w.Valid()
    ensures |w.Slots()| == |w.Chunks()|
  {
    PiecesMean(w, 0);
  }

  lemma GenuineIntro(source: seq<Byte>, layout: StreamLayout, decoder: Decoder, blocks: nat, p: nat)
    requires layout.Valid() && p < 2 * blocks == |ScheduleOf(blocks, layout.interleave)|
    requires var index := ScheduleOf(blocks, layout.interleave)[p].index;
             DescriptorAt(source, layout.SlotOffset(p), layout.nsym, decoder) == Some(Found(index, index == blocks - 1))
    ensures GenuineAt(source, layout, decoder, blocks, p)
  {
    hide ScheduleOf, DescriptorAt, StreamLayout.SlotOffset;
  }

  // A burst that hits both trailers starts behind every first copy, so the scan for the end probes
  // untouched slots only.
  lemma FirstCopySurvives(w: Written, source: seq<Byte>, start: nat, length: nat, c: nat)
    requires w.Valid() && length <= w.layout.BurstTolerance(|w.Chunks()|) && c < |w.Chunks()|
    requires !Disjoint(start, length, TrailerOffset(w), TRAILER_SIZE)
    requires !Disjoint(start, length, TrailerOffset(w) + TRAILER_SIZE, TRAILER_SIZE)
    ensures w.layout.Valid() && !Touches(w.layout, start, length, FirstCopyPosition(c, w.layout.interleave))
  {
    hide *;
    WrittenMeans(w);
    TrailerOffsetIs(w);
    BurstBeforeEnd(w.layout, |w.Chunks()|, start, length, c);
  }

  lemma BurstBeforeEnd(layout: StreamLayout, blocks: nat, start: nat, length: nat, c: nat)
    requires layout.Valid() && c < blocks && length <= layout.BurstTolerance(blocks)
    requires var end := layout.SlotOffset(2 * blocks);
             !Disjoint(start, length, end, TRAILER_SIZE) && !Disjoint(start, length, end + TRAILER_SIZE, TRAILER_SIZE)
    ensures !Touches(layout, start, length, FirstCopyPosition(c, layout.interleave))
  {
    hide *;
    var p := FirstCopyPosition(c, layout.interleave);
    FirstCopyRoom(layout, blocks, c);
    OneMoreSlot(layout, blocks);
    ProductMonotone(layout.SlotSize(), layout.BurstDistance(blocks) + 1, 2 * blocks - p);
    OffsetStep(layout, p, 2 * blocks);
    TouchesMeans(layout, start, length, p);
    DisjointMeans(start, length, layout.SlotOffset(2 * blocks) + TRAILER_SIZE, TRAILER_SIZE);
  }

  lemma DisjointMeans(start: nat, length: nat, offset: nat, size: nat)
    ensures Disjoint(start, length, offset, size) <==> offset + size <= start || start + length <= offset
  {}

  lemma FirstCopyRoom(layout: StreamLayout, blocks: nat, c: nat)
    requires layout.Valid() && c < blocks
    ensures FirstCopyPosition(c, layout.interleave) + 1 + layout.BurstDistance(blocks) <= 2 * blocks
  {
    assert layout.interleave > 0;
    hide StreamLayout.Valid;
  }

  // With both trailers hit the scan still finds the true count.
  lemma ScanSucceeds(w: Written, source: seq<Byte>, start: nat, length: nat)
    requires w.Valid() && Tolerated(w, source, start, length)
    requires !Disjoint(start, length, TrailerOffset(w), TRAILER_SIZE)
    requires !Disjoint(start, length, TrailerOffset(w) + TRAILER_SIZE, TRAILER_SIZE)
    ensures ScanFrom(source, w.layout, w.codec.decoder, 0) == Some(|w.Chunks()|)
  {
    hide *;
    WrittenMeans(w);
    ToleratedMeans(w, source, start, length);
    var blocks, interleave := |w.Chunks()|, w.layout.interleave;
    forall c: nat | 0 <= c <= blocks - 1 ensures GenuineAt(source, w.layout, w.codec.decoder, blocks, FirstCopyPosition(c, interleave)) {
      ProbeIsGenuine(w, source, start, length, c);
    }
    ProbeIsGenuine(w, source, start, length, blocks - 1);
    ProbeIs(source, w.layout, w.codec.decoder, blocks - 1);
    ScanFindsTheEnd(source, w.layout, w.codec.decoder, blocks, 0, blocks - 1);
  }

  lemma ProbeIsGenuine(w: Written, source: seq<Byte>, start: nat, length: nat, c: nat)
    requires w.Valid() && Tolerated(w, source, start, length) && c < |w.Chunks()|
    requires !Disjoint(start, length, TrailerOffset(w), TRAILER_SIZE)
    requires !Disjoint(start, length, TrailerOffset(w) + TRAILER_SIZE, TRAILER_SIZE)
    ensures var p := FirstCopyPosition(c, w.layout.interleave);
            && p < 2 * |w.Chunks()| && GenuineAt(source, w.layout, w.codec.decoder, |w.Chunks()|, p)
            && DescriptorAt(source, w.layout.SlotOffset(p), w.layout.nsym, w.codec.decoder).Some?
            && w.layout.SlotOffset(p) + w.layout.SlotSize() <= |source|
  {
    hide *;
    WrittenMeans(w);
    ToleratedMeans(w, source, start, length);
    SchedulePlaces(|w.Chunks()|, w.layout.interleave, c);
    FirstCopySurvives(w, source, start, length, c);
    UntouchedSlot(w, source, start, length, FirstCopyPosition(c, w.layout.interleave));
    IntactIsGenuine(w, source, FirstCopyPosition(c, w.layout.interleave));
  }

  lemma ProbeIs(source: seq<Byte>, layout: StreamLayout, decoder: Decoder, candidate: nat)
    requires layout.Valid()
    ensures var p := FirstCopyPosition(candidate, layout.interleave);
            && ProbeAt(source, layout, decoder, candidate) == DescriptorAt(source, layout.SlotOffset(p), layout.nsym, decoder)
            && (layout.SlotOffset(p) + layout.SlotSize() <= |source| ==> InSource(source, layout, candidate))
  {
    SlotSizeIsPositive(layout);
    hide DescriptorAt, StreamLayout.SlotSize, StreamLayout.Valid, StreamLayout.SlotOffset;
  }

  lemma IntactTrailer(w: Written, source: seq<Byte>, start: nat, length: nat, offset: nat)
    requires w.Valid() && DamagedWithin(w.Bytes(), source, start, length)
    requires offset == TrailerOffset(w) || offset == TrailerOffset(w) + TRAILER_SIZE
    requires Disjoint(start, length, offset, TRAILER_SIZE)
    ensures ReadAt(source, offset, TRAILER_SIZE) == w.Trailer().Seal(w.codec.checksum)
  {
    hide *;
    EndsStand(w);
    TrailerOffsetIs(w);
    SameSize(w.Bytes(), source, start, length);
    OutsideIsIntact(w.Bytes(), source, start, length, offset, TRAILER_SIZE);
    ReadWhole(source, offset, TRAILER_SIZE);
  }

  lemma ReadWhole(source: seq<Byte>, offset: nat, length: nat)
    requires offset + length <= |source|
    ensures ReadAt(source, offset, length) == source[offset..offset + length]
    ensures TRAILER_SIZE == 100 && HEADER_SIZE == 152
  {}

  // The end is the true one, with the genuine trailer or with none.
  lemma EndIsFound(w: Written, source: seq<Byte>, start: nat, length: nat)
    requires w.Valid() && Tolerated(w, source, start, length) && TrailersDetect(w, source)
    ensures var end := EndOf(source, w.layout, w.codec.checksum, w.codec.containerId, w.codec.decoder);
            && end.Some? && end.value.blocks == |w.Chunks()|
            && (end.value.trailer == None || end.value.trailer == Some(w.Trailer()))
  {
    hide *;
    WrittenMeans(w);
    ToleratedMeans(w, source, start, length);
    EndsStand(w);
    TrailerOffsetIs(w);
    TrailerMatches(w);
    FoundTrailers(w, source, SizeMatches(w.layout, |source|));
    FoundTrailers(w, source, CountMatches(|w.Chunks()|));
    if Disjoint(start, length, TrailerOffset(w), TRAILER_SIZE) {
      IntactTrailer(w, source, start, length, TrailerOffset(w));
    } else if Disjoint(start, length, TrailerOffset(w) + TRAILER_SIZE, TRAILER_SIZE) {
      IntactTrailer(w, source, start, length, TrailerOffset(w) + TRAILER_SIZE);
    } else {
      ScanSucceeds(w, source, start, length);
    }
    EndUnfolds(source, w.layout, w.codec, TrailerOffset(w), |w.Chunks()|, w.Trailer());
  }

  lemma TrailerMatches(w: Written)
    requires w.Valid()
    ensures w.layout.Valid() && w.Trailer().blocks == |w.Chunks()|
    ensures SizeMatches(w.layout, |w.Bytes()|)(w.Trailer()) && CountMatches(|w.Chunks()|)(w.Trailer())
  {
    ContainerParts(w);
    TrailerOfFields(w.codec, w.layout, w.Chunks());
    hide Written.Bytes, TrailerOf, Cut, FitsLayout, Codec.Sound, StreamLayout.Valid, Flatten, StreamLayout.ContainerSize;
  }

  lemma EndUnfolds(source: seq<Byte>, layout: StreamLayout, codec: Codec, offset: nat, blocks: nat, trailer: Trailer)
    requires layout.Valid() && trailer.blocks == blocks
    requires |source| == offset + 2 * TRAILER_SIZE + HEADER_SIZE && offset == layout.SlotOffset(2 * blocks)
    requires var found := ReadTrailers(source, offset, codec.checksum, codec.containerId, layout, SizeMatches(layout, |source|));
             && (Chosen(found) == None || Chosen(found) == Some(trailer))
             && (Chosen(found) == None ==> ScanFrom(source, layout, codec.decoder, 0) == Some(blocks))
    requires var found := ReadTrailers(source, offset, codec.checksum, codec.containerId, layout, CountMatches(blocks));
             Chosen(found) == None || Chosen(found) == Some(trailer)
    ensures var end := EndOf(source, layout, codec.checksum, codec.containerId, codec.decoder);
            end.Some? && end.value.blocks == blocks && (end.value.trailer == None || end.value.trailer == Some(trailer))
  {
    hide ScanFrom, ReadTrailers, StreamLayout.Valid, StreamLayout.SlotOffset, SizeMatches, CountMatches;
  }

  // ----- the header is found

  lemma HeaderIsFound(w: Written, source: seq<Byte>, start: nat, length: nat, format: HeaderFormat)
    requires w.Valid() && Tolerated(w, source, start, length) && HeadersDetect(w.Bytes(), source, format) && format.verified(w.header)
    ensures ChosenHeader(source, format) == Some(w.header)
  {
    hide *;
    WrittenMeans(w);
    ToleratedMeans(w, source, start, length);
    EndsStand(w);
    BurstMissesAHeader(w.layout, |w.Chunks()|, start, length);
    OneHeaderIntact(w.Bytes(), source, start, length, w.header);
    HeaderChosen(w.Bytes(), source, format, w.header);
  }

  lemma OneHeaderIntact(original: seq<Byte>, source: seq<Byte>, start: nat, length: nat, header: seq<Byte>)
    requires DamagedWithin(original, source, start, length) && |original| >= 2 * HEADER_SIZE
    requires original[..HEADER_SIZE] == header && original[|original| - HEADER_SIZE..] == header
    requires Disjoint(start, length, 0, HEADER_SIZE) || Disjoint(start, length, |original| - HEADER_SIZE, HEADER_SIZE)
    ensures FrontHeader(original) == header && BackHeader(original) == Some(header)
    ensures FrontHeader(source) == header || BackHeader(source) == Some(header)
  {
    HeadersRead(original);
    HeadersRead(source);
    hide FrontHeader, BackHeader, DamagedWithin, Disjoint;
    if Disjoint(start, length, 0, HEADER_SIZE) {
      OutsideIsIntact(original, source, start, length, 0, HEADER_SIZE);
    } else {
      OutsideIsIntact(original, source, start, length, |original| - HEADER_SIZE, HEADER_SIZE);
    }
  }

  lemma HeadersRead(source: seq<Byte>)
    requires |source| >= 2 * HEADER_SIZE
    ensures FrontHeader(source) == source[..HEADER_SIZE] == source[0..HEADER_SIZE]
    ensures BackHeader(source) == Some(source[|source| - HEADER_SIZE..])
    ensures source[|source| - HEADER_SIZE..] == source[|source| - HEADER_SIZE..|source| - HEADER_SIZE + HEADER_SIZE]
  {
    var first := |source| - HEADER_SIZE;
    assert |source| == first + HEADER_SIZE;
    assert source[first..|source|] == source[first..];
  }

  lemma BurstMissesAHeader(layout: StreamLayout, blocks: nat, start: nat, length: nat)
    requires layout.Valid() && blocks > 0 && length <= layout.BurstTolerance(blocks)
    ensures var last := layout.SlotOffset(2 * blocks) + 2 * TRAILER_SIZE;
            Disjoint(start, length, 0, HEADER_SIZE) || Disjoint(start, length, last, HEADER_SIZE)
  {
    var distance, size := layout.BurstDistance(blocks), layout.SlotSize();
    assert distance <= 2 * blocks;
    hide StreamLayout.Valid, StreamLayout.BurstDistance, StreamLayout.SlotSize;
    ProductMonotone(size, distance, 2 * blocks);
  }

  lemma HeaderChosen(original: seq<Byte>, source: seq<Byte>, format: HeaderFormat, header: seq<Byte>)
    requires HeadersDetect(original, source, format) && format.verified(header)
    requires FrontHeader(original) == header && BackHeader(original) == Some(header)
    requires FrontHeader(source) == header || BackHeader(source) == Some(header)
    ensures ChosenHeader(source, format) == Some(header)
  {
    hide FrontHeader, BackHeader;
  }

  // ----- the guarantee

  ghost predicate OpensWith(w: Written, format: HeaderFormat) {
    w.Valid() && w.codec.Opens(w.Chunks()) && format.verified(w.header) && format.parse(w.header) == Some(Keyed(w.layout, w.codec))
  }

  lemma AllBlocksDelivered(view: View, w: Written, start: nat, length: nat)
    requires w.Valid() && ViewFits(view, w) && Tolerated(w, view.source, start, length) && SlotsDetect(w, view.source)
    ensures view.Valid() && AllDelivered(view, w)
  {
    hide *;
    WrittenMeans(w);
    FitsMeans(view, w);
    forall i: nat | i < |w.Chunks()| ensures Delivered(view, w, i) {
      SomeCopyIsIntact(w, view.source, start, length, i);
      CopyPositions(w, i);
      SlotsOfView(view, i);
      SlotsDetectMeans(w, view.source, i);
      if FirstSlot(view, i) == w.Slots()[i] {
        DeliveredFirst(view, w, i);
      } else {
        DeliveredSecond(view, w, i);
      }
      DeliveredIntro(view, w, i);
    }
    AllDeliveredIntro(view, w);
  }

  lemma AllDeliveredIntro(view: View, w: Written)
    requires w.Valid() && view.Valid() && forall i: nat :: i < |w.Chunks()| ==> Delivered(view, w, i)
    ensures AllDelivered(view, w)
  {
    hide Delivered, Written.Valid, View.Valid, Written.Chunks;
  }

  lemma SlotsOfView(view: View, i: nat)
    requires view.layout.Valid()
    ensures FirstSlot(view, i) == RawSlot(view.source, view.layout, FirstCopyPosition(i, view.layout.interleave))
    ensures SecondSlot(view, i) == RawSlot(view.source, view.layout, SecondCopyPosition(i, view.blocks, view.layout.interleave))
  {
    hide RawSlot, StreamLayout.Valid;
  }

  lemma SlotsDetectMeans(w: Written, source: seq<Byte>, i: nat)
    requires w.Valid() && SlotsDetect(w, source) && i < |w.Chunks()|
    ensures w.layout.Valid()
    ensures var p := FirstCopyPosition(i, w.layout.interleave);
            RawSlot(source, w.layout, p) != RawSlot(w.Bytes(), w.layout, p) ==> NotOfBlock(w, RawSlot(source, w.layout, p), i)
  {
    hide RawSlot, NotOfBlock, Written.Bytes, Written.Chunks, StreamLayout.Valid, Codec.Sound, FitsLayout;
    assert FirstDetects(w, source, i);
  }

  // Any one range of at most burst_tolerance(blocks) damaged bytes, anywhere: reading succeeds and
  // yields everything that was written.
  lemma BurstIsTolerated(w: Written, format: HeaderFormat, source: seq<Byte>, start: nat, length: nat)
    requires format.Sound() && OpensWith(w, format)
    requires Tolerated(w, source, start, length) && Detected(w, source, format)
    ensures Readable(source, format) && ReadPlaintext(source, format) == w.data
  {
    hide *;
    OpensMeansValid(w, format);
    DetectedMeans(w, source, format);
    HeaderIsFound(w, source, start, length, format);
    EndIsFound(w, source, start, length);
    ViewIsFound(w, format, source);
    var view := ViewOf(source, format).value;
    AllBlocksDelivered(view, w, start, length);
    DeliveredIsWhole(view, w);
    ReadableMeans(source, format);
  }

  lemma OpensMeansValid(w: Written, format: HeaderFormat)
    requires OpensWith(w, format)
    ensures w.Valid() && w.layout.Valid() && w.codec.Opens(w.Chunks()) && format.verified(w.header)
    ensures format.parse(w.header) == Some(Keyed(w.layout, w.codec))
  {
    hide StreamLayout.Valid, Codec.Sound, Written.Chunks, FitsLayout, Codec.Opens;
  }

  lemma DetectedMeans(w: Written, source: seq<Byte>, format: HeaderFormat)
    requires w.Valid() && Detected(w, source, format)
    ensures HeadersDetect(w.Bytes(), source, format) && SlotsDetect(w, source) && TrailersDetect(w, source)
  {
    hide HeadersDetect, SlotsDetect, TrailersDetect, Written.Valid, Written.Bytes;
  }

  lemma ViewIsFound(w: Written, format: HeaderFormat, source: seq<Byte>)
    requires format.Sound() && OpensWith(w, format) && w.Valid() && ChosenHeader(source, format) == Some(w.header)
    requires var end := EndOf(source, w.layout, w.codec.checksum, w.codec.containerId, w.codec.decoder);
             end.Some? && end.value.blocks == |w.Chunks()| && (end.value.trailer == None || end.value.trailer == Some(w.Trailer()))
    ensures ViewOf(source, format).Some? && ViewOf(source, format).value.source == source
    ensures ViewFits(ViewOf(source, format).value, w)
  {
    hide *;
    OpensMeansValid(w, format);
    var keyed := Keyed(w.layout, w.codec);
    ViewUnfolds(source, format, w.header, keyed);
    ViewIsValid(source, keyed);
    ViewFitsIntro(ViewOf(source, format).value, w);
  }

  lemma ViewUnfolds(source: seq<Byte>, format: HeaderFormat, raw: seq<Byte>, keyed: Keyed)
    requires format.Sound() && ChosenHeader(source, format) == Some(raw) && format.parse(raw) == Some(keyed)
    ensures keyed.layout.Valid() && keyed.codec.Sound() && DecoderContract(keyed.codec.decoder, keyed.layout.nsym)
    ensures ViewOf(source, format) == ViewWith(source, keyed)
    ensures var end := EndOf(source, keyed.layout, keyed.codec.checksum, keyed.codec.containerId, keyed.codec.decoder);
            end.Some? ==> ViewOf(source, format) == Some(View(source, keyed.codec, keyed.layout, end.value.blocks, end.value.trailer))
  {
    hide ChosenHeader, EndOf, StreamLayout.Valid, Codec.Sound, DecoderContract;
  }

  lemma ViewFitsIntro(view: View, w: Written)
    requires w.Valid() && w.layout.Valid() && view.Valid() && view.codec == w.codec && view.layout == w.layout && view.blocks == |w.Chunks()|
    requires view.trailer == None || view.trailer == Some(w.Trailer())
    ensures ViewFits(view, w)
  {
    hide Written.Valid, View.Valid, Written.Chunks, Written.Trailer, StreamLayout.Valid;
  }

  // An undamaged container needs no assumption on the hashes.
  lemma UndamagedIsReadable(w: Written, format: HeaderFormat)
    requires format.Sound() && OpensWith(w, format)
    ensures w.Valid() && Readable(w.Bytes(), format) && ReadPlaintext(w.Bytes(), format) == w.data
  {
    hide *;
    OpensMeansValid(w, format);
    NothingDamaged(w, format);
    BurstIsTolerated(w, format, w.Bytes(), 0, 0);
  }

  lemma NothingDamaged(w: Written, format: HeaderFormat)
    requires w.Valid()
    ensures Detected(w, w.Bytes(), format) && Tolerated(w, w.Bytes(), 0, 0)
  {
    hide *;
    WrittenMeans(w);
    SameBytes(w.Bytes(), format);
    NothingTolerated(w);
    SlotsUnaltered(w);
    IntactTrailer(w, w.Bytes(), 0, 0, TrailerOffset(w));
    IntactTrailer(w, w.Bytes(), 0, 0, TrailerOffset(w) + TRAILER_SIZE);
    TrailersUnaltered(w);
    DetectedIntro(w, w.Bytes(), format);
  }

  lemma SameBytes(source: seq<Byte>, format: HeaderFormat)
    ensures HeadersDetect(source, source, format) && DamagedWithin(source, source, 0, 0)
    ensures forall offset: nat, size: nat :: Disjoint(0, 0, offset, size)
  {
    hide FrontHeader, BackHeader;
  }

  lemma NothingTolerated(w: Written)
    requires w.Valid() && DamagedWithin(w.Bytes(), w.Bytes(), 0, 0)
    ensures Tolerated(w, w.Bytes(), 0, 0)
  {
    hide DamagedWithin, Written.Bytes, Written.Chunks, Codec.Sound, FitsLayout, StreamLayout.Valid, StreamLayout.BurstTolerance;
  }

  lemma SlotsUnaltered(w: Written)
    requires w.Valid()
    ensures SlotsDetect(w, w.Bytes())
  {
    hide RawSlot, NotOfBlock, Written.Bytes, Written.Chunks, Codec.Sound, FitsLayout, StreamLayout.Valid;
  }

  lemma TrailersUnaltered(w: Written)
    requires w.Valid()
    requires ReadAt(w.Bytes(), TrailerOffset(w), TRAILER_SIZE) == w.Trailer().Seal(w.codec.checksum)
    requires ReadAt(w.Bytes(), TrailerOffset(w) + TRAILER_SIZE, TRAILER_SIZE) == w.Trailer().Seal(w.codec.checksum)
    ensures TrailersDetect(w, w.Bytes())
  {
    hide ReadAt, Written.Valid, Written.Bytes, Written.Trailer, TrailerOffset, Trailer.Seal, OpenTrailer;
  }

  lemma DetectedIntro(w: Written, source: seq<Byte>, format: HeaderFormat)
    requires w.Valid() && HeadersDetect(w.Bytes(), source, format) && SlotsDetect(w, source) && TrailersDetect(w, source)
    ensures Detected(w, source, format)
  {
    hide HeadersDetect, SlotsDetect, TrailersDetect, Written.Valid, Written.Bytes;
  }
}
