// What a format 2 container is: the blocks of a plaintext, their slots and the byte string that
// StreamWriter emits.  Hashes and the cipher are function arguments with the laws of Sound.
module Container {
  import opened Wrappers
  import opened Sequences
  import opened Bytes
  import opened Encoder
  import opened CopyRepair
  import opened Layout
  import opened Records

  datatype Codec = Codec(
    containerId: seq<Byte>,
    slotTag: seq<Byte> -> seq<Byte>,
    digest: seq<seq<Byte>> -> seq<Byte>,
    checksum: Checksum,
    seal: (nat, seq<Byte>, bool) -> seq<Byte>,
    open: (nat, seq<Byte>, bool) -> Option<seq<Byte>>,
    decoder: Decoder)
  {
    // Every hash and every sealed chunk has its fixed length.
    ghost predicate Sound() {
      && |containerId| == CONTAINER_ID_LENGTH
      && (forall encoded :: |slotTag(encoded)| == SLOT_TAG_SIZE)
      && (forall tags :: |digest(tags)| == DIGEST_LENGTH)
      && (forall index, chunk, final :: |seal(index, chunk, final)| == |chunk| + TAG_LENGTH)
    }

    // An ideal cipher opens a chunk at an index with a flag only if the run sealed it there.
    ghost predicate Authentic(chunks: seq<seq<Byte>>) {
      forall index: nat, sealed, final :: open(index, sealed, final).Some? ==>
        index < |chunks| && final == (index == |chunks| - 1) && open(index, sealed, final) == Some(chunks[index])
    }

    // What the run sealed opens again.
    ghost predicate Opens(chunks: seq<seq<Byte>>) {
      forall i: nat :: i < |chunks| ==> open(i, seal(i, chunks[i], i == |chunks| - 1), i == |chunks| - 1) == Some(chunks[i])
    }
  }

  // ----- slots

  function FlagOf(final: bool): nat {
    if final then FINAL_FLAG else 0
  }

  // A block: descriptor, sealed chunk and zero padding up to the block size.
  function BlockOf(codec: Codec, layout: StreamLayout, index: nat, chunk: seq<Byte>, final: bool): (block: seq<Byte>)
    requires layout.Valid() && codec.Sound() && |chunk| <= layout.ChunkCapacity()
    ensures |block| == layout.blockSize
  {
    var sealed := codec.seal(index, chunk, final);
    PackDescriptor(Descriptor(index, |sealed|, FlagOf(final))) + sealed
    + Zeros(layout.blockSize - DESCRIPTOR_SIZE - |sealed|)
  }

  // A slot: the encoded block and its tag.
  function SlotOf(codec: Codec, layout: StreamLayout, index: nat, chunk: seq<Byte>, final: bool): seq<Byte>
    requires layout.Valid() && codec.Sound() && |chunk| <= layout.ChunkCapacity()
  {
    var encoded := EncodeBlock(BlockOf(codec, layout, index, chunk, final), layout.nsym);
    encoded + codec.slotTag(encoded)
  }

  lemma SlotLength(codec: Codec, layout: StreamLayout, index: nat, chunk: seq<Byte>, final: bool)
    requires layout.Valid() && codec.Sound() && |chunk| <= layout.ChunkCapacity()
    ensures |SlotOf(codec, layout, index, chunk, final)| == layout.SlotSize()
  {
    hide EncodeBlock, BlockOf, EncodedLength;
    EncodeBlockLength(BlockOf(codec, layout, index, chunk, final), layout.nsym);
  }

  ghost predicate FitsLayout(layout: StreamLayout, chunks: seq<seq<Byte>>)
    requires layout.Valid()
  {
    forall i :: 0 <= i < |chunks| ==> |chunks[i]| <= layout.ChunkCapacity()
  }

  // The slots of all chunks; the last chunk carries the final flag.
  function SlotsOf(codec: Codec, layout: StreamLayout, chunks: seq<seq<Byte>>): (slots: seq<seq<Byte>>)
    requires layout.Valid() && codec.Sound() && FitsLayout(layout, chunks)
    ensures |slots| == |chunks|
    ensures forall i :: 0 <= i < |chunks| ==> slots[i] == SlotOf(codec, layout, i, chunks[i], i == |chunks| - 1)
  {
    hide SlotOf;
    seq(|chunks|, i requires 0 <= i < |chunks| && layout.Valid() && codec.Sound() && FitsLayout(layout, chunks) =>
      SlotOf(codec, layout, i, chunks[i], i == |chunks| - 1))
  }

  function TagOf(slot: seq<Byte>): seq<Byte>
    requires |slot| >= SLOT_TAG_SIZE
  {
    slot[|slot| - SLOT_TAG_SIZE..]
  }

  function TagsOf(slots: seq<seq<Byte>>): (tags: seq<seq<Byte>>)
    requires forall i :: 0 <= i < |slots| ==> |slots[i]| >= SLOT_TAG_SIZE
    ensures |tags| == |slots|
    ensures forall i :: 0 <= i < |slots| ==> tags[i] == TagOf(slots[i])
  {
    seq(|slots|, i requires 0 <= i < |slots| && |slots[i]| >= SLOT_TAG_SIZE => TagOf(slots[i]))
  }

  // ----- the container

  // The slots in the order of a schedule.
  function Arranged(slots: seq<seq<Byte>>, placements: seq<Placement>): (pieces: seq<seq<Byte>>)
    requires forall p :: 0 <= p < |placements| ==> placements[p].index < |slots|
    ensures |pieces| == |placements|
    ensures forall p :: 0 <= p < |placements| ==> pieces[p] == slots[placements[p].index]
  {
    seq(|placements|, p requires 0 <= p < |placements| && placements[p].index < |slots| => slots[placements[p].index])
  }

  function ArrangedSlots(slots: seq<seq<Byte>>, interleave: nat): (pieces: seq<seq<Byte>>)
    ensures |pieces| == 2 * |slots|
  {
    ScheduleEntries(|slots| + interleave, |slots|, interleave);
    Arranged(slots, ScheduleOf(|slots|, interleave))
  }

  function TrailerOf(codec: Codec, layout: StreamLayout, chunks: seq<seq<Byte>>): Trailer
    requires layout.Valid() && codec.Sound() && FitsLayout(layout, chunks) && |chunks| > 0
  {
    var slots := SlotsOf(codec, layout, chunks);
    SlotsAreLong(codec, layout, chunks);
    Trailer(codec.containerId, |chunks|, |Flatten(chunks)|, |chunks[|chunks| - 1]| + TAG_LENGTH, codec.digest(TagsOf(slots)))
  }

  lemma SlotsAreLong(codec: Codec, layout: StreamLayout, chunks: seq<seq<Byte>>)
    requires layout.Valid() && codec.Sound() && FitsLayout(layout, chunks)
    ensures forall i :: 0 <= i < |chunks| ==> |SlotsOf(codec, layout, chunks)[i]| == layout.SlotSize()
  {
    hide SlotOf;
    forall i | 0 <= i < |chunks| ensures |SlotsOf(codec, layout, chunks)[i]| == layout.SlotSize() {
      SlotLength(codec, layout, i, chunks[i], i == |chunks| - 1);
    }
  }

  // What stands around the slots: the header and the trailer, each twice.
  function Enclosed(header: seq<Byte>, slots: seq<Byte>, trailer: seq<Byte>): (whole: seq<Byte>)
    ensures |whole| == 2 * |header| + |slots| + 2 * |trailer|
  {
    hide Flatten;
    FlattenAround(header, slots, trailer);
    Flatten([header, slots, trailer, trailer, header])
  }

  lemma EnclosedParts(header: seq<Byte>, slots: seq<Byte>, trailer: seq<Byte>)
    ensures Enclosed(header, slots, trailer) == header + slots + trailer + trailer + header
  {
    FlattenAround(header, slots, trailer);
    hide Flatten;
  }

  lemma FlattenAround(header: seq<Byte>, slots: seq<Byte>, trailer: seq<Byte>)
    ensures Flatten([header, slots, trailer, trailer, header]) == header + slots + trailer + trailer + header
  {
    FlattenThree([], header, slots, trailer);
    assert Flatten<Byte>([]) == [];
    hide Flatten;
    assert [] + [header, slots, trailer] == [header, slots, trailer];
    FlattenAppend([header, slots, trailer], trailer);
    FlattenAppend([header, slots, trailer, trailer], header);
    assert [header, slots, trailer] + [trailer] == [header, slots, trailer, trailer];
    assert [header, slots, trailer, trailer] + [header] == [header, slots, trailer, trailer, header];
    assert [] + header == header;
  }

  // Header, interleaved slots, trailer twice, header again.
  function ContainerOf(codec: Codec, layout: StreamLayout, header: seq<Byte>, chunks: seq<seq<Byte>>): seq<Byte>
    requires layout.Valid() && codec.Sound() && FitsLayout(layout, chunks) && |chunks| > 0
  {
    var trailer := TrailerOf(codec, layout, chunks).Seal(codec.checksum);
    Enclosed(header, Flatten(ArrangedSlots(SlotsOf(codec, layout, chunks), layout.interleave)), trailer)
  }

  lemma TrailerOfFields(codec: Codec, layout: StreamLayout, chunks: seq<seq<Byte>>)
    requires layout.Valid() && codec.Sound() && FitsLayout(layout, chunks) && |chunks| > 0
    ensures var trailer := TrailerOf(codec, layout, chunks);
            && trailer.containerId == codec.containerId && |trailer.containerId| == CONTAINER_ID_LENGTH
            && |trailer.blocksDigest| == DIGEST_LENGTH
            && trailer.blocks == |chunks| && trailer.plaintextBytes == |Flatten(chunks)|
            && trailer.finalChunkLen == |chunks[|chunks| - 1]| + TAG_LENGTH
  {
    hide SlotsOf, Flatten, TagsOf, FitsLayout;
  }

  lemma CutIsPlausible(trailer: Trailer, layout: StreamLayout, data: seq<Byte>)
    requires layout.Valid()
    requires var chunks := Cut(data, layout.ChunkCapacity());
             && |chunks| <= MAX_BLOCKS
             && trailer.blocks == |chunks| && trailer.plaintextBytes == |Flatten(chunks)|
             && trailer.finalChunkLen == |chunks[|chunks| - 1]| + TAG_LENGTH
    ensures trailer.Plausible(layout)
  {
    hide EncodedLength, Cut, Flatten;
    CutIsFaithful(data, layout.ChunkCapacity());
  }

  // The trailer of a cut plaintext satisfies what StreamTrailer.open checks.
  lemma TrailerOpens(codec: Codec, layout: StreamLayout, data: seq<Byte>)
    requires layout.Valid() && codec.Sound()
    requires FitsLayout(layout, Cut(data, layout.ChunkCapacity()))
    requires |Cut(data, layout.ChunkCapacity())| <= MAX_BLOCKS
    ensures var trailer := TrailerOf(codec, layout, Cut(data, layout.ChunkCapacity()));
            && trailer.Packable() && trailer.Plausible(layout)
            && OpenTrailer(trailer.Seal(codec.checksum), codec.checksum, codec.containerId, layout) == Some(trailer)
  {
    hide *;
    var chunks := Cut(data, layout.ChunkCapacity());
    var trailer := TrailerOf(codec, layout, chunks);
    TrailerOfFields(codec, layout, chunks);
    CutIsPlausible(trailer, layout, data);
    TrailerFits(trailer, layout);
    SealedTrailerOpens(trailer, codec.checksum, layout);
  }

  lemma TrailerFits(trailer: Trailer, layout: StreamLayout)
    requires layout.Valid() && |trailer.containerId| == CONTAINER_ID_LENGTH && |trailer.blocksDigest| == DIGEST_LENGTH
    requires trailer.Plausible(layout)
    ensures trailer.Packable()
  {
    assert Power256(4) == 0x1_0000_0000;
    assert Power256(8) == 0x1_0000_0000 * 0x1_0000_0000;
    hide EncodedLength;
    ProductMonotone(layout.ChunkCapacity(), trailer.blocks - 1, MAX_BLOCKS);
  }
}
