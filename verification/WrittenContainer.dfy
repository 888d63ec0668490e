// A written container as a reader finds it (dbs/container/stream.py): every record stands where the
// geometry says, and every genuine slot, trailer and descriptor is accepted.
module WrittenContainer {
  import opened Wrappers
  import opened Sequences
  import opened Bytes
  import opened ReedSolomon
  import opened Parity
  import opened Encoder
  import opened CopyRepair
  import opened Layout
  import opened Records
  import opened Container
  import opened EndOfStream
  import opened BlockRepair

  // One finished run of a writer.
  datatype Written = Written(header: seq<Byte>, codec: Codec, layout: StreamLayout, data: seq<Byte>) {
    ghost predicate Valid() {
      layout.Valid() && codec.Sound() && |header| == HEADER_SIZE && |Chunks()| <= MAX_BLOCKS && FitsLayout(layout, Chunks())
    }

    function Chunks(): (chunks: seq<seq<Byte>>)
      requires layout.Valid()
      ensures |chunks| > 0
    {
      Cut(data, layout.ChunkCapacity())
    }

    function Slots(): seq<seq<Byte>>
      requires Valid()
    {
      SlotsOf(codec, layout, Chunks())
    }

    function Pieces(): seq<seq<Byte>>
      requires Valid()
    {
      ArrangedSlots(Slots(), layout.interleave)
    }

    function Trailer(): Trailer
      requires Valid()
    {
      TrailerOf(codec, layout, Chunks())
    }

    function Bytes(): seq<Byte>
      requires Valid()
    {
      ContainerOf(codec, layout, header, Chunks())
    }
  }

  // ----- where everything stands

  lemma {:induction false} UniformPieces(pieces: seq<seq<Byte>>, size: nat, p: nat)
    requires forall i :: 0 <= i < |pieces| ==> |pieces[i]| == size
    ensures |Flatten(pieces)| == |pieces| * size
    ensures p < |pieces| ==> (p + 1) * size <= |Flatten(pieces)| && Flatten(pieces)[p * size..(p + 1) * size] == pieces[p]
    decreases |pieces|
  {
    if |pieces| > 0 {
      var n := |pieces| - 1;
      UniformPieces(pieces[..n], size, p);
      assert |pieces| * size == n * size + size && (p + 1) * size == p * size + size;
      var front := Flatten(pieces[..n]);
      if p < n {
        assert Flatten(pieces)[p * size..(p + 1) * size] == front[p * size..(p + 1) * size];
      } else if p == n {
        assert Flatten(pieces)[|front|..] == pieces[n];
      }
    } else {
      assert 0 * size == 0;
    }
  }

  lemma PiecesMean(w: Written, p: nat)
    requires w.Valid()
    ensures |w.Slots()| == |w.Chunks()| && |w.Pieces()| == 2 * |w.Chunks()|
    ensures forall i :: 0 <= i < |w.Pieces()| ==> |w.Pieces()[i]| == w.layout.SlotSize()
    ensures p < 2 * |w.Chunks()| ==>
      (var entry := ScheduleOf(|w.Chunks()|, w.layout.interleave)[p];
       entry.index < |w.Chunks()| && w.Pieces()[p] == w.Slots()[entry.index])
  {
    SlotsAreLong(w.codec, w.layout, w.Chunks());
    ScheduleIsBijective(|w.Chunks()|, w.layout.interleave);
    hide SlotsOf, Cut, ScheduleOf, FitsLayout, StreamLayout.Valid, StreamLayout.SlotSize, Codec.Sound;
  }

  // The parts of a container, by length.
  lemma ContainerParts(w: Written)
    requires w.Valid()
    ensures |w.Trailer().Seal(w.codec.checksum)| == TRAILER_SIZE
    ensures |Flatten(w.Pieces())| == 2 * |w.Chunks()| * w.layout.SlotSize()
    ensures w.Bytes() == Enclosed(w.header, Flatten(w.Pieces()), w.Trailer().Seal(w.codec.checksum))
    ensures |w.Bytes()| == w.layout.ContainerSize(|w.Chunks()|)
  {
    TrailerOpens(w.codec, w.layout, w.data);
    var trailer := w.Trailer();
    SealedTrailerOpens(trailer, w.codec.checksum, w.layout);
    PiecesMean(w, 0);
    UniformPieces(w.Pieces(), w.layout.SlotSize(), 0);
    hide *;
    ContainerJoins(w);
    EnclosedParts(w.header, Flatten(w.Pieces()), trailer.Seal(w.codec.checksum));
    SizeOfContainer(w.layout, |w.Chunks()|);
  }

  lemma ContainerJoins(w: Written)
    requires w.Valid()
    ensures w.layout.Valid()
    ensures w.Bytes() == Enclosed(w.header, Flatten(w.Pieces()), w.Trailer().Seal(w.codec.checksum))
    ensures |w.header| == HEADER_SIZE
  {
    hide Enclosed, Cut, SlotsOf, ArrangedSlots, TrailerOf, Flatten, FitsLayout, StreamLayout.Valid, Codec.Sound;
  }

  lemma SizeOfContainer(layout: StreamLayout, blocks: nat)
    requires layout.Valid()
    ensures layout.ContainerSize(blocks) == HEADER_SIZE + 2 * blocks * layout.SlotSize() + 2 * TRAILER_SIZE + HEADER_SIZE
    ensures layout.SlotOffset(2 * blocks) == HEADER_SIZE + 2 * blocks * layout.SlotSize()
    ensures HEADER_SIZE == 152 && TRAILER_SIZE == 100
  {
    hide StreamLayout.SlotSize, StreamLayout.Valid;
  }

  lemma SliceOfMiddle<T>(left: seq<T>, middle: seq<T>, right: seq<T>, first: nat, last: nat)
    requires first <= last <= |middle|
    ensures (left + middle + right)[|left| + first..|left| + last] == middle[first..last]
  {}

  // The slot at a position of the schedule.
  lemma SlotStands(w: Written, p: nat)
    requires w.Valid() && p < 2 * |w.Chunks()|
    ensures var entry := ScheduleOf(|w.Chunks()|, w.layout.interleave)[p];
            entry.index < |w.Slots()| && RawSlot(w.Bytes(), w.layout, p) == w.Slots()[entry.index]
    ensures w.layout.SlotOffset(p) + w.layout.SlotSize() <= w.layout.SlotOffset(2 * |w.Chunks()|) <= |w.Bytes()|
    ensures |RawSlot(w.Bytes(), w.layout, p)| == w.layout.SlotSize()
  {
    hide *;
    WrittenMeans(w);
    PieceInSlots(w, p);
    SlotsInBytes(w, w.layout.SlotOffset(p), w.layout.SlotOffset(p) + w.layout.SlotSize());
    RawSlotIs(w.Bytes(), w.layout, p);
  }

  lemma SlotsInBytes(w: Written, first: nat, last: nat)
    requires w.Valid() && HEADER_SIZE <= first <= last <= HEADER_SIZE + |Flatten(w.Pieces())|
    ensures HEADER_SIZE + |Flatten(w.Pieces())| <= |w.Bytes()|
    ensures w.Bytes()[first..last] == Flatten(w.Pieces())[first - HEADER_SIZE..last - HEADER_SIZE]
  {
    hide *;
    ContainerJoins(w);
    SliceOfEnclosed(w.header, Flatten(w.Pieces()), w.Trailer().Seal(w.codec.checksum), first, last);
  }

  // Where a slot lies among the slots, without the header.
  lemma PieceInSlots(w: Written, p: nat)
    requires w.Valid() && p < 2 * |w.Chunks()|
    ensures w.layout.Valid() && HEADER_SIZE <= w.layout.SlotOffset(p)
    ensures w.layout.SlotOffset(p) + w.layout.SlotSize() <= w.layout.SlotOffset(2 * |w.Chunks()|) == HEADER_SIZE + |Flatten(w.Pieces())|
    ensures var (entry, first) := (ScheduleOf(|w.Chunks()|, w.layout.interleave)[p], w.layout.SlotOffset(p) - HEADER_SIZE);
            && entry.index < |w.Slots()|
            && Flatten(w.Pieces())[first..first + w.layout.SlotSize()] == w.Slots()[entry.index]
            && |w.Slots()[entry.index]| == w.layout.SlotSize()
  {
    hide *;
    WrittenMeans(w);
    var size := w.layout.SlotSize();
    PiecesMean(w, p);
    ContainerParts(w);
    UniformPieces(w.Pieces(), size, p);
    SizeOfContainer(w.layout, |w.Chunks()|);
    SlotOffsetMeans(w.layout, p);
    ProductMonotone(size, p + 1, 2 * |w.Chunks()|);
  }

  lemma SliceOfEnclosed(header: seq<Byte>, slots: seq<Byte>, trailer: seq<Byte>, first: nat, last: nat)
    requires |header| == HEADER_SIZE && HEADER_SIZE <= first <= last <= HEADER_SIZE + |slots|
    ensures HEADER_SIZE + |slots| <= |Enclosed(header, slots, trailer)|
    ensures Enclosed(header, slots, trailer)[first..last] == slots[first - HEADER_SIZE..last - HEADER_SIZE]
  {
    EnclosedParts(header, slots, trailer);
    hide Enclosed;
    assert header + slots + trailer + trailer + header == header + slots + (trailer + trailer + header);
    SliceOfMiddle(header, slots, trailer + trailer + header, first - HEADER_SIZE, last - HEADER_SIZE);
  }

  lemma WrittenMeans(w: Written)
    requires w.Valid()
    ensures |w.header| == HEADER_SIZE && w.layout.Valid() && w.codec.Sound() && 1 <= |w.Chunks()| <= MAX_BLOCKS && w.layout.interleave > 0
  {
    hide Cut, FitsLayout, Codec.Sound;
  }

  lemma SlotOffsetMeans(layout: StreamLayout, p: nat)
    requires layout.Valid()
    ensures layout.SlotOffset(p) == HEADER_SIZE + p * layout.SlotSize() >= HEADER_SIZE
    ensures layout.SlotOffset(p) + layout.SlotSize() == HEADER_SIZE + (p + 1) * layout.SlotSize()
  {
    assert (p + 1) * layout.SlotSize() == p * layout.SlotSize() + layout.SlotSize();
  }

  lemma RawSlotIs(source: seq<Byte>, layout: StreamLayout, p: nat)
    requires layout.Valid() && layout.SlotOffset(p) + layout.SlotSize() <= |source|
    ensures RawSlot(source, layout, p) == source[layout.SlotOffset(p)..layout.SlotOffset(p) + layout.SlotSize()]
  {
    SlotSizeIsPositive(layout);
    hide StreamLayout.SlotOffset, StreamLayout.SlotSize, StreamLayout.Valid;
  }

  lemma SlotSizeIsPositive(layout: StreamLayout)
    requires layout.Valid()
    ensures layout.SlotSize() > 0
  {}

  // The two headers and the two trailers.
  lemma EndsStand(w: Written)
    requires w.Valid()
    ensures var (source, end) := (w.Bytes(), w.layout.SlotOffset(2 * |w.Chunks()|));
            && |source| == end + 2 * TRAILER_SIZE + HEADER_SIZE && end >= HEADER_SIZE
            && source[..HEADER_SIZE] == w.header && source[|source| - HEADER_SIZE..] == w.header
            && source[end..end + TRAILER_SIZE] == w.Trailer().Seal(w.codec.checksum)
            && source[end + TRAILER_SIZE..end + 2 * TRAILER_SIZE] == w.Trailer().Seal(w.codec.checksum)
  {
    ContainerParts(w);
    SizeOfContainer(w.layout, |w.Chunks()|);
    WrittenMeans(w);
    hide *;
    var trailer, slots := w.Trailer().Seal(w.codec.checksum), Flatten(w.Pieces());
    FiveParts(w.header, slots, trailer);
  }

  lemma FiveParts(header: seq<Byte>, slots: seq<Byte>, trailer: seq<Byte>)
    ensures var source := Enclosed(header, slots, trailer);
            var end := |header| + |slots|;
            && source[..|header|] == header && source[|source| - |header|..] == header
            && source[end..end + |trailer|] == trailer && source[end + |trailer|..end + 2 * |trailer|] == trailer
  {
    EnclosedParts(header, slots, trailer);
    hide Enclosed;
  }

  // ----- what a reader makes of genuine records

  ghost predicate ViewFits(view: View, w: Written)
    requires w.Valid()
  {
    && view.Valid() && view.codec == w.codec && view.layout == w.layout && view.blocks == |w.Chunks()|
    && (view.trailer == None || view.trailer == Some(w.Trailer()))
  }

  lemma ChunkLengths(w: Written, i: nat)
    requires w.Valid() && i < |w.Chunks()|
    ensures |w.Chunks()[i]| <= w.layout.ChunkCapacity() && |w.Chunks()[i]| + TAG_LENGTH <= w.layout.MaxChunkLen()
    ensures i < |w.Chunks()| - 1 ==> |w.Chunks()[i]| + TAG_LENGTH == w.layout.MaxChunkLen()
    ensures w.Trailer().finalChunkLen == |w.Chunks()[|w.Chunks()| - 1]| + TAG_LENGTH
  {
    hide Flatten, SlotsOf, EncodedLength;
    CutIsFaithful(w.data, w.layout.ChunkCapacity());
  }

  lemma BlockParts(codec: Codec, layout: StreamLayout, index: nat, chunk: seq<Byte>, final: bool)
    requires layout.Valid() && codec.Sound() && |chunk| <= layout.ChunkCapacity() && index < MAX_BLOCKS
    ensures var data := BlockOf(codec, layout, index, chunk, final);
            var length := |chunk| + TAG_LENGTH;
            && |data| == layout.blockSize && DESCRIPTOR_SIZE + length <= layout.blockSize
            && UnpackDescriptor(data) == Descriptor(index, length, FlagOf(final)) && ReservedIsZero(data)
            && data[DESCRIPTOR_SIZE..DESCRIPTOR_SIZE + length] == codec.seal(index, chunk, final)
            && data[DESCRIPTOR_SIZE + length..] == Zeros(layout.blockSize - (DESCRIPTOR_SIZE + length))
  {
    hide EncodedLength, UnpackDescriptor, ReservedIsZero, PackDescriptor, Zeros, Power256;
    var sealed := codec.seal(index, chunk, final);
    var d := Descriptor(index, |sealed|, FlagOf(final));
    var padding := Zeros(layout.blockSize - DESCRIPTOR_SIZE - |sealed|);
    var data := BlockOf(codec, layout, index, chunk, final);
    DescriptorFits(d);
    hide *;
    DescriptorRoundTrip(d, sealed + padding);
    ThreeParts(PackDescriptor(d), sealed, padding);
  }

  lemma DescriptorFits(d: Descriptor)
    requires d.flags <= 1 && d.index < MAX_BLOCKS && d.chunkLen <= MAX_BLOCK_SIZE
    ensures d.flags < 256 && d.index < Power256(8) && d.chunkLen < Power256(4)
  {
    assert Power256(4) == 0x1_0000_0000;
    assert Power256(8) == 0x1_0000_0000 * 0x1_0000_0000;
  }

  lemma ThreeParts(left: seq<Byte>, middle: seq<Byte>, right: seq<Byte>)
    ensures var whole := left + middle + right;
            && whole[|left|..|left| + |middle|] == middle && whole[|left| + |middle|..] == right && whole == left + (middle + right)
  {}

  // A chunk length that fits its place among the blocks.
  predicate FitsPlace(view: View, i: nat, length: nat)
    requires view.layout.Valid()
  {
    && i < view.blocks && TAG_LENGTH <= length <= view.layout.MaxChunkLen()
    && (i < view.blocks - 1 ==> length == view.layout.MaxChunkLen())
    && (i == view.blocks - 1 && view.trailer.Some? ==> view.trailer.value.finalChunkLen == length)
  }

  lemma ChunkLenOf(view: View, data: seq<Byte>, i: nat, length: nat)
    requires view.layout.Valid() && |data| == view.layout.blockSize && DESCRIPTOR_SIZE + length <= |data| && FitsPlace(view, i, length)
    requires UnpackDescriptor(data) == Descriptor(i, length, FlagOf(i == view.blocks - 1)) && ReservedIsZero(data)
    requires data[DESCRIPTOR_SIZE + length..] == Zeros(view.layout.blockSize - (DESCRIPTOR_SIZE + length))
    ensures ChunkLen(view, data, i) == Some(length)
  {
    hide UnpackDescriptor, ReservedIsZero, EncodedLength, Zeros;
  }

  lemma SlotParts(codec: Codec, layout: StreamLayout, index: nat, chunk: seq<Byte>, final: bool)
    requires layout.Valid() && codec.Sound() && |chunk| <= layout.ChunkCapacity()
    ensures var slot := SlotOf(codec, layout, index, chunk, final);
            var encoded := EncodeBlock(BlockOf(codec, layout, index, chunk, final), layout.nsym);
            && |slot| == layout.SlotSize() && |encoded| == layout.EncodedSize()
            && slot[..layout.EncodedSize()] == encoded && slot[layout.EncodedSize()..] == codec.slotTag(encoded) == TagOf(slot)
            && StripParity(encoded, layout.nsym) == Some(BlockOf(codec, layout, index, chunk, final))
  {
    var data := BlockOf(codec, layout, index, chunk, final);
    EncodeBlockLength(data, layout.nsym);
    EncodedBlockIsSound(data, layout.nsym);
    hide EncodeBlock, BlockOf, EncodedLength, StripWords, IsWellFormed;
  }

  // A genuine slot is clean, and what it yields is its block.
  lemma SlotIsClean(view: View, i: nat, chunk: seq<Byte>)
    requires view.layout.Valid() && view.codec.Sound() && |chunk| <= view.layout.ChunkCapacity() && i < MAX_BLOCKS
    requires FitsPlace(view, i, |chunk| + TAG_LENGTH)
    ensures var final := i == view.blocks - 1;
            var slot := SlotOf(view.codec, view.layout, i, chunk, final);
            && |slot| == view.layout.SlotSize() && |slot| >= SLOT_TAG_SIZE
            && Clean(view, slot, i) == Some(Block(BlockOf(view.codec, view.layout, i, chunk, final), |chunk| + TAG_LENGTH, TagOf(slot)))
  {
    hide *;
    var final := i == view.blocks - 1;
    var slot := SlotOf(view.codec, view.layout, i, chunk, final);
    var data := BlockOf(view.codec, view.layout, i, chunk, final);
    SlotParts(view.codec, view.layout, i, chunk, final);
    BlockParts(view.codec, view.layout, i, chunk, final);
    ChunkLenOf(view, data, i, |chunk| + TAG_LENGTH);
    CleanMeans(view, slot, i, data, |chunk| + TAG_LENGTH);
  }

  lemma CleanMeans(view: View, slot: seq<Byte>, i: nat, data: seq<Byte>, length: nat)
    requires view.layout.Valid() && |slot| == view.layout.SlotSize()
    requires slot[view.layout.EncodedSize()..] == view.codec.slotTag(slot[..view.layout.EncodedSize()])
    requires StripParity(slot[..view.layout.EncodedSize()], view.layout.nsym) == Some(data)
    requires ChunkLen(view, data, i) == Some(length)
    ensures |slot| >= SLOT_TAG_SIZE && Clean(view, slot, i) == Some(Block(data, length, TagOf(slot)))
  {
    hide ChunkLen, StripParity, EncodedLength;
  }

  lemma FitsMeans(view: View, w: Written)
    requires w.Valid() && ViewFits(view, w)
    ensures view.Valid() && view.codec == w.codec && view.layout == w.layout && view.blocks == |w.Chunks()| <= MAX_BLOCKS
    ensures view.trailer == None || view.trailer == Some(w.Trailer())
    ensures w.layout.Valid() && w.codec.Sound()
  {
    hide Cut, FitsLayout, View.Valid, Written.Trailer;
  }

  // What a reader delivers for a genuine slot.
  function GenuineBlock(w: Written, i: nat): Block
    requires w.Valid() && i < |w.Chunks()| && |w.Chunks()[i]| <= w.layout.ChunkCapacity() && |w.Slots()[i]| >= SLOT_TAG_SIZE
  {
    Block(BlockOf(w.codec, w.layout, i, w.Chunks()[i], i == |w.Chunks()| - 1), |w.Chunks()[i]| + TAG_LENGTH, TagOf(w.Slots()[i]))
  }

  lemma GenuineIsClean(view: View, w: Written, i: nat)
    requires w.Valid() && ViewFits(view, w) && i < |w.Chunks()|
    ensures |w.Chunks()[i]| <= w.layout.ChunkCapacity() && |w.Slots()[i]| == w.layout.SlotSize()
    ensures Clean(view, w.Slots()[i], i) == Some(GenuineBlock(w, i))
  {
    hide *;
    FitsMeans(view, w);
    SlotAt(w, i);
    ChunkFitsPlace(view, w, i);
    SlotIsClean(view, i, w.Chunks()[i]);
    GenuineBlockIs(w, i);
  }

  lemma GenuineBlockIs(w: Written, i: nat)
    requires w.Valid() && i < |w.Chunks()| && |w.Chunks()[i]| <= w.layout.ChunkCapacity() && |w.Slots()[i]| >= SLOT_TAG_SIZE
    ensures GenuineBlock(w, i) == Block(BlockOf(w.codec, w.layout, i, w.Chunks()[i], i == |w.Chunks()| - 1), |w.Chunks()[i]| + TAG_LENGTH, TagOf(w.Slots()[i]))
  {
    hide BlockOf, Written.Chunks, Written.Slots, TagOf, Written.Valid;
  }

  lemma ChunkFitsPlace(view: View, w: Written, i: nat)
    requires w.Valid() && ViewFits(view, w) && i < |w.Chunks()|
    ensures FitsPlace(view, i, |w.Chunks()[i]| + TAG_LENGTH) && |w.Chunks()[i]| <= w.layout.ChunkCapacity()
  {
    hide *;
    ChunkLengths(w, i);
    FitsMeans(view, w);
    FitsPlaceIntro(view, i, |w.Chunks()[i]| + TAG_LENGTH);
  }

  lemma FitsPlaceIntro(view: View, i: nat, length: nat)
    requires view.layout.Valid() && i < view.blocks && TAG_LENGTH <= length <= view.layout.MaxChunkLen()
    requires i < view.blocks - 1 ==> length == view.layout.MaxChunkLen()
    requires i == view.blocks - 1 && view.trailer.Some? ==> view.trailer.value.finalChunkLen == length
    ensures FitsPlace(view, i, length)
  {}

  lemma SlotAt(w: Written, i: nat)
    requires w.Valid() && i < |w.Chunks()|
    ensures |w.Slots()| == |w.Chunks()|
    ensures |w.Chunks()[i]| <= w.layout.ChunkCapacity() && w.Slots()[i] == SlotOf(w.codec, w.layout, i, w.Chunks()[i], i == |w.Chunks()| - 1)
  {
    hide SlotOf, Cut, Codec.Sound;
  }

  // The first codeword of a genuine slot shows its descriptor to the scan.
  lemma DescriptorShows(w: Written, decoder: Decoder, source: seq<Byte>, offset: nat, i: nat)
    requires w.Valid() && i < |w.Chunks()|
    requires offset + w.layout.SlotSize() <= |source|
    requires source[offset..offset + w.layout.SlotSize()] == w.Slots()[i]
    ensures DescriptorAt(source, offset, w.layout.nsym, decoder) == Some(Found(i, i == |w.Chunks()| - 1))
  {
    hide *;
    GenuineWord(w, i);
    ReadFirstWord(w.layout, source, offset, w.Slots()[i]);
    WordShows(ReadAt(source, offset, CODEWORD_SIZE), w.layout.nsym, decoder, offset, source);
  }

  lemma GenuineWord(w: Written, i: nat)
    requires w.Valid() && i < |w.Chunks()|
    ensures w.layout.Valid() && w.layout.EncodedSize() > CODEWORD_SIZE > w.layout.nsym
    ensures |w.Slots()| == |w.Chunks()| && |w.Slots()[i]| == w.layout.SlotSize()
    ensures var word := w.Slots()[i][..w.layout.EncodedSize()][..CODEWORD_SIZE];
            && Vanishes(word, w.layout.nsym)
            && DescriptorOf(Some(word[..CODEWORD_SIZE - w.layout.nsym])) == Some(Found(i, i == |w.Chunks()| - 1))
  {
    var final := i == |w.Chunks()| - 1;
    SlotAt(w, i);
    SlotParts(w.codec, w.layout, i, w.Chunks()[i], final);
    BlockParts(w.codec, w.layout, i, w.Chunks()[i], final);
    var data := BlockOf(w.codec, w.layout, i, w.Chunks()[i], final);
    FirstWord(data, w.layout.nsym);
    LayoutBounds(w.layout);
    hide *;
    DescriptorOfBlock(data, data[..CODEWORD_SIZE - w.layout.nsym], i, final);
  }

  lemma LayoutBounds(layout: StreamLayout)
    requires layout.Valid()
    ensures DESCRIPTOR_SIZE <= CODEWORD_SIZE - layout.nsym <= layout.blockSize
  {}

  // The first codeword of an encoded block of at least 512 bytes is full, and its message is the
  // front of the block.
  lemma FirstWord(data: seq<Byte>, nsym: nat)
    requires ValidNsym(nsym) && |data| >= MIN_BLOCK_SIZE
    ensures var encoded := EncodeBlock(data, nsym);
            && |encoded| > CODEWORD_SIZE && nsym < CODEWORD_SIZE
            && Vanishes(encoded[..CODEWORD_SIZE], nsym)
            && encoded[..CODEWORD_SIZE][..CODEWORD_SIZE - nsym] == data[..CODEWORD_SIZE - nsym]
  {
    hide ParityOf, Vanishes;
    var n := PieceLength(|data|, nsym);
    var word := data[..n] + ParityOf(data[..n], nsym);
    EncodedVanishes(data[..n], nsym);
    ParityLength(data[..n], nsym);
    assert EncodeBlock(data, nsym)[..CODEWORD_SIZE] == word;
  }

  lemma ParityLength(message: seq<Byte>, nsym: nat)
    requires nsym > 0
    ensures |ParityOf(message, nsym)| == nsym
  {}

  lemma ReadFirstWord(layout: StreamLayout, source: seq<Byte>, offset: nat, slot: seq<Byte>)
    requires layout.Valid() && |slot| == layout.SlotSize() && layout.EncodedSize() > CODEWORD_SIZE
    requires offset + layout.SlotSize() <= |source| && source[offset..offset + layout.SlotSize()] == slot
    ensures ReadAt(source, offset, CODEWORD_SIZE) == slot[..layout.EncodedSize()][..CODEWORD_SIZE]
  {
    hide StreamLayout.Valid, StreamLayout.EncodedSize;
    var size := layout.SlotSize();
    assert source[offset..offset + size][..CODEWORD_SIZE] == source[offset..offset + CODEWORD_SIZE];
  }

  lemma WordShows(word: seq<Byte>, nsym: nat, decoder: Decoder, offset: nat, source: seq<Byte>)
    requires nsym < CODEWORD_SIZE == |word| && word == ReadAt(source, offset, CODEWORD_SIZE) && Vanishes(word, nsym)
    ensures DescriptorAt(source, offset, nsym, decoder) == DescriptorOf(Some(word[..CODEWORD_SIZE - nsym]))
  {
    hide Vanishes, ReadAt, DescriptorOf;
  }

  lemma DescriptorOfBlock(data: seq<Byte>, message: seq<Byte>, i: nat, final: bool)
    requires DESCRIPTOR_SIZE <= |message| <= |data| && message == data[..|message|]
    requires UnpackDescriptor(data).index == i && UnpackDescriptor(data).flags == FlagOf(final) && ReservedIsZero(data)
    ensures DescriptorOf(Some(message)) == Some(Found(i, final))
  {
    assert message[..8] == data[..8] && message[8..12] == data[8..12] && message[13..16] == data[13..16];
    hide FromBigEndian, Zeros;
  }
}
