// How StreamReader accepts or repairs one block from its two slots (dbs/container/stream.py).
module BlockRepair {
  import opened Wrappers
  import opened Sequences
  import opened Bytes
  import opened Encoder
  import opened CopyRepair
  import opened Layout
  import opened Records
  import opened Container

  datatype Block = Block(data: seq<Byte>, chunkLen: nat, tag: seq<Byte>)

  // What a reader knows once the header and the end are located.
  datatype View = View(source: seq<Byte>, codec: Codec, layout: StreamLayout, blocks: nat, trailer: Option<Trailer>) {
    ghost predicate Valid() {
      && layout.Valid() && codec.Sound() && DecoderContract(codec.decoder, layout.nsym)
      && blocks >= 1
      && (trailer.Some? ==> trailer.value.blocks == blocks)
    }
  }

  // The bytes at a position; fewer than a slot, or none, when the source is cut short.
  function RawSlot(source: seq<Byte>, layout: StreamLayout, position: nat): seq<Byte>
    requires layout.Valid()
  {
    ReadAt(source, layout.SlotOffset(position), layout.SlotSize())
  }

  // _chunk_len: the chunk length of a block's data, when its descriptor is the expected one.
  function ChunkLen(view: View, data: seq<Byte>, index: nat): (length: Option<nat>)
    requires view.layout.Valid()
    ensures length.Some? ==> |data| == view.layout.blockSize && length.value <= view.layout.MaxChunkLen()
  {
    var layout := view.layout;
    if |data| != layout.blockSize then None
    else
      var d := UnpackDescriptor(data);
      var final := index == view.blocks - 1;
      if d.index != index || d.flags != FlagOf(final) || !ReservedIsZero(data) then None
      else if !final then (if d.chunkLen == layout.MaxChunkLen() then Some(d.chunkLen) else None)
      else if !(TAG_LENGTH <= d.chunkLen <= layout.MaxChunkLen()) then None
      else if view.trailer.Some? && d.chunkLen != view.trailer.value.finalChunkLen then None
      else if data[DESCRIPTOR_SIZE + d.chunkLen..] != Zeros(layout.blockSize - (DESCRIPTOR_SIZE + d.chunkLen)) then None
      else Some(d.chunkLen)
  }

  // _clean: a slot whose tag matches and whose descriptor is the expected one.
  function Clean(view: View, raw: seq<Byte>, index: nat): (block: Option<Block>)
    requires view.layout.Valid()
    ensures block.Some? ==> |block.value.data| == view.layout.blockSize && block.value.chunkLen <= view.layout.MaxChunkLen()
  {
    var layout := view.layout;
    if |raw| != layout.SlotSize() then None
    else
      var encoded, tag := raw[..layout.EncodedSize()], raw[layout.EncodedSize()..];
      if view.codec.slotTag(encoded) != tag then None
      else match StripParity(encoded, layout.nsym)
        case None => None
        case Some(data) =>
          match ChunkLen(view, data, index)
          case None => None
          case Some(length) => Some(Block(data, length, tag))
  }

  // What the data of a block must be: its own descriptor in front, a chunk length that fits its place and
  // the trailer, and in the last block nothing but zeros behind the chunk.
  ghost predicate IsDataOf(view: View, data: seq<Byte>, index: nat, length: nat)
    requires view.layout.Valid()
  {
    var final := index == view.blocks - 1;
    && |data| == view.layout.blockSize && PackDescriptor(Descriptor(index, length, FlagOf(final))) == data[..DESCRIPTOR_SIZE]
    && (if !final then length == view.layout.MaxChunkLen()
        else
          && TAG_LENGTH <= length <= view.layout.MaxChunkLen()
          && (view.trailer.Some? ==> length == view.trailer.value.finalChunkLen)
          && forall k :: DESCRIPTOR_SIZE + length <= k < |data| ==> data[k] == ZERO)
  }

  lemma ChunkLenExactly(view: View, data: seq<Byte>, index: nat, length: nat)
    requires view.layout.Valid() && index < MAX_BLOCKS
    ensures ChunkLen(view, data, index) == Some(length) <==> IsDataOf(view, data, index, length)
  {
    LayoutNumbers(view.layout);
    hide *;
    if |data| == view.layout.blockSize {
      if IsDataOf(view, data, index, length) {
        DataUnpacks(view, data, index, length);
        IsDataMeans(view, data, index, length);
        ChunkLenIntro(view, data, index, length);
      }
      if ChunkLen(view, data, index) == Some(length) {
        ChunkLenMeans(view, data, index, length);
        DescriptorWasPacked(data);
        IsDataIntro(view, data, index, length);
      }
    } else {
      NoData(view, data, index, length);
    }
  }

  lemma LayoutNumbers(layout: StreamLayout)
    requires layout.Valid()
    ensures DESCRIPTOR_SIZE <= layout.blockSize && layout.MaxChunkLen() < Power256(4) && DESCRIPTOR_SIZE + layout.MaxChunkLen() == layout.blockSize
    ensures MAX_BLOCKS <= Power256(8)
  {
    assert Power256(4) == 0x1_0000_0000;
    assert Power256(8) == 0x1_0000_0000 * 0x1_0000_0000;
  }

  lemma NoData(view: View, data: seq<Byte>, index: nat, length: nat)
    requires view.layout.Valid() && |data| != view.layout.blockSize
    ensures ChunkLen(view, data, index) == None && !IsDataOf(view, data, index, length)
  {
    hide StreamLayout.Valid;
  }

  lemma DataUnpacks(view: View, data: seq<Byte>, index: nat, length: nat)
    requires view.layout.Valid() && |data| == view.layout.blockSize >= DESCRIPTOR_SIZE && IsDataOf(view, data, index, length)
    requires index < Power256(8) && view.layout.MaxChunkLen() < Power256(4)
    ensures UnpackDescriptor(data) == Descriptor(index, length, FlagOf(index == view.blocks - 1)) && ReservedIsZero(data)
  {
    var d := Descriptor(index, length, FlagOf(index == view.blocks - 1));
    hide StreamLayout.Valid, PackDescriptor, UnpackDescriptor, ReservedIsZero, Power256;
    DescriptorRoundTrip(d, data[DESCRIPTOR_SIZE..]);
    assert data == data[..DESCRIPTOR_SIZE] + data[DESCRIPTOR_SIZE..];
  }

  lemma IsDataMeans(view: View, data: seq<Byte>, index: nat, length: nat)
    requires view.layout.Valid() && IsDataOf(view, data, index, length) && DESCRIPTOR_SIZE + view.layout.MaxChunkLen() == view.layout.blockSize
    ensures |data| == view.layout.blockSize && length <= view.layout.MaxChunkLen()
    ensures index != view.blocks - 1 ==> length == view.layout.MaxChunkLen()
    ensures index == view.blocks - 1 ==>
      && TAG_LENGTH <= length && (view.trailer.Some? ==> length == view.trailer.value.finalChunkLen)
      && data[DESCRIPTOR_SIZE + length..] == Zeros(view.layout.blockSize - (DESCRIPTOR_SIZE + length))
  {
    hide StreamLayout.Valid, StreamLayout.MaxChunkLen, PackDescriptor;
  }

  lemma ChunkLenIntro(view: View, data: seq<Byte>, index: nat, length: nat)
    requires view.layout.Valid() && |data| == view.layout.blockSize >= DESCRIPTOR_SIZE && length <= view.layout.MaxChunkLen()
    requires DESCRIPTOR_SIZE + view.layout.MaxChunkLen() == view.layout.blockSize
    requires UnpackDescriptor(data) == Descriptor(index, length, FlagOf(index == view.blocks - 1)) && ReservedIsZero(data)
    requires index != view.blocks - 1 ==> length == view.layout.MaxChunkLen()
    requires index == view.blocks - 1 ==>
      && TAG_LENGTH <= length && (view.trailer.Some? ==> length == view.trailer.value.finalChunkLen)
      && data[DESCRIPTOR_SIZE + length..] == Zeros(view.layout.blockSize - (DESCRIPTOR_SIZE + length))
    ensures ChunkLen(view, data, index) == Some(length)
  {
    hide StreamLayout.Valid, StreamLayout.MaxChunkLen, UnpackDescriptor, ReservedIsZero, Zeros;
  }

  lemma ChunkLenMeans(view: View, data: seq<Byte>, index: nat, length: nat)
    requires view.layout.Valid() && |data| == view.layout.blockSize >= DESCRIPTOR_SIZE && ChunkLen(view, data, index) == Some(length)
    requires DESCRIPTOR_SIZE + view.layout.MaxChunkLen() == view.layout.blockSize
    ensures UnpackDescriptor(data) == Descriptor(index, length, FlagOf(index == view.blocks - 1)) && ReservedIsZero(data)
    ensures length <= view.layout.MaxChunkLen() && (index != view.blocks - 1 ==> length == view.layout.MaxChunkLen())
    ensures index == view.blocks - 1 ==>
      && TAG_LENGTH <= length && (view.trailer.Some? ==> length == view.trailer.value.finalChunkLen)
      && data[DESCRIPTOR_SIZE + length..] == Zeros(view.layout.blockSize - (DESCRIPTOR_SIZE + length))
  {
    hide StreamLayout.Valid, StreamLayout.MaxChunkLen, UnpackDescriptor, ReservedIsZero, Zeros;
  }

  lemma IsDataIntro(view: View, data: seq<Byte>, index: nat, length: nat)
    requires view.layout.Valid() && |data| == view.layout.blockSize >= DESCRIPTOR_SIZE && length <= view.layout.MaxChunkLen()
    requires DESCRIPTOR_SIZE + view.layout.MaxChunkLen() == view.layout.blockSize
    requires data[..DESCRIPTOR_SIZE] == PackDescriptor(Descriptor(index, length, FlagOf(index == view.blocks - 1)))
    requires index != view.blocks - 1 ==> length == view.layout.MaxChunkLen()
    requires index == view.blocks - 1 ==>
      && TAG_LENGTH <= length && (view.trailer.Some? ==> length == view.trailer.value.finalChunkLen)
      && data[DESCRIPTOR_SIZE + length..] == Zeros(view.layout.blockSize - (DESCRIPTOR_SIZE + length))
    ensures IsDataOf(view, data, index, length)
  {
    hide StreamLayout.Valid, StreamLayout.MaxChunkLen, PackDescriptor;
    if index == view.blocks - 1 {
      var first := DESCRIPTOR_SIZE + length;
      forall k | first <= k < |data| ensures data[k] == ZERO {
        assert data[k] == data[first..][k - first];
      }
    }
  }

  // A slot is accepted as a block exactly if it carries the tag of its own bytes and their data is that
  // of the block.
  lemma CleanExactly(view: View, raw: seq<Byte>, index: nat, block: Block)
    requires view.layout.Valid() && index < MAX_BLOCKS
    ensures Clean(view, raw, index) == Some(block) <==>
      && |raw| == view.layout.SlotSize() && raw[view.layout.EncodedSize()..] == block.tag
      && view.codec.slotTag(raw[..view.layout.EncodedSize()]) == block.tag
      && StripParity(raw[..view.layout.EncodedSize()], view.layout.nsym) == Some(block.data)
      && IsDataOf(view, block.data, index, block.chunkLen)
  {
    ChunkLenExactly(view, block.data, index, block.chunkLen);
    hide ChunkLen, IsDataOf, StripParity, StreamLayout.EncodedSize;
  }

  // ----- _repair

  // Which counter of the report a repair adds to.
  datatype Origin = SecondCopy | Corrected(merged: bool, onlySecond: bool, decoded: bool)

  datatype Repaired = Repaired(block: Block, origin: Origin, unverified: bool)

  function Present(first: Option<seq<Byte>>, second: Option<seq<Byte>>): (copies: seq<seq<Byte>>)
    ensures |copies| <= 2
    ensures forall n :: 0 <= n < |copies| ==> Some(copies[n]) == first || Some(copies[n]) == second
  {
    (if first.Some? then [first.value] else []) + (if second.Some? then [second.value] else [])
  }

  function EncodedParts(layout: StreamLayout, copies: seq<seq<Byte>>): (parts: seq<seq<Byte>>)
    requires layout.Valid() && forall n :: 0 <= n < |copies| ==> |copies[n]| == layout.SlotSize()
    ensures |parts| == |copies|
    ensures forall n :: 0 <= n < |parts| ==> parts[n] == EncodedPart(layout, copies[n])
  {
    hide EncodedPart;
    seq(|copies|, n requires 0 <= n < |copies| && layout.Valid() && |copies[n]| == layout.SlotSize() => EncodedPart(layout, copies[n]))
  }

  function EncodedPart(layout: StreamLayout, copy: seq<Byte>): (part: seq<Byte>)
    requires layout.Valid() && |copy| == layout.SlotSize()
    ensures |part| == layout.EncodedSize()
  {
    copy[..layout.EncodedSize()]
  }

  lemma PartsHaveShape(layout: StreamLayout, copies: seq<seq<Byte>>)
    requires layout.Valid() && copies != [] && forall n :: 0 <= n < |copies| ==> |copies[n]| == layout.SlotSize()
    ensures SameShape(EncodedParts(layout, copies), layout.EncodedSize(), layout.nsym)
  {
    var block := Zeros(layout.blockSize);
    EncodeBlockLength(block, layout.nsym);
  }

  // The sources used are the first copy only, the second only, or both.
  function OriginOf(first: Option<seq<Byte>>, used: set<nat>, decoded: bool): Origin {
    Corrected({0, 1} <= used, if first.Some? then used == {1} else used == {0}, decoded)
  }

  // The block that the two copies of one index yield, if any.
  ghost function RepairedBlock(view: View, index: nat, first: Option<seq<Byte>>, second: Option<seq<Byte>>): Option<Repaired>
    requires view.Valid()
    requires first.Some? ==> |first.value| == view.layout.SlotSize()
    requires second.Some? ==> |second.value| == view.layout.SlotSize()
  {
    var layout := view.layout;
    var clean := if second.Some? then Clean(view, second.value, index) else None;
    if clean.Some? then Some(Repaired(clean.value, SecondCopy, false))
    else
      var copies := Present(first, second);
      if copies == [] then None
      else
        PartsHaveShape(layout, copies);
        var repair := RepairUpTo(EncodedParts(layout, copies), layout.EncodedSize(), layout.nsym, view.codec.decoder,
                                 CodewordCount(layout.EncodedSize()));
        Judged(view, index, first, copies, repair)
  }

  // The tag check on repaired data.
  function Judged(view: View, index: nat, first: Option<seq<Byte>>, copies: seq<seq<Byte>>, repair: Repair): Option<Repaired>
    requires view.layout.Valid() && forall n :: 0 <= n < |copies| ==> |copies[n]| == view.layout.SlotSize()
  {
    if repair.data.None? then None
    else match ChunkLen(view, repair.data.value, index)
      case None => None
      case Some(length) =>
        var tag := view.codec.slotTag(EncodeBlock(repair.data.value, view.layout.nsym));
        var stored := StoredTags(view.layout, copies);
        if tag !in stored && (repair.decoded || (|stored| == 2 && stored[0] == stored[1])) then None
        else Some(Repaired(Block(repair.data.value, length, tag), OriginOf(first, repair.used, repair.decoded), tag !in stored))
  }

  function StoredTags(layout: StreamLayout, copies: seq<seq<Byte>>): (tags: seq<seq<Byte>>)
    requires layout.Valid() && forall n :: 0 <= n < |copies| ==> |copies[n]| == layout.SlotSize()
    ensures |tags| == |copies|
  {
    seq(|copies|, n requires 0 <= n < |copies| && layout.Valid() && |copies[n]| == layout.SlotSize() => copies[n][layout.EncodedSize()..])
  }

  lemma RepairedBlockShape(view: View, index: nat, first: Option<seq<Byte>>, second: Option<seq<Byte>>)
    requires view.Valid()
    requires first.Some? ==> |first.value| == view.layout.SlotSize()
    requires second.Some? ==> |second.value| == view.layout.SlotSize()
    ensures var repaired := RepairedBlock(view, index, first, second);
            repaired.Some? ==>
              && |repaired.value.block.data| == view.layout.blockSize
              && repaired.value.block.chunkLen <= view.layout.MaxChunkLen()
  {
    hide RepairUpTo, EncodeBlock, DecoderContract, StripParity;
  }

  // ----- one block of the source

  function Complete(layout: StreamLayout, raw: seq<Byte>): Option<seq<Byte>>
    requires layout.Valid()
  {
    if |raw| == layout.SlotSize() then Some(raw) else None
  }

  function FirstSlot(view: View, index: nat): seq<Byte>
    requires view.layout.Valid()
  {
    RawSlot(view.source, view.layout, FirstCopyPosition(index, view.layout.interleave))
  }

  function SecondSlot(view: View, index: nat): seq<Byte>
    requires view.layout.Valid()
  {
    RawSlot(view.source, view.layout, SecondCopyPosition(index, view.blocks, view.layout.interleave))
  }

  function FirstClean(view: View, index: nat): Option<Block>
    requires view.layout.Valid()
  {
    Clean(view, FirstSlot(view, index), index)
  }

  ghost function RepairAt(view: View, index: nat): Option<Repaired>
    requires view.Valid()
  {
    RepairedBlock(view, index, Complete(view.layout, FirstSlot(view, index)), Complete(view.layout, SecondSlot(view, index)))
  }

  // The block that a pass over the source delivers for an index.
  ghost function BlockAt(view: View, index: nat): Option<Block>
    requires view.Valid()
  {
    if FirstClean(view, index).Some? then FirstClean(view, index)
    else match RepairAt(view, index)
      case None => None
      case Some(repaired) => Some(repaired.block)
  }

  lemma BlockShape(view: View, index: nat)
    requires view.Valid()
    ensures var block := BlockAt(view, index);
            block.Some? ==> |block.value.data| == view.layout.blockSize && block.value.chunkLen <= view.layout.MaxChunkLen()
  {
    hide RepairedBlock, Clean;
    RepairedBlockShape(view, index, Complete(view.layout, FirstSlot(view, index)), Complete(view.layout, SecondSlot(view, index)));
  }

  // _repair
  method RepairBlock(view: View, table: seq<seq<seq<Byte>>>, index: nat, first: Option<seq<Byte>>, second: Option<seq<Byte>>)
    returns (repaired: Option<Repaired>)
    requires view.Valid() && IsParityTable(table, view.layout.nsym)
    requires first.Some? ==> |first.value| == view.layout.SlotSize()
    requires second.Some? ==> |second.value| == view.layout.SlotSize()
    ensures repaired == RepairedBlock(view, index, first, second)
  {
    hide IsParityTable, RepairUpTo, Clean, SameShape, EncodeBlock, DecoderContract, ChunkLen;
    if second.Some? {
      var block := Clean(view, second.value, index);
      if block.Some? {
        return Some(Repaired(block.value, SecondCopy, false));
      }
    }
    var copies := Present(first, second);
    if copies == [] {
      return None;
    }
    PartsHaveShape(view.layout, copies);
    var repair := RepairFromCopies(EncodedParts(view.layout, copies), table, view.layout.nsym, view.codec.decoder);
    if repair.data.None? {
      return None;
    }
    var length := ChunkLen(view, repair.data.value, index);
    if length.None? {
      return None;
    }
    var encoded := EncodeMany([repair.data.value], table, view.layout.nsym);
    var tag := view.codec.slotTag(encoded[0]);
    var stored := StoredTags(view.layout, copies);
    if tag !in stored && (repair.decoded || (|stored| == 2 && stored[0] == stored[1])) {
      return None;
    }
    repaired := Some(Repaired(Block(repair.data.value, length.value, tag), OriginOf(first, repair.used, repair.decoded), tag !in stored));
  }
}
