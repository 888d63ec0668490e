// Scattered damage (dbs/container/stream.py): a block whose copies are both damaged comes back
// whenever its codewords can be repaired and the tag rule lets the result pass, and a container whose
// every block is clean or comes back so is read whole.
module Healing {
  import opened Wrappers
  import opened Sequences
  import opened Bytes
  import opened ReedSolomon
  import opened Encoder
  import opened CopyRepair
  import opened Layout
  import opened Records
  import opened Container
  import opened EndOfStream
  import opened BlockRepair
  import opened Reader
  import opened WrittenContainer
  import opened ContainerRead
  import opened BurstSafety

  // ----- one block

  // What is asked of the copies of a block: some slot is whole, and every codeword of the encoded
  // data can be repaired from the slots that are.
  ghost predicate CodewordsHeal(codec: Codec, layout: StreamLayout, data: seq<Byte>, copies: seq<seq<Byte>>)
    requires layout.Valid() && |data| == layout.blockSize
  {
    EncodeBlockLength(data, layout.nsym);
    && copies != [] && AllLong(layout, copies)
    && forall j: nat :: j < CodewordCount(layout.EncodedSize()) ==>
         WordRepairable(CodewordAt(EncodeBlock(data, layout.nsym), j), WordsAt(EncodedParts(layout, copies), j), layout.nsym, codec.decoder)
  }

  ghost predicate AllLong(layout: StreamLayout, copies: seq<seq<Byte>>)
    requires layout.Valid()
  {
    forall n :: 0 <= n < |copies| ==> |copies[n]| == layout.SlotSize()
  }

  // No codeword needs the decoder: each is a word of the code in some copy.
  ghost predicate NothingToDecode(layout: StreamLayout, copies: seq<seq<Byte>>)
    requires layout.Valid() && AllLong(layout, copies)
  {
    forall j: nat :: j < CodewordCount(layout.EncodedSize()) ==> !NoCopyConsistent(EncodedParts(layout, copies), layout.nsym, j)
  }

  // The tag rule: the tag of the block was stored, or nothing was decoded and the copies do not agree
  // on another tag.
  ghost predicate TagLetsPass(layout: StreamLayout, tag: seq<Byte>, copies: seq<seq<Byte>>)
    requires layout.Valid()
  {
    && AllLong(layout, copies)
    && (|| (exists n :: 0 <= n < |copies| && copies[n][layout.EncodedSize()..] == tag)
        || (NothingToDecode(layout, copies)
            && (|copies| == 2 ==> copies[0][layout.EncodedSize()..] != copies[1][layout.EncodedSize()..])))
  }

  // What the repair answers once the data is right.
  lemma JudgedByTag(view: View, i: nat, first: Option<seq<Byte>>, copies: seq<seq<Byte>>, repair: Repair, data: seq<Byte>, length: nat)
    requires view.layout.Valid() && AllLong(view.layout, copies)
    requires repair.data == Some(data) && ChunkLen(view, data, i) == Some(length)
    requires repair.decoded <==> !NothingToDecode(view.layout, copies)
    ensures var tag := view.codec.slotTag(EncodeBlock(data, view.layout.nsym));
            var judged := Judged(view, i, first, copies, repair);
            && (judged.Some? <==> TagLetsPass(view.layout, tag, copies))
            && (judged.Some? ==> judged.value.block == Block(data, length, tag))
  {
    hide ChunkLen, EncodeBlock, NothingToDecode, StreamLayout.EncodedSize, StreamLayout.SlotSize, StoredTags;
    StoredMeans(view.layout, copies, view.codec.slotTag(EncodeBlock(data, view.layout.nsym)));
    hide StreamLayout.Valid;
  }

  lemma StoredMeans(layout: StreamLayout, copies: seq<seq<Byte>>, tag: seq<Byte>)
    requires layout.Valid() && AllLong(layout, copies)
    ensures var stored := StoredTags(layout, copies);
            && |stored| == |copies| && (forall n :: 0 <= n < |copies| ==> stored[n] == copies[n][layout.EncodedSize()..])
            && (tag in stored <==> exists n :: 0 <= n < |copies| && copies[n][layout.EncodedSize()..] == tag)
  {
    hide StreamLayout.Valid, StreamLayout.EncodedSize;
    var stored := StoredTags(layout, copies);
    if tag in stored {
      var n :| 0 <= n < |stored| && stored[n] == tag;
      assert copies[n][layout.EncodedSize()..] == tag;
    }
    if n :| 0 <= n < |copies| && copies[n][layout.EncodedSize()..] == tag {
      assert stored[n] == tag;
    }
  }

  lemma DecodedWords(layout: StreamLayout, copies: seq<seq<Byte>>, decoder: Decoder)
    requires layout.Valid() && AllLong(layout, copies) && copies != []
    ensures SameShape(EncodedParts(layout, copies), layout.EncodedSize(), layout.nsym)
    ensures var repair := RepairUpTo(EncodedParts(layout, copies), layout.EncodedSize(), layout.nsym, decoder, CodewordCount(layout.EncodedSize()));
            repair.data.Some? ==> (repair.decoded <==> !NothingToDecode(layout, copies))
  {
    PartsHaveShape(layout, copies);
    hide RepairUpTo, SameShape, NoCopyConsistent, CodewordCount, EncodedParts, StreamLayout.EncodedSize, StreamLayout.Valid;
    var repair := RepairUpTo(EncodedParts(layout, copies), layout.EncodedSize(), layout.nsym, decoder, CodewordCount(layout.EncodedSize()));
    if repair.data.Some? {
      DecodedMeans(EncodedParts(layout, copies), layout.EncodedSize(), layout.nsym, decoder, CodewordCount(layout.EncodedSize()));
    }
  }

  lemma DataComesBack(view: View, data: seq<Byte>, copies: seq<seq<Byte>>)
    requires view.Valid() && |data| == view.layout.blockSize && CodewordsHeal(view.codec, view.layout, data, copies)
    ensures AllLong(view.layout, copies) && copies != []
    ensures SameShape(EncodedParts(view.layout, copies), view.layout.EncodedSize(), view.layout.nsym)
    ensures RepairUpTo(EncodedParts(view.layout, copies), view.layout.EncodedSize(), view.layout.nsym, view.codec.decoder,
                       CodewordCount(view.layout.EncodedSize())).data == Some(data)
  {
    EncodeBlockLength(data, view.layout.nsym);
    PartsHaveShape(view.layout, copies);
    hide RepairUpTo, SameShape, WordRepairable, CodewordAt, CodewordCount, DecoderContract, EncodeBlock, EncodedParts, WordsAt, StreamLayout.SlotSize;
    CopiesRepair(data, EncodedParts(view.layout, copies), view.layout.nsym, view.codec.decoder);
  }

  // The repair of the copies of a genuine block is that block, exactly if its tag lets it pass.
  lemma MendedIsGenuine(view: View, i: nat, data: seq<Byte>, length: nat, first: Option<seq<Byte>>, second: Option<seq<Byte>>)
    requires view.Valid() && |data| == view.layout.blockSize && ChunkLen(view, data, i) == Some(length)
    requires first.Some? ==> |first.value| == view.layout.SlotSize()
    requires second.Some? ==> |second.value| == view.layout.SlotSize() && Clean(view, second.value, i).None?
    requires CodewordsHeal(view.codec, view.layout, data, Present(first, second))
    ensures var tag := view.codec.slotTag(EncodeBlock(data, view.layout.nsym));
            var repaired := RepairedBlock(view, i, first, second);
            && (repaired.Some? <==> TagLetsPass(view.layout, tag, Present(first, second)))
            && (repaired.Some? ==> repaired.value.block == Block(data, length, tag))
  {
    var copies := Present(first, second);
    DataComesBack(view, data, copies);
    DecodedWords(view.layout, copies, view.codec.decoder);
    var repair := RepairUpTo(EncodedParts(view.layout, copies), view.layout.EncodedSize(), view.layout.nsym, view.codec.decoder,
                             CodewordCount(view.layout.EncodedSize()));
    JudgedByTag(view, i, first, copies, repair, data, length);
    hide Judged, RepairUpTo, Clean, ChunkLen, SameShape, CodewordsHeal, TagLetsPass, EncodeBlock, NothingToDecode, DecoderContract, EncodedParts;
    hide StreamLayout.Valid, StreamLayout.EncodedSize, StreamLayout.SlotSize, CodewordCount, Codec.Sound;
  }

  // ----- the blocks of a written container

  function SentData(w: Written, i: nat): (data: seq<Byte>)
    requires w.Valid() && i < |w.Chunks()|
    ensures w.layout.Valid() && |data| == w.layout.blockSize
  {
    hide *;
    WrittenMeans(w);
    SlotAt(w, i);
    BlockOf(w.codec, w.layout, i, w.Chunks()[i], i == |w.Chunks()| - 1)
  }

  function SentTag(w: Written, i: nat): seq<Byte>
    requires w.Valid() && i < |w.Chunks()|
  {
    w.codec.slotTag(EncodeBlock(SentData(w, i), w.layout.nsym))
  }

  // The slots of one block as a reader finds them.
  function FoundSlots(w: Written, source: seq<Byte>, i: nat): (slots: (seq<Byte>, seq<Byte>))
    requires w.Valid()
  {
    (RawSlot(source, w.layout, FirstCopyPosition(i, w.layout.interleave)),
     RawSlot(source, w.layout, SecondCopyPosition(i, |w.Chunks()|, w.layout.interleave)))
  }

  ghost predicate Mends(w: Written, source: seq<Byte>, i: nat)
    requires w.Valid() && i < |w.Chunks()|
  {
    var (first, second) := FoundSlots(w, source, i);
    var copies := Present(Complete(w.layout, first), Complete(w.layout, second));
    CodewordsHeal(w.codec, w.layout, SentData(w, i), copies) && TagLetsPass(w.layout, SentTag(w, i), copies)
  }

  // A slot that is the block's own delivers it; otherwise the two have to heal it.
  ghost predicate Heals(w: Written, source: seq<Byte>, i: nat)
    requires w.Valid() && i < |w.Chunks()|
  {
    hide *;
    SlotCountIs(w);
    var (first, second) := FoundSlots(w, source, i);
    || first == w.Slots()[i]
    || (NotOfBlock(w, first, i) && (second == w.Slots()[i] || (NotOfBlock(w, second, i) && Mends(w, source, i))))
  }

  // What a reader checks of a block holds of the data that was sent.
  lemma SentFacts(view: View, w: Written, i: nat)
    requires w.Valid() && ViewFits(view, w) && i < |w.Chunks()|
    ensures i < |w.Slots()| && |w.Slots()[i]| >= SLOT_TAG_SIZE && |w.Chunks()[i]| <= w.layout.ChunkCapacity() && view.layout.Valid()
    ensures ChunkLen(view, SentData(w, i), i) == Some(|w.Chunks()[i]| + TAG_LENGTH)
    ensures GenuineBlock(w, i) == Block(SentData(w, i), |w.Chunks()[i]| + TAG_LENGTH, SentTag(w, i))
  {
    hide *;
    FitsMeans(view, w);
    WrittenMeans(w);
    SlotAt(w, i);
    GenuineIsClean(view, w, i);
    SlotSizeMeans(w.layout);
    var final := i == |w.Chunks()| - 1;
    ChunkFitsPlace(view, w, i);
    SentMeans(w, i);
    SlotParts(w.codec, w.layout, i, w.Chunks()[i], final);
    BlockParts(w.codec, w.layout, i, w.Chunks()[i], final);
    ChunkLenOf(view, SentData(w, i), i, |w.Chunks()[i]| + TAG_LENGTH);
    GenuineBlockIs(w, i);
  }

  lemma SentMeans(w: Written, i: nat)
    requires w.Valid() && i < |w.Chunks()| && w.layout.Valid() && w.codec.Sound() && |w.Chunks()[i]| <= w.layout.ChunkCapacity()
    ensures SentData(w, i) == BlockOf(w.codec, w.layout, i, w.Chunks()[i], i == |w.Chunks()| - 1)
    ensures SentTag(w, i) == w.codec.slotTag(EncodeBlock(SentData(w, i), w.layout.nsym))
  {
    hide Written.Valid, Written.Chunks, BlockOf, EncodeBlock;
  }

  lemma FoundMeans(view: View, w: Written, i: nat)
    requires w.Valid() && ViewFits(view, w)
    ensures view.layout.Valid() && FoundSlots(w, view.source, i) == (FirstSlot(view, i), SecondSlot(view, i))
  {
    FitsMeans(view, w);
    SlotsOfView(view, i);
    hide RawSlot, Written.Valid, ViewFits, FirstSlot, SecondSlot, StreamLayout.Valid;
  }

  // Two altered slots whose codewords can be repaired: the block comes back as it was sent exactly if
  // its tag lets it pass, and otherwise it is lost.
  lemma BlockComesBack(view: View, w: Written, i: nat)
    requires w.Valid() && ViewFits(view, w) && i < |w.Chunks()|
    requires var (first, second) := FoundSlots(w, view.source, i); NotOfBlock(w, first, i) && NotOfBlock(w, second, i)
    requires var (first, second) := FoundSlots(w, view.source, i);
             CodewordsHeal(w.codec, w.layout, SentData(w, i), Present(Complete(w.layout, first), Complete(w.layout, second)))
    ensures view.Valid() && i < |w.Slots()| && |w.Slots()[i]| >= SLOT_TAG_SIZE && |w.Chunks()[i]| <= w.layout.ChunkCapacity()
    ensures var (first, second) := FoundSlots(w, view.source, i);
            BlockAt(view, i)
            == if TagLetsPass(w.layout, SentTag(w, i), Present(Complete(w.layout, first), Complete(w.layout, second))) then Some(GenuineBlock(w, i))
               else None
  {
    hide *;
    FitsMeans(view, w);
    FoundMeans(view, w, i);
    SentFacts(view, w, i);
    SentMeans(w, i);
    AlteredIsNotClean(view, w, FirstSlot(view, i), i);
    AlteredIsNotClean(view, w, SecondSlot(view, i), i);
    FirstDecides(view, i);
    SecondDecides(view, i);
    var (first, second) := (Complete(view.layout, FirstSlot(view, i)), Complete(view.layout, SecondSlot(view, i)));
    CompleteIs(view.layout, SecondSlot(view, i));
    MendedIsGenuine(view, i, SentData(w, i), |w.Chunks()[i]| + TAG_LENGTH, first, second);
  }

  lemma CompleteIs(layout: StreamLayout, raw: seq<Byte>)
    requires layout.Valid()
    ensures Complete(layout, raw).Some? ==> Complete(layout, raw).value == raw
  {
    hide StreamLayout.Valid;
  }

  lemma HealedIsDelivered(view: View, w: Written, i: nat)
    requires w.Valid() && ViewFits(view, w) && view.Valid() && i < |w.Chunks()| && Heals(w, view.source, i)
    ensures Delivered(view, w, i)
  {
    hide *;
    FitsMeans(view, w);
    FoundMeans(view, w, i);
    SlotCountIs(w);
    HealsMeans(w, view.source, i);
    if FirstSlot(view, i) == w.Slots()[i] {
      DeliveredFirst(view, w, i);
    } else if SecondSlot(view, i) == w.Slots()[i] {
      DeliveredSecond(view, w, i);
    } else {
      BlockComesBack(view, w, i);
    }
    DeliveredIntro(view, w, i);
  }

  lemma HealsMeans(w: Written, source: seq<Byte>, i: nat)
    requires w.Valid() && i < |w.Chunks()| && Heals(w, source, i)
    ensures |w.Slots()| == |w.Chunks()| && w.layout.Valid()
    ensures var (first, second) := FoundSlots(w, source, i);
            || first == w.Slots()[i]
            || (NotOfBlock(w, first, i)
                && (second == w.Slots()[i]
                    || (NotOfBlock(w, second, i)
                        && (var copies := Present(Complete(w.layout, first), Complete(w.layout, second));
                            CodewordsHeal(w.codec, w.layout, SentData(w, i), copies) && TagLetsPass(w.layout, SentTag(w, i), copies)))))
  {
    SlotCountIs(w);
    WrittenMeans(w);
    hide Written.Valid, Written.Slots, Written.Chunks, NotOfBlock, CodewordsHeal, TagLetsPass, FoundSlots, SentData, SentTag, StreamLayout.Valid;
  }

  // A codeword shows the scan the descriptor that was sent in it with up to nsym/2 changes too.
  lemma DamagedWordShows(sent: seq<Byte>, found: Found, nsym: nat, decoder: Decoder, source: seq<Byte>, offset: nat)
    requires DecoderContract(decoder, nsym) && nsym < |sent| == CODEWORD_SIZE && Vanishes(sent, nsym)
    requires DescriptorOf(Some(sent[..CODEWORD_SIZE - nsym])) == Some(found)
    requires |ReadAt(source, offset, CODEWORD_SIZE)| == CODEWORD_SIZE && |Changed(sent, ReadAt(source, offset, CODEWORD_SIZE))| <= nsym / 2
    ensures DescriptorAt(source, offset, nsym, decoder) == Some(found)
  {
    hide *;
    var word := ReadAt(source, offset, CODEWORD_SIZE);
    WordDecodes(sent, word, nsym, decoder);
    WordAtShows(word, nsym, decoder, offset, source);
  }

  lemma WordDecodes(sent: seq<Byte>, word: seq<Byte>, nsym: nat, decoder: Decoder)
    requires DecoderContract(decoder, nsym) && nsym < |sent| == |word| == CODEWORD_SIZE && Vanishes(sent, nsym)
    requires |Changed(sent, word)| <= nsym / 2
    ensures CodewordMessage(word, nsym, decoder) == Some(sent[..CODEWORD_SIZE - nsym])
  {
    hide Vanishes, Changed, DecoderContract;
    if Vanishes(word, nsym) {
      CloseCodewordIsSent(sent, word, nsym);
    } else {
      DecodesWithin(sent, word, {}, nsym, decoder);
    }
  }

  lemma WordAtShows(word: seq<Byte>, nsym: nat, decoder: Decoder, offset: nat, source: seq<Byte>)
    requires nsym < CODEWORD_SIZE == |word| && word == ReadAt(source, offset, CODEWORD_SIZE)
    ensures DescriptorAt(source, offset, nsym, decoder) == DescriptorOf(CodewordMessage(word, nsym, decoder))
  {
    hide CodewordMessage, ReadAt, DescriptorOf;
  }

  // ----- what a repair says of itself

  // Some codeword was taken from the n-th copy.
  ghost predicate FromCopy(view: View, copies: seq<seq<Byte>>, n: nat)
    requires view.Valid() && copies != [] && AllLong(view.layout, copies)
  {
    PartsHaveShape(view.layout, copies);
    exists j: nat :: j < CodewordCount(view.layout.EncodedSize())
      && SourceAt(EncodedParts(view.layout, copies), view.layout.EncodedSize(), view.layout.nsym, view.codec.decoder, j) == Some(n)
  }

  // Merged: both copies have a part in it.  Only from the second copy: the first has none.  Decoded:
  // some codeword was a word of the code in no copy.  Unverified: no copy carries the block's tag.
  ghost predicate TellsOrigin(view: View, first: Option<seq<Byte>>, copies: seq<seq<Byte>>, repaired: Repaired)
    requires view.Valid() && copies != [] && AllLong(view.layout, copies)
  {
    && repaired.origin.Corrected?
    && (repaired.origin.merged <==> FromCopy(view, copies, 0) && FromCopy(view, copies, 1))
    && (repaired.origin.onlySecond <==> if first.Some? then FromCopy(view, copies, 1) && !FromCopy(view, copies, 0) else FromCopy(view, copies, 0))
    && (repaired.origin.decoded <==> !NothingToDecode(view.layout, copies))
    && (repaired.unverified <==> repaired.block.tag !in StoredTags(view.layout, copies))
    && |repaired.block.data| == view.layout.blockSize
    && repaired.block.tag == view.codec.slotTag(EncodeBlock(repaired.block.data, view.layout.nsym))
  }

  ghost function WholeRepair(view: View, copies: seq<seq<Byte>>): Repair
    requires view.Valid() && copies != [] && AllLong(view.layout, copies)
  {
    PartsHaveShape(view.layout, copies);
    RepairUpTo(EncodedParts(view.layout, copies), view.layout.EncodedSize(), view.layout.nsym, view.codec.decoder,
               CodewordCount(view.layout.EncodedSize()))
  }

  lemma JudgedTells(view: View, i: nat, first: Option<seq<Byte>>, copies: seq<seq<Byte>>, repair: Repair)
    requires view.layout.Valid() && AllLong(view.layout, copies) && Judged(view, i, first, copies, repair).Some?
    ensures var repaired := Judged(view, i, first, copies, repair).value;
            && repair.data == Some(repaired.block.data) && |repaired.block.data| == view.layout.blockSize
            && repaired.block.tag == view.codec.slotTag(EncodeBlock(repaired.block.data, view.layout.nsym))
            && repaired.origin == OriginOf(first, repair.used, repair.decoded)
            && (repaired.unverified <==> repaired.block.tag !in StoredTags(view.layout, copies))
  {
    hide ChunkLen, EncodeBlock, StreamLayout.EncodedSize, StreamLayout.SlotSize, StoredTags, OriginOf, StreamLayout.Valid;
    if repair.data.Some? {
      DataSize(view, repair.data.value, i);
    }
  }

  lemma DataSize(view: View, data: seq<Byte>, i: nat)
    requires view.layout.Valid()
    ensures ChunkLen(view, data, i).Some? ==> |data| == view.layout.blockSize
  {
    hide ChunkLen, IsDataOf, StreamLayout.Valid;
    if |data| != view.layout.blockSize {
      NoData(view, data, i, 0);
    }
  }

  lemma OriginTells(first: Option<seq<Byte>>, used: set<nat>, decoded: bool, count: nat)
    requires count <= 2 && (first.None? ==> count <= 1) && forall n :: n in used ==> n < count
    ensures var origin := OriginOf(first, used, decoded);
            && origin.Corrected? && (origin.merged <==> 0 in used && 1 in used)
            && (origin.onlySecond <==> if first.Some? then 1 in used && 0 !in used else 0 in used) && origin.decoded == decoded
  {
    assert 0 in used && 1 in used ==> {0, 1} <= used;
    if 1 in used && 0 !in used {
      assert used == {1};
    }
    if first.None? && 0 in used {
      assert used == {0};
    }
  }

  lemma UsedIs(view: View, copies: seq<seq<Byte>>, n: nat)
    requires view.Valid() && copies != [] && AllLong(view.layout, copies) && WholeRepair(view, copies).data.Some?
    ensures n in WholeRepair(view, copies).used <==> FromCopy(view, copies, n)
    ensures n in WholeRepair(view, copies).used ==> n < |copies|
    ensures WholeRepair(view, copies).decoded <==> !NothingToDecode(view.layout, copies)
  {
    PartsHaveShape(view.layout, copies);
    var (parts, size) := (EncodedParts(view.layout, copies), view.layout.EncodedSize());
    UsedMeans(parts, size, view.layout.nsym, view.codec.decoder, CodewordCount(size), n);
    DecodedMeans(parts, size, view.layout.nsym, view.codec.decoder, CodewordCount(size));
    if n in WholeRepair(view, copies).used {
      UsedAreCopies(parts, size, view.layout.nsym, view.codec.decoder, CodewordCount(size), n);
    }
    hide RepairUpTo, SourceAt, NoCopyConsistent, EncodedParts, SameShape, View.Valid, StreamLayout.Valid, StreamLayout.EncodedSize, DecoderContract;
  }

  // A repair that had to look into the codewords tells truly where the block came from.
  lemma RepairTells(view: View, i: nat, first: Option<seq<Byte>>, second: Option<seq<Byte>>)
    requires view.Valid()
    requires (first.Some? ==> |first.value| == view.layout.SlotSize()) && (second.Some? ==> |second.value| == view.layout.SlotSize())
    requires RepairedBlock(view, i, first, second).Some?
    ensures var repaired := RepairedBlock(view, i, first, second).value;
            if second.Some? && Clean(view, second.value, i).Some? then repaired == Repaired(Clean(view, second.value, i).value, SecondCopy, false)
            else var copies := Present(first, second); copies != [] && AllLong(view.layout, copies) && TellsOrigin(view, first, copies, repaired)
  {
    if !(second.Some? && Clean(view, second.value, i).Some?) {
      var copies := Present(first, second);
      RepairUnfolds(view, i, first, second);
      JudgedTells(view, i, first, copies, WholeRepair(view, copies));
      UsedIs(view, copies, 0);
      UsedIs(view, copies, 1);
      forall n: nat | n in WholeRepair(view, copies).used ensures n < |copies| {
        UsedIs(view, copies, n);
      }
      OriginTells(first, WholeRepair(view, copies).used, WholeRepair(view, copies).decoded, |copies|);
    }
    hide Judged, WholeRepair, RepairUpTo, Clean, FromCopy, NothingToDecode, StoredTags, EncodeBlock, OriginOf, View.Valid, StreamLayout.Valid,
         StreamLayout.SlotSize, DecoderContract;
  }

  lemma RepairUnfolds(view: View, i: nat, first: Option<seq<Byte>>, second: Option<seq<Byte>>)
    requires view.Valid()
    requires (first.Some? ==> |first.value| == view.layout.SlotSize()) && (second.Some? ==> |second.value| == view.layout.SlotSize())
    requires !(second.Some? && Clean(view, second.value, i).Some?) && RepairedBlock(view, i, first, second).Some?
    ensures var copies := Present(first, second);
            && copies != [] && AllLong(view.layout, copies) && view.layout.Valid()
            && RepairedBlock(view, i, first, second) == Judged(view, i, first, copies, WholeRepair(view, copies))
  {
    hide Judged, RepairUpTo, Clean, EncodedParts, SameShape, StreamLayout.SlotSize, DecoderContract;
  }

  // ----- the whole container

  ghost predicate HeaderSurvives(w: Written, source: seq<Byte>) {
    FrontHeader(source) == w.header || BackHeader(source) == Some(w.header)
  }

  ghost predicate TrailerSurvives(w: Written, source: seq<Byte>)
    requires w.Valid()
  {
    var sealed := w.Trailer().Seal(w.codec.checksum);
    || ReadAt(source, TrailerOffset(w), TRAILER_SIZE) == sealed
    || ReadAt(source, TrailerOffset(w) + TRAILER_SIZE, TRAILER_SIZE) == sealed
  }

  ghost predicate ScanSurvives(w: Written, source: seq<Byte>)
    requires w.Valid()
  {
    ScanFrom(source, w.layout, w.codec.decoder, 0) == Some(|w.Chunks()|)
  }

  // A header and, for the end, a trailer or the scan are left.
  ghost predicate EndsLeft(w: Written, source: seq<Byte>)
    requires w.Valid()
  {
    |source| == |w.Bytes()| && HeaderSurvives(w, source) && (TrailerSurvives(w, source) || ScanSurvives(w, source))
  }

  lemma EndIsLeft(w: Written, source: seq<Byte>)
    requires w.Valid() && EndsLeft(w, source) && TrailersDetect(w, source)
    ensures var end := EndOf(source, w.layout, w.codec.checksum, w.codec.containerId, w.codec.decoder);
            && end.Some? && end.value.blocks == |w.Chunks()|
            && (end.value.trailer == None || end.value.trailer == Some(w.Trailer()))
  {
    hide *;
    WrittenMeans(w);
    EndsMean(w, source);
    if TrailerSurvives(w, source) {
      TrailerSurvivesMeans(w, source);
    } else {
      ScanSurvivesMeans(w, source);
    }
    EndsStand(w);
    TrailerOffsetIs(w);
    TrailerMatches(w);
    FoundTrailers(w, source, SizeMatches(w.layout, |source|));
    FoundTrailers(w, source, CountMatches(|w.Chunks()|));
    EndUnfolds(source, w.layout, w.codec, TrailerOffset(w), |w.Chunks()|, w.Trailer());
  }

  lemma EndsMean(w: Written, source: seq<Byte>)
    requires w.Valid() && EndsLeft(w, source)
    ensures |source| == |w.Bytes()| && HeaderSurvives(w, source) && (TrailerSurvives(w, source) || ScanSurvives(w, source))
  {
    hide HeaderSurvives, TrailerSurvives, ScanSurvives, Written.Valid, Written.Bytes;
  }

  lemma HeaderSurvivesMeans(w: Written, source: seq<Byte>)
    requires HeaderSurvives(w, source)
    ensures FrontHeader(source) == w.header || BackHeader(source) == Some(w.header)
  {
    hide FrontHeader, BackHeader;
  }

  lemma TrailerSurvivesMeans(w: Written, source: seq<Byte>)
    requires w.Valid() && TrailerSurvives(w, source)
    ensures || ReadAt(source, TrailerOffset(w), TRAILER_SIZE) == w.Trailer().Seal(w.codec.checksum)
            || ReadAt(source, TrailerOffset(w) + TRAILER_SIZE, TRAILER_SIZE) == w.Trailer().Seal(w.codec.checksum)
  {
    hide ReadAt, TrailerOffset, Written.Valid, Written.Trailer, Trailer.Seal;
  }

  lemma ScanSurvivesMeans(w: Written, source: seq<Byte>)
    requires w.Valid() && ScanSurvives(w, source)
    ensures ScanFrom(source, w.layout, w.codec.decoder, 0) == Some(|w.Chunks()|)
  {
    hide ScanFrom, Written.Chunks;
  }

  lemma HeaderIsLeft(w: Written, source: seq<Byte>, format: HeaderFormat)
    requires w.Valid() && EndsLeft(w, source) && HeadersDetect(w.Bytes(), source, format) && format.verified(w.header)
    ensures ChosenHeader(source, format) == Some(w.header)
  {
    hide *;
    EndsMean(w, source);
    HeaderSurvivesMeans(w, source);
    EndsStand(w);
    WrittenMeans(w);
    HeadersRead(w.Bytes());
    HeaderChosen(w.Bytes(), source, format, w.header);
  }

  // Damage anywhere, as long as an end is left and every block is whole in one slot or heals from
  // both: reading succeeds and yields everything that was written.
  lemma HealedIsReadable(w: Written, format: HeaderFormat, source: seq<Byte>)
    requires format.Sound() && OpensWith(w, format) && w.Valid()
    requires EndsLeft(w, source) && HeadersDetect(w.Bytes(), source, format) && TrailersDetect(w, source)
    requires forall i: nat :: i < |w.Chunks()| ==> Heals(w, source, i)
    ensures Readable(source, format) && ReadPlaintext(source, format) == w.data
  {
    hide *;
    OpensMeansValid(w, format);
    HeaderIsLeft(w, source, format);
    EndIsLeft(w, source);
    ViewIsFound(w, format, source);
    var view := ViewOf(source, format).value;
    FitsMeans(view, w);
    forall i: nat | i < |w.Chunks()| ensures Delivered(view, w, i) {
      HealedIsDelivered(view, w, i);
    }
    AllDeliveredIntro(view, w);
    DeliveredIsWhole(view, w);
    ReadableMeans(source, format);
  }
}
