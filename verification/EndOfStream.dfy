// Finding the end of a container (dbs/container/stream.py): the trailers, and the scan over block
// descriptors that recovers the block count when both trailers are lost.
module EndOfStream {
  import opened Wrappers
  import opened Sequences
  import opened Bytes
  import opened ReedSolomon
  import opened Encoder
  import opened CopyRepair
  import opened Layout
  import opened Records

  const SCAN_BATCH_BLOCKS: nat := 256

  // ----- descriptors

  // An index and a final flag, when the bytes decode to a plausible descriptor.
  datatype Found = Found(index: nat, final: bool)

  function DescriptorOf(message: Option<seq<Byte>>): Option<Found> {
    if message.None? || |message.value| < DESCRIPTOR_SIZE then None
    else
      var d := UnpackDescriptor(message.value);
      if d.flags > FINAL_FLAG || !ReservedIsZero(message.value) then None
      else Some(Found(d.index, d.flags == FINAL_FLAG))
  }

  // The message starts with the packed descriptor of that index, final flag and length.
  predicate StartsWith(message: seq<Byte>, found: Found, length: nat) {
    && |message| >= DESCRIPTOR_SIZE
    && message[..DESCRIPTOR_SIZE] == PackDescriptor(Descriptor(found.index, length, if found.final then FINAL_FLAG else 0))
  }

  // Only a packed descriptor, with zeros behind it, shows an index and a flag.
  lemma DescriptorExactly(message: seq<Byte>, found: Found)
    ensures DescriptorOf(Some(message)) == Some(found) <==>
      found.index < Power256(8) && exists length: nat :: length < Power256(4) && StartsWith(message, found, length)
  {
    hide PackDescriptor, UnpackDescriptor, ReservedIsZero, Power256;
    if |message| >= DESCRIPTOR_SIZE && DescriptorOf(Some(message)) == Some(found) {
      DescriptorWasPacked(message);
      assert StartsWith(message, found, UnpackDescriptor(message).chunkLen);
    }
    if found.index < Power256(8) && exists length: nat :: length < Power256(4) && StartsWith(message, found, length) {
      var length: nat :| length < Power256(4) && StartsWith(message, found, length);
      DescriptorRoundTrip(Descriptor(found.index, length, if found.final then FINAL_FLAG else 0), message[DESCRIPTOR_SIZE..]);
      assert message == message[..DESCRIPTOR_SIZE] + message[DESCRIPTOR_SIZE..];
    }
  }

  // The message of one full codeword: its data if it is consistent, else what the decoder makes of it.
  ghost function CodewordMessage(word: seq<Byte>, nsym: nat, decoder: Decoder): Option<seq<Byte>>
    requires nsym <= |word|
  {
    if Vanishes(word, nsym) then Some(Message(word, nsym)) else decoder(word, {})
  }

  ghost function DescriptorAt(source: seq<Byte>, offset: nat, nsym: nat, decoder: Decoder): Option<Found>
    requires nsym <= CODEWORD_SIZE
  {
    var word := ReadAt(source, offset, CODEWORD_SIZE);
    if |word| != CODEWORD_SIZE then None else DescriptorOf(CodewordMessage(word, nsym, decoder))
  }

  // ----- _first_descriptors: one parity pass over the joined codewords of many offsets

  function Join(words: seq<seq<Byte>>): seq<Byte> {
    if |words| == 0 then [] else words[0] + Join(words[1..])
  }

  function FullWords(words: seq<seq<Byte>>): (full: seq<seq<Byte>>)
    ensures forall i :: 0 <= i < |full| ==> |full[i]| == CODEWORD_SIZE
    ensures |full| <= |words|
  {
    if |words| == 0 then []
    else (if |words[0]| == CODEWORD_SIZE then [words[0]] else []) + FullWords(words[1..])
  }

  lemma {:induction false} JoinedCodewords(words: seq<seq<Byte>>)
    requires forall i :: 0 <= i < |words| ==> |words[i]| == CODEWORD_SIZE
    ensures |Join(words)| == |words| * CODEWORD_SIZE
    ensures Codewords(Join(words)) == words
  {
    if |words| > 0 {
      JoinedCodewords(words[1..]);
      var joined := Join(words);
      assert joined[..CODEWORD_SIZE] == words[0] && joined[CODEWORD_SIZE..] == Join(words[1..]);
    }
  }

  // The full words from a number on are those among the words from an index on.
  predicate Level(words: seq<seq<Byte>>, full: seq<seq<Byte>>, i: nat, number: nat) {
    && i <= |words| && number <= |full| && full[number..] == FullWords(words[i..])
  }

  lemma LevelStart(words: seq<seq<Byte>>)
    ensures Level(words, FullWords(words), 0, 0)
  {
    assert words[0..] == words && FullWords(words)[0..] == FullWords(words);
  }

  lemma LevelStep(words: seq<seq<Byte>>, full: seq<seq<Byte>>, i: nat, number: nat)
    requires i < |words| && Level(words, full, i, number)
    ensures |words[i]| != CODEWORD_SIZE ==> Level(words, full, i + 1, number)
    ensures |words[i]| == CODEWORD_SIZE ==> number < |full| && full[number] == words[i] && Level(words, full, i + 1, number + 1)
  {
    assert words[i..][0] == words[i] && words[i..][1..] == words[i + 1..];
    if |words[i]| == CODEWORD_SIZE {
      assert full[number..][0] == words[i];
      assert full[number..][1..] == full[number + 1..];
      assert full[number..] == [words[i]] + FullWords(words[i + 1..]);
    }
  }

  lemma ListedOrNot(full: seq<seq<Byte>>, number: nat, nsym: nat, decoder: Decoder)
    requires number < |full| && |full[number]| == CODEWORD_SIZE && nsym <= CODEWORD_SIZE
    ensures CodewordMessage(full[number], nsym, decoder)
         == if number in DamagedFrom(full, 0, nsym) then decoder(full[number], {}) else Some(Message(full[number], nsym))
  {
    hide Vanishes, DamagedFrom, Message;
    DamagedMembers(full, 0, nsym, number);
  }

  lemma DescriptorMeans(source: seq<Byte>, offset: nat, nsym: nat, decoder: Decoder)
    requires nsym <= CODEWORD_SIZE
    ensures var word := ReadAt(source, offset, CODEWORD_SIZE);
            (DescriptorAt(source, offset, nsym, decoder)
             == if |word| != CODEWORD_SIZE then None else DescriptorOf(CodewordMessage(word, nsym, decoder)))
  {}

  lemma JoinIsDamaged(full: seq<seq<Byte>>, nsym: nat)
    requires ValidNsym(nsym) && forall i :: 0 <= i < |full| ==> |full[i]| == CODEWORD_SIZE
    ensures IsWellFormed(|Join(full)|, nsym) && Codewords(Join(full)) == full
  {
    JoinedCodewords(full);
    hide Codewords, Join;
  }

  lemma NsymFits(nsym: nat)
    requires ValidNsym(nsym)
    ensures nsym <= CODEWORD_SIZE
  {}

  method FirstDescriptors(source: seq<Byte>, offsets: seq<nat>, table: seq<seq<seq<Byte>>>, nsym: nat, decoder: Decoder)
    returns (descriptors: seq<Option<Found>>)
    requires IsParityTable(table, nsym) && ValidNsym(nsym)
    ensures |descriptors| == |offsets|
    ensures forall i :: 0 <= i < |offsets| ==> descriptors[i] == DescriptorAt(source, offsets[i], nsym, decoder)
  {
    hide *;
    NsymFits(nsym);
    var words := seq(|offsets|, i requires 0 <= i < |offsets| => ReadAt(source, offsets[i], CODEWORD_SIZE));
    var full := FullWords(words);
    JoinIsDamaged(full, nsym);
    var damaged := DamagedCodewords(Join(full), table, nsym);
    descriptors := [];
    var number := 0;
    LevelStart(words);
    for i := 0 to |words|
      invariant |descriptors| == i && Level(words, full, i, number)
      invariant forall d :: 0 <= d < i ==> descriptors[d] == DescriptorAt(source, offsets[d], nsym, decoder)
    {
      var word := words[i];
      LevelStep(words, full, i, number);
      DescriptorMeans(source, offsets[i], nsym, decoder);
      if |word| != CODEWORD_SIZE {
        descriptors := descriptors + [None];
      } else {
        ListedOrNot(full, number, nsym, decoder);
        var message := if number in damaged.value then decoder(word, {}) else Some(Message(word, nsym));
        number := number + 1;
        descriptors := descriptors + [DescriptorOf(message)];
      }
    }
  }

  // ----- _scan_block_count

  // What one probed position says about the number of blocks.
  function ScanDecision(candidate: nat, interleave: nat, descriptor: Option<Found>): Option<nat> {
    match descriptor
    case None => None
    case Some(found) =>
      if found.index == candidate && found.final then Some(candidate + 1)
      else if found.index < candidate then
        var count := FirstCopyPosition(candidate, interleave) - found.index;
        if 0 < count <= candidate && count - interleave <= found.index < count then Some(count) else None
      else None
  }

  // A block count is read off exactly if the probe is the first copy of a last block, or, with that many
  // blocks, the second copy of the index stands at the probe.
  lemma ScanDecidesExactly(candidate: nat, interleave: nat, found: Found, count: nat)
    requires interleave > 0
    ensures ScanDecision(candidate, interleave, Some(found)) == Some(count) <==>
      || (found.index == candidate && found.final && count == candidate + 1)
      || (found.index < candidate && 0 < count <= candidate && found.index < count
          && SecondCopyPosition(found.index, count, interleave) == FirstCopyPosition(candidate, interleave))
  {}

  function ProbeOffset(layout: StreamLayout, candidate: nat): nat
    requires layout.Valid()
  {
    layout.SlotOffset(FirstCopyPosition(candidate, layout.interleave))
  }

  ghost function ProbeAt(source: seq<Byte>, layout: StreamLayout, decoder: Decoder, candidate: nat): Option<Found>
    requires layout.Valid()
  {
    DescriptorAt(source, ProbeOffset(layout, candidate), layout.nsym, decoder)
  }

  predicate InSource(source: seq<Byte>, layout: StreamLayout, candidate: nat)
    requires layout.Valid()
  {
    ProbeOffset(layout, candidate) < |source|
  }

  // The first probe from a candidate on that decides the count.
  ghost function ScanFrom(source: seq<Byte>, layout: StreamLayout, decoder: Decoder, candidate: nat): Option<nat>
    requires layout.Valid()
    decreases MAX_BLOCKS - candidate
  {
    if candidate >= MAX_BLOCKS || !InSource(source, layout, candidate) then None
    else
      var decision := ScanDecision(candidate, layout.interleave, ProbeAt(source, layout, decoder, candidate));
      if decision.Some? then decision else ScanFrom(source, layout, decoder, candidate + 1)
  }

  // The offsets of one batch of probes, up to the end of the source.
  method ProbeOffsets(source: seq<Byte>, layout: StreamLayout, index: nat) returns (offsets: seq<nat>)
    requires layout.Valid() && index < MAX_BLOCKS
    ensures index + |offsets| <= MAX_BLOCKS
    ensures offsets == [] ==> !InSource(source, layout, index)
    ensures forall i :: 0 <= i < |offsets| ==> offsets[i] == ProbeOffset(layout, index + i) && offsets[i] < |source|
  {
    hide ProbeOffset;
    offsets := [];
    var end := if index + SCAN_BATCH_BLOCKS < MAX_BLOCKS then index + SCAN_BATCH_BLOCKS else MAX_BLOCKS;
    var candidate := index;
    while candidate < end && InSource(source, layout, candidate)
      invariant index <= candidate <= end && |offsets| == candidate - index
      invariant forall i :: 0 <= i < |offsets| ==> offsets[i] == ProbeOffset(layout, index + i) && offsets[i] < |source|
    {
      offsets := offsets + [ProbeOffset(layout, candidate)];
      candidate := candidate + 1;
    }
  }

  method ScanBlockCount(source: seq<Byte>, layout: StreamLayout, table: seq<seq<seq<Byte>>>, decoder: Decoder)
    returns (count: Option<nat>)
    requires layout.Valid() && IsParityTable(table, layout.nsym)
    ensures count == ScanFrom(source, layout, decoder, 0)
  {
    hide IsParityTable, DescriptorAt, ProbeOffset, ScanDecision;
    var index := 0;
    while index < MAX_BLOCKS
      invariant index <= MAX_BLOCKS
      invariant ScanFrom(source, layout, decoder, 0) == ScanFrom(source, layout, decoder, index)
    {
      var offsets := ProbeOffsets(source, layout, index);
      if offsets == [] {
        return None;
      }
      var descriptors := FirstDescriptors(source, offsets, table, layout.nsym, decoder);
      for i := 0 to |descriptors|
        invariant ScanFrom(source, layout, decoder, 0) == ScanFrom(source, layout, decoder, index + i)
      {
        assert offsets[i] == ProbeOffset(layout, index + i) < |source|;
        var decision := ScanDecision(index + i, layout.interleave, descriptors[i]);
        if decision.Some? {
          return decision;
        }
      }
      index := index + |offsets|;
    }
    count := None;
  }

  // ----- what the scan guarantees

  // A descriptor that decodes at a position belongs to the slot that stands there.
  ghost predicate GenuineAt(source: seq<Byte>, layout: StreamLayout, decoder: Decoder, blocks: nat, p: nat)
    requires layout.Valid()
  {
    DescriptorAt(source, layout.SlotOffset(p), layout.nsym, decoder).Some? ==>
      && p < 2 * blocks
      && DescriptorAt(source, layout.SlotOffset(p), layout.nsym, decoder)
         == Some(Found(ScheduleOf(blocks, layout.interleave)[p].index,
                       ScheduleOf(blocks, layout.interleave)[p].index == blocks - 1))
  }

  ghost predicate Genuine(source: seq<Byte>, layout: StreamLayout, decoder: Decoder, blocks: nat)
    requires layout.Valid()
  {
    forall p: nat :: GenuineAt(source, layout, decoder, blocks, p)
  }

  // A probed position past the last block's first copy holds a second copy from the tail of the
  // schedule, whose index tells the number of blocks.
  lemma TailProbe(blocks: nat, interleave: nat, candidate: nat)
    requires 0 < blocks <= candidate && interleave > 0
    requires FirstCopyPosition(candidate, interleave) < 2 * blocks
    ensures var entry := ScheduleOf(blocks, interleave)[FirstCopyPosition(candidate, interleave)];
            && !entry.first && entry.index < candidate
            && FirstCopyPosition(candidate, interleave) - entry.index == blocks
            && blocks - interleave <= entry.index < blocks
  {
    ScheduleIsBijective(blocks, interleave);
    hide ScheduleOf;
    var p := FirstCopyPosition(candidate, interleave);
    var entry := ScheduleOf(blocks, interleave)[p];
    assert p == PositionOf(entry.index, entry.first, blocks, interleave);
  }

  // With genuine descriptors a probe decides the right count or nothing, and a probe that shows
  // the last block or a tail slot decides it.
  lemma ProbeIsSound(source: seq<Byte>, layout: StreamLayout, decoder: Decoder, blocks: nat, candidate: nat)
    requires layout.Valid() && blocks > 0 && GenuineAt(source, layout, decoder, blocks, FirstCopyPosition(candidate, layout.interleave))
    ensures var decision := ScanDecision(candidate, layout.interleave, ProbeAt(source, layout, decoder, candidate));
            && (decision.Some? ==> decision.value == blocks)
            && (candidate >= blocks - 1 && ProbeAt(source, layout, decoder, candidate).Some? ==> decision == Some(blocks))
  {
    hide DescriptorAt, ScheduleOf, StreamLayout.SlotOffset;
    var p := FirstCopyPosition(candidate, layout.interleave);
    if ProbeAt(source, layout, decoder, candidate).Some? {
      assert DescriptorAt(source, layout.SlotOffset(p), layout.nsym, decoder).Some?;
      if candidate < blocks {
        ScheduleIsBijective(blocks, layout.interleave);
        assert p == PositionOf(candidate, true, blocks, layout.interleave);
        assert ScheduleOf(blocks, layout.interleave)[p] == Placement(p, candidate, true);
      } else {
        TailProbe(blocks, layout.interleave, candidate);
      }
    }
  }

  // The scan never returns a wrong count.
  lemma {:induction false} ScanIsNeverWrong(source: seq<Byte>, layout: StreamLayout, decoder: Decoder, blocks: nat, candidate: nat)
    requires layout.Valid() && blocks > 0 && Genuine(source, layout, decoder, blocks)
    ensures var count := ScanFrom(source, layout, decoder, candidate); count.Some? ==> count.value == blocks
    decreases MAX_BLOCKS - candidate
  {
    hide GenuineAt, ScanDecision, ProbeAt, InSource;
    if candidate < MAX_BLOCKS {
      ProbeIsSound(source, layout, decoder, blocks, candidate);
      ScanIsNeverWrong(source, layout, decoder, blocks, candidate + 1);
    }
  }

  // It returns the true count whenever some probed position from the last block's first copy on
  // is readable, whatever was cut off behind it.
  lemma {:induction false} ScanFindsTheEnd(source: seq<Byte>, layout: StreamLayout, decoder: Decoder, blocks: nat, candidate: nat, witness_: nat)
    requires layout.Valid() && blocks > 0
    requires forall c: nat :: candidate <= c <= witness_ ==>
      GenuineAt(source, layout, decoder, blocks, FirstCopyPosition(c, layout.interleave))
    requires candidate <= witness_ < MAX_BLOCKS && blocks - 1 <= witness_
    requires InSource(source, layout, witness_) && ProbeAt(source, layout, decoder, witness_).Some?
    ensures ScanFrom(source, layout, decoder, candidate) == Some(blocks)
    decreases witness_ - candidate
  {
    hide GenuineAt, ScanDecision, ProbeAt;
    ProbeIsSound(source, layout, decoder, blocks, candidate);
    EarlierInSource(source, layout, candidate, witness_);
    if candidate < witness_ {
      ScanFindsTheEnd(source, layout, decoder, blocks, candidate + 1, witness_);
    }
  }

  lemma EarlierInSource(source: seq<Byte>, layout: StreamLayout, candidate: nat, later: nat)
    requires layout.Valid() && candidate <= later && InSource(source, layout, later)
    ensures InSource(source, layout, candidate)
  {
    LaterProbesLater(candidate, later, layout.interleave);
    hide StreamLayout.SlotOffset, FirstCopyPosition;
    OffsetGrows(layout, FirstCopyPosition(candidate, layout.interleave), FirstCopyPosition(later, layout.interleave));
  }

  lemma LaterProbesLater(candidate: nat, later: nat, interleave: nat)
    requires candidate <= later
    ensures FirstCopyPosition(candidate, interleave) <= FirstCopyPosition(later, interleave)
  {}

  // ----- the trailers

  datatype End = End(trailer: Option<Trailer>, blocks: nat, firstDamaged: bool, secondDamaged: bool)

  // _read_trailers: the first of two neighbouring trailers that opens and is consistent.
  function ReadTrailers(source: seq<Byte>, start: int, checksum: Checksum, containerId: seq<Byte>, layout: StreamLayout,
                        consistent: Trailer -> bool): (found: (Option<Trailer>, Option<Trailer>))
    requires layout.Valid()
  {
    if start < HEADER_SIZE then (None, None)
    else (Accepted(ReadAt(source, start, TRAILER_SIZE), checksum, containerId, layout, consistent),
          Accepted(ReadAt(source, start + TRAILER_SIZE, TRAILER_SIZE), checksum, containerId, layout, consistent))
  }

  function Accepted(raw: seq<Byte>, checksum: Checksum, containerId: seq<Byte>, layout: StreamLayout, consistent: Trailer -> bool): Option<Trailer>
    requires layout.Valid()
  {
    var trailer := OpenTrailer(raw, checksum, containerId, layout);
    if trailer.Some? && consistent(trailer.value) then trailer else None
  }

  function Chosen(found: (Option<Trailer>, Option<Trailer>)): Option<Trailer> {
    if found.0.Some? then found.0 else found.1
  }

  // _locate_end: the trailers at the back, else the scanned count and the trailers behind its slots.
  method LocateEnd(source: seq<Byte>, layout: StreamLayout, checksum: Checksum, containerId: seq<Byte>,
                   table: seq<seq<seq<Byte>>>, decoder: Decoder) returns (end: Option<End>)
    requires layout.Valid() && IsParityTable(table, layout.nsym)
    ensures end == EndOf(source, layout, checksum, containerId, decoder)
    ensures end.Some? ==> end.value.blocks >= 1
    ensures end.Some? && end.value.trailer.Some? ==>
      end.value.trailer.value.blocks == end.value.blocks && end.value.trailer.value.Plausible(layout)
  {
    hide ScanFrom, IsParityTable, OpenTrailer;
    TrailersArePlausible(source, layout, checksum, containerId, decoder);
    var back := |source| - HEADER_SIZE - 2 * TRAILER_SIZE;
    var found := ReadTrailers(source, back, checksum, containerId, layout, SizeMatches(layout, |source|));
    if Chosen(found).Some? {
      end := Some(EndFrom(found, Chosen(found).value.blocks));
      return;
    }
    var count := ScanBlockCount(source, layout, table, decoder);
    if count.None? {
      return None;
    }
    found := ReadTrailers(source, layout.SlotOffset(2 * count.value), checksum, containerId, layout, CountMatches(count.value));
    end := Some(EndFrom(found, count.value));
  }

  function SizeMatches(layout: StreamLayout, size: nat): Trailer -> bool
    requires layout.Valid()
  {
    (t: Trailer) => layout.Valid() && layout.ContainerSize(t.blocks) == size
  }

  function CountMatches(count: nat): Trailer -> bool {
    (t: Trailer) => t.blocks == count
  }

  function EndFrom(found: (Option<Trailer>, Option<Trailer>), blocks: nat): End {
    End(Chosen(found), blocks, found.0 != Chosen(found) || found.0.None?, found.1 != Chosen(found) || found.1.None?)
  }

  ghost function EndOf(source: seq<Byte>, layout: StreamLayout, checksum: Checksum, containerId: seq<Byte>, decoder: Decoder): Option<End>
    requires layout.Valid()
  {
    var found := ReadTrailers(source, |source| - HEADER_SIZE - 2 * TRAILER_SIZE, checksum, containerId, layout, SizeMatches(layout, |source|));
    if Chosen(found).Some? then Some(EndFrom(found, Chosen(found).value.blocks))
    else match ScanFrom(source, layout, decoder, 0)
      case None => None
      case Some(count) =>
        Some(EndFrom(ReadTrailers(source, layout.SlotOffset(2 * count), checksum, containerId, layout, CountMatches(count)), count))
  }

  lemma {:induction false} ScanIsPositive(source: seq<Byte>, layout: StreamLayout, decoder: Decoder, candidate: nat)
    requires layout.Valid()
    ensures var count := ScanFrom(source, layout, decoder, candidate); count.Some? ==> count.value >= 1
    decreases MAX_BLOCKS - candidate
  {
    hide ProbeAt, InSource;
    if candidate < MAX_BLOCKS {
      ScanIsPositive(source, layout, decoder, candidate + 1);
    }
  }

  ghost predicate GoodTrailer(trailer: Option<Trailer>, blocks: nat, layout: StreamLayout)
    requires layout.Valid()
  {
    trailer.Some? ==> trailer.value.blocks == blocks && trailer.value.Plausible(layout)
  }

  lemma TrailersArePlausible(source: seq<Byte>, layout: StreamLayout, checksum: Checksum, containerId: seq<Byte>, decoder: Decoder)
    requires layout.Valid()
    ensures var end := EndOf(source, layout, checksum, containerId, decoder);
            end.Some? ==> end.value.blocks >= 1 && GoodTrailer(end.value.trailer, end.value.blocks, layout)
  {
    hide *;
    var back := |source| - HEADER_SIZE - 2 * TRAILER_SIZE;
    if Chosen(ReadTrailers(source, back, checksum, containerId, layout, SizeMatches(layout, |source|))).Some? {
      BackIsPlausible(source, layout, checksum, containerId);
      EndAtBack(source, layout, checksum, containerId, decoder);
    } else {
      EndByScan(source, layout, checksum, containerId, decoder);
      ScanIsPositive(source, layout, decoder, 0);
      if ScanFrom(source, layout, decoder, 0).Some? {
        CountedIsPlausible(source, layout, checksum, containerId, ScanFrom(source, layout, decoder, 0).value);
      }
    }
  }

  lemma BackIsPlausible(source: seq<Byte>, layout: StreamLayout, checksum: Checksum, containerId: seq<Byte>)
    requires layout.Valid()
    ensures var trailer := Chosen(ReadTrailers(source, |source| - HEADER_SIZE - 2 * TRAILER_SIZE, checksum, containerId, layout,
                                               SizeMatches(layout, |source|)));
            trailer.Some? ==> trailer.value.blocks >= 1 && GoodTrailer(trailer, trailer.value.blocks, layout)
  {
    ReadIsPlausible(source, |source| - HEADER_SIZE - 2 * TRAILER_SIZE, checksum, containerId, layout, SizeMatches(layout, |source|));
    hide Trailer.Plausible, StreamLayout.Valid, ReadTrailers, Chosen, SizeMatches;
  }

  lemma CountedIsPlausible(source: seq<Byte>, layout: StreamLayout, checksum: Checksum, containerId: seq<Byte>, count: nat)
    requires layout.Valid()
    ensures var trailer := Chosen(ReadTrailers(source, layout.SlotOffset(2 * count), checksum, containerId, layout, CountMatches(count)));
            GoodTrailer(trailer, count, layout)
  {
    hide Trailer.Plausible, StreamLayout.Valid, StreamLayout.SlotOffset, ReadTrailers, Chosen, CountMatches;
    ReadIsPlausible(source, layout.SlotOffset(2 * count), checksum, containerId, layout, CountMatches(count));
    CountMatchesMeans(count, Chosen(ReadTrailers(source, layout.SlotOffset(2 * count), checksum, containerId, layout, CountMatches(count))));
  }

  lemma CountMatchesMeans(count: nat, trailer: Option<Trailer>)
    ensures trailer.Some? && CountMatches(count)(trailer.value) ==> trailer.value.blocks == count
  {}

  // The end as the trailers at the back give it.
  lemma EndAtBack(source: seq<Byte>, layout: StreamLayout, checksum: Checksum, containerId: seq<Byte>, decoder: Decoder)
    requires layout.Valid()
    ensures var trailer := Chosen(ReadTrailers(source, |source| - HEADER_SIZE - 2 * TRAILER_SIZE, checksum, containerId, layout,
                                               SizeMatches(layout, |source|)));
            var end := EndOf(source, layout, checksum, containerId, decoder);
            trailer.Some? ==> end.Some? && end.value.trailer == trailer && end.value.blocks == trailer.value.blocks
  {
    hide ScanFrom, ReadTrailers, Chosen, SizeMatches, CountMatches, StreamLayout.Valid;
  }

  // The end as the scan gives it.
  lemma EndByScan(source: seq<Byte>, layout: StreamLayout, checksum: Checksum, containerId: seq<Byte>, decoder: Decoder)
    requires layout.Valid()
    requires Chosen(ReadTrailers(source, |source| - HEADER_SIZE - 2 * TRAILER_SIZE, checksum, containerId, layout,
                                 SizeMatches(layout, |source|))).None?
    ensures var (count, end) := (ScanFrom(source, layout, decoder, 0), EndOf(source, layout, checksum, containerId, decoder));
            && (end.Some? <==> count.Some?)
            && (end.Some? ==>
                  && end.value.blocks == count.value
                  && end.value.trailer == Chosen(ReadTrailers(source, layout.SlotOffset(2 * count.value), checksum, containerId, layout,
                                                              CountMatches(count.value))))
  {
    hide ScanFrom, ReadTrailers, Chosen, SizeMatches, CountMatches, StreamLayout.Valid;
  }

  // A trailer that is used opened, is consistent and holds plausible numbers.
  lemma ReadIsPlausible(source: seq<Byte>, start: int, checksum: Checksum, containerId: seq<Byte>, layout: StreamLayout,
                        consistent: Trailer -> bool)
    requires layout.Valid()
    ensures var trailer := Chosen(ReadTrailers(source, start, checksum, containerId, layout, consistent));
            trailer.Some? ==> trailer.value.blocks >= 1 && trailer.value.Plausible(layout) && consistent(trailer.value)
  {
    hide *;
    ChosenIsAccepted(source, start, checksum, containerId, layout, consistent);
    if start >= HEADER_SIZE {
      AcceptedIsPlausible(ReadAt(source, start, TRAILER_SIZE), checksum, containerId, layout, consistent);
      AcceptedIsPlausible(ReadAt(source, start + TRAILER_SIZE, TRAILER_SIZE), checksum, containerId, layout, consistent);
    }
  }

  lemma ChosenIsAccepted(source: seq<Byte>, start: int, checksum: Checksum, containerId: seq<Byte>, layout: StreamLayout,
                         consistent: Trailer -> bool)
    requires layout.Valid()
    ensures var trailer := Chosen(ReadTrailers(source, start, checksum, containerId, layout, consistent));
            trailer.Some? ==>
              && start >= HEADER_SIZE
              && (trailer == Accepted(ReadAt(source, start, TRAILER_SIZE), checksum, containerId, layout, consistent)
                  || trailer == Accepted(ReadAt(source, start + TRAILER_SIZE, TRAILER_SIZE), checksum, containerId, layout, consistent))
  {
    hide ReadAt, Accepted, StreamLayout.Valid;
  }

  lemma AcceptedIsPlausible(raw: seq<Byte>, checksum: Checksum, containerId: seq<Byte>, layout: StreamLayout, consistent: Trailer -> bool)
    requires layout.Valid()
    ensures var trailer := Accepted(raw, checksum, containerId, layout, consistent);
            trailer.Some? ==> trailer.value.blocks >= 1 && trailer.value.Plausible(layout) && consistent(trailer.value)
  {
    hide StreamLayout.Valid, StreamLayout.ChunkCapacity, StreamLayout.MaxChunkLen, UnpackTrailer, TrailerMarker, Zeros, FromBigEndian;
  }

  // ----- which trailer copies are reported as damaged

  // With a trailer in use, a copy is reported exactly if the bytes at its place are not the sealed form
  // of that trailer.
  ghost predicate FlagsTell(source: seq<Byte>, layout: StreamLayout, checksum: Checksum, end: End)
    requires layout.Valid()
  {
    end.trailer.Some? ==> FlagsAt(source, layout.SlotOffset(2 * end.blocks), checksum, end)
  }

  ghost predicate FlagsAt(source: seq<Byte>, at: int, checksum: Checksum, end: End)
    requires end.trailer.Some?
  {
    && (end.firstDamaged <==> ReadAt(source, at, TRAILER_SIZE) != end.trailer.value.Seal(checksum))
    && (end.secondDamaged <==> ReadAt(source, at + TRAILER_SIZE, TRAILER_SIZE) != end.trailer.value.Seal(checksum))
  }

  lemma AcceptedIsSealed(raw: seq<Byte>, checksum: Checksum, containerId: seq<Byte>, layout: StreamLayout, consistent: Trailer -> bool)
    requires layout.Valid()
    ensures var trailer := Accepted(raw, checksum, containerId, layout, consistent);
            trailer.Some? ==> raw == trailer.value.Seal(checksum) && consistent(trailer.value)
  {
    hide OpenTrailer, Trailer.Seal, StreamLayout.Valid;
    if OpenTrailer(raw, checksum, containerId, layout).Some? {
      OpenedTrailerWasSealed(raw, checksum, containerId, layout);
    }
  }

  lemma ReadFlags(source: seq<Byte>, start: int, checksum: Checksum, containerId: seq<Byte>, layout: StreamLayout, consistent: Trailer -> bool,
                  blocks: nat)
    requires layout.Valid()
    ensures var found := ReadTrailers(source, start, checksum, containerId, layout, consistent);
            Chosen(found).Some? ==>
              && consistent(Chosen(found).value) && EndFrom(found, blocks).trailer == Chosen(found)
              && FlagsAt(source, start, checksum, EndFrom(found, blocks))
  {
    hide Accepted, ReadAt, StreamLayout.Valid, Trailer.Seal;
    if start >= HEADER_SIZE {
      AcceptedIsSealed(ReadAt(source, start, TRAILER_SIZE), checksum, containerId, layout, consistent);
      AcceptedIsSealed(ReadAt(source, start + TRAILER_SIZE, TRAILER_SIZE), checksum, containerId, layout, consistent);
    }
  }

  lemma BackIsBehindSlots(layout: StreamLayout, size: nat, trailer: Trailer)
    requires layout.Valid() && SizeMatches(layout, size)(trailer)
    ensures size - HEADER_SIZE - 2 * TRAILER_SIZE == layout.SlotOffset(2 * trailer.blocks)
  {
    hide StreamLayout.SlotSize;
  }

  // The two ways in which the end is found.
  lemma EndCases(source: seq<Byte>, layout: StreamLayout, checksum: Checksum, containerId: seq<Byte>, decoder: Decoder)
    requires layout.Valid()
    ensures var (back, end) := (ReadTrailers(source, |source| - HEADER_SIZE - 2 * TRAILER_SIZE, checksum, containerId, layout,
                                             SizeMatches(layout, |source|)),
                                EndOf(source, layout, checksum, containerId, decoder));
            if Chosen(back).Some? then end == Some(EndFrom(back, Chosen(back).value.blocks))
            else match ScanFrom(source, layout, decoder, 0)
              case None => end == None
              case Some(count) =>
                end == Some(EndFrom(ReadTrailers(source, layout.SlotOffset(2 * count), checksum, containerId, layout, CountMatches(count)), count))
  {
    hide ScanFrom, ReadTrailers, Chosen, EndFrom, SizeMatches, CountMatches, StreamLayout.Valid, StreamLayout.SlotOffset;
  }

  lemma EndFromMeans(found: (Option<Trailer>, Option<Trailer>), blocks: nat)
    ensures EndFrom(found, blocks).trailer == Chosen(found) && EndFrom(found, blocks).blocks == blocks
  {}

  lemma FlagsTellIntro(source: seq<Byte>, layout: StreamLayout, checksum: Checksum, end: End, at: int)
    requires layout.Valid() && end.trailer.Some? && at == layout.SlotOffset(2 * end.blocks) && FlagsAt(source, at, checksum, end)
    ensures FlagsTell(source, layout, checksum, end)
  {
    hide FlagsAt, StreamLayout.Valid, StreamLayout.SlotOffset;
  }

  lemma NoFlags(source: seq<Byte>, layout: StreamLayout, checksum: Checksum, end: End)
    requires layout.Valid() && end.trailer.None?
    ensures FlagsTell(source, layout, checksum, end)
  {
    hide FlagsAt, StreamLayout.Valid, StreamLayout.SlotOffset;
  }

  lemma TrailerFlags(source: seq<Byte>, layout: StreamLayout, checksum: Checksum, containerId: seq<Byte>, decoder: Decoder)
    requires layout.Valid()
    ensures var end := EndOf(source, layout, checksum, containerId, decoder);
            end.Some? ==> FlagsTell(source, layout, checksum, end.value)
  {
    hide *;
    var back := |source| - HEADER_SIZE - 2 * TRAILER_SIZE;
    var found := ReadTrailers(source, back, checksum, containerId, layout, SizeMatches(layout, |source|));
    EndCases(source, layout, checksum, containerId, decoder);
    if Chosen(found).Some? {
      var blocks := Chosen(found).value.blocks;
      ReadFlags(source, back, checksum, containerId, layout, SizeMatches(layout, |source|), blocks);
      BackIsBehindSlots(layout, |source|, Chosen(found).value);
      EndFromMeans(found, blocks);
      FlagsTellIntro(source, layout, checksum, EndFrom(found, blocks), back);
    } else if ScanFrom(source, layout, decoder, 0).Some? {
      var count := ScanFrom(source, layout, decoder, 0).value;
      var counted := ReadTrailers(source, layout.SlotOffset(2 * count), checksum, containerId, layout, CountMatches(count));
      ReadFlags(source, layout.SlotOffset(2 * count), checksum, containerId, layout, CountMatches(count), count);
      EndFromMeans(counted, count);
      if Chosen(counted).Some? {
        FlagsTellIntro(source, layout, checksum, EndFrom(counted, count), layout.SlotOffset(2 * count));
      } else {
        NoFlags(source, layout, checksum, EndFrom(counted, count));
      }
    }
  }
}
