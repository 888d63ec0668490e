// StreamWriter of dbs/container/stream.py: cutting, batching, encoding and placing blocks through
// a sliding window, for every way the caller splits the data and every worker count.
module Writer {
  import opened Wrappers
  import opened Sequences
  import opened Bytes
  import opened Encoder
  import opened Layout
  import opened Records
  import opened Container

  const BATCH_BLOCKS: nat := 16

  // ----- the emission order

  // The slots emitted once a number of blocks has been placed.
  function Emitted(placed: seq<seq<Byte>>, interleave: nat): (pieces: seq<seq<Byte>>)
  {
    ScheduleEntries(|placed|, |placed|, interleave);
    Arranged(placed, ScheduleUpTo(|placed|, |placed|, interleave))
  }

  // The slots still waiting for their second copy to be emitted.
  function Waiting(placed: seq<seq<Byte>>, interleave: nat): seq<seq<Byte>> {
    if |placed| > interleave then placed[|placed| - interleave..] else placed
  }

  // The first steps of the schedule do not depend on how many blocks follow.
  lemma {:induction false} SchedulePrefix(step: nat, blocks: nat, more: nat, interleave: nat)
    requires step <= blocks <= more
    ensures ScheduleUpTo(step, blocks, interleave) == ScheduleUpTo(step, more, interleave)
  {
    if step > 0 {
      SchedulePrefix(step - 1, blocks, more, interleave);
    }
  }

  lemma ArrangedConcat(slots: seq<seq<Byte>>, left: seq<Placement>, right: seq<Placement>)
    requires forall p :: 0 <= p < |left| ==> left[p].index < |slots|
    requires forall p :: 0 <= p < |right| ==> right[p].index < |slots|
    ensures forall p :: 0 <= p < |left + right| ==> (left + right)[p].index < |slots|
    ensures Arranged(slots, left + right) == Arranged(slots, left) + Arranged(slots, right)
  {}

  lemma ArrangedEarlier(slots: seq<seq<Byte>>, more: seq<seq<Byte>>, placements: seq<Placement>)
    requires forall p :: 0 <= p < |placements| ==> placements[p].index < |slots|
    ensures Arranged(slots + more, placements) == Arranged(slots, placements)
  {}

  // With one block more the schedule up to the last first copy is one step longer.
  lemma LastStep(n: nat, interleave: nat)
    ensures ScheduleUpTo(n + 1, n + 1, interleave) == ScheduleUpTo(n, n, interleave) + StepPlacements(n, n + 1, interleave)
    ensures forall p :: 0 <= p < |ScheduleUpTo(n, n, interleave)| ==> ScheduleUpTo(n, n, interleave)[p].index < n
  {
    SchedulePrefix(n, n, n + 1, interleave);
    ScheduleEntries(n, n, interleave);
    hide StepPlacements;
  }

  lemma ArrangedStep(placed: seq<seq<Byte>>, slot: seq<Byte>, interleave: nat)
    requires interleave > 0
    ensures var step := StepPlacements(|placed|, |placed| + 1, interleave);
            && (forall p :: 0 <= p < |step| ==> step[p].index <= |placed|)
            && Arranged(placed + [slot], step) == [slot] + (if |placed| >= interleave then [placed[|placed| - interleave]] else [])
  {
    hide PlacedBefore;
  }

  lemma EmitOneMore(placed: seq<seq<Byte>>, slot: seq<Byte>, interleave: nat)
    requires interleave > 0
    ensures Emitted(placed + [slot], interleave)
         == Emitted(placed, interleave) + [slot]
            + (if |placed| >= interleave then [placed[|placed| - interleave]] else [])
  {
    var before, step := ScheduleUpTo(|placed|, |placed|, interleave), StepPlacements(|placed|, |placed| + 1, interleave);
    LastStep(|placed|, interleave);
    ArrangedStep(placed, slot, interleave);
    hide ScheduleUpTo, StepPlacements, Arranged;
    ArrangedConcat(placed + [slot], before, step);
    ArrangedEarlier(placed, [slot], before);
  }

  // Steps between the last first copy and the window's length emit nothing.
  lemma {:induction false} IdleSteps(step: nat, blocks: nat, interleave: nat)
    requires blocks <= step <= interleave
    ensures ScheduleUpTo(step, blocks, interleave) == ScheduleUpTo(blocks, blocks, interleave)
    decreases step
  {
    if step > blocks {
      IdleSteps(step - 1, blocks, interleave);
    }
  }

  // The schedule of the steps after the last first copy: one second copy each.
  lemma {:induction false} DrainSteps(blocks: nat, interleave: nat, drained: nat)
    requires interleave > 0 && drained <= blocks && blocks <= drained + interleave
    ensures ScheduleUpTo(drained + interleave, blocks, interleave)
         == ScheduleUpTo(blocks, blocks, interleave)
            + SecondCopies(blocks, interleave, if blocks > interleave then blocks - interleave else 0, drained)
    decreases drained
  {
    hide *;
    var start := if blocks > interleave then blocks - interleave else 0;
    var whole := ScheduleUpTo(blocks, blocks, interleave);
    if drained == start {
      if blocks <= interleave {
        IdleSteps(interleave, blocks, interleave);
      }
      NoSecondCopies(blocks, interleave, start, whole);
    } else {
      DrainSteps(blocks, interleave, drained - 1);
      DrainStep(blocks, interleave, drained);
      NextSecondCopy(blocks, interleave, start, drained, whole);
    }
  }

  lemma NoSecondCopies(blocks: nat, interleave: nat, first: nat, whole: seq<Placement>)
    requires blocks <= first + interleave
    ensures whole + SecondCopies(blocks, interleave, first, first) == whole
  {}

  lemma NextSecondCopy(blocks: nat, interleave: nat, first: nat, count: nat, whole: seq<Placement>)
    requires first < count && blocks <= first + interleave
    ensures whole + SecondCopies(blocks, interleave, first, count)
         == whole + SecondCopies(blocks, interleave, first, count - 1)
            + [Placement(PlacedBefore(count - 1 + interleave, blocks, interleave), count - 1, false)]
  {
    hide PlacedBefore;
    var last := [Placement(PlacedBefore(count - 1 + interleave, blocks, interleave), count - 1, false)];
    var copies := SecondCopies(blocks, interleave, first, count - 1);
    assert (whole + copies) + last == whole + (copies + last);
  }

  lemma DrainStep(blocks: nat, interleave: nat, drained: nat)
    requires interleave > 0 && 0 < drained <= blocks && blocks < drained + interleave
    ensures ScheduleUpTo(drained + interleave, blocks, interleave)
         == ScheduleUpTo(drained - 1 + interleave, blocks, interleave)
            + [Placement(PlacedBefore(drained - 1 + interleave, blocks, interleave), drained - 1, false)]
  {
    var step := drained - 1 + interleave;
    assert StepPlacements(step, blocks, interleave)
        == [Placement(PlacedBefore(step, blocks, interleave), drained - 1, false)];
  }

  // The second copies of the blocks from `first` up to `count`.
  function SecondCopies(blocks: nat, interleave: nat, first: nat, count: nat): (placements: seq<Placement>)
    requires first <= count && blocks <= first + interleave
    ensures |placements| == count - first
    ensures forall p :: 0 <= p < |placements| ==> placements[p].index == first + p
    decreases count - first
  {
    if first == count then []
    else SecondCopies(blocks, interleave, first, count - 1)
         + [Placement(PlacedBefore(count - 1 + interleave, blocks, interleave), count - 1, false)]
  }

  // Emitting the window after the last block completes the schedule.
  lemma DrainCompletes(placed: seq<seq<Byte>>, interleave: nat)
    requires interleave > 0
    ensures Emitted(placed, interleave) + Waiting(placed, interleave) == ArrangedSlots(placed, interleave)
  {
    hide ScheduleUpTo, SecondCopies, Arranged, PlacedBefore, PositionOf;
    var n := |placed|;
    var start := if n > interleave then n - interleave else 0;
    var left, right := ScheduleUpTo(n, n, interleave), SecondCopies(n, interleave, start, n);
    IndicesInRange(n, n, interleave);
    DrainSteps(n, interleave, n);
    ArrangedRun(placed, right, start);
    ArrangedConcat(placed, left, right);
    assert ScheduleOf(n, interleave) == left + right;
  }

  lemma IndicesInRange(step: nat, blocks: nat, interleave: nat)
    requires step <= blocks + interleave
    ensures forall p :: 0 <= p < |ScheduleUpTo(step, blocks, interleave)| ==> ScheduleUpTo(step, blocks, interleave)[p].index < blocks
  {
    ScheduleEntries(step, blocks, interleave);
  }

  lemma ArrangedRun(slots: seq<seq<Byte>>, placements: seq<Placement>, start: nat)
    requires start + |placements| == |slots|
    requires forall p :: 0 <= p < |placements| ==> placements[p].index == start + p
    ensures Arranged(slots, placements) == slots[start..]
  {}

  // What the placed slots make of the emitted bytes, the window and the digest.
  ghost predicate PlacedOk(header: seq<Byte>, slotSize: nat, interleave: nat, sink: seq<Byte>,
                           window: seq<seq<Byte>>, tags: seq<seq<Byte>>, placed: seq<seq<Byte>>)
  {
    && slotSize >= SLOT_TAG_SIZE
    && (forall i :: 0 <= i < |placed| ==> |placed[i]| == slotSize)
    && sink == header + Flatten(Emitted(placed, interleave))
    && window == Waiting(placed, interleave)
    && tags == TagsOf(placed)
  }

  lemma TagsAppend(placed: seq<seq<Byte>>, slot: seq<Byte>)
    requires forall i :: 0 <= i < |placed| ==> |placed[i]| >= SLOT_TAG_SIZE
    requires |slot| >= SLOT_TAG_SIZE
    ensures TagsOf(placed + [slot]) == TagsOf(placed) + [TagOf(slot)]
  {
    hide TagOf;
  }

  lemma WindowSize(header: seq<Byte>, slotSize: nat, interleave: nat, sink: seq<Byte>,
                   window: seq<seq<Byte>>, tags: seq<seq<Byte>>, placed: seq<seq<Byte>>)
    requires PlacedOk(header, slotSize, interleave, sink, window, tags, placed)
    ensures |window| <= interleave
  {}

  // One more slot: its bytes, then the oldest waiting slot if the window is full.
  lemma PlaceNext(header: seq<Byte>, slotSize: nat, interleave: nat, sink: seq<Byte>,
                  window: seq<seq<Byte>>, tags: seq<seq<Byte>>, placed: seq<seq<Byte>>, slot: seq<Byte>)
    requires PlacedOk(header, slotSize, interleave, sink, window, tags, placed)
    requires interleave > 0 && |slot| == slotSize
    ensures |window| < interleave ==>
      PlacedOk(header, slotSize, interleave, sink + slot, window + [slot], tags + [TagOf(slot)], placed + [slot])
    ensures |window| >= interleave ==>
      PlacedOk(header, slotSize, interleave, sink + slot + window[0], (window + [slot])[1..], tags + [TagOf(slot)], placed + [slot])
  {
    hide Flatten, TagOf, TagsOf, Emitted;
    var pieces := Emitted(placed, interleave);
    EmitOneMore(placed, slot, interleave);
    TagsAppend(placed, slot);
    FlattenAppend(pieces, slot);
    if |window| < interleave {
      assert pieces + [slot] + [] == pieces + [slot];
    } else {
      FlattenAppend(pieces + [slot], window[0]);
      assert window[0] == placed[|placed| - interleave];
    }
  }

  // ----- the writer

  datatype Summary = Summary(containerBytes: nat, plaintextBytes: nat, blocks: nat, burstTolerance: nat)

  datatype Outcome = Done | TooManyBlocks | Closed

  class StreamWriter {
    const codec: Codec
    const layout: StreamLayout
    const header: seq<Byte>
    const table: seq<seq<seq<Byte>>>
    const workers: nat

    var sink: seq<Byte>
    var window: seq<seq<Byte>>
    var batch: seq<seq<Byte>>
    var pending: seq<Byte>
    var tags: seq<seq<Byte>>
    var nextIndex: nat
    var plaintextBytes: nat
    var containerBytes: nat
    var finalChunkLen: nat
    var closed: bool
    var summary: Option<Summary>

    // Everything written, the chunks whose slots were placed, and those slots.
    ghost var written: seq<Byte>
    ghost var flushed: seq<seq<Byte>>
    ghost var placed: seq<seq<Byte>>

    ghost predicate Configured() {
      layout.Valid() && codec.Sound() && IsParityTable(table, layout.nsym) && workers >= 1
    }

    // What the placed slots make of the sink, the window and the digest.
    ghost predicate PlacedState()
      reads `sink, `containerBytes, `window, `tags, `placed
      requires Configured()
    {
      && PlacedOk(header, layout.SlotSize(), layout.interleave, sink, window, tags, placed)
      && containerBytes == |sink|
    }

    // The chunks so far are full, and a byte is always kept back for the last chunk.
    ghost predicate CutState()
      reads `flushed, `batch, `pending, `written, `plaintextBytes
      requires Configured()
    {
      CutOk(flushed + batch, pending, written, layout.ChunkCapacity()) && plaintextBytes == |written|
    }

    ghost predicate FlushedState()
      reads `nextIndex, `flushed, `placed, `batch
      requires Configured()
    {
      && nextIndex == |flushed| == |placed| <= MAX_BLOCKS
      && AllFull(flushed + batch, layout.ChunkCapacity())
      && FitsLayout(layout, flushed)
      && placed == SlotRun(codec, layout, 0, flushed, None)
    }

    // The writer between two queued chunks.
    ghost predicate Ready()
      reads `sink, `containerBytes, `window, `tags, `placed, `nextIndex, `flushed, `batch
      requires Configured()
    {
      PlacedState() && FlushedState() && |batch| < BATCH_BLOCKS * workers
    }

    ghost predicate Valid()
      reads this
    {
      Configured() && !closed && summary.None? && Ready() && CutState()
    }

    constructor (codec: Codec, layout: StreamLayout, header: seq<Byte>, table: seq<seq<seq<Byte>>>, workers: nat)
      requires layout.Valid() && codec.Sound() && IsParityTable(table, layout.nsym) && workers >= 1
      ensures Valid() && written == []
      ensures this.codec == codec && this.layout == layout && this.header == header
    {
      this.codec, this.layout, this.header, this.table, this.workers := codec, layout, header, table, workers;
      sink, window, batch, pending, tags := header, [], [], [], [];
      nextIndex, plaintextBytes, containerBytes, finalChunkLen := 0, 0, |header|, 0;
      closed, summary := false, None;
      written, flushed, placed := [], [], [];
      new;
      assert header + [] == header;
    }

    // _emit
    method Emit(data: seq<Byte>)
      modifies `sink, `containerBytes
      ensures sink == old(sink) + data && containerBytes == old(containerBytes) + |data|
    {
      sink := sink + data;
      containerBytes := containerBytes + |data|;
    }

    // _place: a slot goes out at once, and its second copy once the window is full.
    method Place(slot: seq<Byte>)
      requires Configured() && PlacedState() && |slot| == layout.SlotSize()
      modifies `sink, `containerBytes, `window, `tags, `placed
      ensures PlacedState() && placed == old(placed) + [slot]
    {
      hide *;
      PlacedMeans();
      PlaceNext(header, layout.SlotSize(), layout.interleave, sink, window, tags, placed, slot);
      Emit(slot);
      tags := tags + [TagOf(slot)];
      window := window + [slot];
      placed := placed + [slot];
      if |window| > layout.interleave {
        Emit(window[0]);
        window := window[1..];
      }
      PlacedIntro();
    }

    lemma ConfigMeans()
      requires Configured()
      ensures layout.Valid() && codec.Sound() && IsParityTable(table, layout.nsym) && workers >= 1
    {}

    lemma PlacedMeans()
      requires Configured() && PlacedState()
      ensures layout.Valid() && layout.interleave > 0 && |window| <= layout.interleave && containerBytes == |sink|
      ensures PlacedOk(header, layout.SlotSize(), layout.interleave, sink, window, tags, placed)
      ensures layout.SlotSize() >= SLOT_TAG_SIZE
    {
      WindowSize(header, layout.SlotSize(), layout.interleave, sink, window, tags, placed);
    }

    lemma PlacedIntro()
      requires Configured() && containerBytes == |sink|
      requires PlacedOk(header, layout.SlotSize(), layout.interleave, sink, window, tags, placed)
      ensures PlacedState()
    {}

    // _encode: the slots of a run of consecutive chunks.
    method Encode(first: nat, chunks: seq<seq<Byte>>, finalIndex: Option<nat>) returns (slots: seq<seq<Byte>>)
      requires Configured() && FitsLayout(layout, chunks)
      ensures slots == SlotRun(codec, layout, first, chunks, finalIndex)
      ensures forall s :: 0 <= s < |slots| ==> |slots[s]| == layout.SlotSize()
    {
      hide *;
      ConfigMeans();
      LayoutNsymFits(layout);
      var blocks: seq<seq<Byte>> := [];
      NoBlocks(codec, layout, first, chunks, finalIndex);
      for i := 0 to |chunks|
        invariant |blocks| == i && AreBlocks(codec, layout, first, chunks, finalIndex, blocks)
      {
        FitsAt(layout, chunks, i);
        NextBlock(codec, layout, first, chunks, finalIndex, blocks);
        blocks := blocks + [BlockOf(codec, layout, first + i, chunks[i], finalIndex == Some(first + i))];
      }
      var encoded := EncodeMany(blocks, table, layout.nsym);
      slots := seq(|encoded|, i requires 0 <= i < |encoded| => encoded[i] + codec.slotTag(encoded[i]));
      EncodedAreSlots(codec, layout, first, chunks, finalIndex, blocks, encoded, slots);
    }

    // The groups of one flush: runs of sixteen chunks encoded and placed in order.  With a pool the
    // groups are encoded by an ordered map, which gives the same list.
    method PlaceGroups(first: nat, jobs: seq<seq<Byte>>, finalIndex: Option<nat>)
      requires Configured() && PlacedState() && FitsLayout(layout, jobs) && |placed| == first
      modifies `sink, `containerBytes, `window, `tags, `placed
      ensures PlacedState() && placed == old(placed) + SlotRun(codec, layout, first, jobs, finalIndex)
    {
      hide Configured, PlacedState, FitsLayout, SlotOf, SlotRun, StreamLayout.Valid, StreamLayout.SlotSize, Codec.Sound;
      ConfigMeans();
      var start := 0;
      FitsSlice(layout, jobs, 0, 0);
      assert jobs[..0] == [];
      assert placed + SlotRun(codec, layout, first, jobs[..0], finalIndex) == placed;
      while start < |jobs|
        invariant start <= |jobs| && FitsLayout(layout, jobs[..start])
        invariant PlacedState()
        invariant placed == old(placed) + SlotRun(codec, layout, first, jobs[..start], finalIndex)
      {
        var end := if start + BATCH_BLOCKS < |jobs| then start + BATCH_BLOCKS else |jobs|;
        var group := jobs[start..end];
        FitsSlice(layout, jobs, start, end);
        var slots := Encode(first + start, group, finalIndex);
        ghost var before := placed;
        PlaceAll(slots);
        assert jobs[..end] == jobs[..start] + group;
        SlotRunConcat(codec, layout, first, jobs[..start], group, finalIndex);
        assert placed == old(placed) + (SlotRun(codec, layout, first, jobs[..start], finalIndex) + slots);
        start := end;
      }
      assert jobs[..|jobs|] == jobs;
    }

    method PlaceAll(slots: seq<seq<Byte>>)
      requires Configured() && PlacedState()
      requires forall s :: 0 <= s < |slots| ==> |slots[s]| == layout.SlotSize()
      modifies `sink, `containerBytes, `window, `tags, `placed
      ensures PlacedState() && placed == old(placed) + slots
    {
      hide *;
      PlacedMeans();
      assert slots[..0] == [] && placed + [] == placed;
      for s := 0 to |slots|
        invariant PlacedState() && placed == old(placed) + slots[..s]
      {
        Place(slots[s]);
        assert slots[..s + 1] == slots[..s] + [slots[s]];
      }
      assert slots[..|slots|] == slots;
    }

    // _flush
    method Flush(final: bool) returns (outcome: Outcome)
      requires Configured() && PlacedState() && FitsLayout(layout, batch) && |placed| == nextIndex <= MAX_BLOCKS
      modifies `sink, `containerBytes, `window, `tags, `placed, `batch, `nextIndex
      ensures outcome == if old(nextIndex) + |old(batch)| > MAX_BLOCKS then TooManyBlocks else Done
      ensures outcome == TooManyBlocks ==> unchanged(this)
      ensures outcome == Done ==>
        && PlacedState() && batch == [] && nextIndex == |placed|
        && placed == old(placed) + SlotRun(codec, layout, old(nextIndex), old(batch), FinalIndex(old(nextIndex), |old(batch)|, final))
    {
      hide Configured, PlacedState, FitsLayout, SlotOf, SlotRun, StreamLayout.Valid, StreamLayout.SlotSize, Codec.Sound;
      ConfigMeans();
      if batch == [] {
        assert placed + SlotRun(codec, layout, nextIndex, batch, FinalIndex(nextIndex, 0, final)) == placed;
        return Done;
      }
      var first := nextIndex;
      if first + |batch| > MAX_BLOCKS {
        return TooManyBlocks;
      }
      var jobs := batch;
      batch := [];
      nextIndex := nextIndex + |jobs|;
      PlaceGroups(first, jobs, FinalIndex(first, |jobs|, final));
      outcome := Done;
    }

    lemma ReadyMeans()
      requires Configured() && Ready()
      ensures PlacedState() && FlushedState()
    {}

    lemma FlushedMeans()
      requires Configured() && FlushedState()
      ensures nextIndex == |flushed| == |placed| <= MAX_BLOCKS
      ensures AllFull(flushed + batch, layout.ChunkCapacity()) && layout.Valid() && codec.Sound()
      ensures FitsLayout(layout, flushed) && FitsLayout(layout, batch)
      ensures placed == SlotRun(codec, layout, 0, flushed, None)
    {
      hide SlotRun, EncodedLength;
      forall i | 0 <= i < |batch| ensures |batch[i]| <= layout.ChunkCapacity() {
        assert (flushed + batch)[|flushed| + i] == batch[i];
      }
    }

    lemma FlushedIntro(before: seq<seq<Byte>>, chunks: seq<seq<Byte>>)
      requires Configured() && layout.Valid() && codec.Sound()
      requires FitsLayout(layout, before) && FitsLayout(layout, chunks)
      requires flushed == before + chunks && batch == [] && nextIndex == |placed| <= MAX_BLOCKS
      requires placed == SlotRun(codec, layout, 0, before, None) + SlotRun(codec, layout, |before|, chunks, None)
      requires AllFull(flushed, layout.ChunkCapacity())
      ensures FlushedState()
    {
      hide *;
      SlotRunConcat(codec, layout, 0, before, chunks, None);
      NothingBehind(flushed);
      FlushedFold();
    }

    lemma FlushedFold()
      requires Configured() && layout.Valid() && codec.Sound() && FitsLayout(layout, flushed)
      requires nextIndex == |flushed| == |placed| <= MAX_BLOCKS && AllFull(flushed + batch, layout.ChunkCapacity())
      requires placed == SlotRun(codec, layout, 0, flushed, None)
      ensures FlushedState()
    {
      hide SlotRun, StreamLayout.Valid, StreamLayout.ChunkCapacity, Codec.Sound, FitsLayout, AllFull;
    }

    // _queue
    method Queue(chunk: seq<Byte>) returns (outcome: Outcome)
      requires Configured() && Ready() && |chunk| == layout.ChunkCapacity()
      modifies `sink, `containerBytes, `window, `tags, `placed, `batch, `nextIndex, `flushed
      ensures outcome == Done || outcome == TooManyBlocks
      ensures outcome == Done ==> Ready()
      ensures flushed + batch == old(flushed + batch) + [chunk]
      ensures AllFull(flushed + batch, layout.ChunkCapacity())
      ensures outcome == TooManyBlocks ==> |flushed + batch| > MAX_BLOCKS
    {
      hide PlacedState, SlotRun, IsParityTable, StreamLayout.ChunkCapacity, StreamLayout.Valid, Codec.Sound, FitsLayout, FlushedState;
      FlushedMeans();
      ghost var before := flushed + batch;
      batch := batch + [chunk];
      assert flushed + batch == before + [chunk];
      BatchStillFits();
      if |batch| >= BATCH_BLOCKS * workers {
        ghost var chunks := batch;
        outcome := Flush(false);
        if outcome == TooManyBlocks {
          return TooManyBlocks;
        }
        ghost var earlier := flushed;
        flushed := flushed + chunks;
        FlushedIntro(earlier, chunks);
        assert flushed + batch == flushed;
      }
      outcome := Done;
    }

    lemma BatchStillFits()
      requires Configured() && AllFull(flushed + batch, layout.ChunkCapacity()) && layout.Valid() && codec.Sound()
      requires nextIndex == |flushed| == |placed| <= MAX_BLOCKS && FitsLayout(layout, flushed)
      requires placed == SlotRun(codec, layout, 0, flushed, None)
      ensures FitsLayout(layout, batch) && FlushedState()
    {
      hide SlotRun, EncodedLength;
      forall i | 0 <= i < |batch| ensures |batch[i]| <= layout.ChunkCapacity() {
        assert (flushed + batch)[|flushed| + i] == batch[i];
      }
    }

    lemma ValidMeans()
      requires Valid()
      ensures Configured() && Ready() && layout.Valid() && codec.Sound() && layout.ChunkCapacity() > 0
      ensures !closed && summary.None? && plaintextBytes == |written|
      ensures CutOk(flushed + batch, pending, written, layout.ChunkCapacity())
    {
      hide Ready, CutOk, IsParityTable;
    }

    lemma ValidIntro()
      requires Configured() && Ready() && layout.Valid() && !closed && summary.None? && plaintextBytes == |written|
      requires CutOk(flushed + batch, pending, written, layout.ChunkCapacity())
      ensures Valid()
    {
      hide Ready, CutOk, IsParityTable;
    }

    ghost predicate InWrite(before: seq<Byte>, data: seq<Byte>, offset: nat)
      reads this
    {
      && Configured() && Ready() && layout.Valid() && !closed && summary.None?
      && written == before && plaintextBytes == |before|
      && Cutting(flushed + batch, pending, before, data, offset, layout.ChunkCapacity())
    }

    // The first part of write: the rest of an earlier call is filled up, and queued once more follows.
    method TopUp(data: seq<Byte>) returns (offset: nat, outcome: Outcome)
      requires Valid()
      modifies `sink, `containerBytes, `window, `tags, `placed, `batch, `nextIndex, `flushed, `pending
      ensures outcome == Done || outcome == TooManyBlocks
      ensures outcome == Done ==> InWrite(old(written), data, offset)
      ensures outcome == TooManyBlocks ==> Overflows(|written| + |data|, layout.ChunkCapacity())
    {
      hide *;
      ValidMeans();
      var capacity := layout.ChunkCapacity();
      offset := 0;
      ghost var chunks := flushed + batch;
      CutStart(chunks, pending, written, data, capacity);
      outcome := Done;
      if pending != [] && |data| > 0 {
        var room := capacity - |pending|;
        offset := if room < |data| then room else |data|;
        CutTopUp(chunks, pending, written, data, capacity, offset);
        pending := pending + data[..offset];
        if offset < |data| {
          outcome := Queue(pending);
          if outcome == TooManyBlocks {
            CutTooLong(chunks + [pending], written, data, offset, capacity);
            return offset, TooManyBlocks;
          }
          pending := [];
        }
      }
      InWriteIntro(data, offset);
    }

    lemma InWriteIntro(data: seq<Byte>, offset: nat)
      requires Configured() && Ready() && layout.Valid() && !closed && summary.None? && plaintextBytes == |written|
      requires Cutting(flushed + batch, pending, written, data, offset, layout.ChunkCapacity())
      ensures InWrite(written, data, offset)
    {}

    lemma InWriteMeans(before: seq<Byte>, data: seq<Byte>, offset: nat)
      requires InWrite(before, data, offset)
      ensures Configured() && Ready() && layout.Valid() && !closed && summary.None?
      ensures written == before && plaintextBytes == |before| && offset <= |data| && layout.ChunkCapacity() > 0
      ensures Cutting(flushed + batch, pending, before, data, offset, layout.ChunkCapacity())
    {}

    // The loop of write: whole chunks straight from the data.
    method QueueWhole(data: seq<Byte>, offset: nat) returns (next: nat, outcome: Outcome)
      requires InWrite(written, data, offset)
      modifies `sink, `containerBytes, `window, `tags, `placed, `batch, `nextIndex, `flushed, `pending
      ensures outcome == Done || outcome == TooManyBlocks
      ensures outcome == Done ==> InWrite(written, data, next) && |data| - next <= layout.ChunkCapacity()
      ensures outcome == TooManyBlocks ==> Overflows(|written| + |data|, layout.ChunkCapacity())
    {
      hide *;
      InWriteMeans(written, data, offset);
      var capacity := layout.ChunkCapacity();
      next := offset;
      outcome := Done;
      while |data| - next > capacity
        invariant outcome == Done && InWrite(written, data, next)
      {
        InWriteMeans(written, data, next);
        ghost var chunks := flushed + batch;
        CutChunk(chunks, pending, written, data, next, capacity);
        outcome := Queue(data[next..next + capacity]);
        next := next + capacity;
        if outcome == TooManyBlocks {
          CutTooLong(flushed + batch, written, data, next, capacity);
          return;
        }
        InWriteIntro(data, next);
      }
    }

    // write: every split of the data gives the same chunks.
    method Write(data: seq<Byte>) returns (outcome: Outcome)
      requires closed || Valid()
      modifies this
      ensures old(closed) ==> outcome == Closed && unchanged(this)
      ensures !old(closed) ==> outcome == Done || outcome == TooManyBlocks
      ensures outcome == Done ==> Valid() && written == old(written) + data
      ensures outcome == TooManyBlocks ==> Overflows(|old(written)| + |data|, layout.ChunkCapacity())
    {
      hide *;
      if closed {
        return Closed;
      }
      ValidMeans();
      var offset;
      offset, outcome := TopUp(data);
      if outcome == TooManyBlocks {
        return;
      }
      offset, outcome := QueueWhole(data, offset);
      if outcome == TooManyBlocks {
        return;
      }
      InWriteMeans(written, data, offset);
      CutRest(flushed + batch, pending, written, data, offset, layout.ChunkCapacity());
      pending := pending + data[offset..];
      plaintextBytes := plaintextBytes + |data|;
      written := written + data;
      ValidIntro();
      outcome := Done;
    }

    // abort
    method Abort()
      modifies `closed, `batch, `window, `pending
      ensures closed && batch == [] && window == [] && pending == []
    {
      closed := true;
      batch, window, pending := [], [], [];
    }

    // What close leaves behind when every chunk fits.
    ghost predicate Complete()
      reads this
      requires layout.Valid() && codec.Sound()
    {
      var chunks := Cut(written, layout.ChunkCapacity());
      && FitsLayout(layout, chunks) && |chunks| <= MAX_BLOCKS
      && sink == ContainerOf(codec, layout, header, chunks)
      && summary == Some(Summary(|sink|, |written|, |chunks|, layout.BurstTolerance(|chunks|)))
    }

    // The last chunk, taken from what was kept back, and its flush.
    method FlushLast() returns (outcome: Outcome)
      requires Valid()
      modifies `sink, `containerBytes, `window, `tags, `placed, `batch, `nextIndex, `pending, `finalChunkLen
      ensures Configured() && layout.Valid() && codec.Sound() && layout.ChunkCapacity() > 0
      ensures FitsLayout(layout, Cut(written, layout.ChunkCapacity()))
      ensures outcome == if |Cut(written, layout.ChunkCapacity())| > MAX_BLOCKS then TooManyBlocks else Done
      ensures outcome == Done ==>
        var chunks := Cut(written, layout.ChunkCapacity());
        && PlacedState() && placed == SlotsOf(codec, layout, chunks) && nextIndex == |chunks|
        && plaintextBytes == |written| && finalChunkLen == |chunks[|chunks| - 1]| + TAG_LENGTH
    {
      hide *;
      ValidMeans();
      ReadyMeans();
      FlushedMeans();
      LastCut(flushed, batch, pending, written, layout);
      ghost var chunks := flushed + batch + [pending];
      var finalChunk := pending;
      pending := [];
      finalChunkLen := |finalChunk| + TAG_LENGTH;
      batch := batch + [finalChunk];
      ghost var last := batch;
      assert chunks == flushed + last && chunks[|chunks| - 1] == finalChunk;
      outcome := Flush(true);
      if outcome == Done {
        WholeRun(codec, layout, flushed, last);
      }
    }

    // The rest of the window goes out in order.
    method Drain()
      requires Configured() && PlacedState()
      modifies `sink, `containerBytes, `window
      ensures window == [] && sink == old(sink) + Flatten(old(window)) && containerBytes == |sink|
    {
      hide *;
      PlacedMeans();
      ghost var waiting, before := window, sink;
      DrainStart(sink, waiting);
      while window != []
        invariant |window| <= |waiting| && window == waiting[|waiting| - |window|..]
        invariant sink == before + Flatten(waiting[..|waiting| - |window|]) && containerBytes == |sink|
        decreases |window|
      {
        DrainOne(before, waiting, |waiting| - |window|);
        Emit(window[0]);
        window := window[1..];
      }
      assert waiting[..|waiting|] == waiting;
    }

    // close: the last chunk, the rest of the window, two trailers and the header again.
    method Close() returns (outcome: Outcome)
      requires closed || Valid()
      modifies this
      ensures old(closed) && old(summary).Some? ==> outcome == Done && unchanged(this)
      ensures old(closed) && old(summary).None? ==> outcome == Closed && unchanged(this)
      ensures !old(closed) ==> layout.Valid() && codec.Sound() && closed && written == old(written)
      ensures !old(closed) ==>
        outcome == if |Cut(written, layout.ChunkCapacity())| > MAX_BLOCKS then TooManyBlocks else Done
      ensures !old(closed) && outcome == Done ==> Complete()
    {
      hide *;
      if closed {
        return if summary.Some? then Done else Closed;
      }
      ValidMeans();
      outcome := FlushLast();
      if outcome == TooManyBlocks {
        Abort();
        return;
      }
      EmitEnd(Cut(written, layout.ChunkCapacity()));
      closed := true;
      summary := Some(Summary(containerBytes, plaintextBytes, nextIndex, layout.BurstTolerance(nextIndex)));
      CompleteIntro();
    }

    // The last part of close: the window, the trailer twice and the header.
    method EmitEnd(ghost chunks: seq<seq<Byte>>)
      requires Configured() && layout.Valid() && codec.Sound() && PlacedState()
      requires |chunks| > 0 && FitsLayout(layout, chunks) && chunks == Cut(written, layout.ChunkCapacity())
      requires placed == SlotsOf(codec, layout, chunks) && nextIndex == |chunks|
      requires plaintextBytes == |written| && finalChunkLen == |chunks[|chunks| - 1]| + TAG_LENGTH
      modifies `sink, `containerBytes, `window
      ensures sink == ContainerOf(codec, layout, header, chunks) && containerBytes == |sink|
    {
      hide *;
      PlacedMeans();
      PlacedUnfolds();
      ghost var before, waiting := sink, window;
      ClosedContainer(codec, layout, header, chunks, placed, before, waiting);
      CutFlattens(written, layout);
      Drain();
      var trailer := SealedTrailer(codec, nextIndex, plaintextBytes, finalChunkLen, tags);
      assert trailer == SealedTrailer(codec, |placed|, |Flatten(chunks)|, |chunks[|chunks| - 1]| + TAG_LENGTH, TagsOf(placed));
      Emit(trailer);
      Emit(trailer);
      Emit(header);
    }

    lemma PlacedUnfolds()
      requires Configured() && PlacedState()
      ensures sink == header + Flatten(Emitted(placed, layout.interleave)) && window == Waiting(placed, layout.interleave)
      ensures (forall i :: 0 <= i < |placed| ==> |placed[i]| >= SLOT_TAG_SIZE) && tags == TagsOf(placed)
    {}

    lemma CompleteIntro()
      requires layout.Valid() && codec.Sound() && layout.ChunkCapacity() > 0
      requires var chunks := Cut(written, layout.ChunkCapacity());
               && FitsLayout(layout, chunks) && |chunks| <= MAX_BLOCKS
               && sink == ContainerOf(codec, layout, header, chunks)
               && summary == Some(Summary(|sink|, |written|, |chunks|, layout.BurstTolerance(|chunks|)))
      ensures Complete()
    {}
  }

  // Full chunks, and a rest that is empty only when nothing was written.
  ghost predicate CutOk(chunks: seq<seq<Byte>>, pending: seq<Byte>, written: seq<Byte>, capacity: nat) {
    && AllFull(chunks, capacity) && |pending| <= capacity
    && (pending == [] ==> chunks == [])
    && written == Flatten(chunks) + pending
  }

  // The state inside write: `offset` bytes of the data are already in chunks or in the rest.
  ghost predicate Cutting(chunks: seq<seq<Byte>>, pending: seq<Byte>, written: seq<Byte>, data: seq<Byte>, offset: nat, capacity: nat) {
    && offset <= |data| && AllFull(chunks, capacity) && |pending| <= capacity
    && (offset < |data| ==> pending == [])
    && (offset == |data| && pending == [] ==> chunks == [])
    && written + data[..offset] == Flatten(chunks) + pending
  }

  lemma CutStart(chunks: seq<seq<Byte>>, pending: seq<Byte>, written: seq<Byte>, data: seq<Byte>, capacity: nat)
    requires CutOk(chunks, pending, written, capacity)
    ensures |pending| <= capacity && written == Flatten(chunks) + pending
    ensures pending == [] || data == [] ==> Cutting(chunks, pending, written, data, 0, capacity)
  {
    assert written + data[..0] == written;
  }

  lemma CutTopUp(chunks: seq<seq<Byte>>, pending: seq<Byte>, written: seq<Byte>, data: seq<Byte>, capacity: nat, taken: nat)
    requires CutOk(chunks, pending, written, capacity) && pending != []
    requires taken <= |data| && (taken == |data| || taken + |pending| == capacity) && |pending| + taken <= capacity
    ensures taken == |data| ==> Cutting(chunks, pending + data[..taken], written, data, taken, capacity)
    ensures taken < |data| ==>
      |pending + data[..taken]| == capacity && Cutting(chunks + [pending + data[..taken]], [], written, data, taken, capacity)
  {
    var topped := pending + data[..taken];
    assert written + data[..taken] == Flatten(chunks) + topped;
    FlattenAppend(chunks, topped);
    assert Flatten(chunks) + topped + [] == Flatten(chunks) + topped;
  }

  lemma CutChunk(chunks: seq<seq<Byte>>, pending: seq<Byte>, written: seq<Byte>, data: seq<Byte>, offset: nat, capacity: nat)
    requires Cutting(chunks, pending, written, data, offset, capacity) && offset + capacity < |data|
    ensures pending == [] && AllFull(chunks + [data[offset..offset + capacity]], capacity)
    ensures Cutting(chunks + [data[offset..offset + capacity]], [], written, data, offset + capacity, capacity)
  {
    var chunk := data[offset..offset + capacity];
    FlattenAppend(chunks, chunk);
    assert data[..offset + capacity] == data[..offset] + chunk;
    assert written + data[..offset + capacity] == (written + data[..offset]) + chunk;
    assert Flatten(chunks) + [] == Flatten(chunks);
    assert Flatten(chunks) + chunk + [] == Flatten(chunks) + chunk;
  }

  lemma CutRest(chunks: seq<seq<Byte>>, pending: seq<Byte>, written: seq<Byte>, data: seq<Byte>, offset: nat, capacity: nat)
    requires Cutting(chunks, pending, written, data, offset, capacity) && |data| - offset <= capacity
    ensures CutOk(chunks, pending + data[offset..], written + data, capacity)
  {
    assert data == data[..offset] + data[offset..];
    assert written + data == (written + data[..offset]) + data[offset..];
    if offset == |data| {
      assert data[offset..] == [] && pending + [] == pending;
    } else {
      assert [] + data[offset..] == data[offset..] && Flatten(chunks) + [] == Flatten(chunks);
    }
  }

  // So many bytes need more full chunks than a container has blocks.
  predicate Overflows(bytes: nat, capacity: nat) {
    bytes > MAX_BLOCKS * capacity
  }

  // More full chunks than a container holds, all cut from what was written.
  lemma CutTooLong(chunks: seq<seq<Byte>>, written: seq<Byte>, data: seq<Byte>, offset: nat, capacity: nat)
    requires AllFull(chunks, capacity) && |chunks| > MAX_BLOCKS && capacity > 0 && offset <= |data|
    requires |Flatten(chunks)| <= |written| + offset
    ensures Overflows(|written| + |data|, capacity)
  {
    FullLength(chunks, capacity);
    ProductMonotone(capacity, MAX_BLOCKS + 1, |chunks|);
    assert (MAX_BLOCKS + 1) * capacity == MAX_BLOCKS * capacity + capacity;
  }

  // The queued chunks and the rest are the cut of everything written.
  lemma LastCut(flushed: seq<seq<Byte>>, batch: seq<seq<Byte>>, pending: seq<Byte>, written: seq<Byte>, layout: StreamLayout)
    requires layout.Valid() && CutOk(flushed + batch, pending, written, layout.ChunkCapacity())
    ensures Cut(written, layout.ChunkCapacity()) == flushed + batch + [pending]
    ensures FitsLayout(layout, flushed + batch + [pending])
    ensures FitsLayout(layout, batch + [pending])
  {
    hide Cut, EncodedLength, Flatten;
    CutOfFullChunks(flushed + batch, pending, layout.ChunkCapacity());
    CutChunksFit(layout, written);
    var chunks := flushed + batch + [pending];
    forall i | 0 <= i < |batch + [pending]| ensures |(batch + [pending])[i]| <= layout.ChunkCapacity() {
      assert chunks[|flushed| + i] == (batch + [pending])[i];
    }
  }

  // The placed slots at the end are the slots of all chunks, the last one final.
  lemma WholeRun(codec: Codec, layout: StreamLayout, flushed: seq<seq<Byte>>, last: seq<seq<Byte>>)
    requires layout.Valid() && codec.Sound() && last != []
    requires FitsLayout(layout, flushed) && FitsLayout(layout, last)
    ensures FitsLayout(layout, flushed + last)
    ensures SlotRun(codec, layout, 0, flushed, None)
            + SlotRun(codec, layout, |flushed|, last, FinalIndex(|flushed|, |last|, true))
         == SlotsOf(codec, layout, flushed + last)
  {
    var n, chunks := |flushed|, flushed + last;
    var final := Some(|chunks| - 1);
    assert FinalIndex(|flushed|, |last|, true) == final;
    hide *;
    FitsConcat(layout, flushed, last);
    SlotRunConcat(codec, layout, 0, flushed, last, final);
    EarlierFinal(codec, layout, flushed, final);
    RunIsAll(codec, layout, chunks);
    assert 0 + |flushed| == n;
    assert SlotRun(codec, layout, 0, chunks, final) == SlotRun(codec, layout, 0, flushed, None) + SlotRun(codec, layout, n, last, final);
  }

  lemma EarlierFinal(codec: Codec, layout: StreamLayout, chunks: seq<seq<Byte>>, final: Option<nat>)
    requires layout.Valid() && codec.Sound() && FitsLayout(layout, chunks)
    requires final.Some? ==> |chunks| <= final.value
    ensures SlotRun(codec, layout, 0, chunks, final) == SlotRun(codec, layout, 0, chunks, None)
  {
    hide *;
    var a, b := SlotRun(codec, layout, 0, chunks, final), SlotRun(codec, layout, 0, chunks, None);
    forall i | 0 <= i < |chunks| ensures a[i] == b[i] {
      SameSlot(codec, layout, 0, chunks, final, i, 0, chunks, None, i);
    }
  }

  lemma RunIsAll(codec: Codec, layout: StreamLayout, chunks: seq<seq<Byte>>)
    requires layout.Valid() && codec.Sound() && FitsLayout(layout, chunks) && chunks != []
    ensures SlotRun(codec, layout, 0, chunks, Some(|chunks| - 1)) == SlotsOf(codec, layout, chunks)
  {
    hide SlotRun, SlotsOf, SlotOf, FitsLayout, StreamLayout.Valid, StreamLayout.ChunkCapacity, Codec.Sound;
  }

  lemma CutFlattens(data: seq<Byte>, layout: StreamLayout)
    requires layout.Valid()
    ensures Flatten(Cut(data, layout.ChunkCapacity())) == data
  {
    CutIsFaithful(data, layout.ChunkCapacity());
  }

  lemma DrainStart(sink: seq<Byte>, waiting: seq<seq<Byte>>)
    ensures sink == sink + Flatten(waiting[..0]) && waiting[|waiting| - |waiting|..] == waiting
  {
    assert waiting[..0] == [];
  }

  lemma DrainOne(before: seq<Byte>, waiting: seq<seq<Byte>>, done: nat)
    requires done < |waiting|
    ensures waiting[done..][0] == waiting[done] && waiting[done..][1..] == waiting[done + 1..]
    ensures before + Flatten(waiting[..done]) + waiting[done] == before + Flatten(waiting[..done + 1])
  {
    assert waiting[..done + 1] == waiting[..done] + [waiting[done]];
    FlattenAppend(waiting[..done], waiting[done]);
  }

  function SealedTrailer(codec: Codec, blocks: nat, plaintextBytes: nat, finalChunkLen: nat, tags: seq<seq<Byte>>): seq<Byte> {
    Trailer(codec.containerId, blocks, plaintextBytes, finalChunkLen, codec.digest(tags)).Seal(codec.checksum)
  }

  // Emitted slots, the drained window, two trailers and the header are the container.
  lemma ClosedContainer(codec: Codec, layout: StreamLayout, header: seq<Byte>, chunks: seq<seq<Byte>>,
                        slots: seq<seq<Byte>>, before: seq<Byte>, waiting: seq<seq<Byte>>)
    requires layout.Valid() && codec.Sound() && FitsLayout(layout, chunks) && |chunks| > 0
    requires slots == SlotsOf(codec, layout, chunks)
    requires before == header + Flatten(Emitted(slots, layout.interleave)) && waiting == Waiting(slots, layout.interleave)
    ensures forall i :: 0 <= i < |slots| ==> |slots[i]| >= SLOT_TAG_SIZE
    ensures var trailer := SealedTrailer(codec, |slots|, |Flatten(chunks)|, |chunks[|chunks| - 1]| + TAG_LENGTH, TagsOf(slots));
            before + Flatten(waiting) + trailer + trailer + header == ContainerOf(codec, layout, header, chunks)
  {
    hide *;
    SlotsHaveTags(codec, layout, chunks);
    ContainerUnfolds(codec, layout, header, chunks);
    DrainCompletes(slots, layout.interleave);
    FlattenConcat(Emitted(slots, layout.interleave), Waiting(slots, layout.interleave));
    Regrouped(header, Flatten(Emitted(slots, layout.interleave)), Flatten(waiting));
    EnclosedParts(header, Flatten(ArrangedSlots(slots, layout.interleave)),
                  SealedTrailer(codec, |slots|, |Flatten(chunks)|, |chunks[|chunks| - 1]| + TAG_LENGTH, TagsOf(slots)));
  }

  lemma Regrouped(a: seq<Byte>, b: seq<Byte>, c: seq<Byte>)
    ensures (a + b) + c == a + (b + c)
  {}

  lemma SlotsHaveTags(codec: Codec, layout: StreamLayout, chunks: seq<seq<Byte>>)
    requires layout.Valid() && codec.Sound() && FitsLayout(layout, chunks) && |chunks| > 0
    ensures layout.interleave > 0
    ensures var slots := SlotsOf(codec, layout, chunks); forall i :: 0 <= i < |slots| ==> |slots[i]| >= SLOT_TAG_SIZE
  {
    SlotsAreLong(codec, layout, chunks);
  }

  lemma ContainerUnfolds(codec: Codec, layout: StreamLayout, header: seq<Byte>, chunks: seq<seq<Byte>>)
    requires layout.Valid() && codec.Sound() && FitsLayout(layout, chunks) && |chunks| > 0
    requires var slots := SlotsOf(codec, layout, chunks); forall i :: 0 <= i < |slots| ==> |slots[i]| >= SLOT_TAG_SIZE
    ensures ContainerOf(codec, layout, header, chunks)
         == (var slots := SlotsOf(codec, layout, chunks);
             var trailer := SealedTrailer(codec, |slots|, |Flatten(chunks)|, |chunks[|chunks| - 1]| + TAG_LENGTH, TagsOf(slots));
             Enclosed(header, Flatten(ArrangedSlots(slots, layout.interleave)), trailer))
  {
    hide SlotsOf, Flatten, Enclosed, ArrangedSlots, TagsOf, FitsLayout, Codec.Sound, StreamLayout.Valid;
  }

  lemma {:induction false} FullLength(chunks: seq<seq<Byte>>, capacity: nat)
    requires AllFull(chunks, capacity)
    ensures |Flatten(chunks)| == |chunks| * capacity
  {
    if |chunks| > 0 {
      FullLength(chunks[..|chunks| - 1], capacity);
      assert |chunks| * capacity == (|chunks| - 1) * capacity + capacity;
    } else {
      assert |chunks| * capacity == 0;
    }
  }

  lemma CutChunksFit(layout: StreamLayout, data: seq<Byte>)
    requires layout.Valid()
    ensures FitsLayout(layout, Cut(data, layout.ChunkCapacity()))
  {
    hide Cut, Flatten, EncodedLength;
    CutIsFaithful(data, layout.ChunkCapacity());
  }

  function FinalIndex(first: nat, count: nat, final: bool): Option<nat> {
    if final && first + count > 0 then Some(first + count - 1) else None
  }

  // The slots of a run of chunks that starts at a given index.
  function SlotRun(codec: Codec, layout: StreamLayout, first: nat, chunks: seq<seq<Byte>>, finalIndex: Option<nat>): (slots: seq<seq<Byte>>)
    requires layout.Valid() && codec.Sound() && FitsLayout(layout, chunks)
    ensures |slots| == |chunks|
    ensures forall i :: 0 <= i < |chunks| ==> slots[i] == SlotInRun(codec, layout, first, chunks, finalIndex, i)
  {
    hide SlotInRun, StreamLayout.Valid, FitsLayout, Codec.Sound;
    seq(|chunks|, i requires 0 <= i < |chunks| && layout.Valid() && codec.Sound() && FitsLayout(layout, chunks) =>
      SlotInRun(codec, layout, first, chunks, finalIndex, i))
  }

  function SlotInRun(codec: Codec, layout: StreamLayout, first: nat, chunks: seq<seq<Byte>>, finalIndex: Option<nat>, i: nat): seq<Byte>
    requires layout.Valid() && codec.Sound() && FitsLayout(layout, chunks) && i < |chunks|
  {
    hide SlotOf, StreamLayout.Valid, Codec.Sound;
    SlotOf(codec, layout, first + i, chunks[i], finalIndex == Some(first + i))
  }

  // The same chunk at the same index makes the same slot.
  lemma SameSlot(codec: Codec, layout: StreamLayout, first: nat, chunks: seq<seq<Byte>>, final: Option<nat>, i: nat,
                 first': nat, chunks': seq<seq<Byte>>, final': Option<nat>, i': nat)
    requires layout.Valid() && codec.Sound() && FitsLayout(layout, chunks) && FitsLayout(layout, chunks')
    requires i < |chunks| && i' < |chunks'| && first + i == first' + i' && chunks[i] == chunks'[i']
    requires final == Some(first + i) <==> final' == Some(first + i)
    ensures SlotInRun(codec, layout, first, chunks, final, i) == SlotInRun(codec, layout, first', chunks', final', i')
  {
    hide SlotOf, StreamLayout.Valid, Codec.Sound, FitsLayout;
  }

  lemma FitsConcat(layout: StreamLayout, left: seq<seq<Byte>>, right: seq<seq<Byte>>)
    requires layout.Valid() && FitsLayout(layout, left) && FitsLayout(layout, right)
    ensures FitsLayout(layout, left + right)
  {}

  lemma NothingBehind(chunks: seq<seq<Byte>>)
    ensures chunks + [] == chunks
  {}

  lemma SlotRunConcat(codec: Codec, layout: StreamLayout, first: nat, left: seq<seq<Byte>>, right: seq<seq<Byte>>, finalIndex: Option<nat>)
    requires layout.Valid() && codec.Sound() && FitsLayout(layout, left) && FitsLayout(layout, right)
    ensures FitsLayout(layout, left + right)
    ensures SlotRun(codec, layout, first, left + right, finalIndex)
         == SlotRun(codec, layout, first, left, finalIndex) + SlotRun(codec, layout, first + |left|, right, finalIndex)
  {
    hide *;
    FitsConcat(layout, left, right);
    var both := left + right;
    var whole := SlotRun(codec, layout, first, both, finalIndex);
    var head := SlotRun(codec, layout, first, left, finalIndex);
    var tail := SlotRun(codec, layout, first + |left|, right, finalIndex);
    forall i | 0 <= i < |left| ensures whole[i] == head[i] {
      SameSlot(codec, layout, first, both, finalIndex, i, first, left, finalIndex, i);
    }
    forall i | 0 <= i < |right| ensures whole[|left| + i] == tail[i] {
      SameSlot(codec, layout, first, both, finalIndex, |left| + i, first + |left|, right, finalIndex, i);
    }
    SplitsAs(whole, head, tail);
  }

  lemma SplitsAs(whole: seq<seq<Byte>>, head: seq<seq<Byte>>, tail: seq<seq<Byte>>)
    requires |whole| == |head| + |tail|
    requires forall i :: 0 <= i < |head| ==> whole[i] == head[i]
    requires forall i :: 0 <= i < |tail| ==> whole[|head| + i] == tail[i]
    ensures whole == head + tail
  {}

  // The blocks of the first chunks of a run.
  ghost predicate AreBlocks(codec: Codec, layout: StreamLayout, first: nat, chunks: seq<seq<Byte>>, finalIndex: Option<nat>, blocks: seq<seq<Byte>>)
    requires layout.Valid() && codec.Sound() && FitsLayout(layout, chunks)
  {
    |blocks| <= |chunks| && forall b :: 0 <= b < |blocks| ==> IsBlock(codec, layout, first + b, chunks[b], finalIndex, blocks[b])
  }

  ghost predicate IsBlock(codec: Codec, layout: StreamLayout, index: nat, chunk: seq<Byte>, finalIndex: Option<nat>, block: seq<Byte>)
    requires layout.Valid() && codec.Sound()
  {
    |chunk| <= layout.ChunkCapacity() && block == BlockOf(codec, layout, index, chunk, finalIndex == Some(index))
  }

  lemma NoBlocks(codec: Codec, layout: StreamLayout, first: nat, chunks: seq<seq<Byte>>, finalIndex: Option<nat>)
    requires layout.Valid() && codec.Sound() && FitsLayout(layout, chunks)
    ensures AreBlocks(codec, layout, first, chunks, finalIndex, [])
  {
    hide IsBlock, StreamLayout.Valid, Codec.Sound, FitsLayout;
  }

  lemma NextBlock(codec: Codec, layout: StreamLayout, first: nat, chunks: seq<seq<Byte>>, finalIndex: Option<nat>, blocks: seq<seq<Byte>>)
    requires layout.Valid() && codec.Sound() && FitsLayout(layout, chunks) && AreBlocks(codec, layout, first, chunks, finalIndex, blocks)
    requires |blocks| < |chunks| && |chunks[|blocks|]| <= layout.ChunkCapacity()
    ensures AreBlocks(codec, layout, first, chunks, finalIndex,
                      blocks + [BlockOf(codec, layout, first + |blocks|, chunks[|blocks|], finalIndex == Some(first + |blocks|))])
  {
    hide BlockOf, StreamLayout.Valid, StreamLayout.ChunkCapacity, Codec.Sound, FitsLayout;
  }

  lemma EncodedAreSlots(codec: Codec, layout: StreamLayout, first: nat, chunks: seq<seq<Byte>>, finalIndex: Option<nat>,
                        blocks: seq<seq<Byte>>, encoded: seq<seq<Byte>>, slots: seq<seq<Byte>>)
    requires layout.Valid() && codec.Sound() && FitsLayout(layout, chunks) && AreBlocks(codec, layout, first, chunks, finalIndex, blocks)
    requires ValidNsym(layout.nsym) && |slots| == |encoded| == |blocks| == |chunks|
    requires forall i :: 0 <= i < |blocks| ==> encoded[i] == EncodeBlock(blocks[i], layout.nsym)
    requires forall i :: 0 <= i < |blocks| ==> slots[i] == encoded[i] + codec.slotTag(encoded[i])
    ensures slots == SlotRun(codec, layout, first, chunks, finalIndex)
    ensures forall s :: 0 <= s < |slots| ==> |slots[s]| == layout.SlotSize()
  {
    hide *;
    var run := SlotRun(codec, layout, first, chunks, finalIndex);
    forall i | 0 <= i < |slots| ensures slots[i] == run[i] && |slots[i]| == layout.SlotSize() {
      BlockIsThere(codec, layout, first, chunks, finalIndex, blocks, i);
      SlotOfBlock(codec, layout, first, chunks, finalIndex, i);
      SlotLength(codec, layout, first + i, chunks[i], finalIndex == Some(first + i));
    }
  }

  lemma BlockIsThere(codec: Codec, layout: StreamLayout, first: nat, chunks: seq<seq<Byte>>, finalIndex: Option<nat>, blocks: seq<seq<Byte>>, i: nat)
    requires layout.Valid() && codec.Sound() && FitsLayout(layout, chunks) && AreBlocks(codec, layout, first, chunks, finalIndex, blocks)
    requires i < |blocks| <= |chunks|
    ensures |chunks[i]| <= layout.ChunkCapacity()
    ensures blocks[i] == BlockOf(codec, layout, first + i, chunks[i], finalIndex == Some(first + i))
  {
    hide BlockOf, StreamLayout.Valid, StreamLayout.ChunkCapacity, Codec.Sound, FitsLayout;
    assert IsBlock(codec, layout, first + i, chunks[i], finalIndex, blocks[i]);
  }

  lemma SlotOfBlock(codec: Codec, layout: StreamLayout, first: nat, chunks: seq<seq<Byte>>, finalIndex: Option<nat>, i: nat)
    requires layout.Valid() && codec.Sound() && FitsLayout(layout, chunks) && ValidNsym(layout.nsym) && i < |chunks|
    ensures |chunks[i]| <= layout.ChunkCapacity()
    ensures var encoded := EncodeBlock(BlockOf(codec, layout, first + i, chunks[i], finalIndex == Some(first + i)), layout.nsym);
            SlotInRun(codec, layout, first, chunks, finalIndex, i) == encoded + codec.slotTag(encoded)
    ensures SlotInRun(codec, layout, first, chunks, finalIndex, i)
         == SlotOf(codec, layout, first + i, chunks[i], finalIndex == Some(first + i))
  {
    hide EncodeBlock, BlockOf, StreamLayout.Valid, StreamLayout.ChunkCapacity, Codec.Sound;
  }

  lemma LayoutNsymFits(layout: StreamLayout)
    requires layout.Valid()
    ensures ValidNsym(layout.nsym)
  {}

  lemma FitsAt(layout: StreamLayout, chunks: seq<seq<Byte>>, i: nat)
    requires layout.Valid() && FitsLayout(layout, chunks) && i < |chunks|
    ensures |chunks[i]| <= layout.ChunkCapacity()
  {}

  lemma FitsSlice(layout: StreamLayout, chunks: seq<seq<Byte>>, a: nat, b: nat)
    requires layout.Valid() && FitsLayout(layout, chunks) && a <= b <= |chunks|
    ensures FitsLayout(layout, chunks[a..b])
  {}

  ghost predicate AllFull(chunks: seq<seq<Byte>>, capacity: nat) {
    forall i :: 0 <= i < |chunks| ==> |chunks[i]| == capacity
  }
}
