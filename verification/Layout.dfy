// The geometry of a format 2 container (dbs/container/stream.py): sizes, the interleaved
// schedule of slots, and why one burst never reaches both copies of a block.
module Layout {
  import opened Encoder

  const MIN_BLOCK_SIZE: nat := 512
  const MAX_BLOCK_SIZE: nat := 16 * 1024 * 1024
  const MAX_INTERLEAVE: nat := 4096
  const MAX_WINDOW_BYTES: nat := 64 * 1024 * 1024
  const MAX_BLOCKS: nat := 0xFFFF_FFFF
  const SLOT_TAG_SIZE: nat := 16
  const DESCRIPTOR_SIZE: nat := 16
  const TAG_LENGTH: nat := 16
  const HEADER_SIZE: nat := 152
  const TRAILER_SIZE: nat := 100

  // The bytes of `count` things of one size (RepeatedIsProduct).
  function Repeated(count: nat, size: nat): nat {
    if count == 0 then 0 else size + Repeated(count - 1, size)
  }

  lemma {:induction false} RepeatedIsProduct(count: nat, size: nat)
    ensures Repeated(count, size) == count * size
  {
    if count > 0 {
      RepeatedIsProduct(count - 1, size);
    }
  }

  datatype StreamLayout = StreamLayout(blockSize: nat, nsym: nat, interleave: nat) {
    // layout_problem finds nothing wrong.
    predicate Valid() {
      && MIN_BLOCK_SIZE <= blockSize <= MAX_BLOCK_SIZE
      && 2 <= nsym <= 128
      && 1 <= interleave <= MAX_INTERLEAVE
      && Repeated(interleave, EncodedLength(blockSize, nsym) + SLOT_TAG_SIZE) <= MAX_WINDOW_BYTES
    }

    function EncodedSize(): nat
      requires Valid()
    {
      EncodedLength(blockSize, nsym)
    }

    function SlotSize(): (size: nat)
      requires Valid()
      ensures size == EncodedSize() + SLOT_TAG_SIZE
    {
      EncodedSize() + SLOT_TAG_SIZE
    }

    function ChunkCapacity(): (capacity: nat)
      requires Valid()
      ensures capacity > 0
    {
      blockSize - DESCRIPTOR_SIZE - TAG_LENGTH
    }

    function MaxChunkLen(): nat
      requires Valid()
    {
      blockSize - DESCRIPTOR_SIZE
    }

    // Where the slot at a position starts.
    function SlotOffset(position: nat): nat
      requires Valid()
    {
      HEADER_SIZE + position * SlotSize()
    }

    function ContainerSize(blocks: nat): nat
      requires Valid()
    {
      2 * HEADER_SIZE + 2 * TRAILER_SIZE + 2 * blocks * SlotSize()
    }

    // The number of slots a tolerated burst spans.
    function BurstDistance(blocks: nat): nat {
      if blocks > interleave then interleave else if blocks > 0 then blocks - 1 else 0
    }

    function BurstTolerance(blocks: nat): nat
      requires Valid()
    {
      BurstDistance(blocks) * SlotSize()
    }
  }

  // ----- the schedule

  // One entry of the schedule: the position, the block and whether it is the first copy.
  datatype Placement = Placement(position: nat, index: nat, first: bool)

  function FirstCopyPosition(index: nat, interleave: nat): nat {
    if index < interleave then index else 2 * index - interleave
  }

  // Where the second copy of a block lies, given the number of blocks.
  function SecondCopyPosition(index: nat, blocks: nat, interleave: nat): nat {
    index + (if index + interleave < blocks then index + interleave + 1 else blocks)
  }

  function PositionOf(index: nat, first: bool, blocks: nat, interleave: nat): nat {
    if first then FirstCopyPosition(index, interleave) else SecondCopyPosition(index, blocks, interleave)
  }

  // How many slots the steps before `step` have placed.
  function PlacedBefore(step: nat, blocks: nat, interleave: nat): nat {
    (if step < blocks then step else blocks) + (if step > interleave then step - interleave else 0)
  }

  // What one step of the source's loop yields.
  function StepPlacements(step: nat, blocks: nat, interleave: nat): seq<Placement> {
    var position := PlacedBefore(step, blocks, interleave);
    (if step < blocks then [Placement(position, step, true)] else []) +
    (if step >= interleave then [Placement(if step < blocks then position + 1 else position, step - interleave, false)] else [])
  }

  function ScheduleUpTo(step: nat, blocks: nat, interleave: nat): (placements: seq<Placement>)
    ensures |placements| == PlacedBefore(step, blocks, interleave)
  {
    if step == 0 then [] else ScheduleUpTo(step - 1, blocks, interleave) + StepPlacements(step - 1, blocks, interleave)
  }

  function ScheduleOf(blocks: nat, interleave: nat): (placements: seq<Placement>)
    ensures |placements| == 2 * blocks
  {
    ScheduleUpTo(blocks + interleave, blocks, interleave)
  }

  method Schedule(blocks: nat, interleave: nat) returns (placements: seq<Placement>)
    ensures placements == ScheduleOf(blocks, interleave)
  {
    var position := 0;
    placements := [];
    for step := 0 to blocks + interleave
      invariant position == PlacedBefore(step, blocks, interleave)
      invariant placements == ScheduleUpTo(step, blocks, interleave)
    {
      if step < blocks {
        placements := placements + [Placement(position, step, true)];
        position := position + 1;
      }
      if step >= interleave {
        placements := placements + [Placement(position, step - interleave, false)];
        position := position + 1;
      }
    }
  }

  // Every entry stands at its own position, which the closed forms name.
  lemma {:induction false} ScheduleEntries(step: nat, blocks: nat, interleave: nat)
    requires step <= blocks + interleave
    ensures forall p :: 0 <= p < |ScheduleUpTo(step, blocks, interleave)| ==>
      var entry := ScheduleUpTo(step, blocks, interleave)[p];
      entry.position == p == PositionOf(entry.index, entry.first, blocks, interleave) && entry.index < blocks
  {
    if step > 0 {
      ScheduleEntries(step - 1, blocks, interleave);
    }
  }

  // The schedule at the position of a copy is that copy.
  lemma {:induction false} ScheduleHolds(step: nat, blocks: nat, interleave: nat, index: nat, first: bool)
    requires step <= blocks + interleave
    requires index < blocks && (if first then index < step else index + interleave < step)
    ensures var p := PositionOf(index, first, blocks, interleave);
            p < |ScheduleUpTo(step, blocks, interleave)| &&
            ScheduleUpTo(step, blocks, interleave)[p] == Placement(p, index, first)
  {
    var owner := if first then index else index + interleave;
    if owner < step - 1 {
      ScheduleHolds(step - 1, blocks, interleave, index, first);
    } else {
      ScheduleEntries(step, blocks, interleave);
    }
  }

  // The schedule is a bijection between positions and copies: each copy of each block stands at
  // exactly one of the 2 * blocks positions, and every position holds one copy.
  lemma ScheduleIsBijective(blocks: nat, interleave: nat)
    ensures forall p: nat :: p < 2 * blocks ==>
      var entry := ScheduleOf(blocks, interleave)[p];
      entry.index < blocks && entry.position == p == PositionOf(entry.index, entry.first, blocks, interleave)
    ensures forall index: nat, first: bool :: index < blocks ==>
      var p := PositionOf(index, first, blocks, interleave);
      p < 2 * blocks && ScheduleOf(blocks, interleave)[p] == Placement(p, index, first)
  {
    ScheduleEntries(blocks + interleave, blocks, interleave);
    forall index: nat, first: bool | index < blocks
      ensures var p := PositionOf(index, first, blocks, interleave);
              p < 2 * blocks && ScheduleOf(blocks, interleave)[p] == Placement(p, index, first)
    {
      ScheduleHolds(blocks + interleave, blocks, interleave, index, first);
    }
  }

  // ----- bursts

  // The two copies of a block are more than the burst distance apart, and the bound is met.
  lemma CopiesAreFarApart(layout: StreamLayout, blocks: nat, index: nat)
    requires index < blocks && layout.interleave > 0
    ensures SecondCopyPosition(index, blocks, layout.interleave)
         >= FirstCopyPosition(index, layout.interleave) + layout.BurstDistance(blocks) + 1
    ensures SecondCopyPosition(0, blocks, layout.interleave)
         == FirstCopyPosition(0, layout.interleave) + layout.BurstDistance(blocks) + 1
  {}

  lemma OffsetStep(layout: StreamLayout, p: nat, q: nat)
    requires layout.Valid() && p <= q
    ensures layout.SlotOffset(q) == layout.SlotOffset(p) + (q - p) * layout.SlotSize()
  {
    var size := layout.SlotSize();
    assert q * size == p * size + (q - p) * size;
  }

  // A range of bytes touches the slot at a position.
  ghost predicate Touches(layout: StreamLayout, start: nat, length: nat, position: nat)
    requires layout.Valid()
  {
    && start < layout.SlotOffset(position) + layout.SlotSize()
    && layout.SlotOffset(position) < start + length
  }

  lemma {:induction false} ProductMonotone(size: nat, a: nat, b: nat)
    requires a <= b
    ensures a * size <= b * size
    decreases b - a
  {
    if a < b {
      ProductMonotone(size, a + 1, b);
      assert (a + 1) * size == a * size + size;
    }
  }

  lemma OffsetGrows(layout: StreamLayout, p: nat, q: nat)
    requires layout.Valid() && p <= q
    ensures layout.SlotOffset(p) <= layout.SlotOffset(q)
  {
    ProductMonotone(layout.SlotSize(), p, q);
  }

  lemma TouchesMeans(layout: StreamLayout, start: nat, length: nat, position: nat)
    requires layout.Valid()
    ensures Touches(layout, start, length, position)
       <==> start < layout.SlotOffset(position) + layout.SlotSize() && layout.SlotOffset(position) < start + length
  {
    hide StreamLayout.SlotOffset, StreamLayout.SlotSize;
  }

  lemma OneMoreSlot(layout: StreamLayout, blocks: nat)
    requires layout.Valid()
    ensures layout.SlotSize() > 0
    ensures (layout.BurstDistance(blocks) + 1) * layout.SlotSize() == layout.BurstTolerance(blocks) + layout.SlotSize()
  {
    hide StreamLayout.BurstDistance;
  }

  // One range at most one byte longer than the tolerance touches only slots within the burst distance.
  lemma BurstSpan(layout: StreamLayout, blocks: nat, start: nat, length: nat, p: nat, q: nat)
    requires layout.Valid() && length <= layout.BurstTolerance(blocks) + 1
    requires p <= q && Touches(layout, start, length, p) && Touches(layout, start, length, q)
    ensures q - p <= layout.BurstDistance(blocks)
  {
    hide *;
    OffsetStep(layout, p, q);
    OneMoreSlot(layout, blocks);
    TouchesMeans(layout, start, length, p);
    TouchesMeans(layout, start, length, q);
    if q - p >= layout.BurstDistance(blocks) + 1 {
      ProductMonotone(layout.SlotSize(), layout.BurstDistance(blocks) + 1, q - p);
    }
  }

  // Whatever one tolerated burst touches, it misses one copy of every block.
  lemma OneCopySurvives(layout: StreamLayout, blocks: nat, start: nat, length: nat, index: nat)
    requires layout.Valid() && length <= layout.BurstTolerance(blocks) + 1 && index < blocks
    ensures !Touches(layout, start, length, FirstCopyPosition(index, layout.interleave))
         || !Touches(layout, start, length, SecondCopyPosition(index, blocks, layout.interleave))
  {
    var p, q := FirstCopyPosition(index, layout.interleave), SecondCopyPosition(index, blocks, layout.interleave);
    CopiesAreFarApart(layout, blocks, index);
    if Touches(layout, start, length, p) && Touches(layout, start, length, q) {
      BurstSpan(layout, blocks, start, length, p, q);
    }
  }

  // Two bytes more than the tolerance can reach both copies of the first block, so the bound of
  // OneCopySurvives is exact.
  lemma ToleranceIsTight(layout: StreamLayout, blocks: nat)
    requires layout.Valid() && blocks > 0
    ensures var start := layout.SlotOffset(0) + layout.SlotSize() - 1;
            var length := layout.BurstTolerance(blocks) + 2;
            && Touches(layout, start, length, FirstCopyPosition(0, layout.interleave))
            && Touches(layout, start, length, SecondCopyPosition(0, blocks, layout.interleave))
  {
    CopiesAreFarApart(layout, blocks, 0);
    assert FirstCopyPosition(0, layout.interleave) == 0;
    hide *;
    OneMoreSlot(layout, blocks);
    var start := layout.SlotOffset(0) + layout.SlotSize() - 1;
    var length := layout.BurstTolerance(blocks) + 2;
    OffsetStep(layout, 0, layout.BurstDistance(blocks) + 1);
    TouchesMeans(layout, start, length, 0);
    TouchesMeans(layout, start, length, layout.BurstDistance(blocks) + 1);
  }
}
