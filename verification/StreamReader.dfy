// StreamReader of dbs/container/stream.py: one pass over the interleaved slots that repairs blocks
// in order with a bounded window, and the decryption of the blocks it delivers.
module Reader {
  import opened Wrappers
  import opened Sequences
  import opened Bytes
  import opened Encoder
  import opened CopyRepair
  import opened Layout
  import opened Container
  import opened BlockRepair
  import opened RepairWindow
  import opened RepairReport

  const READ_BATCH_SLOTS: nat := 16

  // ----- what a reader delivers

  // The plaintext of one block: delivered, and opened by the cipher at its index.
  ghost function PlainAt(view: View, index: nat): Option<seq<Byte>>
    requires view.Valid()
  {
    BlockShape(view, index);
    match BlockAt(view, index)
    case None => None
    case Some(block) => view.codec.open(index, Ciphertext(block), index == view.blocks - 1)
  }

  function Ciphertext(block: Block): seq<Byte>
    requires DESCRIPTOR_SIZE + block.chunkLen <= |block.data|
  {
    block.data[DESCRIPTOR_SIZE..DESCRIPTOR_SIZE + block.chunkLen]
  }

  ghost predicate AllPlain(view: View, count: nat)
    requires view.Valid()
  {
    forall i: nat :: i < count ==> PlainAt(view, i).Some?
  }

  // The plaintext of the first blocks.
  ghost function PlainUpTo(view: View, count: nat): seq<Byte>
    requires view.Valid() && AllPlain(view, count)
  {
    if count == 0 then [] else PlainUpTo(view, count - 1) + PlainAt(view, count - 1).value
  }

  // The tags of the first delivered blocks.
  ghost function TagsUpTo(view: View, count: nat): seq<seq<Byte>>
    requires view.Valid()
  {
    if count == 0 then []
    else TagsUpTo(view, count - 1) + (if BlockAt(view, count - 1).Some? then [BlockAt(view, count - 1).value.tag] else [])
  }

  // The trailer's digest of the block tags, when there is a trailer to compare with.
  ghost predicate DigestAgrees(view: View)
    requires view.Valid()
  {
    view.trailer.Some? ==> view.codec.digest(TagsUpTo(view, view.blocks)) == view.trailer.value.blocksDigest
  }

  // What a pass over this source delivers, keeps and loses, index by index.
  ghost function PlanOf(view: View): (plan: Plan<Option<seq<Byte>>, Option<Block>>)
    requires view.Valid()
    ensures plan.Valid() && |plan.delivered| == view.blocks && plan.interleave == view.layout.interleave
    ensures forall i: nat :: i < view.blocks ==>
      && plan.delivered[i] == BlockAt(view, i) && plan.kept[i] == Complete(view.layout, FirstSlot(view, i))
      && (plan.waits[i] <==> FirstClean(view, i).None?) && (plan.lost[i] <==> BlockAt(view, i).None?)
  {
    hide BlockAt, FirstSlot, FirstClean, Complete;
    Plan(seq(view.blocks, i requires 0 <= i < view.blocks && view.Valid() => BlockAt(view, i)),
         seq(view.blocks, i requires 0 <= i < view.blocks && view.Valid() => Complete(view.layout, FirstSlot(view, i))),
         seq(view.blocks, i requires 0 <= i < view.blocks && view.Valid() => FirstClean(view, i).None?),
         seq(view.blocks, i requires 0 <= i < view.blocks && view.Valid() => BlockAt(view, i).None?),
         view.layout.interleave)
  }

  datatype Failure = BlockLost(index: nat) | ChunkRejected(index: nat) | FinalCheckFailed

  // What a reader raises at a block that does not open: it is lost, or the cipher rejects it.
  ghost predicate FailsAt(view: View, failure: Failure, index: nat)
    requires view.Valid()
  {
    if BlockAt(view, index).None? then failure == BlockLost(index) else failure == ChunkRejected(index)
  }

  lemma RejectedAt(view: View, index: nat)
    requires view.Valid() && BlockAt(view, index).Some?
    ensures FailsAt(view, ChunkRejected(index), index)
  {
    hide View.Valid, BlockAt;
  }

  class StreamReader {
    const view: View
    const table: seq<seq<seq<Byte>>>
    ghost const plan: Plan<Option<seq<Byte>>, Option<Block>>

    var report: Report
    var waiting: map<nat, Option<seq<Byte>>>
    var ready: map<nat, Option<Block>>
    var firstTags: map<nat, seq<Byte>>
    var nextIndex: nat
    var tags: seq<seq<Byte>>

    // How many first and second copies the pass has taken.
    ghost var firsts: nat
    ghost var seconds: nat

    ghost predicate Configured() {
      view.Valid() && IsParityTable(table, view.layout.nsym) && plan == PlanOf(view)
    }

    // The window holds what the plan of the source says, and the report lists exactly the resolved
    // blocks that could not be delivered.
    ghost predicate Passing()
      reads `waiting, `ready, `nextIndex, `firsts, `seconds, `report
    {
      && WindowOk(plan, waiting, ready, nextIndex, firsts, seconds)
      && !report.digestMismatch && ReportOk(plan, waiting, firsts, report.failedBlocks)
    }

    // The report tells what a pass has met so far, and the tags are kept that its spares need.
    ghost predicate Accounted(checkSpares: bool, settled: nat)
      requires view.Valid()
      reads `report, `firstTags, `firsts, `seconds
    {
      && Accounts(view, report, firsts, seconds, checkSpares)
      && (checkSpares ==> KeepsTags(view, firstTags, firsts, seconds))
      && report.unverifiedBlocks == DoubtsFrom(view, settled, seconds)
    }

    lemma AccountedMeans(checkSpares: bool, settled: nat)
      requires view.Valid() && Accounted(checkSpares, settled)
      ensures Accounts(view, report, firsts, seconds, checkSpares)
      ensures checkSpares ==> KeepsTags(view, firstTags, firsts, seconds)
      ensures report.unverifiedBlocks == DoubtsFrom(view, settled, seconds)
    {
      hide View.Valid, Accounts, KeepsTags, DoubtsFrom;
    }

    lemma AccountedIntro(checkSpares: bool, settled: nat)
      requires view.Valid() && Accounts(view, report, firsts, seconds, checkSpares)
      requires checkSpares ==> KeepsTags(view, firstTags, firsts, seconds)
      requires report.unverifiedBlocks == DoubtsFrom(view, settled, seconds)
      ensures Accounted(checkSpares, settled)
    {
      hide View.Valid, Accounts, KeepsTags, DoubtsFrom;
    }

    constructor (view: View, table: seq<seq<seq<Byte>>>)
      requires view.Valid() && IsParityTable(table, view.layout.nsym)
      ensures this.view == view && this.table == table && Configured()
    {
      hide *;
      this.view, this.table := view, table;
      plan := PlanOf(view);
      report := FreshReport(view.blocks);
      waiting, ready, firstTags := map[], map[], map[];
      nextIndex, tags := 0, [];
      firsts, seconds := 0, 0;
      new;
      ConfiguredIntro();
    }

    lemma ConfiguredIntro()
      requires view.Valid() && IsParityTable(table, view.layout.nsym) && plan == PlanOf(view)
      ensures Configured()
    {}

    lemma ConfiguredMeans()
      requires Configured()
      ensures view.Valid() && view.layout.Valid() && view.codec.Sound() && IsParityTable(table, view.layout.nsym) && plan == PlanOf(view)
      ensures plan.Valid() && |plan.delivered| == view.blocks && plan.interleave == view.layout.interleave
    {
      hide PlanOf, IsParityTable, StreamLayout.Valid, Codec.Sound;
    }

    // The start of a pass.
    method Begin(ghost checkSpares: bool)
      requires Configured() && view.Valid()
      modifies this
      ensures Accounted(checkSpares, nextIndex)
      ensures Passing() && nextIndex == 0 && tags == [] && firsts == seconds == 0 && ready == map[]
    {
      ConfiguredMeans();
      hide PlanOf, IsParityTable, Configured, View.Valid, StreamLayout.Valid, Codec.Sound;
      report := FreshReport(view.blocks);
      waiting, ready, firstTags := map[], map[], map[];
      nextIndex, tags := 0, [];
      firsts, seconds := 0, 0;
      AccountStarts(view, checkSpares);
      assert DoubtsFrom(view, 0, 0) == [];
      AccountedIntro(checkSpares, nextIndex);
      hide Accounts, KeepsTags, Accounted;
    }

    // A first copy: delivered at once when it is clean, else kept until its second copy comes.
    method TakeFirst(index: nat, raw: seq<Byte>, checkSpares: bool)
      requires Configured() && Passing() && nextIndex !in ready && view.Valid() && Accounted(checkSpares, nextIndex)
      requires FirstIsNext(view.blocks, view.layout.interleave, firsts, seconds)
      requires index == firsts < view.blocks && view.layout.Valid() && raw == FirstSlot(view, index)
      modifies `waiting, `ready, `firstTags, `report, `firsts
      ensures firsts == old(firsts) + 1 && seconds == old(seconds) && Passing() && Accounted(checkSpares, nextIndex)
    {
      hide *;
      ConfiguredMeans();
      PassingMeans();
      AccountedMeans(checkSpares, nextIndex);
      AccountFirst(view, report, firsts, seconds, checkSpares);
      if checkSpares {
        TagKept(view, firstTags, firsts, seconds);
      }
      FirstDecides(view, index);
      PlanMeans(view, index);
      report := Noted(report, |raw| == view.layout.SlotSize());
      var block := Clean(view, raw, index);
      if block.Some? {
        TakeReady(plan, waiting, ready, nextIndex, firsts, seconds, report.failedBlocks);
        report := Direct(report);
        ready := ready[index := block];
        if checkSpares {
          firstTags := firstTags[index := block.value.tag];
        }
      } else {
        TakeWaiting(plan, waiting, ready, nextIndex, firsts, seconds, report.failedBlocks);
        waiting := waiting[index := Complete(view.layout, raw)];
      }
      firsts := firsts + 1;
      PassingIntro();
      AccountedIntro(checkSpares, nextIndex);
    }

    lemma PassingMeans()
      requires Passing()
      ensures WindowOk(plan, waiting, ready, nextIndex, firsts, seconds)
      ensures plan.Valid() && firsts <= |plan.lost| && !report.digestMismatch && ReportOk(plan, waiting, firsts, report.failedBlocks)
    {}

    lemma PassingIntro()
      requires WindowOk(plan, waiting, ready, nextIndex, firsts, seconds)
      requires plan.Valid() && firsts <= |plan.lost| && !report.digestMismatch && ReportOk(plan, waiting, firsts, report.failedBlocks)
      ensures Passing()
    {}

    // A second copy: the repair of a waiting block, or a spare.
    method TakeSecond(index: nat, raw: seq<Byte>, checkSpares: bool)
      requires Configured() && Passing() && nextIndex !in ready && view.Valid() && Accounted(checkSpares, nextIndex)
      requires Between(view.blocks, view.layout.interleave, firsts, seconds + 1)
      requires index == seconds < view.blocks && index < firsts && view.layout.Valid() && raw == SecondSlot(view, index)
      modifies `waiting, `ready, `firstTags, `report, `seconds
      ensures seconds == old(seconds) + 1 && Passing() && Accounted(checkSpares, nextIndex)
    {
      hide *;
      ghost var before := report;
      AccountedMeans(checkSpares, nextIndex);
      NoteLength(raw);
      if index in waiting {
        RepairWaiting(index, raw, before, checkSpares);
      } else {
        PassBy(index, raw, before, checkSpares);
      }
    }

    method NoteLength(raw: seq<Byte>)
      requires Passing() && view.layout.Valid()
      modifies `report
      ensures Passing() && report == Noted(old(report), |raw| == view.layout.SlotSize())
    {
      hide *;
      PassingMeans();
      report := Noted(report, |raw| == view.layout.SlotSize());
      PassingIntro();
    }

    // The repair of a waiting block from both its copies.
    method RepairWaiting(index: nat, raw: seq<Byte>, ghost before: Report, ghost checkSpares: bool)
      requires Configured() && Passing() && nextIndex !in ready && index in waiting
      requires Between(view.blocks, view.layout.interleave, firsts, seconds + 1)
      requires index == seconds < view.blocks && view.layout.Valid() && raw == SecondSlot(view, index)
      requires view.Valid() && Accounts(view, before, firsts, seconds, checkSpares) && (checkSpares ==> KeepsTags(view, firstTags, firsts, seconds))
      requires report == Noted(before, |raw| == view.layout.SlotSize()) && before.unverifiedBlocks == DoubtsFrom(view, nextIndex, seconds)
      modifies `waiting, `ready, `report, `seconds
      ensures seconds == old(seconds) + 1 && Passing() && Accounted(checkSpares, nextIndex)
    {
      hide *;
      ConfiguredMeans();
      PassingMeans();
      PlanMeans(view, index);
      WaitingMeans(plan, waiting, ready, nextIndex, firsts, seconds, index);
      SecondDecides(view, index);
      Resolve(plan, waiting, ready, nextIndex, firsts, seconds, report.failedBlocks);
      AccountRepair(view, before, firsts, seconds, checkSpares);
      if checkSpares {
        TagKept(view, firstTags, firsts, seconds);
      }
      var repaired := RepairBlock(view, table, index, waiting[index], Complete(view.layout, raw));
      waiting := waiting - {index};
      if repaired.None? {
        DoubtStays(view, nextIndex, index);
        report := Failed(report, index);
        ready := ready[index := None];
      } else {
        DoubtComes(view, nextIndex, index);
        NoneAdded(report.failedBlocks);
        report := Counted(report, index, repaired.value);
        ready := ready[index := Some(repaired.value.block)];
      }
      seconds := seconds + 1;
      PassingIntro();
      AccountedIntro(checkSpares, nextIndex);
    }

    // A spare: its first copy was clean.
    method PassBy(index: nat, raw: seq<Byte>, ghost before: Report, checkSpares: bool)
      requires Configured() && Passing() && nextIndex !in ready && index !in waiting
      requires Between(view.blocks, view.layout.interleave, firsts, seconds + 1)
      requires index == seconds < view.blocks && index < firsts && view.layout.Valid() && raw == SecondSlot(view, index)
      requires view.Valid() && Accounts(view, before, firsts, seconds, checkSpares) && (checkSpares ==> KeepsTags(view, firstTags, firsts, seconds))
      requires report == Noted(before, |raw| == view.layout.SlotSize()) && before.unverifiedBlocks == DoubtsFrom(view, nextIndex, seconds)
      modifies `firstTags, `report, `seconds
      ensures seconds == old(seconds) + 1 && Passing() && Accounted(checkSpares, nextIndex)
    {
      hide *;
      ConfiguredMeans();
      PassingMeans();
      PlanMeans(view, index);
      NotWaiting(plan, waiting, ready, nextIndex, firsts, seconds);
      PassSpare(plan, waiting, ready, nextIndex, firsts, seconds);
      AccountSpare(view, before, firsts, seconds, checkSpares);
      DoubtStays(view, nextIndex, seconds);
      if checkSpares {
        KeptTag(view, firstTags, firsts, seconds);
        TagKept(view, firstTags, firsts, seconds);
        var tag := if index in firstTags then Some(firstTags[index]) else None;
        firstTags := firstTags - {index};
        if !SpareIntact(view, raw, tag) {
          report := SpareDamaged(report, index);
        }
      }
      seconds := seconds + 1;
      PassingIntro();
      AccountedIntro(checkSpares, nextIndex);
    }

    // The next block in order leaves the window.
    method Deliver() returns (index: nat, block: Option<Block>)
      requires Configured() && Passing() && nextIndex in ready
      modifies `ready, `nextIndex, `tags
      ensures Passing() && nextIndex == old(nextIndex) + 1
      ensures index == old(nextIndex) < view.blocks && view.Valid() && block == BlockAt(view, index)
      ensures tags == old(tags) + (if block.Some? then [block.value.tag] else [])
      ensures |ready| < |old(ready)|
    {
      hide *;
      ConfiguredMeans();
      PassingMeans();
      PopReady(plan, waiting, ready, nextIndex, firsts, seconds);
      PlanMeans(view, nextIndex);
      index, block := nextIndex, ready[nextIndex];
      ready := ready - {nextIndex};
      nextIndex := nextIndex + 1;
      if block.Some? {
        tags := tags + [block.value.tag];
      } else {
        assert tags + [] == tags;
      }
      PassingIntro();
    }

    // One entry of the schedule.  Whatever the damage, the window never holds more than
    // interleave + 1 blocks.
    method TakeSlot(entry: Placement, raw: seq<Byte>, checkSpares: bool)
      requires Configured() && Passing() && nextIndex !in ready && view.layout.Valid() && view.Valid() && Accounted(checkSpares, nextIndex)
      requires firsts + seconds < 2 * view.blocks
      requires entry == ScheduleOf(view.blocks, view.layout.interleave)[firsts + seconds]
      requires raw == RawSlot(view.source, view.layout, firsts + seconds)
      modifies `waiting, `ready, `firstTags, `report, `firsts, `seconds
      ensures firsts + seconds == old(firsts + seconds) + 1 && Passing() && Accounted(checkSpares, nextIndex)
      ensures |waiting| + |ready| <= view.layout.interleave + 1
    {
      hide *;
      ConfiguredMeans();
      PassingMeans();
      WindowIsBounded(plan, waiting, ready, nextIndex, firsts, seconds);
      EntryTells(view, plan, waiting, ready, nextIndex, firsts, seconds);
      if entry.first {
        TakeFirst(entry.index, raw, checkSpares);
      } else {
        TakeSecond(entry.index, raw, checkSpares);
      }
      PassingMeans();
      WindowAfter(plan, waiting, ready, nextIndex, firsts, seconds);
    }

    // _slots: the slots in batches of sixteen, cut from one read each.
    method Slots() returns (slots: seq<seq<Byte>>)
      requires view.layout.Valid()
      ensures |slots| == 2 * view.blocks
      ensures forall p: nat :: p < |slots| ==> slots[p] == RawSlot(view.source, view.layout, p)
    {
      hide RawSlot, StreamLayout.Valid, StreamLayout.SlotOffset, ReadAt, SlotSpan, SliceOf;
      slots := [];
      var positions := 2 * view.blocks;
      var start := 0;
      while start < positions
        invariant start <= positions && |slots| == start
        invariant forall p: nat :: p < |slots| ==> slots[p] == RawSlot(view.source, view.layout, p)
      {
        var count := if READ_BATCH_SLOTS < positions - start then READ_BATCH_SLOTS else positions - start;
        var raw := ReadAt(view.source, view.layout.SlotOffset(start), SlotSpan(view.layout, count));
        for number := 0 to count
          invariant |slots| == start + number
          invariant forall p: nat :: p < |slots| ==> slots[p] == RawSlot(view.source, view.layout, p)
        {
          BatchSlice(view.source, view.layout, start, count, number);
          slots := slots + [PythonSlice(raw, SlotSpan(view.layout, number), SlotSpan(view.layout, number + 1))];
        }
        start := start + count;
      }
    }

    method NoteOpened(index: nat, ghost checkSpares: bool)
      requires Passing() && view.Valid() && Accounted(checkSpares, index)
      modifies `report
      ensures Passing() && Accounted(checkSpares, index + 1)
    {
      hide *;
      PassingMeans();
      AccountedMeans(checkSpares, index);
      AccountStays(view, report, Discarded(report, index), firsts, seconds, checkSpares);
      DoubtGoes(view, index, seconds);
      report := Discarded(report, index);
      PassingIntro();
      AccountedIntro(checkSpares, index + 1);
    }

    // The next ready block is delivered and opened.
    method OpenNext(before: seq<seq<Byte>>, ghost checkSpares: bool) returns (plaintext: seq<seq<Byte>>, failure: Option<Failure>)
      requires Configured() && Passing() && view.Valid() && Opened(view, before, tags, nextIndex) && nextIndex in ready && Accounted(checkSpares, nextIndex)
      modifies `ready, `nextIndex, `tags, `report
      ensures failure.None? ==> Passing() && Opened(view, plaintext, tags, nextIndex) && |ready| < |old(ready)| && Accounted(checkSpares, nextIndex)
      ensures failure.Some? ==> 0 < nextIndex <= view.blocks && StoppedAt(view, plaintext, nextIndex - 1)
      ensures failure.Some? ==> FailsAt(view, failure.value, nextIndex - 1) && nextIndex - 1 in report.failedBlocks
      ensures failure.Some? ==> report.unverifiedBlocks == DoubtsFrom(view, nextIndex - 1, seconds)
    {
      hide *;
      ghost var earlier := tags;
      AccountedMeans(checkSpares, nextIndex);
      LostIsListed();
      var index, block := Deliver();
      if block.None? {
        LostBlock(view, before, earlier, index);
        return before, Some(BlockLost(index));
      }
      plaintext, failure := OpenBlock(before, index, block.value, earlier, checkSpares);
    }

    method OpenBlock(before: seq<seq<Byte>>, index: nat, block: Block, ghost earlier: seq<seq<Byte>>, ghost checkSpares: bool)
      returns (plaintext: seq<seq<Byte>>, failure: Option<Failure>)
      requires Passing() && view.Valid() && Accounted(checkSpares, index) && index < view.blocks && BlockAt(view, index) == Some(block)
      requires Opened(view, before, earlier, index) && tags == earlier + [block.tag]
      modifies `report
      ensures failure.None? ==> Passing() && Opened(view, plaintext, tags, index + 1) && Accounted(checkSpares, index + 1)
      ensures failure.Some? ==> StoppedAt(view, plaintext, index) && FailsAt(view, failure.value, index) && index in report.failedBlocks
      ensures failure.Some? ==> report.unverifiedBlocks == DoubtsFrom(view, index, seconds)
    {
      hide *;
      AccountedMeans(checkSpares, index);
      PlainMeans(view, index);
      OpenedOne(view, before, earlier, index);
      var chunk := view.codec.open(index, Ciphertext(block), index == view.blocks - 1);
      if chunk.None? {
        RejectedAt(view, index);
        report := Failed(report, index);
        return before, Some(ChunkRejected(index));
      }
      NoteOpened(index, checkSpares);
      plaintext, failure := Yielded(before, chunk.value), None;
    }

    // A block that is delivered as lost has been reported.
    lemma LostIsListed()
      requires Configured() && Passing() && view.Valid() && nextIndex in ready
      ensures BlockAt(view, nextIndex).None? ==> nextIndex in report.failedBlocks && FailsAt(view, BlockLost(nextIndex), nextIndex)
    {
      ConfiguredMeans();
      PassingMeans();
      hide PlanOf, BlockAt, Configured, View.Valid, IsParityTable, StreamLayout.Valid, Codec.Sound;
      assert nextIndex < view.blocks;
      PlanMeans(view, nextIndex);
    }

    // The blocks that are ready are delivered and opened in order, until one fails or none is ready.
    method OpenReady(before: seq<seq<Byte>>, ghost checkSpares: bool) returns (plaintext: seq<seq<Byte>>, failure: Option<Failure>)
      requires Configured() && Passing() && view.Valid() && Opened(view, before, tags, nextIndex) && Accounted(checkSpares, nextIndex)
      modifies `ready, `nextIndex, `tags, `report
      ensures failure.None? ==> Passing() && nextIndex !in ready && Opened(view, plaintext, tags, nextIndex) && Accounted(checkSpares, nextIndex)
      ensures failure.Some? ==> 0 < nextIndex <= view.blocks && StoppedAt(view, plaintext, nextIndex - 1)
      ensures failure.Some? ==> FailsAt(view, failure.value, nextIndex - 1) && nextIndex - 1 in report.failedBlocks
      ensures failure.Some? ==> report.unverifiedBlocks == DoubtsFrom(view, nextIndex - 1, seconds)
    {
      hide *;
      plaintext, failure := before, None;
      while nextIndex in ready
        invariant Passing() && Opened(view, plaintext, tags, nextIndex) && Accounted(checkSpares, nextIndex)
        decreases |ready|
      {
        plaintext, failure := OpenNext(plaintext, checkSpares);
        if failure.Some? {
          return;
        }
      }
      failure := None;
    }

    // The end of a pass over blocks that were all opened: only the digest is left to disagree.
    method FinalCheck(ghost checkSpares: bool) returns (failure: Option<Failure>)
      requires view.Valid() && Accounts(view, report, firsts, seconds, checkSpares)
      requires report.failedBlocks == [] && report.unverifiedBlocks == [] && !report.digestMismatch
      requires DigestAgrees(view) <==> (view.trailer.Some? ==> view.codec.digest(tags) == view.trailer.value.blocksDigest)
      modifies `report
      ensures Accounts(view, report, firsts, seconds, checkSpares)
      ensures report.failedBlocks == [] && report.unverifiedBlocks == [] && (report.digestMismatch <==> !DigestAgrees(view))
      ensures report.Ok() <==> DigestAgrees(view)
      ensures failure == if DigestAgrees(view) then None else Some(FinalCheckFailed)
    {
      hide *;
      if view.trailer.Some? {
        var agrees := view.codec.digest(tags) == view.trailer.value.blocksDigest;
        AccountStays(view, report, Compared(report, agrees), firsts, seconds, checkSpares);
        report := Compared(report, agrees);
      }
      OkMeans(report);
      failure := if report.Ok() then None else Some(FinalCheckFailed);
    }

    // chunks: the plaintext of every block in order, then the final check.  Where it stops, the report
    // lists the block; where it ends, the report has counted every block by how it came back.
    method Chunks(checkSpares: bool) returns (plaintext: seq<seq<Byte>>, failure: Option<Failure>, ghost count: nat)
      requires Configured() && view.Valid()
      modifies this
      ensures count <= view.blocks && AllPlain(view, count) && Flatten(plaintext) == PlainUpTo(view, count)
      ensures failure.None? <==> AllPlain(view, view.blocks) && DigestAgrees(view)
      ensures failure.None? ==> count == view.blocks && report.Ok()
      ensures count < view.blocks ==> PlainAt(view, count).None?
      ensures count < view.blocks ==> failure.Some? && FailsAt(view, failure.value, count) && count in report.failedBlocks
      ensures count == view.blocks ==> failure == (if DigestAgrees(view) then None else Some(FinalCheckFailed))
      ensures count == view.blocks ==> Accounts(view, report, view.blocks, view.blocks, checkSpares)
      ensures count == view.blocks ==>
        report.failedBlocks == [] && report.unverifiedBlocks == [] && (report.digestMismatch <==> !DigestAgrees(view))
      ensures count < view.blocks ==> report.unverifiedBlocks == DoubtsFrom(view, count, seconds)
    {
      hide *;
      ConfiguredMeans();
      Begin(checkSpares);
      var placements := Schedule(view.blocks, view.layout.interleave);
      var slots := Slots();
      OpenedNothing(view);
      ScheduleLength(view.blocks, view.layout.interleave);
      plaintext := [];
      for position := 0 to |placements|
        invariant Passing() && nextIndex !in ready && firsts + seconds == position && Accounted(checkSpares, nextIndex)
        invariant Opened(view, plaintext, tags, nextIndex)
      {
        TakeSlot(placements[position], slots[position], checkSpares);
        plaintext, failure := OpenReady(plaintext, checkSpares);
        if failure.Some? {
          count := nextIndex - 1;
          StoppedMeans(view, plaintext, count);
          return;
        }
      }
      PassingMeans();
      AccountedMeans(checkSpares, nextIndex);
      PassIsComplete(plan, waiting, ready, nextIndex, firsts, seconds);
      WindowIsBounded(plan, waiting, ready, nextIndex, firsts, seconds);
      if nextIndex < view.blocks {
        // The closing loop over undelivered blocks is never entered.
        assert false;
      }
      count := nextIndex;
      OpenedAll(view, plaintext, tags);
      NothingFailed(view, plan, waiting, firsts, report.failedBlocks);
      NoDoubts(view, view.blocks);
      failure := FinalCheck(checkSpares);
    }
  }

  // ----- lemmas of the pass

  lemma EntryTells<R(!new), B(!new)>(view: View, plan: Plan<R, B>, waiting: map<nat, R>, ready: map<nat, B>, nextIndex: nat, firsts: nat, seconds: nat)
    requires view.layout.Valid() && WindowOk(plan, waiting, ready, nextIndex, firsts, seconds)
    requires |plan.delivered| == view.blocks && plan.interleave == view.layout.interleave && firsts + seconds < 2 * view.blocks
    ensures var entry := ScheduleOf(view.blocks, view.layout.interleave)[firsts + seconds];
            if entry.first then
              && entry.index == firsts < view.blocks && FirstIsNext(view.blocks, view.layout.interleave, firsts, seconds)
              && firsts <= seconds + view.layout.interleave
              && RawSlot(view.source, view.layout, firsts + seconds) == FirstSlot(view, firsts)
            else
              && entry.index == seconds < view.blocks && seconds < firsts
              && Between(view.blocks, view.layout.interleave, firsts, seconds + 1)
              && RawSlot(view.source, view.layout, firsts + seconds) == SecondSlot(view, seconds)
  {
    NextPlacement(view.blocks, view.layout.interleave, firsts, seconds);
    ScheduleIsBijective(view.blocks, view.layout.interleave);
    hide ScheduleOf, RawSlot, StreamLayout.Valid;
    var entry := ScheduleOf(view.blocks, view.layout.interleave)[firsts + seconds];
    assert entry.position == firsts + seconds == PositionOf(entry.index, entry.first, view.blocks, view.layout.interleave);
  }

  lemma WindowAfter<R(!new), B(!new)>(plan: Plan<R, B>, waiting: map<nat, R>, ready: map<nat, B>, nextIndex: nat, firsts: nat, seconds: nat)
    requires WindowOk(plan, waiting, ready, nextIndex, firsts, seconds) && firsts <= nextIndex + plan.interleave + 1
    ensures |waiting| + |ready| <= plan.interleave + 1
  {
    WindowSize(plan, waiting, ready, nextIndex, firsts, seconds);
  }

  lemma PassIsComplete<R(!new), B(!new)>(plan: Plan<R, B>, waiting: map<nat, R>, ready: map<nat, B>, nextIndex: nat, firsts: nat, seconds: nat)
    requires WindowOk(plan, waiting, ready, nextIndex, firsts, seconds) && firsts + seconds == 2 * |plan.delivered|
    ensures firsts == seconds == |plan.delivered|
  {}

  lemma ScheduleLength(blocks: nat, interleave: nat)
    ensures |ScheduleOf(blocks, interleave)| == 2 * blocks
  {}

  // The bytes of a number of slots.
  function SlotSpan(layout: StreamLayout, count: nat): nat
    requires layout.Valid()
  {
    count * layout.SlotSize()
  }

  function PythonSlice(data: seq<Byte>, start: nat, end: nat): seq<Byte> {
    if start >= |data| || end <= start then [] else data[start..if end < |data| then end else |data|]
  }

  lemma BatchSlice(source: seq<Byte>, layout: StreamLayout, start: nat, count: nat, number: nat)
    requires layout.Valid() && number < count
    ensures PythonSlice(ReadAt(source, layout.SlotOffset(start), SlotSpan(layout, count)), SlotSpan(layout, number), SlotSpan(layout, number + 1))
         == RawSlot(source, layout, start + number)
  {
    var size := layout.SlotSize();
    var offset := layout.SlotOffset(start);
    assert (number + 1) * size == number * size + size;
    assert (start + number) * size == start * size + number * size;
    ProductMonotone(size, number + 1, count);
    hide StreamLayout.SlotSize, StreamLayout.Valid;
    SliceOfRead(source, offset, SlotSpan(layout, count), SlotSpan(layout, number), size);
  }

  lemma SliceOfRead(source: seq<Byte>, offset: nat, length: nat, start: nat, size: nat)
    requires start + size <= length && size > 0
    ensures PythonSlice(ReadAt(source, offset, length), start, start + size) == ReadAt(source, offset + start, size)
  {
    if offset + start < |source| {
      var last := if offset + length < |source| then offset + length else |source|;
      var end := if start + size < last - offset then start + size else last - offset;
      SliceOfSlice(source, offset, last, start, end);
    }
  }

  lemma SliceOfSlice<T>(s: seq<T>, first: nat, last: nat, start: nat, end: nat)
    requires first <= last <= |s| && start <= end <= last - first
    ensures s[first..last][start..end] == s[first + start..first + end]
  {
    var piece := s[first..last];
    assert forall k :: 0 <= k < end - start ==> piece[start..end][k] == piece[start + k] == s[first + start..first + end][k];
  }

  // ----- what has been opened so far

  ghost predicate Opened(view: View, plaintext: seq<seq<Byte>>, tags: seq<seq<Byte>>, count: nat)
    requires view.Valid()
  {
    count <= view.blocks && AllPlain(view, count) && Flatten(plaintext) == PlainUpTo(view, count) && tags == TagsUpTo(view, count)
  }

  ghost predicate StoppedAt(view: View, plaintext: seq<seq<Byte>>, count: nat)
    requires view.Valid()
  {
    count < view.blocks && AllPlain(view, count) && Flatten(plaintext) == PlainUpTo(view, count) && PlainAt(view, count).None?
  }

  lemma OpenedNothing(view: View)
    requires view.Valid()
    ensures Opened(view, [], [], 0)
  {
    hide View.Valid, PlainAt;
  }

  lemma LostBlock(view: View, plaintext: seq<seq<Byte>>, tags: seq<seq<Byte>>, index: nat)
    requires view.Valid() && Opened(view, plaintext, tags, index) && index < view.blocks && BlockAt(view, index).None?
    ensures StoppedAt(view, plaintext, index)
  {
    hide View.Valid, BlockAt, PlainUpTo, TagsUpTo;
  }

  lemma DescriptorFits(view: View, index: nat)
    requires view.Valid() && BlockAt(view, index).Some?
    ensures var block := BlockAt(view, index).value; DESCRIPTOR_SIZE + block.chunkLen <= |block.data|
  {
    BlockShape(view, index);
    hide BlockAt, EncodedLength;
  }

  function Yielded(plaintext: seq<seq<Byte>>, plain: seq<Byte>): (after: seq<seq<Byte>>)
    ensures Flatten(after) == Flatten(plaintext) + plain
  {
    FlattenAppend(plaintext, plain);
    assert Flatten(plaintext) + [] == Flatten(plaintext);
    if plain != [] then plaintext + [plain] else plaintext
  }

  lemma OpenedOne(view: View, plaintext: seq<seq<Byte>>, tags: seq<seq<Byte>>, index: nat)
    requires view.Valid() && Opened(view, plaintext, tags, index) && index < view.blocks && BlockAt(view, index).Some?
    ensures PlainAt(view, index).None? ==> StoppedAt(view, plaintext, index)
    ensures PlainAt(view, index).Some? ==>
      Opened(view, Yielded(plaintext, PlainAt(view, index).value), tags + [BlockAt(view, index).value.tag], index + 1)
  {
    hide View.Valid, BlockAt, PlainAt, Yielded;
  }

  lemma PlainMeans(view: View, index: nat)
    requires view.Valid() && BlockAt(view, index).Some?
    ensures var block := BlockAt(view, index).value;
            && DESCRIPTOR_SIZE + block.chunkLen <= |block.data|
            && PlainAt(view, index) == view.codec.open(index, Ciphertext(block), index == view.blocks - 1)
  {
    DescriptorFits(view, index);
    hide BlockAt, Ciphertext, EncodedLength;
  }

  lemma StoppedMeans(view: View, plaintext: seq<seq<Byte>>, count: nat)
    requires view.Valid() && StoppedAt(view, plaintext, count)
    ensures count < view.blocks && AllPlain(view, count) && Flatten(plaintext) == PlainUpTo(view, count) && PlainAt(view, count).None?
    ensures !AllPlain(view, view.blocks)
  {
    hide View.Valid, PlainAt;
  }

  lemma OpenedAll(view: View, plaintext: seq<seq<Byte>>, tags: seq<seq<Byte>>)
    requires view.Valid() && Opened(view, plaintext, tags, view.blocks)
    ensures AllPlain(view, view.blocks) && Flatten(plaintext) == PlainUpTo(view, view.blocks)
    ensures DigestAgrees(view) <==> (view.trailer.Some? ==> view.codec.digest(tags) == view.trailer.value.blocksDigest)
  {
    hide View.Valid, PlainAt;
  }

  // When every block was opened, none was reported lost.
  lemma NothingFailed(view: View, plan: Plan<Option<seq<Byte>>, Option<Block>>, waiting: map<nat, Option<seq<Byte>>>, firsts: nat, failed: seq<nat>)
    requires view.Valid() && plan == PlanOf(view) && firsts == view.blocks && plan.Valid() && firsts <= |plan.lost|
    requires AllPlain(view, view.blocks) && ReportOk(plan, waiting, firsts, failed)
    ensures failed == []
  {
    hide View.Valid, BlockAt, FirstSlot, FirstClean, Complete, PlanOf;
    var i := if failed == [] then 0 else failed[0];
    assert failed != [] ==> i in failed;
    if i < view.blocks {
      PlanMeans(view, i);
      assert PlainAt(view, i).Some?;
    }
  }

  lemma PlanMeans(view: View, index: nat)
    requires view.Valid() && index < view.blocks
    ensures var plan := PlanOf(view);
            && index < |plan.delivered| == |plan.kept| == |plan.waits| == |plan.lost|
            && plan.delivered[index] == BlockAt(view, index)
            && plan.kept[index] == Complete(view.layout, FirstSlot(view, index))
            && (plan.waits[index] <==> FirstClean(view, index).None?)
            && (plan.lost[index] <==> BlockAt(view, index).None?)
  {
    hide PlanOf, View.Valid, BlockAt, FirstSlot, FirstClean, Complete;
  }

  lemma WaitingMeans<R(!new), B(!new)>(plan: Plan<R, B>, waiting: map<nat, R>, ready: map<nat, B>, nextIndex: nat, firsts: nat, seconds: nat, index: nat)
    requires WindowOk(plan, waiting, ready, nextIndex, firsts, seconds) && index in waiting
    ensures index < |plan.kept| == |plan.waits| && waiting[index] == plan.kept[index] && plan.waits[index] && nextIndex <= index
  {}

  lemma NotWaiting<R(!new), B(!new)>(plan: Plan<R, B>, waiting: map<nat, R>, ready: map<nat, B>, nextIndex: nat, firsts: nat, seconds: nat)
    requires WindowOk(plan, waiting, ready, nextIndex, firsts, seconds) && seconds !in waiting && seconds < firsts
    ensures seconds < |plan.waits| && !plan.waits[seconds]
  {}

  lemma KeptTag(view: View, firstTags: map<nat, seq<Byte>>, firsts: nat, seconds: nat)
    requires view.Valid() && KeepsTags(view, firstTags, firsts, seconds) && seconds < firsts && FirstClean(view, seconds).Some?
    ensures seconds in firstTags && firstTags[seconds] == FirstClean(view, seconds).value.tag
  {
    hide View.Valid, FirstClean;
  }

  lemma NoneAdded(failed: seq<nat>)
    ensures failed + [] == failed
  {}

  lemma FirstDecides(view: View, index: nat)
    requires view.Valid()
    ensures Clean(view, FirstSlot(view, index), index) == FirstClean(view, index)
    ensures FirstClean(view, index).Some? ==> BlockAt(view, index) == FirstClean(view, index)
  {
    hide Clean, RepairedBlock, RawSlot;
  }

  lemma SecondDecides(view: View, index: nat)
    requires view.Valid()
    ensures var (first, second) := (Complete(view.layout, FirstSlot(view, index)), Complete(view.layout, SecondSlot(view, index)));
            && (first.Some? ==> |first.value| == view.layout.SlotSize())
            && (second.Some? ==> |second.value| == view.layout.SlotSize())
            && RepairAt(view, index) == RepairedBlock(view, index, first, second)
            && (FirstClean(view, index).None? ==>
                  BlockAt(view, index) == match RepairedBlock(view, index, first, second)
                                          case None => None
                                          case Some(repaired) => Some(repaired.block))
  {
    hide Clean, RepairedBlock, RawSlot;
  }
}
