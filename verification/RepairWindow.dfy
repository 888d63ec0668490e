// The in-order, bounded window of a repair pass (the waiting and ready dictionaries of
// StreamReader._resolved in dbs/container/stream.py), over any kind of kept slot and block.
module RepairWindow {
  import opened Layout

  // ----- where a pass stands after some first and some second copies

  function Behind(firsts: nat, interleave: nat): nat {
    if firsts > interleave then firsts - interleave else 0
  }

  // The pairs of counts that occur between two entries of the schedule.
  predicate Between(blocks: nat, interleave: nat, firsts: nat, seconds: nat) {
    && firsts <= blocks && seconds <= blocks
    && if firsts < blocks then
         seconds == Behind(firsts, interleave) || (firsts > interleave && seconds + 1 == Behind(firsts, interleave))
       else seconds + 1 >= Behind(firsts, interleave)
  }

  predicate FirstIsNext(blocks: nat, interleave: nat, firsts: nat, seconds: nat) {
    firsts < blocks && seconds == Behind(firsts, interleave)
  }

  lemma NextPlacement(blocks: nat, interleave: nat, firsts: nat, seconds: nat)
    requires interleave > 0 && Between(blocks, interleave, firsts, seconds) && firsts + seconds < 2 * blocks
    ensures ScheduleOf(blocks, interleave)[firsts + seconds]
         == if FirstIsNext(blocks, interleave, firsts, seconds) then Placement(firsts + seconds, firsts, true)
            else Placement(firsts + seconds, seconds, false)
    ensures FirstIsNext(blocks, interleave, firsts, seconds) ==> Between(blocks, interleave, firsts + 1, seconds)
    ensures !FirstIsNext(blocks, interleave, firsts, seconds) ==>
      seconds < firsts && Between(blocks, interleave, firsts, seconds + 1)
  {
    ScheduleIsBijective(blocks, interleave);
    hide ScheduleOf;
    var first := FirstIsNext(blocks, interleave, firsts, seconds);
    var index := if first then firsts else seconds;
    assert PositionOf(index, first, blocks, interleave) == firsts + seconds;
  }

  // The block indices from `first` up to `end`.
  function Range(first: nat, end: nat): (s: set<nat>)
    ensures forall i :: i in s <==> first <= i < end
    ensures first <= end ==> |s| == end - first
  {
    if first >= end then {} else Range(first, end - 1) + {end - 1}
  }

  // ----- the window of a pass, over any kind of kept slot R and delivered block B

  // For every index: what a pass must deliver, what it keeps of the first copy, and whether that
  // copy has to wait for the second one.
  datatype Plan<R, B> = Plan(delivered: seq<B>, kept: seq<R>, waits: seq<bool>, lost: seq<bool>, interleave: nat) {
    predicate Valid() {
      |delivered| == |kept| == |waits| == |lost| && interleave > 0
    }
  }

  // Every block between the next one to deliver and the last one met is either waiting for its
  // second copy or ready, never both; what is ready is what the plan delivers.
  ghost predicate WindowOk<R(!new), B(!new)>(plan: Plan<R, B>, waiting: map<nat, R>, ready: map<nat, B>, nextIndex: nat, firsts: nat, seconds: nat) {
    && plan.Valid()
    && Between(|plan.delivered|, plan.interleave, firsts, seconds)
    && nextIndex <= firsts
    && (forall i :: i in waiting ==> nextIndex <= i < firsts && i !in ready)
    && (forall i :: i in ready ==> nextIndex <= i < firsts)
    && (forall i: nat :: nextIndex <= i < firsts ==> i in waiting || i in ready)
    && (forall i :: i in waiting ==> seconds <= i && plan.waits[i] && waiting[i] == plan.kept[i])
    && (forall i: nat :: seconds <= i < firsts && plan.waits[i] ==> i in waiting)
    && (forall i :: i in ready ==> ready[i] == plan.delivered[i])
  }

  // The report lists exactly the resolved blocks that could not be delivered.
  ghost predicate ReportOk<R(!new), B(!new)>(plan: Plan<R, B>, waiting: map<nat, R>, firsts: nat, failed: seq<nat>)
    requires plan.Valid() && firsts <= |plan.lost|
  {
    forall i: nat :: i in failed <==> i < firsts && i !in waiting && plan.lost[i]
  }

  lemma TakeReady<R(!new), B(!new)>(plan: Plan<R, B>, waiting: map<nat, R>, ready: map<nat, B>, nextIndex: nat, firsts: nat, seconds: nat,
                                    failed: seq<nat>)
    requires WindowOk(plan, waiting, ready, nextIndex, firsts, seconds) && ReportOk(plan, waiting, firsts, failed)
    requires FirstIsNext(|plan.delivered|, plan.interleave, firsts, seconds) && !plan.lost[firsts] && !plan.waits[firsts]
    ensures WindowOk(plan, waiting, ready[firsts := plan.delivered[firsts]], nextIndex, firsts + 1, seconds)
    ensures ReportOk(plan, waiting, firsts + 1, failed)
  {}

  lemma TakeWaiting<R(!new), B(!new)>(plan: Plan<R, B>, waiting: map<nat, R>, ready: map<nat, B>, nextIndex: nat, firsts: nat, seconds: nat,
                                      failed: seq<nat>)
    requires WindowOk(plan, waiting, ready, nextIndex, firsts, seconds) && ReportOk(plan, waiting, firsts, failed)
    requires FirstIsNext(|plan.delivered|, plan.interleave, firsts, seconds) && plan.waits[firsts]
    ensures WindowOk(plan, waiting[firsts := plan.kept[firsts]], ready, nextIndex, firsts + 1, seconds)
    ensures ReportOk(plan, waiting[firsts := plan.kept[firsts]], firsts + 1, failed)
  {}

  lemma Resolve<R(!new), B(!new)>(plan: Plan<R, B>, waiting: map<nat, R>, ready: map<nat, B>, nextIndex: nat, firsts: nat, seconds: nat,
                                  failed: seq<nat>)
    requires WindowOk(plan, waiting, ready, nextIndex, firsts, seconds) && ReportOk(plan, waiting, firsts, failed)
    requires Between(|plan.delivered|, plan.interleave, firsts, seconds + 1) && seconds in waiting
    ensures seconds < |plan.delivered|
    ensures WindowOk(plan, waiting - {seconds}, ready[seconds := plan.delivered[seconds]], nextIndex, firsts, seconds + 1)
    ensures ReportOk(plan, waiting - {seconds}, firsts, failed + (if plan.lost[seconds] then [seconds] else []))
  {}

  lemma PassSpare<R(!new), B(!new)>(plan: Plan<R, B>, waiting: map<nat, R>, ready: map<nat, B>, nextIndex: nat, firsts: nat, seconds: nat)
    requires WindowOk(plan, waiting, ready, nextIndex, firsts, seconds)
    requires Between(|plan.delivered|, plan.interleave, firsts, seconds + 1) && seconds !in waiting
    ensures WindowOk(plan, waiting, ready, nextIndex, firsts, seconds + 1)
  {}

  lemma PopReady<R(!new), B(!new)>(plan: Plan<R, B>, waiting: map<nat, R>, ready: map<nat, B>, nextIndex: nat, firsts: nat, seconds: nat)
    requires WindowOk(plan, waiting, ready, nextIndex, firsts, seconds) && nextIndex in ready
    ensures nextIndex < firsts <= |plan.delivered| && ready[nextIndex] == plan.delivered[nextIndex]
    ensures WindowOk(plan, waiting, ready - {nextIndex}, nextIndex + 1, firsts, seconds)
    ensures |ready - {nextIndex}| < |ready|
  {
    assert (ready - {nextIndex}).Keys == ready.Keys - {nextIndex};
  }

  // Once the next block is not ready it is the oldest one still waiting, so the window is short;
  // and when every second copy was taken, nothing is left to deliver.
  lemma WindowIsBounded<R(!new), B(!new)>(plan: Plan<R, B>, waiting: map<nat, R>, ready: map<nat, B>, nextIndex: nat, firsts: nat, seconds: nat)
    requires WindowOk(plan, waiting, ready, nextIndex, firsts, seconds) && nextIndex !in ready
    ensures seconds <= nextIndex
    ensures |waiting| + |ready| == firsts - nextIndex <= plan.interleave + 1
    ensures seconds == |plan.delivered| ==> nextIndex == firsts == |plan.delivered|
  {
    WindowSize(plan, waiting, ready, nextIndex, firsts, seconds);
  }

  lemma WindowSize<R(!new), B(!new)>(plan: Plan<R, B>, waiting: map<nat, R>, ready: map<nat, B>, nextIndex: nat, firsts: nat, seconds: nat)
    requires WindowOk(plan, waiting, ready, nextIndex, firsts, seconds)
    ensures |waiting| + |ready| == firsts - nextIndex
  {
    var held := waiting.Keys + ready.Keys;
    assert held == Range(nextIndex, firsts);
    assert |held| == |waiting.Keys| + |ready.Keys|;
  }
}
