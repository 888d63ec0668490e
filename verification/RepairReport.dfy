// The report of a repair pass (StreamRepairReport of dbs/container/stream.py): what a pass counts and
// lists, told from the slots themselves.
module RepairReport {
  import opened Wrappers
  import opened Bytes
  import opened Layout
  import opened BlockRepair

  datatype Report = Report(
    totalBlocks: nat, blocksDirect: nat, blocksUsedB: nat, blocksRsCorrected: nat, blocksMerged: nat, copiesAvailable: nat,
    failedBlocks: seq<nat>, sparesDamaged: seq<nat>, unverifiedBlocks: seq<nat>, digestMismatch: bool)
  {
    predicate Ok() {
      failedBlocks == [] && !digestMismatch
    }
  }

  lemma OkMeans(report: Report)
    ensures report.Ok() <==> report.failedBlocks == [] && !report.digestMismatch
  {}

  function FreshReport(blocks: nat): Report {
    Report(blocks, 0, 0, 0, 0, 2, [], [], [], false)
  }

  function RemoveFirst(list: seq<nat>, value: nat): (rest: seq<nat>) {
    if list == [] then []
    else if list[0] == value then list[1..]
    else [list[0]] + RemoveFirst(list[1..], value)
  }

  function Truncated(report: Report): (after: Report)
    ensures after.failedBlocks == report.failedBlocks && after.digestMismatch == report.digestMismatch
    ensures after.unverifiedBlocks == report.unverifiedBlocks
  {
    report.(copiesAvailable := 1)
  }

  function Direct(report: Report): (after: Report)
    ensures after.failedBlocks == report.failedBlocks && after.digestMismatch == report.digestMismatch
    ensures after.unverifiedBlocks == report.unverifiedBlocks
  {
    report.(blocksDirect := report.blocksDirect + 1)
  }

  function Failed(report: Report, index: nat): (after: Report)
    ensures after.failedBlocks == report.failedBlocks + [index] && after.digestMismatch == report.digestMismatch
    ensures after.unverifiedBlocks == report.unverifiedBlocks
  {
    report.(failedBlocks := report.failedBlocks + [index])
  }

  function SpareDamaged(report: Report, index: nat): (after: Report)
    ensures after.failedBlocks == report.failedBlocks && after.digestMismatch == report.digestMismatch
    ensures after.unverifiedBlocks == report.unverifiedBlocks
  {
    report.(sparesDamaged := report.sparesDamaged + [index])
  }

  // _spare_intact
  predicate SpareIntact(view: View, raw: seq<Byte>, tag: Option<seq<Byte>>)
    requires view.layout.Valid()
  {
    && |raw| == view.layout.SlotSize()
    && Some(raw[view.layout.EncodedSize()..]) == tag
    && Some(view.codec.slotTag(raw[..view.layout.EncodedSize()])) == tag
  }

  // What a successful repair adds to the report.
  function Counted(report: Report, index: nat, repaired: Repaired): (counted: Report)
    ensures counted.failedBlocks == report.failedBlocks && counted.digestMismatch == report.digestMismatch
    ensures repaired.unverified ==> counted.unverifiedBlocks == report.unverifiedBlocks + [index]
    ensures !repaired.unverified ==> counted.unverifiedBlocks == report.unverifiedBlocks
  {
    var noted := if repaired.unverified then report.(unverifiedBlocks := report.unverifiedBlocks + [index]) else report;
    match repaired.origin
    case SecondCopy => noted.(blocksUsedB := noted.blocksUsedB + 1)
    case Corrected(merged, onlySecond, decoded) =>
      if merged then noted.(blocksMerged := noted.blocksMerged + 1)
      else if onlySecond then
        var used := noted.(blocksUsedB := noted.blocksUsedB + 1);
        if decoded then used.(blocksRsCorrected := used.blocksRsCorrected + 1) else used
      else noted.(blocksRsCorrected := noted.blocksRsCorrected + 1)
  }

  function Discarded(report: Report, index: nat): (after: Report)
    ensures after.failedBlocks == report.failedBlocks && after.digestMismatch == report.digestMismatch
    ensures SameAccount(after, report)
    ensures after.unverifiedBlocks == if index in report.unverifiedBlocks then RemoveFirst(report.unverifiedBlocks, index) else report.unverifiedBlocks
  {
    if index in report.unverifiedBlocks then report.(unverifiedBlocks := RemoveFirst(report.unverifiedBlocks, index)) else report
  }

  // The end of _pass: the digest of the block tags against the trailer's.
  function Compared(report: Report, agrees: bool): (after: Report)
    ensures report.failedBlocks == [] && !report.digestMismatch ==> (after.Ok() <==> agrees)
    ensures SameAccount(after, report)
    ensures report.failedBlocks == [] && report.unverifiedBlocks == [] && !report.digestMismatch ==>
              after.failedBlocks == [] && after.unverifiedBlocks == [] && (after.digestMismatch <==> !agrees)
  {
    if report.failedBlocks != [] then report
    else if agrees then report.(unverifiedBlocks := [])
    else if report.unverifiedBlocks != [] then
      report.(failedBlocks := report.failedBlocks + report.unverifiedBlocks, unverifiedBlocks := [])
    else report.(digestMismatch := true)
  }

  // ----- what a pass has to have counted

  // Blocks whose first copy is clean.
  ghost function CountDirect(view: View, n: nat): nat
    requires view.Valid()
  {
    if n == 0 then 0 else CountDirect(view, n - 1) + if FirstClean(view, n - 1).Some? then 1 else 0
  }

  // How a block whose first copy is not clean comes back.
  ghost function OriginAt(view: View, i: nat): Option<Origin>
    requires view.Valid()
  {
    if FirstClean(view, i).Some? then None
    else match RepairAt(view, i)
      case None => None
      case Some(repaired) => Some(repaired.origin)
  }

  // Taken from the second copy alone; corrected, where the first copy had a part in it or something was
  // decoded; put together from both.
  predicate FromSecond(origin: Origin) {
    origin.SecondCopy? || (!origin.merged && origin.onlySecond)
  }

  predicate WasCorrected(origin: Origin) {
    origin.Corrected? && !origin.merged && (origin.onlySecond ==> origin.decoded)
  }

  predicate WasMerged(origin: Origin) {
    origin.Corrected? && origin.merged
  }

  ghost function CountOrigins(view: View, n: nat, kind: Origin -> bool): nat
    requires view.Valid()
  {
    if n == 0 then 0
    else CountOrigins(view, n - 1, kind) + if OriginAt(view, n - 1).Some? && kind(OriginAt(view, n - 1).value) then 1 else 0
  }

  // A spare second copy is as good as its clean first copy: whole, and its bytes have the same tag,
  // which it carries too.
  ghost predicate SpareAgrees(view: View, i: nat)
    requires view.Valid() && FirstClean(view, i).Some?
  {
    var (raw, tag) := (SecondSlot(view, i), FirstClean(view, i).value.tag);
    |raw| == view.layout.SlotSize() && raw[view.layout.EncodedSize()..] == tag && view.codec.slotTag(raw[..view.layout.EncodedSize()]) == tag
  }

  ghost predicate SpareDiffers(view: View, i: nat)
    requires view.Valid()
  {
    FirstClean(view, i).Some? && !SpareAgrees(view, i)
  }

  // The spares that do not, in order.
  ghost function DamagedSpares(view: View, n: nat): seq<nat>
    requires view.Valid()
  {
    if n == 0 then [] else DamagedSpares(view, n - 1) + if SpareDiffers(view, n - 1) then [n - 1] else []
  }

  lemma {:induction false} DamagedSparesMean(view: View, n: nat)
    requires view.Valid()
    ensures forall i: nat :: i in DamagedSpares(view, n) <==> i < n && SpareDiffers(view, i)
    ensures forall i, j :: 0 <= i < j < |DamagedSpares(view, n)| ==> DamagedSpares(view, n)[i] < DamagedSpares(view, n)[j]
  {
    hide SpareDiffers, View.Valid;
    if n > 0 {
      DamagedSparesMean(view, n - 1);
      var (before, all) := (DamagedSpares(view, n - 1), DamagedSpares(view, n));
      assert all == before + if SpareDiffers(view, n - 1) then [n - 1] else [];
      forall i: nat ensures i in all <==> i < n && SpareDiffers(view, i) {
        assert i in all <==> i in before || (SpareDiffers(view, n - 1) && i == n - 1);
      }
      forall k | 0 <= k < |before| ensures before[k] < n - 1 {
        assert before[k] in before;
      }
    }
  }

  // Some slot met so far was cut short.
  ghost predicate SomeShort(view: View, firsts: nat, seconds: nat)
    requires view.Valid()
  {
    || (exists i: nat :: i < firsts && |FirstSlot(view, i)| != view.layout.SlotSize())
    || (exists i: nat :: i < seconds && |SecondSlot(view, i)| != view.layout.SlotSize())
  }

  // The report of a pass that has met so many first and second copies.
  ghost predicate Accounts(view: View, report: Report, firsts: nat, seconds: nat, checkSpares: bool)
    requires view.Valid()
  {
    && report.totalBlocks == view.blocks && report.blocksDirect == CountDirect(view, firsts)
    && report.blocksUsedB == CountOrigins(view, seconds, FromSecond) && report.blocksRsCorrected == CountOrigins(view, seconds, WasCorrected)
    && report.blocksMerged == CountOrigins(view, seconds, WasMerged)
    && report.copiesAvailable == (if SomeShort(view, firsts, seconds) then 1 else 2)
    && report.sparesDamaged == (if checkSpares then DamagedSpares(view, seconds) else [])
  }

  // A block that was repaired without any copy carrying its tag.
  ghost predicate IsDoubtful(view: View, i: nat)
    requires view.Valid()
  {
    FirstClean(view, i).None? && RepairAt(view, i).Some? && RepairAt(view, i).value.unverified
  }

  // Those among the first n that have not been opened yet, in order.
  ghost function DoubtsFrom(view: View, settled: nat, n: nat): seq<nat>
    requires view.Valid()
  {
    if n <= settled then [] else DoubtsFrom(view, settled, n - 1) + if IsDoubtful(view, n - 1) then [n - 1] else []
  }

  lemma {:induction false} DoubtsMean(view: View, settled: nat, n: nat, i: nat)
    requires view.Valid()
    ensures i in DoubtsFrom(view, settled, n) <==> settled <= i < n && IsDoubtful(view, i)
  {
    hide IsDoubtful, View.Valid;
    if n > settled {
      DoubtsMean(view, settled, n - 1, i);
      assert DoubtsFrom(view, settled, n) == DoubtsFrom(view, settled, n - 1) + if IsDoubtful(view, n - 1) then [n - 1] else [];
    }
  }

  lemma NoDoubts(view: View, n: nat)
    requires view.Valid()
    ensures DoubtsFrom(view, n, n) == []
  {
    hide IsDoubtful, View.Valid;
  }

  lemma DoubtStays(view: View, settled: nat, n: nat)
    requires view.Valid() && (FirstClean(view, n).Some? || RepairAt(view, n).None?)
    ensures DoubtsFrom(view, settled, n + 1) == DoubtsFrom(view, settled, n)
  {
    hide FirstClean, RepairAt, View.Valid;
    assert DoubtsFrom(view, settled, n) + [] == DoubtsFrom(view, settled, n);
  }

  lemma DoubtComes(view: View, settled: nat, n: nat)
    requires view.Valid() && settled <= n && FirstClean(view, n).None? && RepairAt(view, n).Some?
    ensures RepairAt(view, n).value.unverified ==> DoubtsFrom(view, settled, n + 1) == DoubtsFrom(view, settled, n) + [n]
    ensures !RepairAt(view, n).value.unverified ==> DoubtsFrom(view, settled, n + 1) == DoubtsFrom(view, settled, n)
  {
    hide FirstClean, RepairAt, View.Valid;
    assert DoubtsFrom(view, settled, n) + [] == DoubtsFrom(view, settled, n);
  }

  // Opening a block settles the doubt about it.
  lemma DoubtGoes(view: View, settled: nat, n: nat)
    requires view.Valid()
    ensures var doubts := DoubtsFrom(view, settled, n);
            DoubtsFrom(view, settled + 1, n) == if settled in doubts then RemoveFirst(doubts, settled) else doubts
  {
    hide IsDoubtful, View.Valid, RemoveFirst, DoubtsFrom;
    DoubtsMean(view, settled, n, settled);
    DoubtSplits(view, settled, n);
    var doubts, later := DoubtsFrom(view, settled, n), DoubtsFrom(view, settled + 1, n);
    if settled < n && IsDoubtful(view, settled) {
      assert doubts == [settled] + later;
      assert doubts[0] == settled;
      FrontRemoved(settled, later);
    }
  }

  lemma FrontRemoved(value: nat, later: seq<nat>)
    ensures RemoveFirst([value] + later, value) == later
  {
    assert ([value] + later)[1..] == later;
  }

  lemma {:induction false} DoubtSplits(view: View, settled: nat, n: nat)
    requires view.Valid()
    ensures settled < n && IsDoubtful(view, settled) ==> DoubtsFrom(view, settled, n) == [settled] + DoubtsFrom(view, settled + 1, n)
    ensures !(settled < n && IsDoubtful(view, settled)) ==> DoubtsFrom(view, settled, n) == DoubtsFrom(view, settled + 1, n)
  {
    hide IsDoubtful, View.Valid;
    if settled < n {
      DoubtSplits(view, settled, n - 1);
      var last := if IsDoubtful(view, n - 1) then [n - 1] else [];
      assert ([settled] + DoubtsFrom(view, settled + 1, n - 1)) + last == [settled] + (DoubtsFrom(view, settled + 1, n - 1) + last);
      assert [] + last == last == last + [];
    }
  }

  // The tags kept of the clean first copies whose spares are still to come.
  ghost predicate KeepsTags(view: View, firstTags: map<nat, seq<Byte>>, firsts: nat, seconds: nat)
    requires view.Valid()
  {
    forall i: nat :: seconds <= i < firsts && FirstClean(view, i).Some? ==> i in firstTags && firstTags[i] == FirstClean(view, i).value.tag
  }

  // The two reports differ in nothing that is accounted for.
  predicate SameAccount(after: Report, report: Report) {
    && after.totalBlocks == report.totalBlocks && after.blocksDirect == report.blocksDirect && after.blocksUsedB == report.blocksUsedB
    && after.blocksRsCorrected == report.blocksRsCorrected && after.blocksMerged == report.blocksMerged
    && after.copiesAvailable == report.copiesAvailable && after.sparesDamaged == report.sparesDamaged
  }

  lemma AccountStarts(view: View, checkSpares: bool)
    requires view.Valid()
    ensures Accounts(view, FreshReport(view.blocks), 0, 0, checkSpares) && KeepsTags(view, map[], 0, 0)
  {
    hide FirstClean, FirstSlot, SecondSlot, View.Valid;
  }

  function Noted(report: Report, complete: bool): (after: Report)
    ensures after.failedBlocks == report.failedBlocks && after.digestMismatch == report.digestMismatch
    ensures after.unverifiedBlocks == report.unverifiedBlocks
  {
    if complete then report else Truncated(report)
  }

  lemma ShortMore(view: View, firsts: nat, seconds: nat)
    requires view.Valid()
    ensures SomeShort(view, firsts + 1, seconds) <==> SomeShort(view, firsts, seconds) || |FirstSlot(view, firsts)| != view.layout.SlotSize()
    ensures SomeShort(view, firsts, seconds + 1) <==> SomeShort(view, firsts, seconds) || |SecondSlot(view, seconds)| != view.layout.SlotSize()
  {
    hide FirstSlot, SecondSlot, View.Valid, StreamLayout.SlotSize;
  }

  lemma AccountFirst(view: View, report: Report, firsts: nat, seconds: nat, checkSpares: bool)
    requires view.Valid() && Accounts(view, report, firsts, seconds, checkSpares)
    ensures var noted := Noted(report, |FirstSlot(view, firsts)| == view.layout.SlotSize());
            Accounts(view, if FirstClean(view, firsts).Some? then Direct(noted) else noted, firsts + 1, seconds, checkSpares)
  {
    ShortMore(view, firsts, seconds);
    hide SomeShort, FirstSlot, FirstClean, CountOrigins, DamagedSpares, View.Valid, StreamLayout.SlotSize;
  }

  lemma TagKept(view: View, firstTags: map<nat, seq<Byte>>, firsts: nat, seconds: nat)
    requires view.Valid() && KeepsTags(view, firstTags, firsts, seconds)
    ensures FirstClean(view, firsts).Some? ==> KeepsTags(view, firstTags[firsts := FirstClean(view, firsts).value.tag], firsts + 1, seconds)
    ensures FirstClean(view, firsts).None? ==> KeepsTags(view, firstTags, firsts + 1, seconds)
    ensures KeepsTags(view, firstTags - {seconds}, firsts, seconds + 1) && KeepsTags(view, firstTags, firsts, seconds + 1)
  {
    hide FirstClean, View.Valid;
  }

  // A waiting block that came back, or was lost.
  lemma AccountRepair(view: View, report: Report, firsts: nat, seconds: nat, checkSpares: bool)
    requires view.Valid() && Accounts(view, report, firsts, seconds, checkSpares) && FirstClean(view, seconds).None?
    ensures var (noted, repaired) := (Noted(report, |SecondSlot(view, seconds)| == view.layout.SlotSize()), RepairAt(view, seconds));
            Accounts(view, if repaired.None? then Failed(noted, seconds) else Counted(noted, seconds, repaired.value), firsts, seconds + 1, checkSpares)
  {
    hide *;
    if RepairAt(view, seconds).Some? {
      AccountMended(view, report, firsts, seconds, checkSpares, RepairAt(view, seconds).value);
    } else {
      AccountLost(view, report, firsts, seconds, checkSpares);
    }
  }

  lemma AccountLost(view: View, report: Report, firsts: nat, seconds: nat, checkSpares: bool)
    requires view.Valid() && Accounts(view, report, firsts, seconds, checkSpares)
    requires FirstClean(view, seconds).None? && RepairAt(view, seconds).None?
    ensures Accounts(view, Failed(Noted(report, |SecondSlot(view, seconds)| == view.layout.SlotSize()), seconds), firsts, seconds + 1, checkSpares)
  {
    ShortMore(view, firsts, seconds);
    CountsOf(view, seconds);
    SparesOf(view, seconds);
    hide SomeShort, FirstClean, RepairAt, SecondSlot, CountOrigins, CountDirect, DamagedSpares, View.Valid, StreamLayout.SlotSize;
    hide FromSecond, WasCorrected, WasMerged;
  }

  lemma AccountMended(view: View, report: Report, firsts: nat, seconds: nat, checkSpares: bool, repaired: Repaired)
    requires view.Valid() && Accounts(view, report, firsts, seconds, checkSpares)
    requires FirstClean(view, seconds).None? && RepairAt(view, seconds) == Some(repaired)
    ensures Accounts(view, Counted(Noted(report, |SecondSlot(view, seconds)| == view.layout.SlotSize()), seconds, repaired),
                     firsts, seconds + 1, checkSpares)
  {
    hide *;
    LaidOut(view);
    var complete := |SecondSlot(view, seconds)| == view.layout.SlotSize();
    AccountsMeans(view, report, firsts, seconds, checkSpares);
    NotedMeans(report, complete);
    ShortMore(view, firsts, seconds);
    CountsOf(view, seconds);
    SparesOf(view, seconds);
    CountedMeans(Noted(report, complete), seconds, repaired);
    AccountsIntro(view, Counted(Noted(report, complete), seconds, repaired), firsts, seconds + 1, checkSpares);
  }

  lemma LaidOut(view: View)
    requires view.Valid()
    ensures view.layout.Valid()
  {
    hide StreamLayout.Valid;
  }

  lemma AccountsMeans(view: View, report: Report, firsts: nat, seconds: nat, checkSpares: bool)
    requires view.Valid() && Accounts(view, report, firsts, seconds, checkSpares)
    ensures report.totalBlocks == view.blocks && report.blocksDirect == CountDirect(view, firsts)
    ensures report.blocksUsedB == CountOrigins(view, seconds, FromSecond) && report.blocksRsCorrected == CountOrigins(view, seconds, WasCorrected)
    ensures report.blocksMerged == CountOrigins(view, seconds, WasMerged)
    ensures report.copiesAvailable == (if SomeShort(view, firsts, seconds) then 1 else 2)
    ensures report.sparesDamaged == (if checkSpares then DamagedSpares(view, seconds) else [])
  {
    hide SomeShort, CountOrigins, CountDirect, DamagedSpares, View.Valid, FromSecond, WasCorrected, WasMerged;
  }

  lemma AccountsIntro(view: View, report: Report, firsts: nat, seconds: nat, checkSpares: bool)
    requires view.Valid() && report.totalBlocks == view.blocks && report.blocksDirect == CountDirect(view, firsts)
    requires report.blocksUsedB == CountOrigins(view, seconds, FromSecond) && report.blocksRsCorrected == CountOrigins(view, seconds, WasCorrected)
    requires report.blocksMerged == CountOrigins(view, seconds, WasMerged)
    requires report.copiesAvailable == (if SomeShort(view, firsts, seconds) then 1 else 2)
    requires report.sparesDamaged == (if checkSpares then DamagedSpares(view, seconds) else [])
    ensures Accounts(view, report, firsts, seconds, checkSpares)
  {
    hide SomeShort, CountOrigins, CountDirect, DamagedSpares, View.Valid, FromSecond, WasCorrected, WasMerged;
  }

  lemma NotedMeans(report: Report, complete: bool)
    ensures var after := Noted(report, complete);
      && after.totalBlocks == report.totalBlocks && after.blocksDirect == report.blocksDirect && after.blocksUsedB == report.blocksUsedB
      && after.blocksRsCorrected == report.blocksRsCorrected && after.blocksMerged == report.blocksMerged
      && after.copiesAvailable == (if complete then report.copiesAvailable else 1) && after.sparesDamaged == report.sparesDamaged
  {}

  lemma CountedMeans(report: Report, i: nat, repaired: Repaired)
    ensures var (after, origin) := (Counted(report, i, repaired), repaired.origin);
      && after.blocksUsedB == report.blocksUsedB + (if FromSecond(origin) then 1 else 0)
      && after.blocksRsCorrected == report.blocksRsCorrected + (if WasCorrected(origin) then 1 else 0)
      && after.blocksMerged == report.blocksMerged + (if WasMerged(origin) then 1 else 0)
      && after.totalBlocks == report.totalBlocks && after.blocksDirect == report.blocksDirect
      && after.copiesAvailable == report.copiesAvailable && after.sparesDamaged == report.sparesDamaged
  {}

  lemma SparesOf(view: View, i: nat)
    requires view.Valid()
    ensures DamagedSpares(view, i + 1) == DamagedSpares(view, i) + (if FirstClean(view, i).Some? && !SpareAgrees(view, i) then [i] else [])
    ensures DamagedSpares(view, i) + [] == DamagedSpares(view, i)
  {
    hide FirstClean, SpareAgrees, View.Valid;
  }

  lemma CountsOf(view: View, i: nat)
    requires view.Valid() && FirstClean(view, i).None?
    ensures RepairAt(view, i).None? ==>
      && CountOrigins(view, i + 1, FromSecond) == CountOrigins(view, i, FromSecond)
      && CountOrigins(view, i + 1, WasCorrected) == CountOrigins(view, i, WasCorrected)
      && CountOrigins(view, i + 1, WasMerged) == CountOrigins(view, i, WasMerged)
    ensures RepairAt(view, i).Some? ==>
      var origin := RepairAt(view, i).value.origin;
      && CountOrigins(view, i + 1, FromSecond) == CountOrigins(view, i, FromSecond) + (if FromSecond(origin) then 1 else 0)
      && CountOrigins(view, i + 1, WasCorrected) == CountOrigins(view, i, WasCorrected) + (if WasCorrected(origin) then 1 else 0)
      && CountOrigins(view, i + 1, WasMerged) == CountOrigins(view, i, WasMerged) + (if WasMerged(origin) then 1 else 0)
  {
    hide FirstClean, RepairAt, View.Valid, FromSecond, WasCorrected, WasMerged;
  }

  // A spare that was passed by.
  lemma AccountSpare(view: View, report: Report, firsts: nat, seconds: nat, checkSpares: bool)
    requires view.Valid() && Accounts(view, report, firsts, seconds, checkSpares) && FirstClean(view, seconds).Some?
    ensures var noted := Noted(report, |SecondSlot(view, seconds)| == view.layout.SlotSize());
            Accounts(view, if checkSpares && !SpareIntact(view, SecondSlot(view, seconds), Some(FirstClean(view, seconds).value.tag))
                           then SpareDamaged(noted, seconds) else noted, firsts, seconds + 1, checkSpares)
  {
    ShortMore(view, firsts, seconds);
    SpareIsChecked(view, seconds);
    NoOrigin(view, seconds);
    SparesOf(view, seconds);
    hide SomeShort, FirstClean, RepairAt, SecondSlot, CountOrigins, CountDirect, DamagedSpares, View.Valid, StreamLayout.SlotSize;
    hide SpareIntact, SpareAgrees;
  }

  lemma SpareIsChecked(view: View, i: nat)
    requires view.Valid() && FirstClean(view, i).Some?
    ensures SpareIntact(view, SecondSlot(view, i), Some(FirstClean(view, i).value.tag)) <==> SpareAgrees(view, i)
  {
    hide FirstClean, SecondSlot, StreamLayout.SlotSize, StreamLayout.EncodedSize;
  }

  lemma NoOrigin(view: View, i: nat)
    requires view.Valid() && FirstClean(view, i).Some?
    ensures CountOrigins(view, i + 1, FromSecond) == CountOrigins(view, i, FromSecond)
    ensures CountOrigins(view, i + 1, WasCorrected) == CountOrigins(view, i, WasCorrected)
    ensures CountOrigins(view, i + 1, WasMerged) == CountOrigins(view, i, WasMerged)
  {
    hide FirstClean, RepairAt, View.Valid;
  }

  lemma AccountStays(view: View, report: Report, after: Report, firsts: nat, seconds: nat, checkSpares: bool)
    requires view.Valid() && Accounts(view, report, firsts, seconds, checkSpares) && SameAccount(after, report)
    ensures Accounts(view, after, firsts, seconds, checkSpares)
  {
    hide SomeShort, CountOrigins, CountDirect, DamagedSpares, View.Valid;
  }
}
