// Why a payload is refused (dbs/engine/frames.py): which exception a byte stream raises, told from its
// frames.
module PayloadRefusal {
  import opened Wrappers
  import opened Sequences
  import opened Bytes
  import opened Json
  import opened Frames
  import opened Payload
  import opened PayloadGrammar

  // ----- a file whose end says otherwise

  // An end with a size or a digest other than those of the data before it.
  predicate EndDiffers(tools: Tools, v: Value, index: nat, chunks: seq<seq<Byte>>) {
    && v.Object? && IsNumber(Get(v, "index"), index) && Get(v, "skipped") == Null
    && Get(v, "size").Number? && Get(v, "size").n >= 0 && Get(v, "sha256").Text?
    && (Get(v, "size").n != |Flatten(chunks)| || Get(v, "sha256").s != tools.sha256(Flatten(chunks)))
  }

  predicate LastDiffers(tools: Tools, group: seq<Frame>, index: nat, chunks: seq<seq<Byte>>)
    requires |group| > 0
  {
    match tools.codec.parse(group[|group| - 1].body) case Some(v) => EndDiffers(tools, v, index, chunks) case None => false
  }

  predicate GroupDiffers(tools: Tools, group: seq<Frame>, index: nat) {
    FileGroup(group, index) && LastDiffers(tools, group, index, DataOf(group))
  }

  lemma EndIsRefused(tools: Tools, v: Value, index: nat, chunks: seq<seq<Byte>>)
    ensures EndDiffers(tools, v, index, chunks) <==> FinishedFile(tools, v, index, chunks) == Err(IntegrityFailure)
  {
    EqualsIsNumber(Get(v, "index"), index);
    hide Equals, IsNumber, Flatten;
  }

  lemma {:induction false} FileIsRefused(tools: Tools, group: seq<Frame>, index: nat, chunks: seq<seq<Byte>>, rest: seq<Frame>)
    requires index <= MAX_FILES && FileGroup(group, index) && LastDiffers(tools, group, index, chunks + DataOf(group))
    ensures FileOf(tools, group + rest, index, chunks) == Err(IntegrityFailure)
    decreases |group|
  {
    hide FinishedFile, EndDiffers, IsDataOf;
    var frames := group + rest;
    assert frames[0] == group[0];
    if |group| > 1 {
      IndexIsChecked(group[0], index);
      assert group == [group[0]] + group[1..];
      GroupGrows(group[0], group[1..], index);
      var chunk := group[0].body[INDEX_SIZE..];
      assert (chunks + [chunk]) + DataOf(group[1..]) == chunks + ([chunk] + DataOf(group[1..]));
      assert frames[1..] == group[1..] + rest;
      FileIsRefused(tools, group[1..], index, chunks + [chunk], rest);
    } else {
      assert chunks + [] == chunks;
      EndIsRefused(tools, tools.codec.parse(group[0].body).value, index, chunks);
    }
  }

  // The other way round: nothing else about a file is an integrity failure.
  lemma {:induction false} RefusedFile(tools: Tools, frames: seq<Frame>, index: nat, chunks: seq<seq<Byte>>) returns (group: seq<Frame>, rest: seq<Frame>)
    requires index <= MAX_FILES && FileOf(tools, frames, index, chunks) == Err(IntegrityFailure)
    ensures frames == group + rest && FileGroup(group, index) && LastDiffers(tools, group, index, chunks + DataOf(group))
    decreases |frames|
  {
    hide IsDataOf, CarriesDataOf, FinishedFile, EndDiffers;
    assert frames == [frames[0]] + frames[1..];
    if frames[0].kind.FileData? {
      DataLength(frames[0], index);
      IndexIsChecked(frames[0], index);
      var chunk := frames[0].body[INDEX_SIZE..];
      var later;
      later, rest := RefusedFile(tools, frames[1..], index, chunks + [chunk]);
      group := [frames[0]] + later;
      GroupGrows(frames[0], later, index);
      assert (chunks + [chunk]) + DataOf(later) == chunks + ([chunk] + DataOf(later));
    } else {
      group, rest := [frames[0]], frames[1..];
      EndIsRefused(tools, tools.codec.parse(frames[0].body).value, index, chunks);
      assert chunks + [] == chunks;
    }
  }

  lemma {:induction false} FilesAreRefused(tools: Tools, groups: seq<seq<Frame>>, contents: seq<Content>, bad: seq<Frame>, index: nat, count: nat,
                                           rest: seq<Frame>)
    requires index + |groups| < count <= MAX_FILES && GroupsSay(tools, groups, index, contents) && GroupDiffers(tools, bad, index + |groups|)
    ensures FilesOf(tools, Flatten(groups) + (bad + rest), index, count) == Err(IntegrityFailure)
    decreases |groups|
  {
    hide FileOf, FileGroup, EndSays, EndDiffers, DataOf, Flatten;
    if |groups| == 0 {
      assert groups == [];
      NoGroups(bad + rest);
      assert [] + DataOf(bad) == DataOf(bad);
      FileIsRefused(tools, bad, index, [], rest);
    } else {
      assert GroupSays(tools, groups[0], index + 0, contents[0]);
      assert groups == [groups[0]] + groups[1..] && contents == [contents[0]] + contents[1..];
      FlattenHead(groups[0], groups[1..]);
      assert (groups[0] + Flatten(groups[1..])) + (bad + rest) == groups[0] + (Flatten(groups[1..]) + (bad + rest));
      assert [] + DataOf(groups[0]) == DataOf(groups[0]);
      FileIsRead(tools, groups[0], index, [], contents[0], Flatten(groups[1..]) + (bad + rest));
      forall i | 0 <= i < |groups[1..]| ensures GroupSays(tools, groups[1..][i], index + 1 + i, contents[1..][i]) {
        assert GroupSays(tools, groups[i + 1], index + (i + 1), contents[i + 1]);
      }
      FilesAreRefused(tools, groups[1..], contents[1..], bad, index + 1, count, rest);
    }
  }

  lemma {:induction false} RefusedFiles(tools: Tools, frames: seq<Frame>, index: nat, count: nat)
    returns (groups: seq<seq<Frame>>, contents: seq<Content>, bad: seq<Frame>, rest: seq<Frame>)
    requires index <= count <= MAX_FILES && FilesOf(tools, frames, index, count) == Err(IntegrityFailure)
    ensures index + |groups| < count && GroupsSay(tools, groups, index, contents) && GroupDiffers(tools, bad, index + |groups|)
    ensures frames == Flatten(groups) + (bad + rest)
    decreases count - index
  {
    hide FileOf, FileGroup, EndSays, EndDiffers, DataOf, Flatten;
    if FileOf(tools, frames, index, []).Err? {
      bad, rest := RefusedFile(tools, frames, index, []);
      groups, contents := [], [];
      NoGroups(bad + rest);
      assert [] + DataOf(bad) == DataOf(bad);
    } else {
      var group := FileShape(tools, frames, index, []);
      var read := FileOf(tools, frames, index, []).value;
      var later, others;
      later, others, bad, rest := RefusedFiles(tools, read.1, index + 1, count);
      groups, contents := [group] + later, [read.0] + others;
      FlattenHead(group, later);
      assert [] + DataOf(group) == DataOf(group);
      assert group + (Flatten(later) + (bad + rest)) == (group + Flatten(later)) + (bad + rest);
      forall i | 0 <= i < |groups| ensures GroupSays(tools, groups[i], index + i, contents[i]) {
        if i > 0 {
          assert GroupSays(tools, later[i - 1], index + 1 + (i - 1), others[i - 1]);
        }
      }
    }
  }

  // ----- a record whose model cannot be a key

  // Everything before the i-th record is in order; its model is a list or an object.
  predicate KeyFails(records: seq<Value>, rank: map<string, nat>, position: nat, i: nat) {
    && i < |records| && RecordsSay(records[..i]) && Ordered(records[..i], rank, position)
    && Get(records[i], "fields").Object? && (Get(records[i], "model").List? || Get(records[i], "model").Object?)
  }

  lemma OneKey(record: Value, rank: map<string, nat>, current: nat)
    ensures CheckedRecord(record, rank, current) == Err(UnhashableKey)
       <==> Get(record, "fields").Object? && (Get(record, "model").List? || Get(record, "model").Object?)
    ensures CheckedRecord(record, rank, current).Err? ==>
              CheckedRecord(record, rank, current).problem == UnhashableKey || CheckedRecord(record, rank, current).problem == MalformedPayload
  {}

  lemma {:induction false} KeyIsRefused(records: seq<Value>, rank: map<string, nat>, position: nat, i: nat)
    requires KeyFails(records, rank, position, i)
    ensures CheckedRecords(records, rank, position) == Err(UnhashableKey)
    decreases i
  {
    hide CheckedRecord, RecordSays, RankIn, Ordered;
    OneKey(records[0], rank, position);
    if i > 0 {
      var front := records[..i];
      OneRecord(records[0], rank, position);
      HeadAndTail(front, rank, position);
      assert front[0] == records[0] && front[1..] == records[1..][..i - 1];
      assert RecordSays(front[0]);
      KeyIsRefused(records[1..], rank, CheckedRecord(records[0], rank, position).value, i - 1);
    }
  }

  lemma {:induction false} RefusedKey(records: seq<Value>, rank: map<string, nat>, position: nat) returns (i: nat)
    requires CheckedRecords(records, rank, position) == Err(UnhashableKey)
    ensures KeyFails(records, rank, position, i)
    decreases |records|
  {
    hide CheckedRecord, RecordSays, RankIn, Ordered;
    OneKey(records[0], rank, position);
    if CheckedRecord(records[0], rank, position).Err? {
      i := 0;
      NoneOrdered(records, rank, position);
    } else {
      OneRecord(records[0], rank, position);
      var next := RefusedKey(records[1..], rank, CheckedRecord(records[0], rank, position).value);
      i := next + 1;
      var front := records[..i];
      assert front[0] == records[0] && front[1..] == records[1..][..next];
      HeadAndTail(front, rank, position);
    }
  }

  lemma NoneOrdered(records: seq<Value>, rank: map<string, nat>, position: nat)
    ensures Ordered(records[..0], rank, position) && RecordsSay(records[..0])
  {}

  ghost predicate BatchFails(tools: Tools, frame: Frame, rank: map<string, nat>, position: nat) {
    frame.kind == Records && match tools.codec.parse(frame.body)
                             case Some(List(records)) => exists i: nat :: KeyFails(records, rank, position, i)
                             case _ => false
  }

  lemma BatchIsRefused(tools: Tools, frame: Frame, rank: map<string, nat>, position: nat)
    ensures frame.kind == Records ==> (BatchFails(tools, frame, rank, position) <==> BatchOf(tools, frame, rank, position) == Err(UnhashableKey))
  {
    hide KeyFails, CheckedRecords;
    match tools.codec.parse(frame.body)
    case Some(List(records)) =>
      if exists i: nat :: KeyFails(records, rank, position, i) {
        var i: nat :| KeyFails(records, rank, position, i);
        KeyIsRefused(records, rank, position, i);
      }
      if CheckedRecords(records, rank, position) == Err(UnhashableKey) {
        var i := RefusedKey(records, rank, position);
      }
    case _ =>
  }

  lemma {:induction false} BatchesAreRefused(tools: Tools, records: seq<Frame>, batches: seq<seq<Value>>, rank: map<string, nat>, position: nat,
                                             bad: Frame, rest: seq<Frame>)
    requires BatchesSay(tools, records, batches) && Ordered(Flatten(batches), rank, position)
    requires LastRank(Flatten(batches), rank, position) >= 0 && BatchFails(tools, bad, rank, LastRank(Flatten(batches), rank, position))
    ensures RecordsOf(tools, records + ([bad] + rest), rank, position) == Err(UnhashableKey)
    decreases |records|
  {
    hide Ordered, BatchOf, BatchSays, LastRank, Flatten, BatchFails;
    var frames := records + ([bad] + rest);
    if |records| == 0 {
      assert frames == [bad] + rest && batches == [];
      NoRank(rank, position);
      BadKind(tools, bad, rank, position);
      BatchIsRefused(tools, bad, rank, position);
    } else {
      assert BatchSays(tools, records[0], batches[0]);
      BatchKind(tools, records[0], batches[0]);
      assert records == [records[0]] + records[1..] && batches == [batches[0]] + batches[1..];
      FlattenHead(batches[0], batches[1..]);
      OrderedFront(batches[0], Flatten(batches[1..]), rank, position);
      OrderedJoin(batches[0], Flatten(batches[1..]), rank, position);
      BatchIsChecked(tools, records[0], batches[0], rank, position);
      LastOfBoth(batches[0], Flatten(batches[1..]), rank, position);
      assert frames[1..] == records[1..] + ([bad] + rest);
      forall k | 0 <= k < |records[1..]| ensures BatchSays(tools, records[1..][k], batches[1..][k]) {
        assert BatchSays(tools, records[k + 1], batches[k + 1]);
      }
      BatchesAreRefused(tools, records[1..], batches[1..], rank, BatchOf(tools, records[0], rank, position).value.1, bad, rest);
    }
  }

  lemma NoRank(rank: map<string, nat>, position: nat)
    ensures LastRank(Flatten([]), rank, position) == position
  {}

  lemma BadKind(tools: Tools, frame: Frame, rank: map<string, nat>, position: nat)
    requires BatchFails(tools, frame, rank, position)
    ensures frame.kind == Records
  {}

  lemma LastOfBoth(left: seq<Value>, right: seq<Value>, rank: map<string, nat>, position: nat)
    ensures LastRank(left + right, rank, position) == if |right| == 0 then LastRank(left, rank, position) else RankIn(right[|right| - 1], rank)
    ensures forall other: nat :: |right| > 0 ==> LastRank(right, rank, other) == RankIn(right[|right| - 1], rank)
    ensures forall other: nat :: |right| == 0 ==> LastRank(right, rank, other) == other
  {
    assert |right| == 0 ==> left + right == left;
  }

  lemma {:induction false} RefusedBatches(tools: Tools, frames: seq<Frame>, rank: map<string, nat>, position: nat)
    returns (records: seq<Frame>, batches: seq<seq<Value>>, bad: Frame, rest: seq<Frame>)
    requires RecordsOf(tools, frames, rank, position) == Err(UnhashableKey)
    ensures frames == records + ([bad] + rest) && BatchesSay(tools, records, batches) && Ordered(Flatten(batches), rank, position)
    ensures LastRank(Flatten(batches), rank, position) >= 0 && BatchFails(tools, bad, rank, LastRank(Flatten(batches), rank, position))
    decreases |frames|
  {
    hide Ordered, BatchOf, BatchSays, LastRank, Flatten, BatchFails;
    assert frames == [frames[0]] + frames[1..];
    BatchIsRefused(tools, frames[0], rank, position);
    if BatchOf(tools, frames[0], rank, position).Err? {
      records, batches, bad, rest := [], [], frames[0], frames[1..];
      NoRank(rank, position);
      NothingOrdered(rank, position);
    } else {
      var batch := BatchOf(tools, frames[0], rank, position).value;
      BatchIsChecked(tools, frames[0], batch.0, rank, position);
      var later, others;
      later, others, bad, rest := RefusedBatches(tools, frames[1..], rank, batch.1);
      records, batches := [frames[0]] + later, [batch.0] + others;
      FlattenHead(batch.0, others);
      OrderedJoin(batch.0, Flatten(others), rank, position);
      LastOfBoth(batch.0, Flatten(others), rank, position);
      LastOfBoth([], Flatten(others), rank, batch.1);
    }
  }

  // ----- the other phases are never refused for such reasons

  lemma {:induction false} ManifestProblem(tools: Tools, frames: seq<Frame>, entries: seq<FileEntry>)
    ensures match ManifestOf(tools, frames, entries) case Err(p) => p == MalformedPayload case Ok(_) => true
    decreases |frames|
  {
    hide CheckedEntries;
    if |frames| > 0 && frames[0].kind.Manifest? && ManifestItems(tools, frames[0]).Ok? {
      ManifestProblem(tools, frames[1..], entries + ManifestItems(tools, frames[0]).value);
    }
  }

  lemma {:induction false} FileProblem(tools: Tools, frames: seq<Frame>, index: nat, chunks: seq<seq<Byte>>)
    ensures match FileOf(tools, frames, index, chunks) case Err(p) => p == MalformedPayload || p == IntegrityFailure case Ok(_) => true
    decreases |frames|
  {
    hide IsDataOf, Equals, Flatten;
    if |frames| > 0 && frames[0].kind.FileData? && IsDataOf(frames[0], index) {
      DataLength(frames[0], index);
      FileProblem(tools, frames[1..], index, chunks + [frames[0].body[INDEX_SIZE..]]);
    }
  }

  lemma {:induction false} FilesProblem(tools: Tools, frames: seq<Frame>, index: nat, count: nat)
    requires index <= count
    ensures match FilesOf(tools, frames, index, count) case Err(p) => p == MalformedPayload || p == IntegrityFailure case Ok(_) => true
    decreases count - index
  {
    hide FileOf;
    if index < count {
      FileProblem(tools, frames, index, []);
      if FileOf(tools, frames, index, []).Ok? {
        FilesProblem(tools, FileOf(tools, frames, index, []).value.1, index + 1, count);
      }
    }
  }

  lemma {:induction false} CheckProblem(records: seq<Value>, rank: map<string, nat>, position: nat)
    ensures match CheckedRecords(records, rank, position) case Err(p) => p == MalformedPayload || p == UnhashableKey case Ok(_) => true
  {
    hide CheckedRecord;
    if |records| > 0 {
      OneKey(records[0], rank, position);
      if CheckedRecord(records[0], rank, position).Ok? {
        CheckProblem(records[1..], rank, CheckedRecord(records[0], rank, position).value);
      }
    }
  }

  lemma {:induction false} RecordsProblem(tools: Tools, frames: seq<Frame>, rank: map<string, nat>, position: nat)
    ensures match RecordsOf(tools, frames, rank, position) case Err(p) => p == MalformedPayload || p == UnhashableKey case Ok(_) => true
    decreases |frames|
  {
    hide CheckedRecords;
    if |frames| > 0 && frames[0].kind.Records? {
      match tools.codec.parse(frames[0].body) {
        case Some(List(records)) => CheckProblem(records, rank, position);
        case _ =>
      }
      if BatchOf(tools, frames[0], rank, position).Ok? {
        RecordsProblem(tools, frames[1..], rank, BatchOf(tools, frames[0], rank, position).value.1);
      }
    }
  }

  // ----- the whole payload

  // Header, manifests and the files before it are in order, and a file's end differs from its data.
  predicate AlteredParts(tools: Tools, frames: seq<Frame>, header: Frame, value: Value, manifests: seq<Frame>, lists: seq<seq<FileEntry>>,
                         groups: seq<seq<Frame>>, contents: seq<Content>, bad: seq<Frame>, rest: seq<Frame>)
  {
    && frames == [header] + (manifests + (Flatten(groups) + (bad + rest)))
    && header.kind == Header && tools.codec.parse(header.body) == Some(value) && HeaderSays(value)
    && ManifestsSay(tools, manifests, lists) && |groups| < |Flatten(lists)| <= MAX_FILES
    && GroupsSay(tools, groups, 0, contents) && GroupDiffers(tools, bad, |groups|)
  }

  // Header, manifests, all files and the batches before it are in order, and a record's model is no key.
  ghost predicate UnhashableParts(tools: Tools, frames: seq<Frame>, header: Frame, value: Value, manifests: seq<Frame>,
                                  lists: seq<seq<FileEntry>>, groups: seq<seq<Frame>>, contents: seq<Content>,
                                  records: seq<Frame>, batches: seq<seq<Value>>, bad: Frame, rest: seq<Frame>)
  {
    && frames == [header] + (manifests + (Flatten(groups) + (records + ([bad] + rest))))
    && header.kind == Header && tools.codec.parse(header.body) == Some(value) && HeaderSays(value)
    && ManifestsSay(tools, manifests, lists) && |groups| == |Flatten(lists)| <= MAX_FILES && GroupsSay(tools, groups, 0, contents)
    && BatchesSay(tools, records, batches)
    && var rank := RankOf(Get(value, "order").items);
       && Ordered(Flatten(batches), rank, 0) && LastRank(Flatten(batches), rank, 0) >= 0
       && BatchFails(tools, bad, rank, LastRank(Flatten(batches), rank, 0))
  }

  ghost predicate Altered(tools: Tools, frames: seq<Frame>) {
    exists header, value, manifests, lists, groups, contents, bad, rest ::
      AlteredParts(tools, frames, header, value, manifests, lists, groups, contents, bad, rest)
  }

  ghost predicate Unhashable(tools: Tools, frames: seq<Frame>) {
    exists header, value, manifests, lists, groups, contents, records, batches, bad, rest ::
      UnhashableParts(tools, frames, header, value, manifests, lists, groups, contents, records, batches, bad, rest)
  }

  lemma FirstOfAltered(tools: Tools, groups: seq<seq<Frame>>, contents: seq<Content>, bad: seq<Frame>, rest: seq<Frame>)
    requires GroupsSay(tools, groups, 0, contents) && GroupDiffers(tools, bad, |groups|)
    ensures var files := Flatten(groups) + (bad + rest); |files| > 0 && files[0].kind != Manifest
  {
    hide Flatten, EndSays, EndDiffers, DataOf, CarriesDataOf;
    if |groups| > 0 {
      assert GroupSays(tools, groups[0], 0 + 0, contents[0]);
      GroupKind(groups[0], 0);
      assert groups == [groups[0]] + groups[1..];
      FlattenHead(groups[0], groups[1..]);
    } else {
      assert groups == [];
      NoGroups(bad + rest);
      GroupKind(bad, 0);
    }
  }

  lemma FilesFail(tools: Tools, stream: Stream, value: Value, entries: seq<FileEntry>, files: seq<Frame>)
    requires |stream.frames| > 0 && stream.frames[0].kind == Header
    requires tools.codec.parse(stream.frames[0].body) == Some(value) && HeaderOk(value)
    requires ManifestOf(tools, stream.frames[1..], []) == Ok((entries, files))
    requires FilesOf(tools, files, 0, |entries|) == Err(IntegrityFailure)
    ensures PayloadOf(tools, stream) == Err(IntegrityFailure)
  {
    hide ManifestOf, FilesOf, RecordsOf, RankOf, HeaderOk;
  }

  lemma AlteredIsRefused(tools: Tools, stream: Stream, header: Frame, value: Value, manifests: seq<Frame>, lists: seq<seq<FileEntry>>,
                         groups: seq<seq<Frame>>, contents: seq<Content>, bad: seq<Frame>, rest: seq<Frame>)
    requires AlteredParts(tools, stream.frames, header, value, manifests, lists, groups, contents, bad, rest)
    ensures PayloadOf(tools, stream) == Err(IntegrityFailure)
  {
    HeaderIsChecked(value);
    hide *;
    AlteredMeans(tools, stream.frames, header, value, manifests, lists, groups, contents, bad, rest);
    var files := Flatten(groups) + (bad + rest);
    FirstOfAltered(tools, groups, contents, bad, rest);
    NothingBefore(lists);
    ManifestsAreRead(tools, manifests, lists, [], files);
    FilesAreRefused(tools, groups, contents, bad, 0, |Flatten(lists)|, rest);
    FilesFail(tools, stream, value, Flatten(lists), files);
  }

  lemma AlteredMeans(tools: Tools, frames: seq<Frame>, header: Frame, value: Value, manifests: seq<Frame>, lists: seq<seq<FileEntry>>,
                     groups: seq<seq<Frame>>, contents: seq<Content>, bad: seq<Frame>, rest: seq<Frame>)
    requires AlteredParts(tools, frames, header, value, manifests, lists, groups, contents, bad, rest)
    ensures |frames| > 0 && frames[0] == header && frames[1..] == manifests + (Flatten(groups) + (bad + rest))
    ensures header.kind == Header && tools.codec.parse(header.body) == Some(value) && HeaderSays(value)
    ensures ManifestsSay(tools, manifests, lists) && |groups| < |Flatten(lists)| <= MAX_FILES
    ensures GroupsSay(tools, groups, 0, contents) && GroupDiffers(tools, bad, |groups|)
  {
    hide Flatten, HeaderSays, ManifestsSay, GroupsSay, GroupDiffers;
  }

  // Which phase an exception comes from.
  lemma PhaseOf(tools: Tools, stream: Stream)
    ensures match PayloadOf(tools, stream)
            case Ok(_) => true
            case Err(p) =>
              && (p == MalformedPayload || p == IntegrityFailure || p == UnhashableKey)
              && (p != MalformedPayload ==>
                    && |stream.frames| > 0 && HeaderOf(tools, stream.frames).Ok? && ManifestOf(tools, stream.frames[1..], []).Ok?)
    ensures PayloadOf(tools, stream) == Err(IntegrityFailure) ==>
              var manifest := ManifestOf(tools, stream.frames[1..], []).value;
              FilesOf(tools, manifest.1, 0, |manifest.0|) == Err(IntegrityFailure)
    ensures PayloadOf(tools, stream) == Err(UnhashableKey) ==>
              && HeaderOk(HeaderOf(tools, stream.frames).value)
              && var manifest := ManifestOf(tools, stream.frames[1..], []).value;
                 && FilesOf(tools, manifest.1, 0, |manifest.0|).Ok?
                 && var files := FilesOf(tools, manifest.1, 0, |manifest.0|).value;
                    RecordsOf(tools, files.1, RankOf(Get(HeaderOf(tools, stream.frames).value, "order").items), 0) == Err(UnhashableKey)
  {
    if HeaderOf(tools, stream.frames).Ok? {
      ManifestProblem(tools, stream.frames[1..], []);
      if ManifestOf(tools, stream.frames[1..], []).Ok? {
        var manifest := ManifestOf(tools, stream.frames[1..], []).value;
        FilesProblem(tools, manifest.1, 0, |manifest.0|);
        if FilesOf(tools, manifest.1, 0, |manifest.0|).Ok? {
          RecordsProblem(tools, FilesOf(tools, manifest.1, 0, |manifest.0|).value.1,
                         RankOf(Get(HeaderOf(tools, stream.frames).value, "order").items), 0);
        }
      }
    }
    hide ManifestOf, FilesOf, RecordsOf, RankOf, TrailerOk;
  }

  lemma HeaderFrame(tools: Tools, frames: seq<Frame>)
    requires HeaderOf(tools, frames).Ok?
    ensures |frames| > 0 && frames[0].kind == Header && tools.codec.parse(frames[0].body) == Some(HeaderOf(tools, frames).value)
    ensures HeaderSays(HeaderOf(tools, frames).value) && HeaderOk(HeaderOf(tools, frames).value)
    ensures frames == [frames[0]] + frames[1..]
  {
    HeaderIsChecked(HeaderOf(tools, frames).value);
    hide HeaderOk, HeaderSays;
  }

  lemma RefusedIsAltered(tools: Tools, stream: Stream)
    requires PayloadOf(tools, stream) == Err(IntegrityFailure)
    ensures Altered(tools, stream.frames)
  {
    hide *;
    var frames := stream.frames;
    PhaseOf(tools, stream);
    HeaderFrame(tools, frames);
    var manifests, lists := ManifestShape(tools, frames[1..], []);
    NothingBefore(lists);
    var manifest := ManifestOf(tools, frames[1..], []).value;
    var groups, contents, bad, rest := RefusedFiles(tools, manifest.1, 0, |manifest.0|);
    AlteredIntro(tools, frames, frames[0], HeaderOf(tools, frames).value, manifests, lists, groups, contents, bad, rest);
  }

  lemma AlteredIntro(tools: Tools, frames: seq<Frame>, header: Frame, value: Value, manifests: seq<Frame>, lists: seq<seq<FileEntry>>,
                     groups: seq<seq<Frame>>, contents: seq<Content>, bad: seq<Frame>, rest: seq<Frame>)
    requires frames == [header] + (manifests + (Flatten(groups) + (bad + rest)))
    requires header.kind == Header && tools.codec.parse(header.body) == Some(value) && HeaderSays(value)
    requires ManifestsSay(tools, manifests, lists) && |groups| < |Flatten(lists)| <= MAX_FILES
    requires GroupsSay(tools, groups, 0, contents) && GroupDiffers(tools, bad, |groups|)
    ensures Altered(tools, frames)
  {
    hide Flatten, HeaderSays, ManifestsSay, GroupsSay, GroupDiffers;
    assert AlteredParts(tools, frames, header, value, manifests, lists, groups, contents, bad, rest);
  }

  lemma UnhashableIsRefused(tools: Tools, stream: Stream, header: Frame, value: Value, manifests: seq<Frame>, lists: seq<seq<FileEntry>>,
                            groups: seq<seq<Frame>>, contents: seq<Content>, records: seq<Frame>, batches: seq<seq<Value>>, bad: Frame,
                            rest: seq<Frame>)
    requires UnhashableParts(tools, stream.frames, header, value, manifests, lists, groups, contents, records, batches, bad, rest)
    ensures PayloadOf(tools, stream) == Err(UnhashableKey)
  {
    HeaderIsChecked(value);
    hide *;
    UnhashableMeans(tools, stream.frames, header, value, manifests, lists, groups, contents, records, batches, bad, rest);
    var behind := records + ([bad] + rest);
    var files := Flatten(groups) + behind;
    var rank := RankOf(Get(value, "order").items);
    BadKind(tools, bad, rank, LastRank(Flatten(batches), rank, 0));
    FirstOfRecords(tools, groups, contents, records, batches, bad, rest);
    NothingBefore(lists);
    ManifestsAreRead(tools, manifests, lists, [], files);
    FilesAreRead(tools, groups, contents, 0, |Flatten(lists)|, behind);
    BatchesAreRefused(tools, records, batches, rank, 0, bad, rest);
    RecordsFail(tools, stream, value, Flatten(lists), files, contents, behind);
  }

  lemma UnhashableMeans(tools: Tools, frames: seq<Frame>, header: Frame, value: Value, manifests: seq<Frame>, lists: seq<seq<FileEntry>>,
                        groups: seq<seq<Frame>>, contents: seq<Content>, records: seq<Frame>, batches: seq<seq<Value>>, bad: Frame,
                        rest: seq<Frame>)
    requires UnhashableParts(tools, frames, header, value, manifests, lists, groups, contents, records, batches, bad, rest)
    ensures |frames| > 0 && frames[0] == header && frames[1..] == manifests + (Flatten(groups) + (records + ([bad] + rest)))
    ensures header.kind == Header && tools.codec.parse(header.body) == Some(value) && HeaderSays(value)
    ensures Get(value, "order").List? && AllTexts(Get(value, "order").items)
    ensures ManifestsSay(tools, manifests, lists) && |groups| == |Flatten(lists)| <= MAX_FILES && GroupsSay(tools, groups, 0, contents)
    ensures BatchesSay(tools, records, batches)
    ensures var rank := RankOf(Get(value, "order").items);
            && Ordered(Flatten(batches), rank, 0) && LastRank(Flatten(batches), rank, 0) >= 0
            && BatchFails(tools, bad, rank, LastRank(Flatten(batches), rank, 0))
  {
    hide Flatten, IsNumber, ManifestsSay, GroupsSay, BatchesSay, Ordered, LastRank, RankOf, BatchFails;
  }

  lemma FirstOfRecords(tools: Tools, groups: seq<seq<Frame>>, contents: seq<Content>, records: seq<Frame>, batches: seq<seq<Value>>,
                       bad: Frame, rest: seq<Frame>)
    requires GroupsSay(tools, groups, 0, contents) && BatchesSay(tools, records, batches) && bad.kind == Records
    ensures var files := Flatten(groups) + (records + ([bad] + rest)); |files| > 0 && files[0].kind != Manifest
  {
    hide Flatten, EndSays, DataOf, CarriesDataOf;
    if |groups| > 0 {
      assert GroupSays(tools, groups[0], 0 + 0, contents[0]);
      GroupKind(groups[0], 0);
      assert groups == [groups[0]] + groups[1..];
      FlattenHead(groups[0], groups[1..]);
    } else {
      assert groups == [];
      NoGroups(records + ([bad] + rest));
      if |records| > 0 {
        assert BatchSays(tools, records[0], batches[0]);
      }
    }
  }

  lemma RecordsFail(tools: Tools, stream: Stream, value: Value, entries: seq<FileEntry>, files: seq<Frame>, contents: seq<Content>,
                    behind: seq<Frame>)
    requires |stream.frames| > 0 && stream.frames[0].kind == Header
    requires tools.codec.parse(stream.frames[0].body) == Some(value) && HeaderOk(value)
    requires Get(value, "order").List? && AllTexts(Get(value, "order").items)
    requires ManifestOf(tools, stream.frames[1..], []) == Ok((entries, files))
    requires FilesOf(tools, files, 0, |entries|) == Ok((contents, behind))
    requires RecordsOf(tools, behind, RankOf(Get(value, "order").items), 0) == Err(UnhashableKey)
    ensures PayloadOf(tools, stream) == Err(UnhashableKey)
  {
    hide ManifestOf, FilesOf, RecordsOf, RankOf, HeaderOk;
  }

  lemma RefusedIsUnhashable(tools: Tools, stream: Stream)
    requires PayloadOf(tools, stream) == Err(UnhashableKey)
    ensures Unhashable(tools, stream.frames)
  {
    hide *;
    var frames := stream.frames;
    PhaseOf(tools, stream);
    HeaderFrame(tools, frames);
    var value := HeaderOf(tools, frames).value;
    OrderIsTexts(value);
    var manifests, lists := ManifestShape(tools, frames[1..], []);
    NothingBefore(lists);
    var manifest := ManifestOf(tools, frames[1..], []).value;
    var groups := FilesShape(tools, manifest.1, 0, |manifest.0|);
    var files := FilesOf(tools, manifest.1, 0, |manifest.0|).value;
    var records, batches, bad, rest := RefusedBatches(tools, files.1, RankOf(Get(value, "order").items), 0);
    UnhashableIntro(tools, frames, frames[0], value, manifests, lists, groups, files.0, records, batches, bad, rest);
  }

  lemma OrderIsTexts(value: Value)
    requires HeaderSays(value)
    ensures Get(value, "order").List? && AllTexts(Get(value, "order").items)
  {
    hide IsNumber;
  }

  lemma UnhashableIntro(tools: Tools, frames: seq<Frame>, header: Frame, value: Value, manifests: seq<Frame>, lists: seq<seq<FileEntry>>,
                        groups: seq<seq<Frame>>, contents: seq<Content>, records: seq<Frame>, batches: seq<seq<Value>>, bad: Frame,
                        rest: seq<Frame>)
    requires frames == [header] + (manifests + (Flatten(groups) + (records + ([bad] + rest))))
    requires header.kind == Header && tools.codec.parse(header.body) == Some(value) && HeaderSays(value)
    requires Get(value, "order").List? && AllTexts(Get(value, "order").items)
    requires ManifestsSay(tools, manifests, lists) && |groups| == |Flatten(lists)| <= MAX_FILES && GroupsSay(tools, groups, 0, contents)
    requires BatchesSay(tools, records, batches)
    requires var rank := RankOf(Get(value, "order").items);
             && Ordered(Flatten(batches), rank, 0) && LastRank(Flatten(batches), rank, 0) >= 0
             && BatchFails(tools, bad, rank, LastRank(Flatten(batches), rank, 0))
    ensures Unhashable(tools, frames)
  {
    hide Flatten, HeaderSays, ManifestsSay, GroupsSay, BatchesSay, Ordered, LastRank, RankOf, BatchFails;
    assert UnhashableParts(tools, frames, header, value, manifests, lists, groups, contents, records, batches, bad, rest);
  }

  // Why a byte stream is refused: another magic; a file whose end differs from its data, with all in
  // order before it; a model that cannot be a key, with all in order before it; and anything else is
  // malformed.
  lemma WhyRefused(tools: Tools, bytes: seq<Byte>)
    ensures PayloadIn(tools, bytes) == Err(NotAPayload) <==> |bytes| >= 8 && bytes[..8] != PayloadMagic()
    ensures PayloadIn(tools, bytes) == Err(IntegrityFailure)
       <==> |bytes| >= 8 && bytes[..8] == PayloadMagic() && Altered(tools, Split(bytes[8..]).frames)
    ensures PayloadIn(tools, bytes) == Err(UnhashableKey)
       <==> |bytes| >= 8 && bytes[..8] == PayloadMagic() && Unhashable(tools, Split(bytes[8..]).frames)
    ensures PayloadIn(tools, bytes) != Err(ReadOutOfOrder)
  {
    hide PayloadOf, Split, PayloadMagic, Altered, Unhashable;
    if |bytes| >= 8 && bytes[..8] == PayloadMagic() {
      var stream := Split(bytes[8..]);
      PhaseProblem(tools, stream);
      AlteredExactly(tools, stream);
      UnhashableExactly(tools, stream);
    }
  }

  lemma PhaseProblem(tools: Tools, stream: Stream)
    ensures PayloadOf(tools, stream) != Err(ReadOutOfOrder) && PayloadOf(tools, stream) != Err(NotAPayload)
  {
    hide *;
    PhaseOf(tools, stream);
  }

  lemma AlteredExactly(tools: Tools, stream: Stream)
    ensures PayloadOf(tools, stream) == Err(IntegrityFailure) <==> Altered(tools, stream.frames)
  {
    hide AlteredParts, PayloadOf;
    if Altered(tools, stream.frames) {
      var header, value, manifests, lists, groups, contents, bad, rest :|
        AlteredParts(tools, stream.frames, header, value, manifests, lists, groups, contents, bad, rest);
      AlteredIsRefused(tools, stream, header, value, manifests, lists, groups, contents, bad, rest);
    }
    if PayloadOf(tools, stream) == Err(IntegrityFailure) {
      RefusedIsAltered(tools, stream);
    }
  }

  lemma UnhashableExactly(tools: Tools, stream: Stream)
    ensures PayloadOf(tools, stream) == Err(UnhashableKey) <==> Unhashable(tools, stream.frames)
  {
    hide UnhashableParts, PayloadOf;
    if Unhashable(tools, stream.frames) {
      var header, value, manifests, lists, groups, contents, records, batches, bad, rest :|
        UnhashableParts(tools, stream.frames, header, value, manifests, lists, groups, contents, records, batches, bad, rest);
      UnhashableIsRefused(tools, stream, header, value, manifests, lists, groups, contents, records, batches, bad, rest);
    }
    if PayloadOf(tools, stream) == Err(UnhashableKey) {
      RefusedIsUnhashable(tools, stream);
    }
  }
}
