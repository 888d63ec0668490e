// What a payload that a reader accepts must look like (dbs/engine/frames.py): header, manifests,
// data and end of every file in turn, records in model order, trailer, and nothing else; and that
// whatever looks like that is accepted.  What the values in the frames must say is stated here on its
// own, apart from the checks of the reader.
module PayloadGrammar {
  import opened Wrappers
  import opened Sequences
  import opened Bytes
  import opened Json
  import opened Frames
  import opened Payload

  predicate AllOf(frames: seq<Frame>, kind: Kind) {
    forall i :: 0 <= i < |frames| ==> frames[i].kind == kind
  }

  // A data frame carries the index of its file and a chunk.
  predicate CarriesDataOf(frame: Frame, index: nat) {
    frame.kind == FileData && BigEndian(index, INDEX_SIZE) <= frame.body
  }

  // The frames of one file: data under its index, then one end.
  predicate FileGroup(frames: seq<Frame>, index: nat) {
    && |frames| > 0 && frames[|frames| - 1].kind == FileEnd
    && forall i :: 0 <= i < |frames| - 1 ==> CarriesDataOf(frames[i], index)
  }

  predicate FileGroups(groups: seq<seq<Frame>>, first: nat) {
    forall i :: 0 <= i < |groups| ==> FileGroup(groups[i], first + i)
  }

  function RankIn(record: Value, rank: map<string, nat>): int {
    if Get(record, "model").Text? && Get(record, "model").s in rank then rank[Get(record, "model").s] else -1
  }

  // Records of known models, from a position on and never back.
  predicate Ordered(records: seq<Value>, rank: map<string, nat>, position: nat) {
    && (forall i :: 0 <= i < |records| ==> RankIn(records[i], rank) >= position)
    && (forall i, j :: 0 <= i < j < |records| ==> RankIn(records[i], rank) <= RankIn(records[j], rank))
  }

  // ----- what the values say

  // A JSON value that is this number: an integer, a float of that value, or a truth value for 0 and 1.
  predicate IsNumber(v: Value, n: int) {
    || v == Number(n) || (n == 0 && v == Flag(false)) || (n == 1 && v == Flag(true))
    || (v.Real? && v.r.exponent >= 0 && v.r.mantissa * Power2(v.r.exponent) == n)
  }

  lemma EqualsIsNumber(v: Value, n: int)
    ensures Equals(v, n) <==> IsNumber(v, n)
  {}

  predicate HeaderSays(v: Value) {
    && v.Object? && IsNumber(Get(v, "version"), 2)
    && Get(v, "order").List? && (forall i :: 0 <= i < |Get(v, "order").items| ==> Get(v, "order").items[i].Text?)
    && (Get(v, "migrations").Null?
        || (Get(v, "migrations").Object? && forall app :: app in Get(v, "migrations").fields ==> Get(v, "migrations").fields[app].Text?))
    && (Get(v, "created").Null? || Get(v, "created").Text?)
    && (Get(v, "django_version").Null? || Get(v, "django_version").Text?)
  }

  predicate EntrySays(v: Value, e: FileEntry) {
    && v.Object? && Get(v, "kind") == Text(e.kind) && Get(v, "name") == Text(e.name) && Get(v, "size") == Number(e.size)
    && Get(v, "model") == e.model && Get(v, "pk") == e.pk && Get(v, "field") == e.field && Get(v, "root") == e.root
    && (e.model.Null? || e.model.Text?) && (e.field.Null? || e.field.Text?) && (e.root.Null? || e.root.Text?)
    && !e.pk.List? && !e.pk.Object?
  }

  predicate EntriesSay(items: seq<Value>, entries: seq<FileEntry>) {
    |items| == |entries| && forall i :: 0 <= i < |items| ==> EntrySays(items[i], entries[i])
  }

  // The end of a file: its index, and the size and digest of its data or a reason for its absence.
  predicate EndSays(tools: Tools, v: Value, index: nat, content: Content) {
    && v.Object? && IsNumber(Get(v, "index"), index)
    && match content.skipped
       case Some(reason) => reason != "" && Get(v, "skipped") == Text(reason)
       case None =>
         && Get(v, "skipped") == Null && Get(v, "size") == Number(|Flatten(content.chunks)|)
         && Get(v, "sha256") == Text(tools.sha256(Flatten(content.chunks)))
  }

  predicate RecordSays(v: Value) {
    && Get(v, "fields").Object? && Get(v, "model").Text? && !Get(v, "pk").List? && !Get(v, "pk").Object?
  }

  predicate TrailerSays(v: Value) {
    var stats := Get(v, "stats");
    && Get(stats, "models").List? && Get(stats, "skipped_files").List?
    && (forall i :: 0 <= i < |Get(stats, "models").items| ==>
          var item := Get(stats, "models").items[i];
          Get(item, "model").Text? && Get(item, "count").Number? && Get(item, "count").n >= 0)
    && Get(stats, "records").Number? && Get(stats, "records").n >= 0 && Get(stats, "files").Number? && Get(stats, "files").n >= 0
    && (forall i :: 0 <= i < |Get(stats, "skipped_files").items| ==> Get(stats, "skipped_files").items[i].Text?)
  }

  lemma HeaderIsChecked(v: Value)
    ensures HeaderOk(v) <==> HeaderSays(v)
  {
    EqualsIsNumber(Get(v, "version"), 2);
    hide Equals, IsNumber;
  }

  lemma TrailerIsChecked(v: Value)
    ensures TrailerOk(v) <==> TrailerSays(v)
  {}

  lemma EntryIsChecked(v: Value, e: FileEntry)
    ensures CheckedEntry(v) == Some(e) <==> EntrySays(v, e)
  {}

  lemma {:induction false} EntriesAreChecked(items: seq<Value>, entries: seq<FileEntry>)
    ensures CheckedEntries(items) == Some(entries) <==> EntriesSay(items, entries)
  {
    hide CheckedEntry, EntrySays;
    if |items| > 0 {
      if |entries| > 0 {
        EntryIsChecked(items[0], entries[0]);
        EntriesAreChecked(items[1..], entries[1..]);
        assert entries == [entries[0]] + entries[1..];
        assert EntriesSay(items, entries) <==> EntrySays(items[0], entries[0]) && EntriesSay(items[1..], entries[1..]) by {
          SplitEntries(items, entries);
        }
      }
    }
  }

  lemma SplitEntries(items: seq<Value>, entries: seq<FileEntry>)
    requires |items| > 0 && |entries| > 0
    ensures EntriesSay(items, entries) <==> EntrySays(items[0], entries[0]) && EntriesSay(items[1..], entries[1..])
  {
    hide EntrySays;
    if EntriesSay(items[1..], entries[1..]) && EntrySays(items[0], entries[0]) {
      forall i | 0 <= i < |items| ensures EntrySays(items[i], entries[i]) {
        if i > 0 {
          assert EntrySays(items[1..][i - 1], entries[1..][i - 1]);
        }
      }
    }
  }

  lemma EndIsChecked(tools: Tools, v: Value, index: nat, content: Content)
    ensures FinishedFile(tools, v, index, content.chunks) == Ok(content) <==> EndSays(tools, v, index, content)
  {
    EqualsIsNumber(Get(v, "index"), index);
    hide Equals, IsNumber, Flatten;
  }

  lemma IndexIsChecked(frame: Frame, index: nat)
    requires index <= MAX_FILES
    ensures IsDataOf(frame, index) <==> CarriesDataOf(frame, index)
  {
    assert Power256(4) == 0x1_0000_0000;
    FieldRoundTrip(index, INDEX_SIZE);
    hide BigEndian, FromBigEndian, Power256;
    if |frame.body| >= INDEX_SIZE {
      var front := frame.body[..INDEX_SIZE];
      FieldRoundTripBack(front);
      assert BigEndian(index, INDEX_SIZE) <= frame.body <==> BigEndian(index, INDEX_SIZE) == front;
    }
  }

  // ----- the parts of a stream and what they hold

  // Each manifest frame lists some entries.
  predicate ManifestsSay(tools: Tools, frames: seq<Frame>, lists: seq<seq<FileEntry>>) {
    |frames| == |lists| && forall k :: 0 <= k < |frames| ==> ManifestSays(tools, frames[k], lists[k])
  }

  predicate ManifestSays(tools: Tools, frame: Frame, entries: seq<FileEntry>) {
    frame.kind == Manifest && match tools.codec.parse(frame.body) case Some(List(items)) => EntriesSay(items, entries) case _ => false
  }

  // The chunks of the data frames of a file.
  function DataOf(group: seq<Frame>): seq<seq<Byte>> {
    if |group| <= 1 || |group[0].body| < INDEX_SIZE then [] else [group[0].body[INDEX_SIZE..]] + DataOf(group[1..])
  }

  // A file's frames hold its content: the chunks, and an end that says the same.
  predicate GroupSays(tools: Tools, group: seq<Frame>, index: nat, content: Content) {
    && FileGroup(group, index) && content.chunks == DataOf(group)
    && match tools.codec.parse(group[|group| - 1].body) case Some(v) => EndSays(tools, v, index, content) case None => false
  }

  predicate GroupsSay(tools: Tools, groups: seq<seq<Frame>>, first: nat, contents: seq<Content>) {
    |groups| == |contents| && forall i :: 0 <= i < |groups| ==> GroupSays(tools, groups[i], first + i, contents[i])
  }

  predicate BatchSays(tools: Tools, frame: Frame, records: seq<Value>) {
    && frame.kind == Records && tools.codec.parse(frame.body) == Some(List(records))
    && forall i :: 0 <= i < |records| ==> RecordSays(records[i])
  }

  predicate BatchesSay(tools: Tools, frames: seq<Frame>, batches: seq<seq<Value>>) {
    |frames| == |batches| && forall k :: 0 <= k < |frames| ==> BatchSays(tools, frames[k], batches[k])
  }

  lemma {:induction false} ManifestShape(tools: Tools, frames: seq<Frame>, entries: seq<FileEntry>)
    returns (manifests: seq<Frame>, lists: seq<seq<FileEntry>>)
    requires ManifestOf(tools, frames, entries).Ok? && |entries| <= MAX_FILES
    ensures var (all, rest) := ManifestOf(tools, frames, entries).value;
            && frames == manifests + rest && ManifestsSay(tools, manifests, lists) && all == entries + Flatten(lists)
            && |all| <= MAX_FILES && |rest| > 0 && rest[0].kind != Manifest
    decreases |frames|
  {
    hide ManifestItems, ManifestSays, Flatten;
    if !frames[0].kind.Manifest? {
      manifests, lists := [], [];
      NothingListed(entries);
    } else {
      var more := ManifestItems(tools, frames[0]).value;
      ManifestIsChecked(tools, frames[0], more);
      var rest, later := ManifestShape(tools, frames[1..], entries + more);
      manifests, lists := [frames[0]] + rest, [more] + later;
      ManifestGrows(tools, frames, entries, more, rest, later);
    }
  }

  lemma ManifestGrows(tools: Tools, frames: seq<Frame>, entries: seq<FileEntry>, more: seq<FileEntry>, manifests: seq<Frame>,
                      lists: seq<seq<FileEntry>>)
    requires |frames| > 0 && manifests <= frames[1..] && ManifestsSay(tools, manifests, lists) && ManifestSays(tools, frames[0], more)
    ensures ManifestsSay(tools, [frames[0]] + manifests, [more] + lists)
    ensures (entries + more) + Flatten(lists) == entries + Flatten([more] + lists)
    ensures frames == ([frames[0]] + manifests) + frames[1..][|manifests|..]
  {
    hide ManifestSays, Flatten;
    FlattenHead(more, lists);
    assert frames == [frames[0]] + frames[1..];
  }

  lemma NothingListed(entries: seq<FileEntry>)
    ensures entries + Flatten([]) == entries
  {}

  lemma ManifestIsChecked(tools: Tools, frame: Frame, entries: seq<FileEntry>)
    ensures frame.kind == Manifest ==> (ManifestItems(tools, frame) == Ok(entries) <==> ManifestSays(tools, frame, entries))
  {
    match tools.codec.parse(frame.body)
    case Some(List(items)) => EntriesAreChecked(items, entries);
    case _ =>
  }

  // The other way round: such frames are read as those entries.
  lemma {:induction false} ManifestsAreRead(tools: Tools, manifests: seq<Frame>, lists: seq<seq<FileEntry>>, entries: seq<FileEntry>, rest: seq<Frame>)
    requires ManifestsSay(tools, manifests, lists) && |entries + Flatten(lists)| <= MAX_FILES && |rest| > 0 && rest[0].kind != Manifest
    ensures ManifestOf(tools, manifests + rest, entries) == Ok((entries + Flatten(lists), rest))
    decreases |manifests|
  {
    hide ManifestItems, ManifestSays, Flatten;
    if |manifests| == 0 {
      assert manifests + rest == rest && lists == [];
      NothingListed(entries);
    } else {
      assert ManifestSays(tools, manifests[0], lists[0]);
      ManifestKind(tools, manifests[0], lists[0]);
      ManifestIsChecked(tools, manifests[0], lists[0]);
      assert manifests == [manifests[0]] + manifests[1..] && lists == [lists[0]] + lists[1..];
      FlattenHead(lists[0], lists[1..]);
      assert (entries + lists[0]) + Flatten(lists[1..]) == entries + (lists[0] + Flatten(lists[1..]));
      assert (manifests + rest)[1..] == manifests[1..] + rest;
      ManifestsAreRead(tools, manifests[1..], lists[1..], entries + lists[0], rest);
    }
  }

  lemma ManifestKind(tools: Tools, frame: Frame, entries: seq<FileEntry>)
    requires ManifestSays(tools, frame, entries)
    ensures frame.kind == Manifest
  {}

  lemma {:induction false} FileShape(tools: Tools, frames: seq<Frame>, index: nat, chunks: seq<seq<Byte>>) returns (group: seq<Frame>)
    requires index <= MAX_FILES && FileOf(tools, frames, index, chunks).Ok?
    ensures var (content, rest) := FileOf(tools, frames, index, chunks).value;
            && frames == group + rest && FileGroup(group, index) && content.chunks == chunks + DataOf(group)
            && match tools.codec.parse(group[|group| - 1].body) case Some(v) => EndSays(tools, v, index, content) case None => false
    decreases |frames|
  {
    hide IsDataOf, CarriesDataOf, FinishedFile, EndSays;
    assert frames == [frames[0]] + frames[1..];
    if frames[0].kind.FileData? {
      DataLength(frames[0], index);
      IndexIsChecked(frames[0], index);
      var chunk := frames[0].body[INDEX_SIZE..];
      var rest := FileShape(tools, frames[1..], index, chunks + [chunk]);
      group := [frames[0]] + rest;
      GroupGrows(frames[0], rest, index);
      assert (chunks + [chunk]) + DataOf(rest) == chunks + ([chunk] + DataOf(rest));
    } else {
      group := [frames[0]];
      var v := tools.codec.parse(frames[0].body).value;
      var content := FinishedFile(tools, v, index, chunks).value;
      FinishedKeepsChunks(tools, v, index, chunks);
      EndIsChecked(tools, v, index, content);
      assert chunks + [] == chunks;
    }
  }

  lemma FinishedKeepsChunks(tools: Tools, v: Value, index: nat, chunks: seq<seq<Byte>>)
    ensures match FinishedFile(tools, v, index, chunks) case Ok(content) => content.chunks == chunks case Err(_) => true
  {}

  lemma DataLength(frame: Frame, index: nat)
    ensures IsDataOf(frame, index) || CarriesDataOf(frame, index) ==> |frame.body| >= INDEX_SIZE && frame.kind == FileData
  {}

  lemma GroupGrows(frame: Frame, group: seq<Frame>, index: nat)
    requires |group| > 0 && CarriesDataOf(frame, index)
    ensures |frame.body| >= INDEX_SIZE && frame.kind == FileData
    ensures FileGroup([frame] + group, index) <==> FileGroup(group, index)
    ensures DataOf([frame] + group) == [frame.body[INDEX_SIZE..]] + DataOf(group)
  {
    DataLength(frame, index);
    hide CarriesDataOf;
    var more := [frame] + group;
    assert more[1..] == group && more[|more| - 1] == group[|group| - 1];
    if FileGroup(more, index) {
      forall i | 0 <= i < |group| - 1 ensures CarriesDataOf(group[i], index) {
        assert group[i] == more[i + 1];
      }
    }
  }

  // A file's frames are read as its content.
  lemma {:induction false} FileIsRead(tools: Tools, group: seq<Frame>, index: nat, chunks: seq<seq<Byte>>, content: Content, rest: seq<Frame>)
    requires index <= MAX_FILES && FileGroup(group, index) && content.chunks == chunks + DataOf(group)
    requires match tools.codec.parse(group[|group| - 1].body) case Some(v) => EndSays(tools, v, index, content) case None => false
    ensures FileOf(tools, group + rest, index, chunks) == Ok((content, rest))
    decreases |group|
  {
    hide FinishedFile, EndSays, IsDataOf;
    var frames := group + rest;
    assert frames[0] == group[0];
    if |group| > 1 {
      IndexIsChecked(group[0], index);
      assert group == [group[0]] + group[1..];
      GroupGrows(group[0], group[1..], index);
      var chunk := group[0].body[INDEX_SIZE..];
      assert (chunks + [chunk]) + DataOf(group[1..]) == chunks + ([chunk] + DataOf(group[1..]));
      assert frames[1..] == group[1..] + rest;
      FileIsRead(tools, group[1..], index, chunks + [chunk], content, rest);
    } else {
      assert chunks + [] == chunks && frames[1..] == rest;
      EndIsChecked(tools, tools.codec.parse(group[0].body).value, index, content);
    }
  }

  lemma {:induction false} FilesShape(tools: Tools, frames: seq<Frame>, index: nat, count: nat) returns (groups: seq<seq<Frame>>)
    requires index <= count <= MAX_FILES && FilesOf(tools, frames, index, count).Ok?
    ensures var (contents, rest) := FilesOf(tools, frames, index, count).value;
            |groups| == count - index && GroupsSay(tools, groups, index, contents) && frames == Flatten(groups) + rest
    decreases count - index
  {
    hide FileOf, FileGroup, EndSays, DataOf, Flatten;
    if index == count {
      groups := [];
      NoGroups(frames);
    } else {
      var group := FileShape(tools, frames, index, []);
      var read := FileOf(tools, frames, index, []).value;
      var rest := FilesShape(tools, read.1, index + 1, count);
      groups := [group] + rest;
      FlattenHead(group, rest);
      var later := FilesOf(tools, read.1, index + 1, count).value;
      assert [] + DataOf(group) == DataOf(group);
      assert group + (Flatten(rest) + later.1) == (group + Flatten(rest)) + later.1;
      forall i | 0 <= i < |groups| ensures GroupSays(tools, groups[i], index + i, ([read.0] + later.0)[i]) {
        if i > 0 {
          assert GroupSays(tools, rest[i - 1], index + 1 + (i - 1), later.0[i - 1]);
        }
      }
    }
  }

  lemma NoGroups(frames: seq<Frame>)
    ensures frames == Flatten([]) + frames
  {}

  lemma {:induction false} FilesAreRead(tools: Tools, groups: seq<seq<Frame>>, contents: seq<Content>, index: nat, count: nat, rest: seq<Frame>)
    requires index <= count <= MAX_FILES && |groups| == count - index && GroupsSay(tools, groups, index, contents)
    ensures FilesOf(tools, Flatten(groups) + rest, index, count) == Ok((contents, rest))
    decreases count - index
  {
    hide FileOf, FileGroup, EndSays, DataOf, Flatten;
    if index == count {
      NoGroups(rest);
      assert groups == [] && contents == [];
    } else {
      assert GroupSays(tools, groups[0], index + 0, contents[0]);
      assert groups == [groups[0]] + groups[1..] && contents == [contents[0]] + contents[1..];
      FlattenHead(groups[0], groups[1..]);
      assert (groups[0] + Flatten(groups[1..])) + rest == groups[0] + (Flatten(groups[1..]) + rest);
      assert [] + DataOf(groups[0]) == DataOf(groups[0]);
      FileIsRead(tools, groups[0], index, [], contents[0], Flatten(groups[1..]) + rest);
      forall i | 0 <= i < |groups[1..]| ensures GroupSays(tools, groups[1..][i], index + 1 + i, contents[1..][i]) {
        assert GroupSays(tools, groups[i + 1], index + (i + 1), contents[i + 1]);
      }
      FilesAreRead(tools, groups[1..], contents[1..], index + 1, count, rest);
    }
  }

  // Records pass exactly when each says what it must and none goes back in the order.
  lemma {:induction false} RecordsAreChecked(records: seq<Value>, rank: map<string, nat>, current: nat)
    ensures CheckedRecords(records, rank, current).Ok? <==> RecordsSay(records) && Ordered(records, rank, current)
    ensures CheckedRecords(records, rank, current).Ok? ==> CheckedRecords(records, rank, current).value == LastRank(records, rank, current)
  {
    if |records| > 0 {
      OneRecord(records[0], rank, current);
      HeadAndTail(records, rank, current);
      hide RankIn, CheckedRecord, RecordSays, RecordsSay, Ordered;
      if CheckedRecord(records[0], rank, current).Ok? {
        RecordsAreChecked(records[1..], rank, CheckedRecord(records[0], rank, current).value);
      }
    }
  }

  predicate RecordsSay(records: seq<Value>) {
    forall i :: 0 <= i < |records| ==> RecordSays(records[i])
  }

  lemma HeadAndTail(records: seq<Value>, rank: map<string, nat>, current: nat)
    requires |records| > 0
    ensures RecordsSay(records) <==> RecordSays(records[0]) && RecordsSay(records[1..])
    ensures Ordered(records, rank, current) <==> RankIn(records[0], rank) >= current && Ordered(records[1..], rank, RankIn(records[0], rank))
  {
    hide RankIn, RecordSays;
    var tail := records[1..];
    assert forall i :: 0 < i < |records| ==> records[i] == tail[i - 1];
  }

  lemma OneRecord(record: Value, rank: map<string, nat>, current: nat)
    ensures CheckedRecord(record, rank, current).Ok? <==> RecordSays(record) && RankIn(record, rank) >= current
    ensures CheckedRecord(record, rank, current).Ok? ==> CheckedRecord(record, rank, current).value == RankIn(record, rank)
  {}

  function LastRank(records: seq<Value>, rank: map<string, nat>, current: nat): int {
    if |records| == 0 then current else RankIn(records[|records| - 1], rank)
  }

  // Two runs of records are in order together exactly when the second goes on where the first ended.
  lemma OrderedJoin(left: seq<Value>, right: seq<Value>, rank: map<string, nat>, current: nat)
    requires Ordered(left, rank, current)
    ensures Ordered(left + right, rank, current) <==> Ordered(right, rank, LastRank(left, rank, current))
  {
    hide RankIn;
    var all := left + right;
    assert forall i :: 0 <= i < |right| ==> all[|left| + i] == right[i];
    assert forall i :: 0 <= i < |left| ==> all[i] == left[i];
  }

  lemma OrderedFront(left: seq<Value>, right: seq<Value>, rank: map<string, nat>, current: nat)
    requires Ordered(left + right, rank, current)
    ensures Ordered(left, rank, current)
  {
    hide RankIn;
    var all := left + right;
    assert forall i :: 0 <= i < |left| ==> all[i] == left[i];
  }

  lemma BatchIsChecked(tools: Tools, frame: Frame, records: seq<Value>, rank: map<string, nat>, position: nat)
    requires frame.kind == Records
    ensures BatchOf(tools, frame, rank, position).Ok? && BatchOf(tools, frame, rank, position).value.0 == records <==>
              BatchSays(tools, frame, records) && Ordered(records, rank, position)
    ensures BatchOf(tools, frame, rank, position).Ok? && BatchOf(tools, frame, rank, position).value.0 == records ==>
              BatchOf(tools, frame, rank, position).value.1 == LastRank(records, rank, position)
  {
    RecordsAreChecked(records, rank, position);
    hide CheckedRecords, Ordered, LastRank, RecordSays;
  }

  lemma {:induction false} RecordsShape(tools: Tools, frames: seq<Frame>, rank: map<string, nat>, position: nat) returns (records: seq<Frame>)
    requires RecordsOf(tools, frames, rank, position).Ok?
    ensures var (batches, rest) := RecordsOf(tools, frames, rank, position).value;
            frames == records + rest && BatchesSay(tools, records, batches) && Ordered(Flatten(batches), rank, position)
    decreases |frames|
  {
    hide Ordered, BatchOf, BatchSays, LastRank, Flatten;
    if !frames[0].kind.Records? {
      records := [];
      NothingOrdered(rank, position);
    } else {
      var batch := BatchOf(tools, frames[0], rank, position).value;
      BatchIsChecked(tools, frames[0], batch.0, rank, position);
      var rest := RecordsShape(tools, frames[1..], rank, batch.1);
      var more := RecordsOf(tools, frames[1..], rank, batch.1).value.0;
      records := [frames[0]] + rest;
      assert frames == [frames[0]] + frames[1..];
      FlattenHead(batch.0, more);
      OrderedJoin(batch.0, Flatten(more), rank, position);
    }
  }

  lemma NothingOrdered(rank: map<string, nat>, position: nat)
    ensures Ordered(Flatten([]), rank, position)
  {}

  lemma {:induction false} BatchesAreRead(tools: Tools, records: seq<Frame>, batches: seq<seq<Value>>, rank: map<string, nat>, position: nat,
                                          rest: seq<Frame>)
    requires BatchesSay(tools, records, batches) && Ordered(Flatten(batches), rank, position) && |rest| > 0 && rest[0].kind != Records
    ensures RecordsOf(tools, records + rest, rank, position) == Ok((batches, rest))
    decreases |records|
  {
    hide Ordered, BatchOf, BatchSays, LastRank, Flatten;
    var frames := records + rest;
    if |records| == 0 {
      assert frames == rest && batches == [];
    } else {
      assert BatchSays(tools, records[0], batches[0]);
      BatchKind(tools, records[0], batches[0]);
      assert records == [records[0]] + records[1..] && batches == [batches[0]] + batches[1..];
      FlattenHead(batches[0], batches[1..]);
      OrderedFront(batches[0], Flatten(batches[1..]), rank, position);
      OrderedJoin(batches[0], Flatten(batches[1..]), rank, position);
      BatchIsChecked(tools, records[0], batches[0], rank, position);
      assert frames[1..] == records[1..] + rest;
      forall k | 0 <= k < |records[1..]| ensures BatchSays(tools, records[1..][k], batches[1..][k]) {
        assert BatchSays(tools, records[k + 1], batches[k + 1]);
      }
      BatchesAreRead(tools, records[1..], batches[1..], rank, BatchOf(tools, records[0], rank, position).value.1, rest);
    }
  }

  lemma BatchKind(tools: Tools, frame: Frame, records: seq<Value>)
    requires BatchSays(tools, frame, records)
    ensures frame.kind == Records
  {}

  // The last place of a label in the order is its rank.
  lemma {:induction false} RankIsLastPlace(order: seq<Value>, name: string)
    requires AllTexts(order)
    ensures name in RankOf(order) <==> Text(name) in order
    ensures name in RankOf(order) ==>
      var place := RankOf(order)[name];
      place < |order| && order[place] == Text(name) && forall j :: place < j < |order| ==> order[j] != Text(name)
  {
    if |order| > 0 {
      RankIsLastPlace(order[..|order| - 1], name);
      assert order == order[..|order| - 1] + [order[|order| - 1]];
    }
  }

  // ----- the whole payload

  // What the frames of a payload say, part by part.
  predicate Describes(tools: Tools, header: Frame, manifests: seq<Frame>, lists: seq<seq<FileEntry>>, groups: seq<seq<Frame>>, records: seq<Frame>,
                      trailer: Frame, p: Payload)
  {
    && header.kind == Header && tools.codec.parse(header.body) == Some(p.header) && HeaderSays(p.header)
    && ManifestsSay(tools, manifests, lists) && p.entries == Flatten(lists) && |p.entries| <= MAX_FILES
    && |groups| == |p.entries| && GroupsSay(tools, groups, 0, p.files)
    && BatchesSay(tools, records, p.batches) && Ordered(Flatten(p.batches), RankOf(Get(p.header, "order").items), 0)
    && trailer.kind == Trailer && tools.codec.parse(trailer.body) == Some(p.trailer) && TrailerSays(p.trailer)
  }

  function FramesOf(header: Frame, manifests: seq<Frame>, groups: seq<seq<Frame>>, records: seq<Frame>, trailer: Frame): seq<Frame> {
    [header] + (manifests + (Flatten(groups) + (records + [trailer])))
  }

  // Any byte stream that is read to its finish is what its parts describe: every file that was not
  // skipped ends with the size and digest of its data, and the records never go back in the recorded
  // model order, across all frames.
  lemma AcceptedHasShape(tools: Tools, bytes: seq<Byte>)
    returns (header: Frame, manifests: seq<Frame>, lists: seq<seq<FileEntry>>, groups: seq<seq<Frame>>, records: seq<Frame>, trailer: Frame)
    requires PayloadIn(tools, bytes).Ok?
    ensures var frames := FramesOf(header, manifests, groups, records, trailer); bytes == PayloadMagic() + Joined(frames) && AllFit(frames)
    ensures Describes(tools, header, manifests, lists, groups, records, trailer, PayloadIn(tools, bytes).value)
  {
    hide *;
    MagicFirst(tools, bytes);
    var stream := Split(bytes[8..]);
    var frames := stream.frames;
    PartsOf(tools, stream);
    header := frames[0];
    var value := HeaderOf(tools, frames).value;
    manifests, lists := ManifestShape(tools, frames[1..], []);
    var manifest := ManifestOf(tools, frames[1..], []).value;
    NothingBefore(lists);
    var files := FilesOf(tools, manifest.1, 0, |manifest.0|).value;
    var rank := RankOf(Get(value, "order").items);
    groups := FilesShape(tools, manifest.1, 0, |manifest.0|);
    records := RecordsShape(tools, files.1, rank, 0);
    trailer := RecordsOf(tools, files.1, rank, 0).value.1[0];
    CleanSplitWasJoined(bytes[8..]);
    FramesJoin(frames, manifests, manifest.1, groups, files.1, records, trailer);
    DescribesIntro(tools, header, manifests, lists, groups, records, trailer, PayloadIn(tools, bytes).value);
  }

  lemma NothingBefore(lists: seq<seq<FileEntry>>)
    ensures [] + Flatten(lists) == Flatten(lists)
  {}

  lemma DescribesIntro(tools: Tools, header: Frame, manifests: seq<Frame>, lists: seq<seq<FileEntry>>, groups: seq<seq<Frame>>,
                       records: seq<Frame>, trailer: Frame, p: Payload)
    requires header.kind == Header && tools.codec.parse(header.body) == Some(p.header) && HeaderOk(p.header)
    requires Get(p.header, "order").List? && AllTexts(Get(p.header, "order").items)
    requires ManifestsSay(tools, manifests, lists) && p.entries == Flatten(lists) && |p.entries| <= MAX_FILES
    requires |groups| == |p.entries| && GroupsSay(tools, groups, 0, p.files)
    requires BatchesSay(tools, records, p.batches) && Ordered(Flatten(p.batches), RankOf(Get(p.header, "order").items), 0)
    requires trailer.kind == Trailer && tools.codec.parse(trailer.body) == Some(p.trailer) && TrailerOk(p.trailer)
    ensures Describes(tools, header, manifests, lists, groups, records, trailer, p)
  {
    HeaderIsChecked(p.header);
    TrailerIsChecked(p.trailer);
    hide HeaderOk, TrailerOk, HeaderSays, TrailerSays, ManifestsSay, GroupsSay, BatchesSay, Ordered, RankOf, Flatten, AllTexts;
  }

  lemma MagicFirst(tools: Tools, bytes: seq<Byte>)
    requires PayloadIn(tools, bytes).Ok?
    ensures |bytes| >= 8 && bytes == PayloadMagic() + bytes[8..] && PayloadOf(tools, Split(bytes[8..])) == PayloadIn(tools, bytes)
  {
    hide PayloadOf, Split, PayloadMagic;
    assert bytes == bytes[..8] + bytes[8..];
  }

  // The phases of an accepted stream.
  lemma PartsOf(tools: Tools, stream: Stream)
    requires PayloadOf(tools, stream).Ok?
    ensures var (frames, payload) := (stream.frames, PayloadOf(tools, stream).value);
            && !stream.torn && |frames| > 0 && frames[0].kind == Header && tools.codec.parse(frames[0].body) == Some(payload.header)
            && HeaderOk(payload.header) && HeaderOf(tools, frames) == Ok(payload.header)
            && Get(payload.header, "order").List? && AllTexts(Get(payload.header, "order").items)
            && ManifestOf(tools, frames[1..], []).Ok?
            && var manifest := ManifestOf(tools, frames[1..], []).value;
               && payload.entries == manifest.0 && FilesOf(tools, manifest.1, 0, |manifest.0|).Ok?
               && var files := FilesOf(tools, manifest.1, 0, |manifest.0|).value;
                  && payload.files == files.0
                  && RecordsOf(tools, files.1, RankOf(Get(payload.header, "order").items), 0).Ok?
                  && var read := RecordsOf(tools, files.1, RankOf(Get(payload.header, "order").items), 0).value;
                     && payload.batches == read.0 && |read.1| == 1 && read.1[0].kind == Trailer
                     && tools.codec.parse(read.1[0].body) == Some(payload.trailer) && TrailerOk(payload.trailer)
  {
    hide ManifestOf, FilesOf, RecordsOf, RankOf, TrailerOk;
  }

  lemma FramesJoin(frames: seq<Frame>, manifests: seq<Frame>, behindManifest: seq<Frame>, groups: seq<seq<Frame>>, behindFiles: seq<Frame>,
                   records: seq<Frame>, trailer: Frame)
    requires |frames| > 0 && frames[1..] == manifests + behindManifest && behindManifest == Flatten(groups) + behindFiles
    requires exists last :: behindFiles == records + last && |last| == 1 && last[0] == trailer
    ensures frames == FramesOf(frames[0], manifests, groups, records, trailer)
  {
    hide Flatten;
    assert frames == [frames[0]] + frames[1..];
    var last :| behindFiles == records + last && |last| == 1 && last[0] == trailer;
    assert last == [trailer];
  }

  // The other way round: whatever parts describe a payload, their bytes are accepted as that payload.
  lemma DescribedIsAccepted(tools: Tools, header: Frame, manifests: seq<Frame>, lists: seq<seq<FileEntry>>, groups: seq<seq<Frame>>,
                            records: seq<Frame>, trailer: Frame, p: Payload)
    requires Describes(tools, header, manifests, lists, groups, records, trailer, p)
    requires AllFit(FramesOf(header, manifests, groups, records, trailer))
    ensures PayloadIn(tools, PayloadMagic() + Joined(FramesOf(header, manifests, groups, records, trailer))) == Ok(p)
  {
    hide *;
    DescribesMeans(tools, header, manifests, lists, groups, records, trailer, p);
    var frames := FramesOf(header, manifests, groups, records, trailer);
    var behind := records + [trailer];
    var files := Flatten(groups) + behind;
    FramesOfParts(header, manifests, groups, records, trailer, behind, files);
    FirstOfFiles(tools, groups, p.files, records, p.batches, trailer);
    NothingBefore(lists);
    ManifestsAreRead(tools, manifests, lists, [], files);
    FilesAreRead(tools, groups, p.files, 0, |p.entries|, behind);
    BatchesAreRead(tools, records, p.batches, RankOf(Get(p.header, "order").items), 0, [trailer]);
    SplitOfJoined(frames);
    AfterMagic(tools, Joined(frames));
    PhasesRead(tools, Stream(frames, false), p, files, behind, trailer);
  }

  lemma DescribesMeans(tools: Tools, header: Frame, manifests: seq<Frame>, lists: seq<seq<FileEntry>>, groups: seq<seq<Frame>>,
                       records: seq<Frame>, trailer: Frame, p: Payload)
    requires Describes(tools, header, manifests, lists, groups, records, trailer, p)
    ensures header.kind == Header && tools.codec.parse(header.body) == Some(p.header) && HeaderOk(p.header)
    ensures Get(p.header, "order").List? && AllTexts(Get(p.header, "order").items)
    ensures ManifestsSay(tools, manifests, lists) && p.entries == Flatten(lists) && |p.entries| <= MAX_FILES
    ensures |groups| == |p.entries| && GroupsSay(tools, groups, 0, p.files)
    ensures BatchesSay(tools, records, p.batches) && Ordered(Flatten(p.batches), RankOf(Get(p.header, "order").items), 0)
    ensures trailer.kind == Trailer && tools.codec.parse(trailer.body) == Some(p.trailer) && TrailerOk(p.trailer)
  {
    HeaderIsChecked(p.header);
    TrailerIsChecked(p.trailer);
    hide TrailerOk, TrailerSays, ManifestsSay, GroupsSay, BatchesSay, Ordered, RankOf, Flatten;
  }

  lemma FramesOfParts(header: Frame, manifests: seq<Frame>, groups: seq<seq<Frame>>, records: seq<Frame>, trailer: Frame, behind: seq<Frame>,
                      files: seq<Frame>)
    requires behind == records + [trailer] && files == Flatten(groups) + behind
    ensures var frames := FramesOf(header, manifests, groups, records, trailer);
            |frames| > 0 && frames[0] == header && frames[1..] == manifests + files
  {
    hide Flatten;
  }

  // Behind the manifests comes a file, a record batch or the trailer.
  lemma FirstOfFiles(tools: Tools, groups: seq<seq<Frame>>, contents: seq<Content>, records: seq<Frame>, batches: seq<seq<Value>>, trailer: Frame)
    requires GroupsSay(tools, groups, 0, contents) && BatchesSay(tools, records, batches) && trailer.kind == Trailer
    ensures var files := Flatten(groups) + (records + [trailer]); |files| > 0 && files[0].kind != Manifest
  {
    hide Flatten, EndSays, DataOf, CarriesDataOf;
    if |groups| > 0 {
      assert GroupSays(tools, groups[0], 0 + 0, contents[0]);
      GroupKind(groups[0], 0);
      assert groups == [groups[0]] + groups[1..];
      FlattenHead(groups[0], groups[1..]);
    } else {
      assert groups == [];
      NoGroups(records + [trailer]);
      if |records| > 0 {
        assert BatchSays(tools, records[0], batches[0]);
      }
    }
  }

  lemma GroupKind(group: seq<Frame>, index: nat)
    requires FileGroup(group, index)
    ensures |group| > 0 && (group[0].kind == FileData || group[0].kind == FileEnd)
  {
    hide BigEndian;
    if |group| > 1 {
      assert CarriesDataOf(group[0], index);
    }
  }

  lemma AfterMagic(tools: Tools, body: seq<Byte>)
    ensures PayloadIn(tools, PayloadMagic() + body) == PayloadOf(tools, Split(body))
  {
    hide PayloadOf, Split, PayloadMagic;
    var bytes := PayloadMagic() + body;
    assert bytes[..8] == PayloadMagic() && bytes[8..] == body;
  }

  lemma PhasesRead(tools: Tools, stream: Stream, p: Payload, files: seq<Frame>, behind: seq<Frame>, trailer: Frame)
    requires |stream.frames| > 0 && !stream.torn && stream.frames[0].kind == Header
    requires tools.codec.parse(stream.frames[0].body) == Some(p.header) && HeaderOk(p.header)
    requires Get(p.header, "order").List? && AllTexts(Get(p.header, "order").items)
    requires ManifestOf(tools, stream.frames[1..], []) == Ok((p.entries, files))
    requires FilesOf(tools, files, 0, |p.entries|) == Ok((p.files, behind))
    requires RecordsOf(tools, behind, RankOf(Get(p.header, "order").items), 0) == Ok((p.batches, [trailer]))
    requires trailer.kind == Trailer && tools.codec.parse(trailer.body) == Some(p.trailer) && TrailerOk(p.trailer)
    ensures PayloadOf(tools, stream) == Ok(p)
  {
    hide ManifestOf, FilesOf, RecordsOf, RankOf, TrailerOk, HeaderOk;
  }
}
