// The writer of a payload (_produce, _emit_files and _emit_records of dbs/engine/backup.py), and
// that reading undoes it: the same header, entries, files, records and trailer come back.
module PayloadWriting {
  import opened Wrappers
  import opened Sequences
  import opened Bytes
  import opened Json
  import opened Frames
  import opened Payload
  import opened PayloadReading

  const MANIFEST_BATCH: nat := 1000

  // A file to back up: what reading it yields, and the reason when reading it stops.
  datatype Source = Source(entry: FileEntry, described: string, chunks: seq<seq<Byte>>, skip: Option<string>)

  // A model with its batches of records.
  datatype Table = Table(model: string, batches: seq<seq<Value>>)

  datatype Draft = Draft(created: string, djangoVersion: string, migrations: map<string, string>, unlisted: seq<string>, sources: seq<Source>,
                         tables: seq<Table>)

  // ----- the values written

  function Texts(items: seq<string>): (texts: seq<Value>)
    ensures |texts| == |items| && AllTexts(texts)
    ensures forall i :: 0 <= i < |items| ==> texts[i] == Text(items[i])
  {
    seq(|items|, i requires 0 <= i < |items| => Text(items[i]))
  }

  function Models(tables: seq<Table>): (models: seq<string>)
    ensures |models| == |tables| && forall i :: 0 <= i < |tables| ==> models[i] == tables[i].model
  {
    seq(|tables|, i requires 0 <= i < |tables| => tables[i].model)
  }

  function HeaderValue(d: Draft): Value {
    Object(map["version" := Number(PAYLOAD_VERSION), "created" := Text(d.created), "django_version" := Text(d.djangoVersion),
               "migrations" := Object(map app | app in d.migrations :: Text(d.migrations[app])),
               "order" := List(Texts(Models(d.tables)))])
  }

  // manifest_item
  function EntryValue(e: FileEntry): Value {
    Object(map["kind" := Text(e.kind), "size" := Number(e.size), "model" := e.model, "pk" := e.pk, "field" := e.field,
               "name" := Text(e.name), "root" := e.root])
  }

  function EntryValues(sources: seq<Source>): (values: seq<Value>)
    ensures |values| == |sources| && forall i :: 0 <= i < |sources| ==> values[i] == EntryValue(sources[i].entry)
  {
    seq(|sources|, i requires 0 <= i < |sources| => EntryValue(sources[i].entry))
  }

  // file_end_frame; an empty reason counts as none, and what is left are its defaults
  function EndOfFile(index: nat, skip: Option<string>, size: nat, sha256: string): Value {
    if skip.Some? && skip.value != "" then Object(map["index" := Number(index), "skipped" := Text(skip.value)])
    else if skip.Some? then Object(map["index" := Number(index), "size" := Number(0), "sha256" := Text("")])
    else Object(map["index" := Number(index), "size" := Number(size), "sha256" := Text(sha256)])
  }

  function EndValue(tools: Tools, index: nat, source: Source): Value {
    EndOfFile(index, source.skip, |Flatten(source.chunks)|, tools.sha256(Flatten(source.chunks)))
  }

  function SkippedTexts(sources: seq<Source>): seq<string> {
    if |sources| == 0 then []
    else
      var last := sources[|sources| - 1];
      SkippedTexts(sources[..|sources| - 1]) + (if last.skip.Some? then [last.described + " (" + last.skip.value + ")"] else [])
  }

  function ModelCount(table: Table): Value {
    Object(map["model" := Text(table.model), "count" := Number(|Flatten(table.batches)|)])
  }

  function ModelCounts(tables: seq<Table>): (counts: seq<Value>)
    ensures |counts| == |tables| && forall i :: 0 <= i < |tables| ==> counts[i] == ModelCount(tables[i])
  {
    seq(|tables|, i requires 0 <= i < |tables| => ModelCount(tables[i]))
  }

  function AllBatches(tables: seq<Table>): seq<seq<Value>> {
    if |tables| == 0 then [] else tables[0].batches + AllBatches(tables[1..])
  }

  function FilesWritten(sources: seq<Source>): nat {
    if |sources| == 0 then 0 else FilesWritten(sources[..|sources| - 1]) + (if sources[|sources| - 1].skip.Some? then 0 else 1)
  }

  function TrailerValue(d: Draft): Value {
    Object(map["stats" := Object(map["models" := List(ModelCounts(d.tables)), "records" := Number(|Flatten(AllBatches(d.tables))|),
                                     "files" := Number(FilesWritten(d.sources)),
                                     "skipped_files" := List(Texts(d.unlisted + SkippedTexts(d.sources)))])])
  }

  // ----- the frames written

  function ValueFrame(tools: Tools, kind: Kind, v: Value): Frame {
    Frame(kind, tools.codec.encode(v))
  }

  function ManifestFrames(tools: Tools, sources: seq<Source>): seq<Frame>
    decreases |sources|
  {
    if |sources| == 0 then []
    else
      var n := FirstBatch(sources);
      [ValueFrame(tools, Manifest, List(EntryValues(sources[..n])))] + ManifestFrames(tools, sources[n..])
  }

  function DataFrames(index: nat, chunks: seq<seq<Byte>>): seq<Frame> {
    if |chunks| == 0 then [] else [Frame(FileData, BigEndian(index, INDEX_SIZE) + chunks[0])] + DataFrames(index, chunks[1..])
  }

  function FileFrames(tools: Tools, index: nat, source: Source): seq<Frame> {
    DataFrames(index, source.chunks) + [ValueFrame(tools, FileEnd, EndValue(tools, index, source))]
  }

  function FilesFrames(tools: Tools, index: nat, sources: seq<Source>): seq<Frame>
    decreases |sources|
  {
    if |sources| == 0 then [] else FileFrames(tools, index, sources[0]) + FilesFrames(tools, index + 1, sources[1..])
  }

  // Each batch is framed as the list of its records.
  function BatchFrames(tools: Tools, batches: seq<seq<Value>>): seq<Frame> {
    if |batches| == 0 then []
    else [Frame(Records, ListBytes(tools.codec.Encoded(batches[0])))] + BatchFrames(tools, batches[1..])
  }

  function Body(tools: Tools, d: Draft): seq<Frame> {
    ManifestFrames(tools, d.sources)
    + (FilesFrames(tools, 0, d.sources) + (BatchFrames(tools, AllBatches(d.tables)) + [ValueFrame(tools, Trailer, TrailerValue(d))]))
  }

  function DraftFrames(tools: Tools, d: Draft): seq<Frame> {
    [ValueFrame(tools, Header, HeaderValue(d))] + Body(tools, d)
  }

  // ----- what the caller provides

  predicate EntryWritable(e: FileEntry) {
    IsOptionalText(e.model) && IsOptionalText(e.field) && IsOptionalText(e.root) && IsScalar(e.pk)
  }

  predicate SourcesWritable(sources: seq<Source>) {
    forall i :: 0 <= i < |sources| ==> EntryWritable(sources[i].entry) && sources[i].skip != Some("")
  }

  predicate RecordOf(record: Value, model: string) {
    Get(record, "fields").Object? && Get(record, "model") == Text(model) && IsScalar(Get(record, "pk"))
  }

  predicate BatchesOf(batches: seq<seq<Value>>, model: string) {
    forall b :: 0 <= b < |batches| ==> RecordsOfModel(batches[b], model)
  }

  predicate RecordsOfModel(records: seq<Value>, model: string) {
    forall i :: 0 <= i < |records| ==> RecordOf(records[i], model)
  }

  predicate Distinct(models: seq<string>) {
    forall i, j :: 0 <= i < j < |models| ==> models[i] != models[j]
  }

  // The models are distinct and every record belongs to the model of its table.
  predicate TablesWritable(tables: seq<Table>) {
    Distinct(Models(tables)) && forall k :: 0 <= k < |tables| ==> BatchesOf(tables[k].batches, tables[k].model)
  }

  predicate Writable(d: Draft) {
    SourcesWritable(d.sources) && TablesWritable(d.tables) && |d.sources| <= MAX_FILES
  }

  // ----- what comes back

  function Entries(sources: seq<Source>): (entries: seq<FileEntry>)
    ensures |entries| == |sources| && forall i :: 0 <= i < |sources| ==> entries[i] == sources[i].entry
  {
    seq(|sources|, i requires 0 <= i < |sources| => sources[i].entry)
  }

  function Contents(sources: seq<Source>): (contents: seq<Content>)
    ensures |contents| == |sources| && forall i :: 0 <= i < |sources| ==> contents[i] == Content(sources[i].chunks, sources[i].skip)
  {
    seq(|sources|, i requires 0 <= i < |sources| => Content(sources[i].chunks, sources[i].skip))
  }

  function PayloadOfDraft(d: Draft): Payload {
    Payload(HeaderValue(d), Entries(d.sources), Contents(d.sources), AllBatches(d.tables), TrailerValue(d))
  }

  lemma HeaderIsOk(d: Draft)
    ensures HeaderOk(HeaderValue(d))
  {}

  lemma TrailerIsOk(d: Draft)
    ensures TrailerOk(TrailerValue(d))
  {
    hide Flatten, AllBatches, FilesWritten, SkippedTexts;
    var models := ModelCounts(d.tables);
    forall i | 0 <= i < |models| ensures ModelCountOk(models[i]) {
      assert models[i] == ModelCount(d.tables[i]);
    }
  }

  // ----- manifests

  lemma EntryRoundTrip(e: FileEntry)
    requires EntryWritable(e)
    ensures CheckedEntry(EntryValue(e)) == Some(e)
  {}

  lemma {:induction false} EntriesRoundTrip(sources: seq<Source>)
    requires SourcesWritable(sources)
    ensures CheckedEntries(EntryValues(sources)) == Some(Entries(sources))
  {
    hide EntryValue, EntryWritable, CheckedEntry;
    if |sources| > 0 {
      EntryRoundTrip(sources[0].entry);
      EntriesRoundTrip(sources[1..]);
      assert EntryValues(sources)[1..] == EntryValues(sources[1..]);
      assert Entries(sources) == [sources[0].entry] + Entries(sources[1..]);
    } else {
      assert Entries(sources) == [];
    }
  }

  lemma {:induction false} ManifestRoundTrip(tools: Tools, sources: seq<Source>, before: seq<FileEntry>, rest: seq<Frame>)
    requires tools.codec.Sound() && SourcesWritable(sources) && |before| + |sources| <= MAX_FILES
    requires |rest| > 0 && !rest[0].kind.Manifest?
    ensures ManifestOf(tools, ManifestFrames(tools, sources) + rest, before) == Ok((before + Entries(sources), rest))
    decreases |sources|
  {
    hide *;
    ManifestStarts(tools, sources, before, rest);
    var n := FirstBatch(sources);
    SplitSources(sources, n);
    if |sources| == 0 {
      assert before + Entries(sources) == before;
    } else {
      var head, tail := sources[..n], sources[n..];
      ItemsRoundTrip(tools, head);
      ManifestRoundTrip(tools, tail, before + Entries(head), rest);
      JoinThree(before, Entries(head), Entries(tail));
    }
  }

  function FirstBatch(sources: seq<Source>): (n: nat)
    ensures n <= |sources| && (|sources| > 0 ==> n > 0)
  {
    if MANIFEST_BATCH < |sources| then MANIFEST_BATCH else |sources|
  }

  // The k-th manifest lists the k-th thousand of the files, and the last one what is left.
  lemma {:induction false} ManifestAt(tools: Tools, sources: seq<Source>, k: nat)
    requires k * MANIFEST_BATCH < |sources|
    ensures var last := if (k + 1) * MANIFEST_BATCH < |sources| then (k + 1) * MANIFEST_BATCH else |sources|;
            && k < |ManifestFrames(tools, sources)|
            && ManifestFrames(tools, sources)[k] == ValueFrame(tools, Manifest, List(EntryValues(sources[k * MANIFEST_BATCH..last])))
            && (last == |sources| ==> |ManifestFrames(tools, sources)| == k + 1)
    decreases k
  {
    hide ValueFrame, EntryValues;
    if k > 0 {
      var rest := sources[MANIFEST_BATCH..];
      ManifestAt(tools, rest, k - 1);
      var last := if k * MANIFEST_BATCH < |rest| then k * MANIFEST_BATCH else |rest|;
      SliceBehind(sources, MANIFEST_BATCH, (k - 1) * MANIFEST_BATCH, last);
    } else if |sources| <= MANIFEST_BATCH {
      assert sources[|sources|..] == [];
    }
  }

  lemma SliceBehind<T>(s: seq<T>, n: nat, low: nat, high: nat)
    requires n <= |s| && low <= high <= |s| - n
    ensures s[n..][low..high] == s[n + low..n + high]
  {}

  lemma SplitSources(sources: seq<Source>, n: nat)
    requires n <= |sources|
    ensures SourcesWritable(sources) ==> SourcesWritable(sources[..n]) && SourcesWritable(sources[n..])
    ensures Entries(sources) == Entries(sources[..n]) + Entries(sources[n..])
  {
    hide EntryWritable;
  }

  lemma JoinThree<T>(a: seq<T>, b: seq<T>, c: seq<T>)
    ensures (a + b) + c == a + (b + c)
  {}

  // The first manifest frame is read, and the rest with what it held.
  lemma ManifestStarts(tools: Tools, sources: seq<Source>, before: seq<FileEntry>, rest: seq<Frame>)
    requires |rest| > 0 && !rest[0].kind.Manifest?
    ensures |sources| == 0 ==> ManifestOf(tools, ManifestFrames(tools, sources) + rest, before) == Ok((before, rest))
    ensures |sources| > 0 ==>
      (var n := FirstBatch(sources);
       var items := ManifestItems(tools, ValueFrame(tools, Manifest, List(EntryValues(sources[..n]))));
       items.Ok? && |before + items.value| <= MAX_FILES ==>
         ManifestOf(tools, ManifestFrames(tools, sources) + rest, before)
         == ManifestOf(tools, ManifestFrames(tools, sources[n..]) + rest, before + items.value))
  {
    hide ManifestItems, EntryValues;
    if |sources| == 0 {
      assert ManifestFrames(tools, sources) + rest == rest;
    } else {
      var n := FirstBatch(sources);
      var frame := ValueFrame(tools, Manifest, List(EntryValues(sources[..n])));
      var tail := ManifestFrames(tools, sources[n..]) + rest;
      assert ManifestFrames(tools, sources) + rest == [frame] + tail;
    }
  }

  lemma ItemsRoundTrip(tools: Tools, sources: seq<Source>)
    requires tools.codec.Sound() && SourcesWritable(sources)
    ensures ManifestItems(tools, ValueFrame(tools, Manifest, List(EntryValues(sources)))) == Ok(Entries(sources))
  {
    hide CheckedEntries, EntryWritable;
    EntriesRoundTrip(sources);
  }

  // ----- files

  lemma {:induction false} DataRoundTrip(tools: Tools, index: nat, chunks: seq<seq<Byte>>, before: seq<seq<Byte>>, rest: seq<Frame>)
    requires index <= MAX_FILES
    ensures FileOf(tools, DataFrames(index, chunks) + rest, index, before) == FileOf(tools, rest, index, before + chunks)
    decreases |chunks|
  {
    hide FromBigEndian, BigEndian, FinishedFile;
    if |chunks| == 0 {
      assert DataFrames(index, chunks) + rest == rest && before + chunks == before;
    } else {
      var frame := Frame(FileData, BigEndian(index, INDEX_SIZE) + chunks[0]);
      IndexRoundTrip(index, chunks[0]);
      DataRoundTrip(tools, index, chunks[1..], before + [chunks[0]], rest);
      assert DataFrames(index, chunks) + rest == [frame] + (DataFrames(index, chunks[1..]) + rest);
      assert (before + [chunks[0]]) + chunks[1..] == before + chunks;
    }
  }

  lemma IndexRoundTrip(index: nat, chunk: seq<Byte>)
    requires index <= MAX_FILES
    ensures var frame := Frame(FileData, BigEndian(index, INDEX_SIZE) + chunk);
            IsDataOf(frame, index) && frame.body[INDEX_SIZE..] == chunk
  {
    assert Power256(4) == 0x1_0000_0000;
    FieldRoundTrip(index, 4);
    hide FromBigEndian, BigEndian;
    assert (BigEndian(index, INDEX_SIZE) + chunk)[..INDEX_SIZE] == BigEndian(index, INDEX_SIZE);
  }

  lemma EndRoundTrip(tools: Tools, index: nat, source: Source)
    requires source.skip != Some("")
    ensures FinishedFile(tools, EndValue(tools, index, source), index, source.chunks) == Ok(Content(source.chunks, source.skip))
  {
    hide Flatten;
  }

  lemma FileRoundTrip(tools: Tools, index: nat, source: Source, rest: seq<Frame>)
    requires tools.codec.Sound() && source.skip != Some("") && index <= MAX_FILES
    ensures FileOf(tools, FileFrames(tools, index, source) + rest, index, []) == Ok((Content(source.chunks, source.skip), rest))
  {
    hide EndValue, FinishedFile, DataFrames;
    var end := ValueFrame(tools, FileEnd, EndValue(tools, index, source));
    EndRoundTrip(tools, index, source);
    DataRoundTrip(tools, index, source.chunks, [], [end] + rest);
    assert FileFrames(tools, index, source) + rest == DataFrames(index, source.chunks) + ([end] + rest);
    assert [] + source.chunks == source.chunks;
    assert ([end] + rest)[1..] == rest;
  }

  lemma {:induction false} FilesRoundTrip(tools: Tools, index: nat, sources: seq<Source>, rest: seq<Frame>)
    requires tools.codec.Sound() && SourcesWritable(sources) && index + |sources| <= MAX_FILES
    ensures FilesOf(tools, FilesFrames(tools, index, sources) + rest, index, index + |sources|) == Ok((Contents(sources), rest))
    decreases |sources|
  {
    hide FileOf, FileFrames, EntryWritable;
    if |sources| == 0 {
      assert FilesFrames(tools, index, sources) + rest == rest;
      assert Contents(sources) == [];
    } else {
      var tail := FilesFrames(tools, index + 1, sources[1..]) + rest;
      FileRoundTrip(tools, index, sources[0], tail);
      FilesRoundTrip(tools, index + 1, sources[1..], rest);
      assert FilesFrames(tools, index, sources) + rest == FileFrames(tools, index, sources[0]) + tail;
      assert Contents(sources) == [Content(sources[0].chunks, sources[0].skip)] + Contents(sources[1..]);
    }
  }

  // ----- records

  // Distinct models rank where they stand.
  lemma {:induction false} RankOfModel(models: seq<string>, k: nat)
    requires Distinct(models) && k < |models|
    ensures models[k] in RankOf(Texts(models)) && RankOf(Texts(models))[models[k]] == k
  {
    var n := |models| - 1;
    assert Texts(models)[..n] == Texts(models[..n]);
    if k < n {
      RankOfModel(models[..n], k);
    }
  }

  lemma {:induction false} RecordsAreChecked(records: seq<Value>, model: string, rank: map<string, nat>, current: nat)
    requires RecordsOfModel(records, model) && model in rank && current <= rank[model]
    ensures CheckedRecords(records, rank, current) == Ok(if |records| == 0 then current else rank[model])
  {
    if |records| > 0 {
      assert RecordOf(records[0], model);
      RecordsAreChecked(records[1..], model, rank, rank[model]);
    }
  }

  // One table's batches are read back, and leave the position at or before its model.
  lemma {:induction false} TableRoundTrip(tools: Tools, batches: seq<seq<Value>>, model: string, rank: map<string, nat>, current: nat,
                                          rest: seq<Frame>) returns (next: nat)
    requires tools.codec.Sound() && BatchesOf(batches, model) && model in rank && current <= rank[model]
    ensures current <= next <= rank[model]
    ensures RecordsOf(tools, BatchFrames(tools, batches) + rest, rank, current) == Prepended(batches, RecordsOf(tools, rest, rank, next))
  {
    hide CheckedRecords, ListBytes;
    if |batches| == 0 {
      assert BatchFrames(tools, batches) + rest == rest;
      next := current;
      PrependedNothing(RecordsOf(tools, rest, rank, next));
      assert batches == [];
    } else {
      var frame := Frame(Records, ListBytes(tools.codec.Encoded(batches[0])));
      assert RecordsOfModel(batches[0], model);
      RecordsAreChecked(batches[0], model, rank, current);
      assert tools.codec.parse(frame.body) == Some(List(batches[0]));
      var after := if |batches[0]| == 0 then current else rank[model];
      next := TableRoundTrip(tools, batches[1..], model, rank, after, rest);
      assert BatchFrames(tools, batches) + rest == [frame] + (BatchFrames(tools, batches[1..]) + rest);
      PrependedMore([], batches[0], Prepended(batches[1..], RecordsOf(tools, rest, rank, next)));
      PrependedTwice(batches, RecordsOf(tools, rest, rank, next));
    }
  }

  lemma PrependedTwice<T>(list: seq<T>, result: Result<(seq<T>, seq<Frame>)>)
    requires |list| > 0
    ensures Prepended([list[0]], Prepended(list[1..], result)) == Prepended(list, result)
  {
    if result.Ok? {
      assert [list[0]] + (list[1..] + result.value.0) == list + result.value.0;
    }
  }

  lemma {:induction false} BatchFramesJoin(tools: Tools, left: seq<seq<Value>>, right: seq<seq<Value>>)
    ensures BatchFrames(tools, left + right) == BatchFrames(tools, left) + BatchFrames(tools, right)
  {
    hide ListBytes, Codec.Encoded;
    if |left| == 0 {
      assert left + right == right;
    } else {
      BatchFramesJoin(tools, left[1..], right);
      JoinedTail(left, right);
      FrameFirst(tools, left);
      FrameFirst(tools, left + right);
      hide BatchFrames;
      var first := Frame(Records, ListBytes(tools.codec.Encoded(left[0])));
      assert [first] + (BatchFrames(tools, left[1..]) + BatchFrames(tools, right))
          == ([first] + BatchFrames(tools, left[1..])) + BatchFrames(tools, right);
    }
  }

  lemma FrameFirst(tools: Tools, batches: seq<seq<Value>>)
    requires |batches| > 0
    ensures BatchFrames(tools, batches) == [Frame(Records, ListBytes(tools.codec.Encoded(batches[0])))] + BatchFrames(tools, batches[1..])
  {
    hide ListBytes, Codec.Encoded;
  }

  lemma JoinedTail<T>(left: seq<T>, right: seq<T>)
    requires |left| > 0
    ensures (left + right)[0] == left[0] && (left + right)[1..] == left[1..] + right
  {}

  // All tables from one on, in the order of the header.
  lemma {:induction false} TablesRoundTrip(tools: Tools, all: seq<Table>, k: nat, current: nat, rest: seq<Frame>)
    requires tools.codec.Sound() && TablesWritable(all) && k <= |all| && (k < |all| ==> current <= k)
    requires |rest| > 0 && !rest[0].kind.Records?
    ensures RecordsOf(tools, BatchFrames(tools, AllBatches(all[k..])) + rest, RankOf(Texts(Models(all))), current)
         == Ok((AllBatches(all[k..]), rest))
    decreases |all| - k
  {
    hide *;
    LaterBatches(all, k);
    if k == |all| {
      NoBatches(tools, rest);
      NoMoreRecords(tools, rest, RankOf(Texts(Models(all))), current);
    } else {
      TableFacts(all, k);
      var rank, batches, later := RankOf(Texts(Models(all))), all[k].batches, AllBatches(all[k + 1..]);
      BatchFramesJoin(tools, batches, later);
      var next := TableRoundTrip(tools, batches, all[k].model, rank, current, BatchFrames(tools, later) + rest);
      TablesRoundTrip(tools, all, k + 1, next, rest);
      assert (BatchFrames(tools, batches) + BatchFrames(tools, later)) + rest == BatchFrames(tools, batches) + (BatchFrames(tools, later) + rest);
      PrependedIs(batches, later, rest);
    }
  }

  lemma PrependedIs<T>(list: seq<T>, more: seq<T>, rest: seq<Frame>)
    ensures Prepended(list, Ok((more, rest))) == Ok((list + more, rest))
  {}

  lemma NoBatches(tools: Tools, rest: seq<Frame>)
    ensures BatchFrames(tools, []) + rest == rest
  {}

  lemma NoMoreRecords(tools: Tools, rest: seq<Frame>, rank: map<string, nat>, current: nat)
    requires |rest| > 0 && !rest[0].kind.Records?
    ensures RecordsOf(tools, rest, rank, current) == Ok(([], rest))
  {}

  lemma LaterBatches(all: seq<Table>, k: nat)
    requires k <= |all|
    ensures k == |all| ==> AllBatches(all[k..]) == []
    ensures k < |all| ==> AllBatches(all[k..]) == all[k].batches + AllBatches(all[k + 1..])
  {
    if k < |all| {
      assert all[k..][1..] == all[k + 1..];
    }
  }

  lemma TableFacts(all: seq<Table>, k: nat)
    requires TablesWritable(all) && k < |all|
    ensures BatchesOf(all[k].batches, all[k].model)
    ensures var rank := RankOf(Texts(Models(all))); all[k].model in rank && rank[all[k].model] == k
  {
    RankOfModel(Models(all), k);
    hide BatchesOf, RankOf, Distinct;
  }

  // ----- the whole payload

  lemma FirstOfFiles(tools: Tools, index: nat, sources: seq<Source>, rest: seq<Frame>)
    requires |rest| > 0 && !rest[0].kind.Manifest?
    ensures var frames := FilesFrames(tools, index, sources) + rest; |frames| > 0 && !frames[0].kind.Manifest?
  {
    hide EndValue;
  }

  lemma FirstOfBatches(tools: Tools, batches: seq<seq<Value>>, last: Frame)
    requires last.kind.Trailer?
    ensures var frames := BatchFrames(tools, batches) + [last]; |frames| > 0 && !frames[0].kind.Manifest?
  {}

  // Reading the frames of a draft gives the draft back.
  lemma DraftRoundTrip(tools: Tools, d: Draft)
    requires tools.codec.Sound() && Writable(d)
    ensures PayloadOf(tools, Stream(DraftFrames(tools, d), false)) == Ok(PayloadOfDraft(d))
  {
    hide *;
    var last := ValueFrame(tools, Trailer, TrailerValue(d));
    var records := BatchFrames(tools, AllBatches(d.tables)) + [last];
    var files := FilesFrames(tools, 0, d.sources) + records;
    WritableMeans(d);
    TrailerKind(tools, d);
    FirstOfBatches(tools, AllBatches(d.tables), last);
    FirstOfFiles(tools, 0, d.sources, records);
    ManifestRoundTrip(tools, d.sources, [], files);
    FilesRoundTrip(tools, 0, d.sources, records);
    TablesRoundTrip(tools, d.tables, 0, 0, [last]);
    assert d.tables[0..] == d.tables;
    assert [] + Entries(d.sources) == Entries(d.sources);
    HeaderReads(tools, d);
    TrailerReads(tools, d);
    HeaderIsOk(d);
    OrderOfHeader(d);
    PayloadUnfolds(tools, Stream(DraftFrames(tools, d), false));
    FramesOfDraft(tools, d, files);
    PhasesInTurn(tools, Stream(DraftFrames(tools, d), false), HeaderValue(d), Entries(d.sources), files, Contents(d.sources), records,
                 AllBatches(d.tables), last, TrailerValue(d));
    DraftPayload(d);
  }

  lemma WritableMeans(d: Draft)
    requires Writable(d)
    ensures SourcesWritable(d.sources) && TablesWritable(d.tables) && |d.sources| <= MAX_FILES
  {}

  lemma TrailerKind(tools: Tools, d: Draft)
    ensures ValueFrame(tools, Trailer, TrailerValue(d)).kind == Trailer
  {}

  lemma FramesOfDraft(tools: Tools, d: Draft, files: seq<Frame>)
    requires files == FilesFrames(tools, 0, d.sources) + (BatchFrames(tools, AllBatches(d.tables)) + [ValueFrame(tools, Trailer, TrailerValue(d))])
    ensures |DraftFrames(tools, d)| > 0 && DraftFrames(tools, d)[1..] == ManifestFrames(tools, d.sources) + files
  {
    hide HeaderValue, TrailerValue, ManifestFrames, FilesFrames, BatchFrames, AllBatches;
  }

  lemma DraftPayload(d: Draft)
    ensures PayloadOfDraft(d) == Payload(HeaderValue(d), Entries(d.sources), Contents(d.sources), AllBatches(d.tables), TrailerValue(d))
    ensures |Entries(d.sources)| == |d.sources|
  {
    hide HeaderValue, TrailerValue, AllBatches;
  }

  // The phases of a payload whose parts are read in turn.
  lemma PhasesInTurn(tools: Tools, stream: Stream, header: Value, entries: seq<FileEntry>, behindManifest: seq<Frame>, files: seq<Content>,
                     behindFiles: seq<Frame>, batches: seq<seq<Value>>, last: Frame, trailer: Value)
    requires |stream.frames| > 0 && HeaderOk(header) && !stream.torn
    requires ManifestOf(tools, stream.frames[1..], []) == Ok((entries, behindManifest))
    requires FilesOf(tools, behindManifest, 0, |entries|) == Ok((files, behindFiles))
    requires Get(header, "order").List? && AllTexts(Get(header, "order").items)
    requires RecordsOf(tools, behindFiles, RankOf(Get(header, "order").items), 0) == Ok((batches, [last]))
    requires TrailerOf(tools, [last]) == Ok(trailer)
    ensures AfterHeader(tools, stream, header) == Ok(Payload(header, entries, files, batches, trailer))
  {
    hide HeaderOk, ManifestOf, FilesOf, RecordsOf, TrailerOf, RankOf, Get;
  }

  lemma OrderOfHeader(d: Draft)
    ensures Get(HeaderValue(d), "order") == List(Texts(Models(d.tables)))
  {}

  lemma HeaderReads(tools: Tools, d: Draft)
    requires tools.codec.Sound()
    ensures HeaderOf(tools, DraftFrames(tools, d)) == Ok(HeaderValue(d))
  {
    HeaderIsOk(d);
    hide HeaderValue, HeaderOk, Body;
  }

  lemma TrailerReads(tools: Tools, d: Draft)
    requires tools.codec.Sound()
    ensures TrailerOf(tools, [ValueFrame(tools, Trailer, TrailerValue(d))]) == Ok(TrailerValue(d))
  {
    TrailerIsOk(d);
    hide TrailerValue, TrailerOk;
  }

  lemma BehindMagic(tools: Tools, bytes: seq<Byte>, body: seq<Byte>)
    requires bytes == PayloadMagic() + body
    ensures PayloadIn(tools, bytes) == PayloadOf(tools, Split(body))
  {
    hide PayloadOf, Split, PayloadMagic;
    assert bytes[..8] == PayloadMagic() && bytes[8..] == body;
  }

  // For every cutting of the emitted bytes, what is read is what was written.
  lemma PayloadRoundTrip(tools: Tools, d: Draft, pieces: seq<seq<Byte>>)
    requires tools.codec.Sound() && Writable(d) && AllFit(DraftFrames(tools, d))
    requires Flatten(pieces) == PayloadMagic() + Joined(DraftFrames(tools, d))
    ensures PayloadIn(tools, Flatten(pieces)) == Ok(PayloadOfDraft(d))
  {
    hide *;
    DraftRoundTrip(tools, d);
    SplitOfJoined(DraftFrames(tools, d));
    BehindMagic(tools, Flatten(pieces), Joined(DraftFrames(tools, d)));
  }

  // ----- the counts of the trailer

  lemma {:induction false} TallyOfModel(records: seq<Value>, model: string, counts: map<string, nat>)
    requires RecordsOfModel(records, model)
    ensures forall i :: 0 <= i < |records| ==> Get(records[i], "model").Text?
    ensures Tally(records, counts)
         == if |records| == 0 then counts else counts[model := |records| + if model in counts then counts[model] else 0]
  {
    if |records| > 0 {
      assert RecordOf(records[0], model);
      var more := counts[model := 1 + if model in counts then counts[model] else 0];
      TallyOfModel(records[1..], model, more);
    }
  }

  lemma ModelsAreNamed(batches: seq<seq<Value>>, model: string)
    requires BatchesOf(batches, model)
    ensures RecordsHaveModels(batches)
  {
    forall b | 0 <= b < |batches| ensures forall i :: 0 <= i < |batches[b]| ==> Get(batches[b][i], "model").Text? {
      assert RecordsOfModel(batches[b], model);
      TallyOfModel(batches[b], model, map[]);
    }
  }

  lemma FlattenNothing<T>()
    ensures Flatten<T>([]) == []
  {}

  lemma {:induction false} TallyOfTable(batches: seq<seq<Value>>, model: string, counts: map<string, nat>)
    requires BatchesOf(batches, model)
    ensures RecordsHaveModels(batches)
    ensures var total := |Flatten(batches)|;
            TallyBatches(batches, counts) == if total == 0 then counts else counts[model := total + if model in counts then counts[model] else 0]
  {
    hide Tally, Flatten, RecordsOfModel;
    ModelsAreNamed(batches, model);
    FlattenNothing<Value>();
    if |batches| > 0 {
      assert RecordsOfModel(batches[0], model);
      var after := Tally(batches[0], counts);
      TallyOfModel(batches[0], model, counts);
      TallyOfTable(batches[1..], model, after);
      FlattenHead(batches[0], batches[1..]);
      assert batches == [batches[0]] + batches[1..];
    }
  }

  lemma {:induction false} TallyInTurn(left: seq<seq<Value>>, right: seq<seq<Value>>, counts: map<string, nat>)
    requires RecordsHaveModels(left) && RecordsHaveModels(right)
    ensures RecordsHaveModels(left + right)
    ensures TallyBatches(left + right, counts) == TallyBatches(right, TallyBatches(left, counts))
  {
    hide Tally;
    if |left| == 0 {
      assert left + right == right;
    } else {
      TallyInTurn(left[1..], right, Tally(left[0], counts));
      JoinedTail(left, right);
    }
  }

  lemma {:induction false} NamedTables(tables: seq<Table>)
    requires forall k :: 0 <= k < |tables| ==> BatchesOf(tables[k].batches, tables[k].model)
    ensures RecordsHaveModels(AllBatches(tables))
  {
    if |tables| > 0 {
      ModelsAreNamed(tables[0].batches, tables[0].model);
      NamedTables(tables[1..]);
    }
  }

  lemma CountsAreOk(tables: seq<Table>)
    ensures forall i :: 0 <= i < |tables| ==> ModelCountOk(ModelCounts(tables)[i])
  {
    forall i | 0 <= i < |tables| ensures ModelCountOk(ModelCounts(tables)[i]) {
      assert ModelCounts(tables)[i] == ModelCount(tables[i]);
    }
  }

  // What the trailer records for the first tables.
  function RecordedUpTo(tables: seq<Table>, k: nat): (counts: map<string, nat>)
    requires k <= |tables|
    ensures forall model :: model in counts ==> exists i :: 0 <= i < k && tables[i].model == model
  {
    if k == 0 then map[]
    else
      var n := |Flatten(tables[k - 1].batches)|;
      if n == 0 then RecordedUpTo(tables, k - 1) else RecordedUpTo(tables, k - 1)[tables[k - 1].model := n]
  }

  lemma {:induction false} RecordedIs(tables: seq<Table>, k: nat)
    requires k <= |tables|
    ensures forall i :: 0 <= i < k ==> ModelCountOk(ModelCounts(tables)[..k][i])
    ensures Recorded(ModelCounts(tables)[..k]) == RecordedUpTo(tables, k)
  {
    CountsAreOk(tables);
    if k > 0 {
      RecordedIs(tables, k - 1);
      assert ModelCounts(tables)[..k][..k - 1] == ModelCounts(tables)[..k - 1];
      assert ModelCounts(tables)[k - 1] == ModelCount(tables[k - 1]);
    }
  }

  lemma {:induction false} TallyOfTables(tables: seq<Table>, k: nat)
    requires TablesWritable(tables) && k <= |tables|
    ensures RecordsHaveModels(AllBatches(tables[k..]))
    ensures TallyBatches(AllBatches(tables[k..]), RecordedUpTo(tables, k)) == RecordedUpTo(tables, |tables|)
    decreases |tables| - k
  {
    hide BatchesOf, RecordsHaveModels, Flatten;
    NamedTables(tables[k..]);
    LaterBatches(tables, k);
    if k < |tables| {
      var table := tables[k];
      var counts := RecordedUpTo(tables, k);
      TallyOfTables(tables, k + 1);
      TallyOfTable(table.batches, table.model, counts);
      NamedTables(tables[k + 1..]);
      TallyInTurn(table.batches, AllBatches(tables[k + 1..]), counts);
      assert forall i :: 0 <= i < k ==> Models(tables)[i] != Models(tables)[k];
      hide TallyBatches, AllBatches;
    }
  }

  lemma {:induction false} FilesAreCounted(sources: seq<Source>)
    ensures FilesRead(Contents(sources)) == FilesWritten(sources)
  {
    if |sources| > 0 {
      var n := |sources| - 1;
      FilesAreCounted(sources[..n]);
      assert Contents(sources)[..n] == Contents(sources[..n]);
    }
  }

  // The statistics of the trailer are those that a reader counts.
  lemma DraftCountsAgree(d: Draft)
    requires Writable(d)
    ensures CountsAgree(PayloadOfDraft(d))
  {
    TrailerIsOk(d);
    TallyOfTables(d.tables, 0);
    RecordedIs(d.tables, |d.tables|);
    FilesAreCounted(d.sources);
    hide TallyBatches, AllBatches, RecordedUpTo, Recorded, TrailerOk, RecordsHaveModels, Flatten, FilesRead, FilesWritten, SkippedTexts, HeaderValue, Writable;
    assert d.tables[0..] == d.tables;
    assert ModelCounts(d.tables)[..|d.tables|] == ModelCounts(d.tables);
  }

  // ----- what a reader is told, said of the draft itself

  function SkippedBefore(sources: seq<Source>, n: nat): set<int>
    requires n <= |sources|
  {
    set i | 0 <= i < n && sources[i].skip.Some?
  }

  // The header names the time, the versions, the migrations and the models in order.
  predicate HeaderTells(header: Value, d: Draft) {
    && Get(header, "version") == Number(PAYLOAD_VERSION) && Get(header, "created") == Text(d.created)
    && Get(header, "django_version") == Text(d.djangoVersion)
    && Get(header, "migrations").Object? && Get(header, "migrations").fields.Keys == d.migrations.Keys
    && (forall app :: app in d.migrations ==> Get(Get(header, "migrations"), app) == Text(d.migrations[app]))
    && Get(header, "order").List? && |Get(header, "order").items| == |d.tables|
    && (forall k :: 0 <= k < |d.tables| ==> Get(header, "order").items[k] == Text(d.tables[k].model))
  }

  predicate FilesTell(p: Payload, sources: seq<Source>) {
    && |p.entries| == |p.files| == |sources|
    && forall i :: 0 <= i < |sources| ==>
         p.entries[i] == sources[i].entry && p.files[i].chunks == sources[i].chunks && p.files[i].skipped == sources[i].skip
  }

  // What was missing from the start, then each file whose reading stopped, in order and with the reason.
  predicate SkippedTold(listed: seq<Value>, d: Draft) {
    && |listed| == |d.unlisted| + |SkippedBefore(d.sources, |d.sources|)|
    && (forall k :: 0 <= k < |d.unlisted| ==> listed[k] == Text(d.unlisted[k]))
    && (forall i :: 0 <= i < |d.sources| && d.sources[i].skip.Some? ==>
          var place := |d.unlisted| + |SkippedBefore(d.sources, i)|;
          place < |listed| && listed[place] == Text(d.sources[i].described + " (" + d.sources[i].skip.value + ")"))
  }

  ghost predicate DraftTold(p: Payload, d: Draft) {
    && HeaderTells(p.header, d) && FilesTell(p, d.sources) && p.batches == AllBatches(d.tables)
    && var listed := Get(Get(p.trailer, "stats"), "skipped_files"); listed.List? && SkippedTold(listed.items, d)
  }

  lemma SkippedNext(sources: seq<Source>, n: nat)
    requires n < |sources|
    ensures n !in SkippedBefore(sources, n)
    ensures SkippedBefore(sources, n + 1) == SkippedBefore(sources, n) + if sources[n].skip.Some? then {n} else {}
    ensures SkippedBefore(sources[..n], n) == SkippedBefore(sources, n)
  {}

  lemma {:induction false} SkippedInOrder(sources: seq<Source>, n: nat, i: nat)
    requires n <= |sources|
    ensures |SkippedTexts(sources[..n])| == |SkippedBefore(sources, n)|
    ensures i < n && sources[i].skip.Some? ==>
      && |SkippedBefore(sources, i)| < |SkippedTexts(sources[..n])|
      && SkippedTexts(sources[..n])[|SkippedBefore(sources, i)|] == sources[i].described + " (" + sources[i].skip.value + ")"
  {
    hide SkippedBefore;
    if n == 0 {
      NoneBefore(sources);
    } else {
      SkippedNext(sources, n - 1);
      SkippedInOrder(sources, n - 1, i);
      assert sources[..n][..n - 1] == sources[..n - 1];
    }
  }

  lemma NoneBefore(sources: seq<Source>)
    ensures SkippedBefore(sources, 0) == {}
  {}

  lemma SkippedAreTold(d: Draft)
    ensures SkippedTold(Texts(d.unlisted + SkippedTexts(d.sources)), d)
  {
    hide SkippedBefore, SkippedTexts;
    assert d.sources[..|d.sources|] == d.sources;
    SkippedInOrder(d.sources, |d.sources|, 0);
    forall i: nat | i < |d.sources| && d.sources[i].skip.Some?
      ensures |SkippedBefore(d.sources, i)| < |SkippedTexts(d.sources)|
      ensures SkippedTexts(d.sources)[|SkippedBefore(d.sources, i)|] == d.sources[i].described + " (" + d.sources[i].skip.value + ")"
    {
      SkippedInOrder(d.sources, |d.sources|, i);
    }
  }

  lemma HeaderIsTold(d: Draft)
    ensures HeaderTells(HeaderValue(d), d)
  {}

  lemma DraftIsTold(d: Draft)
    ensures DraftTold(PayloadOfDraft(d), d)
  {
    HeaderIsTold(d);
    SkippedAreTold(d);
    hide HeaderValue, HeaderTells, SkippedTold, SkippedTexts, AllBatches, FilesWritten, Flatten;
  }
}
