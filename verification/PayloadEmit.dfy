// _produce, _emit_files and _emit_records of dbs/engine/backup.py as they run: emission frame by
// frame, with the digests, counts and skipped files kept along the way.
module PayloadEmitting {
  import opened Wrappers
  import opened Sequences
  import opened Bytes
  import opened Json
  import opened Frames
  import opened Payload
  import opened PayloadReading
  import opened PayloadWriting
  import Batching

  lemma {:induction false} JoinedConcat(left: seq<Frame>, right: seq<Frame>)
    ensures Joined(left + right) == Joined(left) + Joined(right)
  {
    hide FrameBytes;
    if |left| == 0 {
      assert left + right == right;
    } else {
      JoinedConcat(left[1..], right);
      JoinedTail(left, right);
      assert FrameBytes(left[0]) + (Joined(left[1..]) + Joined(right)) == (FrameBytes(left[0]) + Joined(left[1..])) + Joined(right);
    }
  }

  // The emitted pieces have grown by exactly these frames.
  ghost predicate Grown(before: seq<seq<Byte>>, after: seq<seq<Byte>>, frames: seq<Frame>) {
    Flatten(after) == Flatten(before) + Joined(frames) && AllFit(frames)
  }

  lemma GrownNothing(before: seq<seq<Byte>>)
    ensures Grown(before, before, [])
  {
    assert Flatten(before) + [] == Flatten(before);
  }

  lemma GrownMore(before: seq<seq<Byte>>, middle: seq<seq<Byte>>, after: seq<seq<Byte>>, left: seq<Frame>, right: seq<Frame>)
    requires Grown(before, middle, left) && Grown(middle, after, right)
    ensures Grown(before, after, left + right)
  {
    JoinedConcat(left, right);
    hide Flatten, Joined;
    assert (Flatten(before) + Joined(left)) + Joined(right) == Flatten(before) + (Joined(left) + Joined(right));
  }

  lemma TooLong(left: seq<Frame>, frame: Frame, right: seq<Frame>)
    requires !Fits(frame)
    ensures !AllFit(left + [frame] + right)
  {
    assert (left + [frame] + right)[|left|] == frame;
  }

  lemma PartTooLong(left: seq<Frame>, middle: seq<Frame>, right: seq<Frame>)
    requires !AllFit(middle)
    ensures !AllFit(left + middle + right)
  {
    var i :| 0 <= i < |middle| && !Fits(middle[i]);
    assert (left + middle + right)[|left| + i] == middle[i];
  }

  // emit(frame(...)); false where frame raises.
  method Emit(output: seq<seq<Byte>>, frame: Frame) returns (grown: seq<seq<Byte>>, fits: bool)
    ensures fits <==> Fits(frame)
    ensures fits ==> Grown(output, grown, [frame])
  {
    grown, fits := output, Fits(frame);
    if fits {
      FlattenAppend(output, FrameBytes(frame));
      grown := output + [FrameBytes(frame)];
      assert Joined([frame]) == FrameBytes(frame) + Joined([]);
      assert FrameBytes(frame) + [] == FrameBytes(frame);
    }
  }

  method EmitManifests(tools: Tools, output: seq<seq<Byte>>, sources: seq<Source>) returns (grown: seq<seq<Byte>>, fits: bool)
    ensures fits <==> AllFit(ManifestFrames(tools, sources))
    ensures fits ==> Grown(output, grown, ManifestFrames(tools, sources))
  {
    hide ValueFrame, Grown, AllFit, EntryValues;
    grown := output;
    var start := 0;
    ghost var done: seq<Frame> := [];
    GrownNothing(output);
    while start < |sources|
      invariant start <= |sources| && Grown(output, grown, done) && ManifestFrames(tools, sources) == done + ManifestFrames(tools, sources[start..])
    {
      var batch := sources[start..if start + MANIFEST_BATCH < |sources| then start + MANIFEST_BATCH else |sources|];
      var frame := ValueFrame(tools, Manifest, List(EntryValues(batch)));
      ghost var left := sources[start..];
      assert batch == left[..|batch|] && left[|batch|..] == sources[start + |batch|..];
      assert ManifestFrames(tools, left) == [frame] + ManifestFrames(tools, left[|batch|..]);
      ghost var rest := ManifestFrames(tools, left[|batch|..]);
      assert done + ([frame] + rest) == (done + [frame]) + rest;
      ghost var before := grown;
      grown, fits := Emit(grown, frame);
      if !fits {
        TooLong(done, frame, rest);
        return;
      }
      GrownMore(output, before, grown, done, [frame]);
      done, start := done + [frame], start + |batch|;
    }
    assert done + [] == done;
    GrownFits(output, grown, done);
    fits := true;
  }

  lemma GrownFits(before: seq<seq<Byte>>, after: seq<seq<Byte>>, frames: seq<Frame>)
    requires Grown(before, after, frames)
    ensures AllFit(frames)
  {}

  // One file: its data frames while it can be read, then its end.  The digest and the size are kept
  // chunk by chunk.
  method EmitFile(tools: Tools, output: seq<seq<Byte>>, index: nat, source: Source) returns (grown: seq<seq<Byte>>, fits: bool)
    ensures fits <==> AllFit(FileFrames(tools, index, source))
    ensures fits ==> Grown(output, grown, FileFrames(tools, index, source))
  {
    hide ValueFrame, Grown, AllFit, Flatten, BigEndian;
    var hashed: seq<Byte>, size := [], 0;
    grown := output;
    ghost var done: seq<Frame> := [];
    GrownNothing(output);
    assert Flatten(source.chunks[..0]) == [] by { assert source.chunks[..0] == []; EmptyFlattens(); }
    ghost var all := DataFrames(index, source.chunks);
    for i := 0 to |source.chunks|
      invariant hashed == Flatten(source.chunks[..i]) && size == |hashed|
      invariant Grown(output, grown, done) && all == done + DataFrames(index, source.chunks[i..])
    {
      var chunk := source.chunks[i];
      FlattenFront(source.chunks, i);
      hashed, size := hashed + chunk, size + |chunk|;
      var frame := Frame(FileData, BigEndian(index, INDEX_SIZE) + chunk);
      assert source.chunks[i..][1..] == source.chunks[i + 1..];
      ghost var rest := DataFrames(index, source.chunks[i + 1..]);
      assert done + ([frame] + rest) == (done + [frame]) + rest;
      ghost var before := grown;
      grown, fits := Emit(grown, frame);
      if !fits {
        ghost var end := [ValueFrame(tools, FileEnd, EndValue(tools, index, source))];
        TooLong(done, frame, rest + end);
        assert (done + [frame] + rest) + end == done + [frame] + (rest + end);
        return;
      }
      GrownMore(output, before, grown, done, [frame]);
      done := done + [frame];
    }
    WholePrefix(source.chunks);
    assert done + [] == done;
    var frame := ValueFrame(tools, FileEnd, EndOfFile(index, source.skip, size, tools.sha256(hashed)));
    ghost var before := grown;
    grown, fits := Emit(grown, frame);
    if !fits {
      TooLong(done, frame, []);
      assert done + [frame] + [] == done + [frame];
    } else {
      GrownMore(output, before, grown, done, [frame]);
      GrownFits(output, grown, done + [frame]);
    }
  }

  lemma EmptyFlattens()
    ensures Flatten<Byte>([]) == []
  {}

  predicate NoneSkipped(sources: seq<Source>) {
    forall i :: 0 <= i < |sources| ==> sources[i].skip.None?
  }

  // _emit_files: what it counts and what it skips, or a stop at the first file that may not be
  // skipped or does not fit.
  method EmitFiles(tools: Tools, output: seq<seq<Byte>>, sources: seq<Source>, unlisted: seq<string>, allowMissing: bool)
    returns (grown: seq<seq<Byte>>, skipped: seq<string>, written: nat, complete: bool)
    ensures complete <==> AllFit(FilesFrames(tools, 0, sources)) && (allowMissing || NoneSkipped(sources))
    ensures complete ==> Grown(output, grown, FilesFrames(tools, 0, sources))
    ensures complete ==> skipped == unlisted + SkippedTexts(sources) && written == FilesWritten(sources)
  {
    hide Grown, AllFit, FileFrames;
    grown, skipped, written := output, unlisted, 0;
    ghost var done: seq<Frame> := [];
    GrownNothing(output);
    ghost var all := FilesFrames(tools, 0, sources);
    assert sources[0..] == sources && unlisted + [] == unlisted;
    for index := 0 to |sources|
      invariant Grown(output, grown, done) && all == done + FilesFrames(tools, index, sources[index..])
      invariant skipped == unlisted + SkippedTexts(sources[..index]) && written == FilesWritten(sources[..index])
      invariant allowMissing || NoneSkipped(sources[..index])
    {
      var source := sources[index];
      assert sources[index..][1..] == sources[index + 1..] && sources[..index + 1][..index] == sources[..index];
      ghost var file, rest := FileFrames(tools, index, source), FilesFrames(tools, index + 1, sources[index + 1..]);
      assert done + (file + rest) == (done + file) + rest;
      ghost var before := grown;
      var fits;
      grown, fits := EmitFile(tools, grown, index, source);
      if !fits {
        PartTooLong(done, file, rest);
        return grown, skipped, written, false;
      }
      GrownMore(output, before, grown, done, file);
      done := done + file;
      if source.skip.Some? {
        skipped := skipped + [source.described + " (" + source.skip.value + ")"];
        if !allowMissing {
          return grown, skipped, written, false;
        }
      } else {
        written := written + 1;
      }
    }
    assert sources[..|sources|] == sources && done + [] == done;
    GrownFits(output, grown, done);
    complete := true;
  }

  // What serialize_batches yields for some records: their number, and pieces that join to their list.
  ghost predicate Serialized(tools: Tools, records: seq<Value>, batch: Batching.Batch) {
    batch.rows == |records| && Flatten(batch.pieces) == ListBytes(tools.codec.Encoded(records))
  }

  ghost predicate AllSerialized(tools: Tools, batches: seq<seq<Value>>, serialized: seq<Batching.Batch>) {
    |serialized| == |batches| && forall b :: 0 <= b < |batches| ==> Serialized(tools, batches[b], serialized[b])
  }

  ghost predicate TablesSerialized(tools: Tools, tables: seq<Table>, serialized: seq<seq<Batching.Batch>>) {
    |serialized| == |tables| && forall k :: 0 <= k < |tables| ==> AllSerialized(tools, tables[k].batches, serialized[k])
  }

  // for piece in frame_parts(kind, pieces): emit(piece)
  method EmitParts(output: seq<seq<Byte>>, kind: Kind, pieces: seq<seq<Byte>>) returns (grown: seq<seq<Byte>>, fits: bool)
    ensures fits <==> Fits(Frame(kind, Flatten(pieces)))
    ensures fits ==> Grown(output, grown, [Frame(kind, Flatten(pieces))])
  {
    var parts := FrameParts(kind, pieces);
    grown, fits := output, parts.Some?;
    if fits {
      grown := output + parts.value;
      FlattenConcat(output, parts.value);
      OneJoined(Frame(kind, Flatten(pieces)));
      hide Flatten, Joined, FrameBytes;
    }
  }

  lemma OneJoined(frame: Frame)
    ensures Joined([frame]) == FrameBytes(frame)
  {
    assert Joined([frame]) == FrameBytes(frame) + Joined([]);
    assert FrameBytes(frame) + [] == FrameBytes(frame);
  }

  // _emit_records: every batch of every model, and the counts.
  method EmitRecords(tools: Tools, output: seq<seq<Byte>>, tables: seq<Table>, serialized: seq<seq<Batching.Batch>>)
    returns (grown: seq<seq<Byte>>, models: seq<Value>, total: nat, fits: bool)
    requires TablesSerialized(tools, tables, serialized)
    ensures fits <==> AllFit(BatchFrames(tools, AllBatches(tables)))
    ensures fits ==> Grown(output, grown, BatchFrames(tools, AllBatches(tables)))
    ensures fits ==> models == ModelCounts(tables) && total == |Flatten(AllBatches(tables))|
  {
    hide Grown, AllFit, BatchFrames, Flatten, ModelCount, AllSerialized;
    grown, models, total := output, [], 0;
    ghost var done: seq<Frame>, read: seq<seq<Value>> := [], [];
    GrownNothing(output);
    NoFrames(tools);
    assert tables[0..] == tables && [] + AllBatches(tables) == AllBatches(tables);
    for k := 0 to |tables|
      invariant Grown(output, grown, done) && done == BatchFrames(tools, read) && AllBatches(tables) == read + AllBatches(tables[k..])
      invariant models == ModelCounts(tables)[..k] && total == |Flatten(read)|
    {
      var table := tables[k];
      LaterBatches(tables, k);
      ghost var batches, later := table.batches, AllBatches(tables[k + 1..]);
      assert read + (batches + later) == (read + batches) + later;
      BatchFramesJoin(tools, read, batches);
      BatchFramesJoin(tools, read + batches, later);
      FlattenConcat(read, batches);
      ghost var before := grown;
      var count;
      grown, count, fits := EmitBatches(tools, grown, table.batches, serialized[k]);
      if !fits {
        PartTooLong(done, BatchFrames(tools, batches), BatchFrames(tools, later));
        return;
      }
      GrownMore(output, before, grown, done, BatchFrames(tools, batches));
      ModelCountIs(table);
      models, total := models + [Object(map["model" := Text(table.model), "count" := Number(count)])], total + count;
      done, read := done + BatchFrames(tools, batches), read + batches;
    }
    LaterBatches(tables, |tables|);
    assert read + [] == read;
    GrownFits(output, grown, done);
    fits := true;
  }

  lemma NoFrames(tools: Tools)
    ensures BatchFrames(tools, []) == [] && |Flatten<Value>([])| == 0
  {}

  lemma ModelCountIs(table: Table)
    ensures ModelCount(table) == Object(map["model" := Text(table.model), "count" := Number(|Flatten(table.batches)|)])
  {}

  // The batches of one model.
  method EmitBatches(tools: Tools, output: seq<seq<Byte>>, ghost batches: seq<seq<Value>>, serialized: seq<Batching.Batch>)
    returns (grown: seq<seq<Byte>>, count: nat, fits: bool)
    requires AllSerialized(tools, batches, serialized)
    ensures fits <==> AllFit(BatchFrames(tools, batches))
    ensures fits ==> Grown(output, grown, BatchFrames(tools, batches)) && count == |Flatten(batches)|
  {
    hide Grown, AllFit, ListBytes, Flatten;
    grown, count := output, 0;
    ghost var done: seq<Frame> := [];
    GrownNothing(output);
    NoFrames(tools);
    assert batches[0..] == batches && batches[..0] == [];
    for b := 0 to |serialized|
      invariant Grown(output, grown, done) && BatchFrames(tools, batches) == done + BatchFrames(tools, batches[b..])
      invariant count == |Flatten(batches[..b])|
    {
      FlattenFront(batches, b);
      ghost var frame := Frame(Records, ListBytes(tools.codec.Encoded(batches[b])));
      assert Serialized(tools, batches[b], serialized[b]);
      assert batches[b..][1..] == batches[b + 1..];
      ghost var rest := BatchFrames(tools, batches[b + 1..]);
      assert done + ([frame] + rest) == (done + [frame]) + rest;
      ghost var before := grown;
      grown, fits := EmitParts(grown, Records, serialized[b].pieces);
      if !fits {
        TooLong(done, frame, rest);
        return;
      }
      GrownMore(output, before, grown, done, [frame]);
      done, count := done + [frame], count + serialized[b].rows;
    }
    WholePrefix(batches);
    assert done + [] == done;
    GrownFits(output, grown, done);
    fits := true;
  }

  // _produce; None where the source raises.
  method Produce(tools: Tools, d: Draft, serialized: seq<seq<Batching.Batch>>, allowMissing: bool) returns (output: Option<seq<seq<Byte>>>)
    requires TablesSerialized(tools, d.tables, serialized)
    ensures output.Some? <==>
      && AllFit(DraftFrames(tools, d)) && |d.sources| <= MAX_FILES && (allowMissing || (d.unlisted == [] && NoneSkipped(d.sources)))
    ensures output.Some? ==> Flatten(output.value) == PayloadMagic() + Joined(DraftFrames(tools, d))
  {
    hide *;
    ghost var header := ValueFrame(tools, Header, HeaderValue(d));
    ghost var manifests, files := ManifestFrames(tools, d.sources), FilesFrames(tools, 0, d.sources);
    ghost var batches, last := BatchFrames(tools, AllBatches(d.tables)), ValueFrame(tools, Trailer, TrailerValue(d));
    DraftParts(tools, d, header, manifests, files, batches, last);
    var start := [PayloadMagic()];
    FlattenOne(PayloadMagic());
    var emitted, fits := Emit(start, ValueFrame(tools, Header, HeaderValue(d)));
    if !fits {
      return None;
    }
    if d.unlisted != [] && !allowMissing {
      return None;
    }
    if |d.sources| > MAX_FILES {
      return None;
    }
    ghost var first := emitted;
    emitted, fits := EmitManifests(tools, emitted, d.sources);
    if !fits {
      return None;
    }
    GrownMore(start, first, emitted, [header], manifests);
    ghost var second := emitted;
    var skipped, written, complete;
    emitted, skipped, written, complete := EmitFiles(tools, emitted, d.sources, d.unlisted, allowMissing);
    if !complete {
      return None;
    }
    GrownMore(start, second, emitted, [header] + manifests, files);
    ghost var third := emitted;
    var models, total;
    emitted, models, total, fits := EmitRecords(tools, emitted, d.tables, serialized);
    if !fits {
      return None;
    }
    GrownMore(start, third, emitted, [header] + manifests + files, batches);
    ghost var fourth := emitted;
    TrailerValueIs(d);
    var trailer := Object(map["stats" := Object(map["models" := List(models), "records" := Number(total), "files" := Number(written),
                                                    "skipped_files" := List(Texts(skipped))])]);
    emitted, fits := Emit(emitted, ValueFrame(tools, Trailer, trailer));
    if !fits {
      return None;
    }
    GrownMore(start, fourth, emitted, [header] + manifests + files + batches, [last]);
    GrownMeans(start, emitted, DraftFrames(tools, d));
    output := Some(emitted);
  }

  lemma GrownMeans(before: seq<seq<Byte>>, after: seq<seq<Byte>>, frames: seq<Frame>)
    requires Grown(before, after, frames)
    ensures Flatten(after) == Flatten(before) + Joined(frames) && AllFit(frames)
  {}

  lemma TrailerValueIs(d: Draft)
    ensures TrailerValue(d) == Object(map["stats" := Object(map["models" := List(ModelCounts(d.tables)),
                                                                "records" := Number(|Flatten(AllBatches(d.tables))|),
                                                                "files" := Number(FilesWritten(d.sources)),
                                                                "skipped_files" := List(Texts(d.unlisted + SkippedTexts(d.sources)))])])
  {}

  // The frames of a draft in their five parts, all of which have to fit.
  lemma DraftParts(tools: Tools, d: Draft, header: Frame, manifests: seq<Frame>, files: seq<Frame>, batches: seq<Frame>, last: Frame)
    requires header == ValueFrame(tools, Header, HeaderValue(d)) && manifests == ManifestFrames(tools, d.sources)
    requires files == FilesFrames(tools, 0, d.sources) && batches == BatchFrames(tools, AllBatches(d.tables))
    requires last == ValueFrame(tools, Trailer, TrailerValue(d))
    ensures DraftFrames(tools, d) == [header] + manifests + files + batches + [last]
    ensures AllFit(DraftFrames(tools, d)) ==> Fits(header) && AllFit(manifests) && AllFit(files) && AllFit(batches) && Fits(last)
  {
    hide ValueFrame, HeaderValue, TrailerValue, ManifestFrames, FilesFrames, BatchFrames, AllBatches, AllFit;
    var frames := DraftFrames(tools, d);
    assert frames == [header] + manifests + files + batches + [last];
    if AllFit(frames) {
      AllFitPart([], [header], manifests + files + batches + [last], frames);
      AllFitPart([header], manifests, files + batches + [last], frames);
      AllFitPart([header] + manifests, files, batches + [last], frames);
      AllFitPart([header] + manifests + files, batches, [last], frames);
      AllFitPart([header] + manifests + files + batches, [last], [], frames);
      OneFits(header);
      OneFits(last);
    }
  }

  lemma OneFits(frame: Frame)
    ensures AllFit([frame]) ==> Fits(frame)
  {
    assert [frame][0] == frame;
  }

  lemma AllFitPart(left: seq<Frame>, middle: seq<Frame>, right: seq<Frame>, whole: seq<Frame>)
    requires AllFit(whole) && whole == left + middle + right
    ensures AllFit(middle)
  {
    forall i | 0 <= i < |middle| ensures Fits(middle[i]) {
      assert whole[|left| + i] == middle[i];
    }
  }

  // A backup that ends well is read back whole, however its bytes are cut, and passes validation.
  method WriteAndRead(tools: Tools, d: Draft, serialized: seq<seq<Batching.Batch>>, allowMissing: bool, pieces: seq<seq<Byte>>)
    returns (output: Option<seq<seq<Byte>>>, read: Result<Payload>)
    requires TablesSerialized(tools, d.tables, serialized)
    requires tools.codec.Sound() && SourcesWritable(d.sources) && TablesWritable(d.tables)
    ensures output.Some? <==>
      && AllFit(DraftFrames(tools, d)) && |d.sources| <= MAX_FILES && (allowMissing || (d.unlisted == [] && NoneSkipped(d.sources)))
    ensures output.Some? && Flatten(pieces) == Flatten(output.value) ==> read == Ok(PayloadOfDraft(d)) && DraftTold(read.value, d)
  {
    hide *;
    output := Produce(tools, d, serialized, allowMissing);
    read := ReadThrough(tools, pieces);
    if output.Some? && Flatten(pieces) == Flatten(output.value) {
      WritableIntro(d);
      PayloadRoundTrip(tools, d, pieces);
      DraftCountsAgree(d);
      DraftIsTold(d);
    }
  }

  lemma WritableIntro(d: Draft)
    requires SourcesWritable(d.sources) && TablesWritable(d.tables) && |d.sources| <= MAX_FILES
    ensures Writable(d)
  {}
}
