// The records of a selection from their rows to the reader (_emit_records of dbs/engine/backup.py over
// serialize_batches of dbs/serialize.py): paging, batching, framing and reading put together.
module Backup {
  import opened Wrappers
  import opened Sequences
  import opened Bytes
  import opened Json
  import opened Frames
  import opened Payload
  import opened PayloadWriting
  import opened PayloadEmitting
  import Batching

  // A selected model: its rows as they are encoded, and the records they encode.
  datatype Selected = Selected(model: string, rows: seq<Batching.Row>, records: seq<Value>, keyset: bool, heavy: bool)

  ghost predicate Encodes(tools: Tools, rows: seq<Batching.Row>, records: seq<Value>) {
    |rows| == |records| && forall i :: 0 <= i < |rows| ==> Flatten(rows[i].encoded) == tools.codec.encode(records[i])
  }

  ghost predicate Selectable(tools: Tools, s: Selected) {
    Batching.KeyOrder(s.rows) && Encodes(tools, s.rows, s.records) && RecordsOfModel(s.records, s.model)
  }

  // The records in the runs that the batches took.
  function CutLike(records: seq<Value>, batches: seq<Batching.Batch>): seq<seq<Value>>
    decreases |batches|
  {
    if |batches| == 0 || batches[|batches| - 1].rows > |records| then []
    else
      var first := |records| - batches[|batches| - 1].rows;
      CutLike(records[..first], batches[..|batches| - 1]) + [records[first..]]
  }

  // The pieces of a batch join to the list of the records it took.
  lemma {:induction false} CutIsSerialized(tools: Tools, rows: seq<Batching.Row>, records: seq<Value>, batches: seq<Batching.Batch>)
    requires Encodes(tools, rows, records) && Framed(batches) && Batching.RecordsIn(batches) == Batching.Encoded(rows)
    ensures AllSerialized(tools, CutLike(records, batches), batches) && Flatten(CutLike(records, batches)) == records
    decreases |batches|
  {
    hide Flatten, Serialized, Encodes, Framed, Batching.RecordsIn, Batching.Encoded;
    if |batches| == 0 {
      NothingIn(tools, rows, records, batches);
    } else {
      var (front, last) := (batches[..|batches| - 1], batches[|batches| - 1]);
      assert batches == front + [last];
      BatchTakes(tools, rows, records, front, last);
      var first := |records| - last.rows;
      CutIsSerialized(tools, rows[..first], records[..first], front);
      FlattenAppend(CutLike(records[..first], front), records[first..]);
      assert records[..first] + records[first..] == records;
    }
  }

  // Each batch is the list of the records in it.
  ghost predicate Framed(batches: seq<Batching.Batch>) {
    forall b :: 0 <= b < |batches| ==> FramedBatch(batches[b])
  }

  ghost predicate FramedBatch(batch: Batching.Batch) {
    batch.rows == |batch.records| && Flatten(batch.pieces) == ListBytes(Batching.Texts(batch.records))
  }

  lemma NothingIn(tools: Tools, rows: seq<Batching.Row>, records: seq<Value>, batches: seq<Batching.Batch>)
    requires |batches| == 0 && Encodes(tools, rows, records) && Batching.RecordsIn(batches) == Batching.Encoded(rows)
    ensures records == [] && CutLike(records, batches) == [] && Flatten<Value>([]) == []
  {}

  // The last batch took the last records.
  lemma BatchTakes(tools: Tools, rows: seq<Batching.Row>, records: seq<Value>, front: seq<Batching.Batch>, last: Batching.Batch)
    requires Encodes(tools, rows, records) && Framed(front + [last]) && Batching.RecordsIn(front + [last]) == Batching.Encoded(rows)
    ensures last.rows <= |records| == |rows| && Framed(front)
    ensures var first := |records| - last.rows;
      && Encodes(tools, rows[..first], records[..first])
      && Batching.RecordsIn(front) == Batching.Encoded(rows[..first]) && Serialized(tools, records[first..], last)
  {
    Batching.RecordsAppend(front, last);
    FramedParts(front, last);
    hide Flatten, ListBytes, Batching.RecordsIn, Framed;
    var all := Batching.Encoded(rows);
    var before := Batching.RecordsIn(front);
    assert all == before + last.records;
    var first := |records| - last.rows;
    assert before == all[..first] && last.records == all[first..];
    assert Batching.Encoded(rows[..first]) == all[..first];
    assert Batching.Texts(last.records) == tools.codec.Encoded(records[first..]);
  }

  lemma FramedParts(front: seq<Batching.Batch>, last: Batching.Batch)
    requires Framed(front + [last])
    ensures Framed(front) && FramedBatch(last)
  {
    var all := front + [last];
    assert FramedBatch(all[|front|]);
    forall b | 0 <= b < |front| ensures FramedBatch(front[b]) {
      assert FramedBatch(all[b]);
    }
  }

  // serialize_batches of one model as _emit_records calls it: every record in one batch, every
  // batch within a frame, or a row that is too large for one.
  method Serialize(tools: Tools, s: Selected) returns (table: Table, batches: seq<Batching.Batch>, refused: Option<Batching.Row>)
    requires Selectable(tools, s)
    ensures refused.None? ==>
      && table.model == s.model && Flatten(table.batches) == s.records && AllSerialized(tools, table.batches, batches)
      && AllFit(BatchFrames(tools, table.batches))
    ensures refused.Some? ==> refused.value in s.rows && Batching.RecordSize(refused.value.encoded) + 2 > MAX_FRAME_BYTES
  {
    hide Flatten, Encodes, RecordsOfModel, Batching.KeyOrder, Batching.RecordsIn, Batching.Encoded, Batching.RecordSize, Batching.BatchesOk,
         AllSerialized, AllFit, CutLike, BatchFrames;
    batches, refused := Batching.SerializeBatches(s.rows, Batching.RECORD_BATCH_ROWS, Some(MAX_FRAME_BYTES), Batching.RECORD_BATCH_BYTES,
                                                  s.keyset, s.heavy);
    table := Table(s.model, CutLike(s.records, batches));
    if refused.None? {
      BatchesAreFramed(batches);
      CutIsSerialized(tools, s.rows, s.records, batches);
      SerializedFit(tools, table.batches, batches);
    }
  }

  ghost predicate WithinFrame(batches: seq<Batching.Batch>) {
    forall b :: 0 <= b < |batches| ==> |Flatten(batches[b].pieces)| <= MAX_FRAME_BYTES
  }

  lemma BatchesAreFramed(batches: seq<Batching.Batch>)
    requires Batching.BatchesOk(batches, Batching.RECORD_BATCH_ROWS, Some(MAX_FRAME_BYTES), Batching.RECORD_BATCH_BYTES)
    ensures Framed(batches) && WithinFrame(batches)
  {
    hide Flatten, ListBytes, Batching.Texts;
    forall b | 0 <= b < |batches| ensures FramedBatch(batches[b]) && |Flatten(batches[b].pieces)| <= MAX_FRAME_BYTES {
      assert Batching.BatchOk(batches[b], Batching.RECORD_BATCH_ROWS, Some(MAX_FRAME_BYTES), Batching.RECORD_BATCH_BYTES);
    }
  }

  lemma {:induction false} SerializedFit(tools: Tools, batches: seq<seq<Value>>, serialized: seq<Batching.Batch>)
    requires AllSerialized(tools, batches, serialized) && WithinFrame(serialized)
    ensures AllFit(BatchFrames(tools, batches))
  {
    hide Flatten, ListBytes;
    if |batches| > 0 {
      assert Serialized(tools, batches[0], serialized[0]);
      forall b | 0 <= b < |batches[1..]| ensures Serialized(tools, batches[1..][b], serialized[1..][b]) {
        assert Serialized(tools, batches[b + 1], serialized[b + 1]);
      }
      SerializedFit(tools, batches[1..], serialized[1..]);
    }
  }

  // ----- a whole selection

  // The tables hold the records of the selection, model by model.
  ghost predicate TablesOf(selection: seq<Selected>, tables: seq<Table>) {
    |tables| == |selection| && forall k :: 0 <= k < |tables| ==> TableOf(selection[k], tables[k])
  }

  ghost predicate TableOf(s: Selected, table: Table) {
    table.model == s.model && Flatten(table.batches) == s.records
  }

  function AllRecords(selection: seq<Selected>): seq<Value> {
    if |selection| == 0 then [] else selection[0].records + AllRecords(selection[1..])
  }

  ghost predicate AllSelectable(tools: Tools, selection: seq<Selected>) {
    && (forall k :: 0 <= k < |selection| ==> Selectable(tools, selection[k]))
    && (forall j, k :: 0 <= j < k < |selection| ==> selection[j].model != selection[k].model)
  }

  // serialize_batches of every model, until a row is refused.
  method SerializeAll(tools: Tools, selection: seq<Selected>)
    returns (tables: seq<Table>, serialized: seq<seq<Batching.Batch>>, refused: Option<Batching.Row>)
    requires AllSelectable(tools, selection)
    ensures refused.None? ==> TablesOf(selection, tables) && TablesSerialized(tools, tables, serialized)
    ensures refused.None? ==> forall k :: 0 <= k < |tables| ==> AllFit(BatchFrames(tools, tables[k].batches))
    ensures refused.Some? ==> RowTooLong(selection, refused.value)
  {
    hide AllFit, BatchFrames, AllSerialized, Selectable, Flatten, Batching.RecordSize;
    tables, serialized, refused := [], [], None;
    for k := 0 to |selection|
      invariant |tables| == |serialized| == k && refused.None?
      invariant forall j :: 0 <= j < k ==> TableOf(selection[j], tables[j]) && AllSerialized(tools, tables[j].batches, serialized[j])
      invariant forall j :: 0 <= j < k ==> AllFit(BatchFrames(tools, tables[j].batches))
    {
      var table, batches;
      table, batches, refused := Serialize(tools, selection[k]);
      if refused.Some? {
        return;
      }
      tables, serialized := tables + [table], serialized + [batches];
    }
  }

  // A selected row that no frame can hold.
  ghost predicate RowTooLong(selection: seq<Selected>, row: Batching.Row) {
    (exists k :: 0 <= k < |selection| && row in selection[k].rows) && Batching.RecordSize(row.encoded) + 2 > MAX_FRAME_BYTES
  }

  lemma {:induction false} TablesHoldAll(selection: seq<Selected>, tables: seq<Table>)
    requires TablesOf(selection, tables)
    ensures Flatten(AllBatches(tables)) == AllRecords(selection)
  {
    hide Flatten;
    if |selection| == 0 {
      NothingFlattened();
    } else {
      assert TableOf(selection[0], tables[0]);
      forall k | 0 <= k < |selection[1..]| ensures TableOf(selection[1..][k], tables[1..][k]) {
        assert TableOf(selection[k + 1], tables[k + 1]);
      }
      TablesHoldAll(selection[1..], tables[1..]);
      FlattenConcat(tables[0].batches, AllBatches(tables[1..]));
    }
  }

  lemma NothingFlattened()
    ensures Flatten<Value>([]) == []
  {}

  lemma {:induction false} BatchesOfModel(batches: seq<seq<Value>>, model: string)
    requires RecordsOfModel(Flatten(batches), model)
    ensures BatchesOf(batches, model)
  {
    hide Flatten, RecordOf;
    if |batches| > 0 {
      var (front, last) := (batches[..|batches| - 1], batches[|batches| - 1]);
      assert batches == front + [last];
      FlattenAppend(front, last);
      var all := Flatten(batches);
      forall i | 0 <= i < |Flatten(front)| ensures RecordOf(Flatten(front)[i], model) {
        assert all[i] == Flatten(front)[i];
      }
      forall i | 0 <= i < |last| ensures RecordOf(last[i], model) {
        assert all[|Flatten(front)| + i] == last[i];
      }
      BatchesOfModel(front, model);
    }
  }

  lemma TablesAreWritable(tools: Tools, selection: seq<Selected>, tables: seq<Table>)
    requires AllSelectable(tools, selection) && TablesOf(selection, tables)
    ensures TablesWritable(tables)
  {
    hide Flatten, BatchesOf, RecordsOfModel, Encodes, Batching.KeyOrder;
    forall k | 0 <= k < |tables| ensures tables[k].model == selection[k].model && BatchesOf(tables[k].batches, tables[k].model) {
      assert TableOf(selection[k], tables[k]) && Selectable(tools, selection[k]);
      BatchesOfModel(tables[k].batches, tables[k].model);
    }
  }

  lemma FitTogether(left: seq<Frame>, right: seq<Frame>)
    ensures AllFit(left + right) <==> AllFit(left) && AllFit(right)
  {
    forall i | 0 <= i < |left| ensures (left + right)[i] == left[i] {
    }
    forall i | 0 <= i < |right| ensures (left + right)[|left| + i] == right[i] {
    }
  }

  lemma {:induction false} RecordsFit(tools: Tools, tables: seq<Table>)
    requires forall k :: 0 <= k < |tables| ==> AllFit(BatchFrames(tools, tables[k].batches))
    ensures AllFit(BatchFrames(tools, AllBatches(tables)))
  {
    hide AllFit, BatchFrames;
    if |tables| == 0 {
      NoneToFit(tools);
    } else {
      RecordsFit(tools, tables[1..]);
      BatchFramesJoin(tools, tables[0].batches, AllBatches(tables[1..]));
      FitTogether(BatchFrames(tools, tables[0].batches), BatchFrames(tools, AllBatches(tables[1..])));
    }
  }

  lemma NoneToFit(tools: Tools)
    ensures AllFit(BatchFrames(tools, []))
  {}

  // The frames of a draft but those of its records.
  ghost predicate OthersFit(tools: Tools, d: Draft) {
    && Fits(ValueFrame(tools, Header, HeaderValue(d))) && AllFit(ManifestFrames(tools, d.sources)) && AllFit(FilesFrames(tools, 0, d.sources))
    && Fits(ValueFrame(tools, Trailer, TrailerValue(d)))
  }

  lemma OnlyOthersMatter(tools: Tools, d: Draft)
    requires AllFit(BatchFrames(tools, AllBatches(d.tables)))
    ensures AllFit(DraftFrames(tools, d)) <==> OthersFit(tools, d)
  {
    hide ValueFrame, HeaderValue, TrailerValue, ManifestFrames, FilesFrames, BatchFrames, AllBatches;
    var (header, last) := (ValueFrame(tools, Header, HeaderValue(d)), ValueFrame(tools, Trailer, TrailerValue(d)));
    var (manifests, files, batches) := (ManifestFrames(tools, d.sources), FilesFrames(tools, 0, d.sources), BatchFrames(tools, AllBatches(d.tables)));
    FitTogether([header], manifests + (files + (batches + [last])));
    FitTogether(manifests, files + (batches + [last]));
    FitTogether(files, batches + [last]);
    FitTogether(batches, [last]);
    assert AllFit([header]) <==> Fits(header) by { assert [header][0] == header; }
    assert AllFit([last]) <==> Fits(last) by { assert [last][0] == last; }
  }

  // What a backup of a selection writes is read back as the selection's records in order.  The one
  // thing about records that can stop it is a row that no frame can hold.
  method BackUpAndRead(tools: Tools, d: Draft, selection: seq<Selected>, allowMissing: bool, pieces: seq<seq<Byte>>)
    returns (output: Option<seq<seq<Byte>>>, read: Result<Payload>, tables: seq<Table>, refused: Option<Batching.Row>)
    requires tools.codec.Sound() && SourcesWritable(d.sources) && AllSelectable(tools, selection)
    ensures refused.Some? ==> output.None? && RowTooLong(selection, refused.value)
    ensures refused.None? ==> TablesOf(selection, tables)
    ensures refused.None? ==> (output.Some? <==>
      && OthersFit(tools, d.(tables := tables)) && |d.sources| <= MAX_FILES && (allowMissing || (d.unlisted == [] && NoneSkipped(d.sources))))
    ensures output.Some? && Flatten(pieces) == Flatten(output.value) ==>
      && read == Ok(PayloadOfDraft(d.(tables := tables))) && Flatten(read.value.batches) == AllRecords(selection)
  {
    hide *;
    output, read := None, Err(MalformedPayload);
    var serialized;
    tables, serialized, refused := SerializeAll(tools, selection);
    if refused.None? {
      TablesAreWritable(tools, selection, tables);
      RecordsFit(tools, tables);
      OnlyOthersMatter(tools, d.(tables := tables));
      TablesHoldAll(selection, tables);
      DraftPayload(d.(tables := tables));
      output, read := WriteAndRead(tools, d.(tables := tables), serialized, allowMissing, pieces);
    }
  }
}
