// Paging and batching of records (dbs/serialize.py): keyset pages of an adaptive size, batches under
// a budget and a limit, and the framing of a batch as one JSON list.
module Batching {
  import opened Wrappers
  import opened Sequences
  import opened Bytes
  import opened Json

  const RECORD_BATCH_ROWS: nat := 500
  const RECORD_BATCH_BYTES: nat := 8 * 1024 * 1024
  const FETCH_BYTES_TARGET: nat := 16 * 1024 * 1024
  const SPLICED_VALUE_BYTES: nat := 1024 * 1024

  // ----- framed_records

  // A record as pieces of bytes.
  type Pieces = seq<seq<Byte>>

  function Texts(batch: seq<Pieces>): (texts: seq<seq<Byte>>)
    ensures |texts| == |batch| && forall i :: 0 <= i < |batch| ==> texts[i] == Flatten(batch[i])
  {
    seq(|batch|, i requires 0 <= i < |batch| => Flatten(batch[i]))
  }

  function NonEmpty(pieces: Pieces): (kept: Pieces)
    ensures forall i :: 0 <= i < |kept| ==> kept[i] != []
    ensures Flatten(kept) == Flatten(pieces)
  {
    if |pieces| == 0 then []
    else
      var front, last := NonEmpty(pieces[..|pieces| - 1]), pieces[|pieces| - 1];
      FlattenAppend(front, last);
      assert last == [] ==> Flatten(front) + last == Flatten(front);
      if last == [] then front else front + [last]
  }

  // However large values are spliced in, the pieces are exactly "[r0,r1,...]".
  method FramedRecords(batch: seq<Pieces>) returns (pieces: Pieces)
    ensures Flatten(pieces) == ListBytes(Texts(batch))
    ensures forall i :: 0 <= i < |pieces| ==> pieces[i] != []
  {
    hide Flatten, NonEmpty, ListBytes, Inner;
    var open := [ByteOf(OPEN)];
    var made: Pieces, small: Pieces := [], [open];
    FrameStarts(batch, open);
    for i := 0 to |batch|
      invariant Flatten(made) + Flatten(small) == open + Inner(Texts(batch)[..i])
    {
      ghost var before := Flatten(made) + Flatten(small);
      if i > 0 {
        Appended(made, small, [ByteOf(COMMA)]);
        small := small + [[ByteOf(COMMA)]];
      } else {
        assert before + [] == before;
      }
      ghost var comma := if i > 0 then [ByteOf(COMMA)] else [];
      made, small := AddRecord(made, small, batch[i]);
      InnerStep(Texts(batch), i);
      assert (before + comma) + Flatten(batch[i]) == before + (comma + Flatten(batch[i]));
      assert (open + Inner(Texts(batch)[..i])) + (comma + Flatten(batch[i])) == open + (Inner(Texts(batch)[..i]) + (comma + Flatten(batch[i])));
    }
    assert Texts(batch)[..|batch|] == Texts(batch);
    Appended(made, small, [ByteOf(CLOSE)]);
    small := small + [[ByteOf(CLOSE)]];
    FlattenAppend(made, Flatten(small));
    made := made + [Flatten(small)];
    ListBytesIs(Texts(batch), open);
    pieces := NonEmpty(made);
  }

  lemma FrameStarts(batch: seq<Pieces>, open: seq<Byte>)
    ensures Flatten<Byte>([]) + Flatten([open]) == open + Inner(Texts(batch)[..0])
  {
    FlattenOne(open);
    assert [] + open == open == open + [];
  }

  lemma ListBytesIs(texts: seq<seq<Byte>>, open: seq<Byte>)
    requires open == [ByteOf(OPEN)]
    ensures ListBytes(texts) == open + Inner(texts) + [ByteOf(CLOSE)]
  {}

  lemma InnerStep(texts: seq<seq<Byte>>, i: nat)
    requires i < |texts|
    ensures Inner(texts[..i + 1]) == Inner(texts[..i]) + ((if i > 0 then [ByteOf(COMMA)] else []) + texts[i])
  {
    hide ByteOf;
    assert texts[..i + 1][..i] == texts[..i];
  }

  lemma Appended(made: Pieces, small: Pieces, piece: seq<Byte>)
    ensures Flatten(made) + Flatten(small + [piece]) == (Flatten(made) + Flatten(small)) + piece
  {
    FlattenAppend(small, piece);
  }

  // One record: small pieces are joined with their neighbours, large ones stand alone.
  method AddRecord(before: Pieces, smallBefore: Pieces, record: Pieces) returns (made: Pieces, small: Pieces)
    ensures Flatten(made) + Flatten(small) == (Flatten(before) + Flatten(smallBefore)) + Flatten(record)
  {
    hide Flatten;
    made, small := before, smallBefore;
    ghost var start := Flatten(before) + Flatten(smallBefore);
    NothingFlattens();
    assert record[..0] == [] && start + [] == start;
    for p := 0 to |record|
      invariant Flatten(made) + Flatten(small) == start + Flatten(record[..p])
    {
      var piece := record[p];
      FlattenFront(record, p);
      assert (start + Flatten(record[..p])) + piece == start + (Flatten(record[..p]) + piece);
      if |piece| < SPLICED_VALUE_BYTES {
        Appended(made, small, piece);
        small := small + [piece];
      } else {
        FlattenAppend(made, Flatten(small));
        FlattenAppend(made + [Flatten(small)], piece);
        made := made + [Flatten(small)] + [piece];
        small := [];
        assert Flatten(made) + [] == Flatten(made);
      }
    }
    WholePrefix(record);
  }

  lemma NothingFlattens()
    ensures Flatten<Byte>([]) == []
  {}

  // record_size
  function RecordSize(record: Pieces): nat {
    |Flatten(record)|
  }

  function TotalSize(batch: seq<Pieces>): nat {
    if |batch| == 0 then 0 else TotalSize(batch[..|batch| - 1]) + RecordSize(batch[|batch| - 1])
  }

  lemma {:induction false} InnerLength(texts: seq<seq<Byte>>, batch: seq<Pieces>)
    requires texts == Texts(batch)
    ensures |Inner(texts)| == TotalSize(batch) + (if |batch| > 0 then |batch| - 1 else 0)
  {
    if |batch| > 0 {
      var n := |batch| - 1;
      assert texts[..n] == Texts(batch[..n]);
      InnerLength(texts[..n], batch[..n]);
      hide ByteOf;
    }
  }

  // The bytes a framed batch takes.
  lemma FramedLength(batch: seq<Pieces>)
    requires |batch| > 0
    ensures |ListBytes(Texts(batch))| == TotalSize(batch) + |batch| + 1
  {
    InnerLength(Texts(batch), batch);
  }

  // ----- Pages

  // A row of a snapshot, by primary key.
  datatype Row = Row(pk: int, encoded: Pieces)

  ghost predicate KeyOrder(table: seq<Row>) {
    forall i, j :: 0 <= i < j < |table| ==> table[i].pk < table[j].pk
  }

  // queryset.filter(pk__gt=last)
  function After(table: seq<Row>, last: int): seq<Row> {
    if |table| == 0 then [] else (if table[0].pk > last then [table[0]] else []) + After(table[1..], last)
  }

  lemma {:induction false} AllAfter(table: seq<Row>, last: int)
    requires forall i :: 0 <= i < |table| ==> table[i].pk > last
    ensures After(table, last) == table
  {
    if |table| > 0 {
      AllAfter(table[1..], last);
    }
  }

  lemma {:induction false} AfterRow(table: seq<Row>, i: nat)
    requires KeyOrder(table) && i < |table|
    ensures After(table, table[i].pk) == table[i + 1..]
  {
    if i == 0 {
      AllAfter(table[1..], table[0].pk);
    } else {
      assert table[1..][i - 1] == table[i];
      AfterRow(table[1..], i - 1);
      assert table[1..][i..] == table[i + 1..];
    }
  }

  // The mean size of the records measured, at least one byte.
  function MeanSize(encodedBytes: nat, count: nat): (mean: nat)
    ensures mean >= 1
  {
    var average := encodedBytes / (if count > 1 then count else 1);
    if average > 1 then average else 1
  }

  lemma Quotient(total: nat, divisor: nat, quotient: nat)
    requires divisor > 0 && quotient == total / divisor
    ensures forall n: nat :: n <= quotient ==> n * divisor <= total
    ensures forall n: nat :: n > quotient ==> n * divisor > total
  {
    forall n: nat ensures n <= quotient ==> n * divisor <= total {
      if n <= quotient {
        assert n * divisor <= quotient * divisor;
      }
    }
    forall n: nat ensures n > quotient ==> n * divisor > total {
      if n > quotient {
        assert n * divisor >= (quotient + 1) * divisor == quotient * divisor + divisor;
      }
    }
  }

  class Pages {
    const table: seq<Row>
    const rows: nat
    const keyset: bool

    var size: nat
    var last: Option<int>
    var finished: bool
    var cursor: nat
    ghost var taken: nat

    // The rows so far are a prefix of the snapshot, and the last key is where it ends.
    ghost predicate Valid()
      reads this
    {
      && KeyOrder(table) && 1 <= size <= rows && taken <= |table|
      && (last.None? <==> taken == 0) && (last.Some? ==> last.value == table[taken - 1].pk)
      && (finished ==> taken == |table|) && (!keyset ==> cursor == taken)
    }

    constructor (table: seq<Row>, rows: nat, keyset: bool, heavy: bool)
      requires KeyOrder(table) && rows >= 1
      ensures Valid() && taken == 0 && !finished && this.table == table && this.rows == rows
    {
      this.table, this.rows, this.keyset := table, rows, keyset;
      size := if heavy then 1 else rows;
      last, finished, cursor, taken := None, false, 0, 0;
    }

    // measured: whatever was measured, the next page has between one and `rows` rows.
    method Measured(encodedBytes: nat, count: nat)
      requires Valid()
      modifies `size
      ensures Valid() && size <= 2 * old(size)
      ensures var mean := MeanSize(encodedBytes, count);
        (size > 1 ==> size * mean <= FETCH_BYTES_TARGET) && (size == rows || size == 2 * old(size) || (size + 1) * mean > FETCH_BYTES_TARGET)
    {
      var average := encodedBytes / (if count > 1 then count else 1);
      var mean := if average > 1 then average else 1;
      var target := FETCH_BYTES_TARGET / mean;
      Quotient(FETCH_BYTES_TARGET, mean, target);
      var least := if rows < size * 2 then rows else size * 2;
      least := if target < least then target else least;
      size := if least > 1 then least else 1;
    }

    // The next page: the rows of the snapshot that follow, none of them twice and none left out.
    method Next() returns (chunk: seq<Row>)
      requires Valid()
      modifies `last, `finished, `cursor, `taken
      ensures Valid() && old(taken) + |chunk| == taken && chunk == table[old(taken)..taken]
      ensures |chunk| <= size && (chunk == [] ==> taken == |table|)
    {
      if finished {
        return [];
      }
      if keyset {
        chunk := NextByKey();
      } else {
        chunk := NextIterated();
      }
      finished := |chunk| < size;
      assert chunk == table[taken..taken + |chunk|];
      taken := taken + |chunk|;
      if chunk != [] {
        last := Some(chunk[|chunk| - 1].pk);
      }
    }

    // A page of the rows past the last key.
    method NextByKey() returns (chunk: seq<Row>)
      requires Valid() && keyset
      ensures taken + |chunk| <= |table| && chunk == table[taken..taken + |chunk|]
      ensures |chunk| == if size < |table| - taken then size else |table| - taken
    {
      hide *;
      var page := if last.None? then table else After(table, last.value);
      PageIsRest(page);
      chunk := if size < |page| then page[..size] else page;
      FrontOfRest(table, taken, page, size, chunk);
    }

    lemma PageIsRest(page: seq<Row>)
      requires Valid() && keyset && page == if last.None? then table else After(table, last.value)
      ensures taken <= |table| && page == table[taken..]
    {
      if last.Some? {
        AfterRow(table, taken - 1);
      }
    }

    // A page off the iterator, row by row.
    method NextIterated() returns (chunk: seq<Row>)
      requires Valid() && !keyset
      modifies `cursor
      ensures cursor == taken + |chunk| <= |table| && chunk == table[taken..taken + |chunk|]
      ensures |chunk| == if size < |table| - taken then size else |table| - taken
    {
      chunk := [];
      while cursor < |table| && |chunk| < size
        invariant taken <= cursor <= |table| && |chunk| <= size && chunk == table[taken..cursor]
      {
        chunk := chunk + [table[cursor]];
        cursor := cursor + 1;
      }
    }
  }

  lemma FrontOfRest(table: seq<Row>, taken: nat, page: seq<Row>, size: nat, chunk: seq<Row>)
    requires taken <= |table| && page == table[taken..] && chunk == if size < |page| then page[..size] else page
    ensures taken + |chunk| <= |table| && chunk == table[taken..taken + |chunk|]
    ensures |chunk| == if size < |table| - taken then size else |table| - taken
  {}

  // ----- serialize_batches

  datatype Batch = Batch(records: seq<Pieces>, pieces: Pieces, rows: nat)

  function Encoded(table: seq<Row>): (records: seq<Pieces>)
    ensures |records| == |table| && forall i :: 0 <= i < |table| ==> records[i] == table[i].encoded
  {
    seq(|table|, i requires 0 <= i < |table| => table[i].encoded)
  }

  function RecordsIn(batches: seq<Batch>): seq<Pieces> {
    if |batches| == 0 then [] else RecordsIn(batches[..|batches| - 1]) + batches[|batches| - 1].records
  }

  lemma RecordsAppend(batches: seq<Batch>, batch: Batch)
    ensures RecordsIn(batches + [batch]) == RecordsIn(batches) + batch.records
  {
    assert (batches + [batch])[..|batches|] == batches;
  }

  // A framed batch is the list of its records, is not empty, has at most `rows` of them, never
  // exceeds the limit, and exceeds the budget only with a single row.
  ghost predicate BatchOk(batch: Batch, rows: nat, limit: Option<nat>, budget: nat) {
    && 1 <= batch.rows == |batch.records| <= rows
    && Flatten(batch.pieces) == ListBytes(Texts(batch.records))
    && (limit.Some? ==> |Flatten(batch.pieces)| <= limit.value)
    && (|Flatten(batch.pieces)| > budget ==> batch.rows == 1)
  }

  ghost predicate BatchesOk(batches: seq<Batch>, rows: nat, limit: Option<nat>, budget: nat) {
    forall b :: 0 <= b < |batches| ==> BatchOk(batches[b], rows, limit, budget)
  }

  function Ceiling(limit: Option<nat>, budget: nat): nat {
    if limit.Some? && limit.value < budget then limit.value else budget
  }

  // A batch that could not have taken one more record.
  ghost predicate NoRoom(records: seq<Pieces>, next: Pieces, rows: nat, ceiling: nat) {
    |records| >= rows || |ListBytes(Texts(records + [next]))| > ceiling
  }

  // No batch could have taken the first record of the one after it.
  ghost predicate Packed(batches: seq<Batch>, rows: nat, ceiling: nat) {
    forall b: nat :: b + 1 < |batches| ==> NoRoomAt(batches, b, rows, ceiling)
  }

  ghost predicate NoRoomAt(batches: seq<Batch>, b: nat, rows: nat, ceiling: nat)
    requires b + 1 < |batches|
  {
    |batches[b + 1].records| > 0 && NoRoom(batches[b].records, batches[b + 1].records[0], rows, ceiling)
  }

  // Nor could the last one have taken the first of those that wait.
  ghost predicate Filling(batches: seq<Batch>, batch: seq<Pieces>, rows: nat, ceiling: nat) {
    && Packed(batches, rows, ceiling)
    && (|batches| > 0 ==> |batch| > 0 && NoRoom(batches[|batches| - 1].records, batch[0], rows, ceiling))
  }

  lemma FillingMore(batches: seq<Batch>, batch: seq<Pieces>, record: Pieces, rows: nat, ceiling: nat)
    requires Filling(batches, batch, rows, ceiling)
    ensures Filling(batches, if |batches| > 0 || |batch| > 0 then batch + [record] else [record], rows, ceiling)
  {
    hide NoRoom, Packed;
  }

  lemma FillingFlushed(batches: seq<Batch>, batch: Batch, record: Pieces, rows: nat, ceiling: nat)
    requires Filling(batches, batch.records, rows, ceiling) && |batch.records| > 0
    ensures Packed(batches + [batch], rows, ceiling)
    ensures NoRoom(batch.records, record, rows, ceiling) ==> Filling(batches + [batch], [record], rows, ceiling)
  {
    hide NoRoom;
    var all := batches + [batch];
    forall b: nat | b + 1 < |all| ensures NoRoomAt(all, b, rows, ceiling) {
      if b + 1 < |batches| {
        assert NoRoomAt(batches, b, rows, ceiling);
      }
    }
  }

  // The batch under construction and its size.
  ghost predicate Pending(batch: seq<Pieces>, size: nat, rows: nat, limit: Option<nat>, budget: nat) {
    && size == TotalSize(batch) && |batch| <= rows
    && (|batch| > 0 && limit.Some? ==> size + |batch| + 1 <= limit.value)
    && (|batch| > 1 ==> size + |batch| + 1 <= budget)
  }

  // The row that alone is above the limit, if any stops the batches.
  predicate TooLarge(row: Row, limit: Option<nat>) {
    limit.Some? && RecordSize(row.encoded) + 2 > limit.value
  }

  method SerializeBatches(table: seq<Row>, rows: nat, limit: Option<nat>, budget: nat, keyset: bool, heavy: bool)
    returns (batches: seq<Batch>, refused: Option<Row>)
    requires KeyOrder(table) && rows >= 1
    ensures BatchesOk(batches, rows, limit, budget) && Packed(batches, rows, Ceiling(limit, budget))
    ensures refused.None? ==> RecordsIn(batches) == Encoded(table) && forall i :: 0 <= i < |table| ==> !TooLarge(table[i], limit)
    ensures refused.Some? ==> refused.value in table && TooLarge(refused.value, limit)
    ensures refused.Some? ==> RecordsIn(batches) <= Encoded(table)
  {
    hide TotalSize, RecordSize, Texts, ListBytes, Flatten, After, RecordsIn, BatchesOk, Pending, TooLarge, Encoded, KeyOrder, Filling, Packed;
    var pages := new Pages(table, rows, keyset, heavy);
    var batch: seq<Pieces>, size := [], 0;
    batches, refused := [], None;
    NothingBatched(rows, limit, budget);
    while true
      invariant fresh(pages) && pages.Valid() && pages.table == table && pages.rows == rows && refused.None?
      invariant BatchesOk(batches, rows, limit, budget) && Pending(batch, size, rows, limit, budget)
      invariant Filling(batches, batch, rows, Ceiling(limit, budget))
      invariant RecordsIn(batches) + batch == Encoded(table)[..pages.taken]
      invariant forall i :: 0 <= i < pages.taken ==> !TooLarge(table[i], limit)
      decreases |table| - pages.taken
    {
      ghost var first := pages.taken;
      var chunk := pages.Next();
      if chunk == [] {
        break;
      }
      pages.Measured(SizeOfChunk(chunk), |chunk|);
      ghost var done := RecordsIn(batches) + batch;
      batches, batch, size, refused := AddChunk(chunk, batches, batch, size, rows, limit, budget);
      EncodedChunk(table, first, pages.taken);
      if refused.Some? {
        PrefixOfPrefix(RecordsIn(batches), Encoded(table)[..pages.taken], Encoded(table));
        FillingIsPacked(batches, batch, rows, Ceiling(limit, budget));
        return;
      }
    }
    assert Encoded(table)[..|table|] == Encoded(table);
    FillingIsPacked(batches, batch, rows, Ceiling(limit, budget));
    if |batch| > 0 {
      batches := Flushed(batches, batch, size, rows, limit, budget);
    } else {
      assert RecordsIn(batches) + batch == RecordsIn(batches);
    }
  }

  lemma PrefixOfPrefix<T>(a: seq<T>, b: seq<T>, c: seq<T>)
    requires a <= b && b <= c
    ensures a <= c
  {}

  lemma FillingIsPacked(batches: seq<Batch>, batch: seq<Pieces>, rows: nat, ceiling: nat)
    requires Filling(batches, batch, rows, ceiling)
    ensures Packed(batches, rows, ceiling)
  {
    hide NoRoom;
  }

  lemma NothingBatched(rows: nat, limit: Option<nat>, budget: nat)
    ensures BatchesOk([], rows, limit, budget) && Pending([], 0, rows, limit, budget) && RecordsIn([]) == []
    ensures Filling([], [], rows, Ceiling(limit, budget))
  {}

  lemma EncodedChunk(table: seq<Row>, first: nat, end: nat)
    requires first <= end <= |table|
    ensures Encoded(table)[..end] == Encoded(table)[..first] + Encoded(table[first..end])
    ensures Encoded(table)[..end] <= Encoded(table)
    ensures forall i :: 0 <= i < end ==> i < first || table[i] == table[first..end][i - first]
    ensures forall row :: row in table[first..end] ==> row in table
  {}

  lemma NoSize()
    ensures TotalSize([]) == 0
  {}

  function SizeOfChunk(chunk: seq<Row>): nat {
    TotalSize(Encoded(chunk))
  }

  method Flushed(before: seq<Batch>, batch: seq<Pieces>, size: nat, rows: nat, limit: Option<nat>, budget: nat) returns (batches: seq<Batch>)
    requires BatchesOk(before, rows, limit, budget) && Pending(batch, size, rows, limit, budget) && |batch| > 0
    requires Filling(before, batch, rows, Ceiling(limit, budget))
    ensures BatchesOk(batches, rows, limit, budget) && RecordsIn(batches) == RecordsIn(before) + batch
    ensures Packed(batches, rows, Ceiling(limit, budget))
    ensures forall record :: NoRoom(batch, record, rows, Ceiling(limit, budget)) ==> Filling(batches, [record], rows, Ceiling(limit, budget))
  {
    hide RecordSize, TotalSize, Texts, ListBytes, Flatten, NoRoom, Filling, Packed, Ceiling;
    var pieces := FramedRecords(batch);
    FramedLength(batch);
    RecordsAppend(before, Batch(batch, pieces, |batch|));
    forall record {
      FillingFlushed(before, Batch(batch, pieces, |batch|), record, rows, Ceiling(limit, budget));
    }
    FillingFlushed(before, Batch(batch, pieces, |batch|), [], rows, Ceiling(limit, budget));
    batches := before + [Batch(batch, pieces, |batch|)];
  }

  // The rows of one page join the batch, which is flushed before it would grow too large.
  method AddChunk(chunk: seq<Row>, batchesBefore: seq<Batch>, batchBefore: seq<Pieces>, sizeBefore: nat, rows: nat, limit: Option<nat>, budget: nat)
    returns (batches: seq<Batch>, batch: seq<Pieces>, size: nat, refused: Option<Row>)
    requires BatchesOk(batchesBefore, rows, limit, budget) && Pending(batchBefore, sizeBefore, rows, limit, budget) && rows >= 1
    requires Filling(batchesBefore, batchBefore, rows, Ceiling(limit, budget))
    ensures BatchesOk(batches, rows, limit, budget) && Pending(batch, size, rows, limit, budget)
    ensures Filling(batches, batch, rows, Ceiling(limit, budget))
    ensures refused.None? ==>
      && RecordsIn(batches) + batch == RecordsIn(batchesBefore) + batchBefore + Encoded(chunk)
      && forall i :: 0 <= i < |chunk| ==> !TooLarge(chunk[i], limit)
    ensures refused.Some? ==>
      && refused.value in chunk && TooLarge(refused.value, limit)
      && RecordsIn(batches) <= RecordsIn(batchesBefore) + batchBefore + Encoded(chunk)
  {
    hide TotalSize, RecordSize, Texts, ListBytes, Flatten, RecordsIn, BatchesOk, Filling;
    batches, batch, size, refused := batchesBefore, batchBefore, sizeBefore, None;
    ghost var start := RecordsIn(batchesBefore) + batchBefore;
    var ceiling := Ceiling(limit, budget);
    assert start + Encoded(chunk)[..0] == start;
    for i := 0 to |chunk|
      invariant BatchesOk(batches, rows, limit, budget) && Pending(batch, size, rows, limit, budget)
      invariant Filling(batches, batch, rows, ceiling)
      invariant RecordsIn(batches) + batch == start + Encoded(chunk)[..i]
      invariant forall k :: 0 <= k < i ==> !TooLarge(chunk[k], limit)
    {
      var record := chunk[i].encoded;
      var length := RecordSize(record);
      if limit.Some? && length + 2 > limit.value {
        PrefixOfAll(RecordsIn(batches), batch, start, Encoded(chunk), i);
        return batches, batch, size, Some(chunk[i]);
      }
      ghost var done := RecordsIn(batches) + batch;
      batches, batch, size := MakeRoom(batches, batch, size, record, ceiling, rows, limit, budget);
      SizeGrows(batch, record);
      assert Encoded(chunk)[..i + 1] == Encoded(chunk)[..i] + [record];
      assert (RecordsIn(batches) + batch) + [record] == RecordsIn(batches) + (batch + [record]);
      assert (start + Encoded(chunk)[..i]) + [record] == start + (Encoded(chunk)[..i] + [record]);
      batch, size := batch + [record], size + length;
    }
    assert Encoded(chunk)[..|chunk|] == Encoded(chunk);
  }

  lemma PrefixOfAll<T>(left: seq<T>, right: seq<T>, start: seq<T>, all: seq<T>, i: nat)
    requires i <= |all| && left + right == start + all[..i]
    ensures left <= start + all
  {
    assert all == all[..i] + all[i..];
    assert start + all == (start + all[..i]) + all[i..] == (left + right) + all[i..];
  }

  // The batch is flushed first when the next record would not fit.
  method MakeRoom(before: seq<Batch>, batchBefore: seq<Pieces>, sizeBefore: nat, record: Pieces, ceiling: nat, rows: nat, limit: Option<nat>,
                  budget: nat)
    returns (batches: seq<Batch>, batch: seq<Pieces>, size: nat)
    requires BatchesOk(before, rows, limit, budget) && Pending(batchBefore, sizeBefore, rows, limit, budget) && rows >= 1
    requires ceiling == Ceiling(limit, budget) && Filling(before, batchBefore, rows, ceiling)
    ensures Filling(batches, batch + [record], rows, ceiling)
    ensures BatchesOk(batches, rows, limit, budget) && Pending(batch, size, rows, limit, budget)
    ensures RecordsIn(batches) + batch == RecordsIn(before) + batchBefore
    ensures |batch| == 0 ==> size == 0
    ensures |batch| == 0 || (size + RecordSize(record) + |batch| + 2 <= ceiling && |batch| < rows)
  {
    hide TotalSize, RecordSize, Texts, ListBytes, Flatten, RecordsIn, BatchesOk, Filling;
    batches, batch, size := before, batchBefore, sizeBefore;
    var length := RecordSize(record);
    FillingMore(batches, batch, record, rows, ceiling);
    SizeGrows(batch, record);
    FramedLength(batch + [record]);
    assert [] + [record] == [record];
    NoSize();
    assert |batch| == 0 ==> batch == [];
    if |batch| > 0 && (size + length + |batch| + 2 > ceiling || |batch| >= rows) {
      batches := Flushed(batches, batch, size, rows, limit, budget);
      batch, size := [], 0;
      NoSize();
      assert RecordsIn(batches) + [] == RecordsIn(batches);
    }
  }

  lemma SizeGrows(batch: seq<Pieces>, record: Pieces)
    ensures TotalSize(batch + [record]) == TotalSize(batch) + RecordSize(record)
  {
    assert (batch + [record])[..|batch|] == batch;
  }
}
