// PayloadReader and FileStream of dbs/engine/frames.py and _read_through of dbs/engine/validate.py:
// the reading of a payload phase by phase, proved against the grammar for every cutting.
module PayloadReading {
  import opened Wrappers
  import opened Sequences
  import opened Bytes
  import opened Json
  import opened Frames
  import opened Payload

  datatype Phase = HeaderPhase | ManifestPhase | FilesPhase | RecordsPhase | TrailerPhase | EndPhase | DonePhase

  class PayloadReader {
    const tools: Tools
    const source: FrameReader

    var pending: Option<Frame>
    var header: Value
    var entries: seq<FileEntry>
    var trailer: Value
    var rank: map<string, nat>
    var position: nat
    var phase: Phase

    ghost predicate Valid()
      reads source
    {
      source.Valid()
    }

    // The frames not read yet.
    ghost function Left(): Stream
      reads `pending, source
      requires Valid()
    {
      var rest := Split(source.Rest());
      if pending.Some? then Stream([pending.value] + rest.frames, rest.torn) else rest
    }

    constructor (tools: Tools, source: FrameReader)
      requires source.Valid()
      ensures Valid() && Left() == Split(source.Rest()) && phase == HeaderPhase && entries == [] && position == 0
      ensures this.tools == tools && this.source == source
    {
      this.tools, this.source := tools, source;
      pending, header, entries, trailer, rank := None, Null, [], Null, map[];
      position, phase := 0, HeaderPhase;
    }

    // _peek; None where it raises.
    method Peek() returns (frame: Option<Frame>)
      requires Valid()
      modifies `pending, source
      ensures Valid()
      ensures frame.Some? <==> |old(Left()).frames| > 0
      ensures frame.Some? ==> Left() == old(Left()) && frame.value == Left().frames[0] && pending == frame
    {
      if pending.None? {
        hide NextOf, FrameReader.Rest, FrameReader.Valid;
        var next := source.NextFrame();
        if !next.Got? {
          return None;
        }
        pending := Some(next.frame);
      }
      frame := pending;
    }

    // _frame
    method TakeFrame() returns (frame: Option<Frame>)
      requires Valid()
      modifies `pending, source
      ensures Valid()
      ensures frame.Some? <==> |old(Left()).frames| > 0
      ensures frame.Some? ==>
        pending.None? && frame.value == old(Left()).frames[0] && Left() == Stream(old(Left()).frames[1..], old(Left()).torn)
    {
      hide Split, FrameReader.Rest, FrameReader.Valid;
      frame := Peek();
      if frame.Some? {
        pending := None;
      }
    }

    // read_header
    method ReadHeader() returns (result: Result<Value>)
      requires Valid()
      modifies this, source
      ensures Valid() && entries == old(entries) && position == old(position)
      ensures result == if old(phase) != HeaderPhase then Err(ReadOutOfOrder) else HeaderOf(tools, old(Left()).frames)
      ensures result.Ok? ==>
        && phase == ManifestPhase && header == result.value && HeaderOk(header) && rank == RankOf(Get(header, "order").items)
        && |old(Left()).frames| > 0 && Left() == Stream(old(Left()).frames[1..], old(Left()).torn)
    {
      hide Left, HeaderOk;
      if phase != HeaderPhase {
        return Err(ReadOutOfOrder);
      }
      var frame := TakeFrame();
      if frame.None? || frame.value.kind != Header {
        return Err(MalformedPayload);
      }
      var parsed := tools.codec.parse(frame.value.body);
      if parsed.None? || !HeaderOk(parsed.value) {
        return Err(MalformedPayload);
      }
      HeaderHasOrder(parsed.value);
      header, rank, phase := parsed.value, RankOf(Get(parsed.value, "order").items), ManifestPhase;
      result := Ok(header);
    }

    // read_manifest
    method ReadManifest() returns (result: Result<seq<FileEntry>>)
      requires Valid()
      modifies this, source
      ensures Valid() && header == old(header) && rank == old(rank) && position == old(position)
      ensures old(phase) != ManifestPhase ==> result == Err(ReadOutOfOrder)
      ensures old(phase) == ManifestPhase ==>
        (var (spec, torn) := (ManifestOf(tools, old(Left()).frames, old(entries)), old(Left()).torn);
         match spec
         case Err(p) => result == Err(p)
         case Ok((found, behind)) => result == Ok(found) && entries == found && phase == FilesPhase && Left() == Stream(behind, torn))
    {
      hide Left, ManifestItems;
      if phase != ManifestPhase {
        return Err(ReadOutOfOrder);
      }
      ghost var spec, torn := ManifestOf(tools, Left().frames, entries), Left().torn;
      var next := Peek();
      while next.Some? && next.value.kind.Manifest?
        invariant Valid() && phase == ManifestPhase && header == old(header) && rank == old(rank) && position == old(position)
        invariant next.Some? ==> |Left().frames| > 0 && next.value == Left().frames[0] && Left().torn == torn
        invariant spec == if next.Some? then ManifestOf(tools, Left().frames, entries) else Err(MalformedPayload)
        decreases if next.Some? then 1 + |Left().frames| else 0
      {
        ghost var frames := Left().frames;
        var frame := TakeFrame();
        var items := ManifestItems(tools, frame.value);
        if items.Err? {
          return Err(items.problem);
        }
        entries := entries + items.value;
        if |entries| > MAX_FILES {
          return Err(MalformedPayload);
        }
        next := Peek();
      }
      if next.None? {
        return Err(MalformedPayload);
      }
      phase := FilesPhase;
      result := Ok(entries);
    }

    // One file stream, read to its end.
    method ReadFile(index: nat) returns (result: Result<Content>)
      requires Valid()
      modifies `pending, source
      ensures Valid()
      ensures match FileOf(tools, old(Left()).frames, index, [])
              case Err(p) => result == Err(p)
              case Ok((content, behind)) => result == Ok(content) && Left() == Stream(behind, old(Left()).torn)
    {
      hide Left, IsDataOf, FinishedFile;
      ghost var spec, torn := FileOf(tools, Left().frames, index, []), Left().torn;
      var chunks: seq<seq<Byte>> := [];
      var frame := TakeFrame();
      while frame.Some? && frame.value.kind.FileData?
        invariant Valid() && (frame.Some? ==> Left().torn == torn)
        invariant spec == FileOf(tools, if frame.Some? then [frame.value] + Left().frames else [], index, chunks)
        decreases if frame.Some? then 1 + |Left().frames| else 0
      {
        assert ([frame.value] + Left().frames)[1..] == Left().frames;
        if !IsDataOf(frame.value, index) {
          return Err(MalformedPayload);
        }
        DataHasIndex(frame.value, index);
        chunks := chunks + [frame.value.body[INDEX_SIZE..]];
        ghost var frames := Left().frames;
        frame := TakeFrame();
        assert frame.Some? ==> frames == [frame.value] + Left().frames;
      }
      if frame.None? || !frame.value.kind.FileEnd? {
        return Err(MalformedPayload);
      }
      assert ([frame.value] + Left().frames)[1..] == Left().frames;
      var parsed := tools.codec.parse(frame.value.body);
      if parsed.None? {
        return Err(MalformedPayload);
      }
      result := FinishedFile(tools, parsed.value, index, chunks);
    }

    // files, each stream drained.
    method ReadFiles() returns (result: Result<seq<Content>>)
      requires Valid()
      modifies `pending, `phase, source
      ensures Valid()
      ensures old(phase) != FilesPhase ==> result == Err(ReadOutOfOrder)
      ensures old(phase) == FilesPhase ==>
        match FilesOf(tools, old(Left()).frames, 0, |entries|)
        case Err(p) => result == Err(p)
        case Ok((files, behind)) => result == Ok(files) && phase == RecordsPhase && Left() == Stream(behind, old(Left()).torn)
    {
      hide Left, FileOf;
      if phase != FilesPhase {
        return Err(ReadOutOfOrder);
      }
      var files: seq<Content> := [];
      ghost var spec, torn := FilesOf(tools, Left().frames, 0, |entries|), Left().torn;
      PrependedNothing(spec);
      for index := 0 to |entries|
        invariant Valid() && phase == FilesPhase && Left().torn == torn
        invariant spec == Prepended(files, FilesOf(tools, Left().frames, index, |entries|))
      {
        ghost var before := files;
        var content := ReadFile(index);
        if content.Err? {
          return Err(content.problem);
        }
        files := files + [content.value];
        PrependedMore(before, content.value, FilesOf(tools, Left().frames, index + 1, |entries|));
      }
      assert files + [] == files;
      phase := RecordsPhase;
      result := Ok(files);
    }

    // record_batches, each batch parsed.
    method ReadRecords() returns (result: Result<seq<seq<Value>>>)
      requires Valid()
      modifies this, source
      ensures Valid() && header == old(header)
      ensures old(phase) != RecordsPhase ==> result == Err(ReadOutOfOrder)
      ensures old(phase) == RecordsPhase ==>
        match RecordsOf(tools, old(Left()).frames, old(rank), old(position))
        case Err(p) => result == Err(p)
        case Ok((batches, behind)) => result == Ok(batches) && phase == TrailerPhase && Left() == Stream(behind, old(Left()).torn)
    {
      hide Left, BatchOf;
      if phase != RecordsPhase {
        return Err(ReadOutOfOrder);
      }
      var batches: seq<seq<Value>> := [];
      ghost var spec, torn := RecordsOf(tools, Left().frames, rank, position), Left().torn;
      PrependedNothing(spec);
      var next := Peek();
      while next.Some? && next.value.kind.Records?
        invariant Valid() && phase == RecordsPhase && header == old(header) && rank == old(rank)
        invariant next.Some? ==> |Left().frames| > 0 && next.value == Left().frames[0] && Left().torn == torn
        invariant spec == if next.Some? then Prepended(batches, RecordsOf(tools, Left().frames, rank, position)) else Err(MalformedPayload)
        decreases if next.Some? then 1 + |Left().frames| else 0
      {
        ghost var before := batches;
        var frame := TakeFrame();
        var batch := BatchOf(tools, frame.value, rank, position);
        if batch.Err? {
          return Err(batch.problem);
        }
        batches, position := batches + [batch.value.0], batch.value.1;
        PrependedMore(before, batch.value.0, RecordsOf(tools, Left().frames, rank, position));
        next := Peek();
      }
      if next.None? {
        return Err(MalformedPayload);
      }
      assert batches + [] == batches;
      phase := TrailerPhase;
      result := Ok(batches);
    }

    // read_trailer
    method ReadTrailer() returns (result: Result<Value>)
      requires Valid()
      modifies this, source
      ensures Valid()
      ensures result == if old(phase) != TrailerPhase then Err(ReadOutOfOrder) else TrailerOf(tools, old(Left()).frames)
      ensures result.Ok? ==>
        && phase == EndPhase && pending.None? && trailer == result.value
        && |old(Left()).frames| > 0 && Left() == Stream(old(Left()).frames[1..], old(Left()).torn)
    {
      hide Left, TrailerOk;
      if phase != TrailerPhase {
        return Err(ReadOutOfOrder);
      }
      var frame := TakeFrame();
      if frame.None? || frame.value.kind != Trailer {
        return Err(MalformedPayload);
      }
      var parsed := tools.codec.parse(frame.value.body);
      if parsed.None? || !TrailerOk(parsed.value) {
        return Err(MalformedPayload);
      }
      trailer, phase := parsed.value, EndPhase;
      result := Ok(trailer);
    }

    // finish
    method Finish() returns (problem: Option<Problem>)
      requires Valid()
      modifies this, source
      ensures Valid()
      ensures old(phase) != EndPhase ==> problem == Some(ReadOutOfOrder)
      ensures old(phase) == EndPhase && old(pending).None? ==>
        problem == if old(Left()) == Stream([], false) then None else Some(MalformedPayload)
      ensures problem.None? ==> phase == DonePhase
    {
      if phase != EndPhase {
        return Some(ReadOutOfOrder);
      }
      hide NextOf, FrameReader.Rest, FrameReader.Valid;
      var next := source.NextFrame();
      if !next.NoFrame? {
        return Some(MalformedPayload);
      }
      phase, problem := DonePhase, None;
    }
  }

  lemma HeaderHasOrder(v: Value)
    requires HeaderOk(v)
    ensures Get(v, "order").List? && AllTexts(Get(v, "order").items)
  {}

  lemma DataHasIndex(frame: Frame, index: nat)
    requires IsDataOf(frame, index)
    ensures |frame.body| >= INDEX_SIZE
  {}

  // A list with something read before it.
  function Prepended<T>(before: seq<T>, result: Result<(seq<T>, seq<Frame>)>): Result<(seq<T>, seq<Frame>)> {
    match result
    case Err(p) => Err(p)
    case Ok((list, behind)) => Ok((before + list, behind))
  }

  lemma PrependedNothing<T>(result: Result<(seq<T>, seq<Frame>)>)
    ensures Prepended([], result) == result
  {
    if result.Ok? {
      assert [] + result.value.0 == result.value.0;
    }
  }

  lemma PrependedMore<T>(before: seq<T>, one: T, result: Result<(seq<T>, seq<Frame>)>)
    ensures Prepended(before + [one], result) == Prepended(before, Prepended([one], result))
  {
    match result
    case Err(_) =>
    case Ok((list, _)) => assert (before + [one]) + list == before + ([one] + list);
  }

  // ----- _read_through

  // Every phase in turn, from the magic to the finish.
  method ReadPayload(tools: Tools, pieces: seq<seq<Byte>>) returns (result: Result<Payload>)
    ensures result == PayloadIn(tools, Flatten(pieces))
  {
    hide PayloadIn, PayloadOf, HeaderOf, ManifestOf, FilesOf, RecordsOf, TrailerOf, Split, PayloadReader.Left, FrameReader.Rest, Flatten,
         PayloadReader.Valid, FrameReader.Valid, HeaderOk, PayloadMagic, RankOf, NextOf;
    var source := new FrameReader(pieces);
    var magic := source.Take(8);
    if magic.None? {
      ShortPayload(tools, Flatten(pieces));
      return Err(MalformedPayload);
    }
    PayloadStarts(tools, Flatten(pieces));
    if magic.value != PayloadMagic() {
      return Err(NotAPayload);
    }
    ghost var stream := Split(Flatten(pieces)[8..]);
    var reader := new PayloadReader(tools, source);
    PayloadUnfolds(tools, stream);
    var header := reader.ReadHeader();
    if header.Err? {
      return Err(header.problem);
    }
    var entries := reader.ReadManifest();
    if entries.Err? {
      return Err(entries.problem);
    }
    var files := reader.ReadFiles();
    if files.Err? {
      return Err(files.problem);
    }
    var batches := reader.ReadRecords();
    if batches.Err? {
      return Err(batches.problem);
    }
    ghost var behind := reader.Left();
    var trailer := reader.ReadTrailer();
    if trailer.Err? {
      return Err(trailer.problem);
    }
    var problem := reader.Finish();
    if problem.Some? {
      return Err(problem.value);
    }
    result := Ok(Payload(header.value, entries.value, files.value, batches.value, trailer.value));
  }

  lemma ShortPayload(tools: Tools, bytes: seq<Byte>)
    requires |bytes| < 8
    ensures PayloadIn(tools, bytes) == Err(MalformedPayload)
  {}

  lemma PayloadStarts(tools: Tools, bytes: seq<Byte>)
    requires |bytes| >= 8
    ensures PayloadIn(tools, bytes) == if bytes[..8] != PayloadMagic() then Err(NotAPayload) else PayloadOf(tools, Split(bytes[8..]))
  {
    hide PayloadMagic, PayloadOf, Split;
  }

  lemma PayloadUnfolds(tools: Tools, stream: Stream)
    ensures HeaderOf(tools, stream.frames).Err? ==> PayloadOf(tools, stream) == Err(HeaderOf(tools, stream.frames).problem)
    ensures HeaderOf(tools, stream.frames).Ok? ==>
      && |stream.frames| > 0 && HeaderOk(HeaderOf(tools, stream.frames).value)
      && PayloadOf(tools, stream) == AfterHeader(tools, stream, HeaderOf(tools, stream.frames).value)
  {
    hide HeaderOk, AfterHeader;
  }

  // The counts of the records by model, as _read_through keeps them.
  function Tally(records: seq<Value>, counts: map<string, nat>): map<string, nat>
    requires forall i :: 0 <= i < |records| ==> Get(records[i], "model").Text?
  {
    if |records| == 0 then counts
    else
      var name := Get(records[0], "model").s;
      Tally(records[1..], counts[name := 1 + if name in counts then counts[name] else 0])
  }

  ghost function SumOver(counts: map<string, nat>, names: set<string>): nat
    requires names <= counts.Keys
  {
    if names == {} then 0
    else
      var name :| name in names;
      counts[name] + SumOver(counts, names - {name})
  }

  lemma {:induction false} SumWithout(counts: map<string, nat>, names: set<string>, name: string)
    requires names <= counts.Keys && name in names
    ensures SumOver(counts, names) == counts[name] + SumOver(counts, names - {name})
    decreases |names|
  {
    var first :| first in names && SumOver(counts, names) == counts[first] + SumOver(counts, names - {first});
    if first != name {
      SumWithout(counts, names - {first}, name);
      SumWithout(counts, names - {name}, first);
      assert names - {first} - {name} == names - {name} - {first};
    }
  }

  lemma {:induction false} SumElsewhere(counts: map<string, nat>, other: map<string, nat>, names: set<string>)
    requires names <= counts.Keys && names <= other.Keys && forall name :: name in names ==> counts[name] == other[name]
    ensures SumOver(counts, names) == SumOver(other, names)
    decreases |names|
  {
    if names != {} {
      var name :| name in names;
      SumWithout(counts, names, name);
      SumWithout(other, names, name);
      SumElsewhere(counts, other, names - {name});
    }
  }

  lemma SumGrows(counts: map<string, nat>, name: string)
    ensures var more := counts[name := 1 + if name in counts then counts[name] else 0];
            SumOver(more, more.Keys) == SumOver(counts, counts.Keys) + 1
  {
    var more := counts[name := 1 + if name in counts then counts[name] else 0];
    SumWithout(more, more.Keys, name);
    var rest := more.Keys - {name};
    SumElsewhere(counts, more, rest);
    if name in counts {
      SumWithout(counts, counts.Keys, name);
      assert counts.Keys - {name} == rest;
    } else {
      assert counts.Keys == rest;
    }
  }

  // The counts add up to the number of records.
  lemma {:induction false} TallySum(records: seq<Value>, counts: map<string, nat>)
    requires forall i :: 0 <= i < |records| ==> Get(records[i], "model").Text?
    ensures SumOver(Tally(records, counts), Tally(records, counts).Keys) == SumOver(counts, counts.Keys) + |records|
  {
    if |records| > 0 {
      var name := Get(records[0], "model").s;
      SumGrows(counts, name);
      TallySum(records[1..], counts[name := 1 + if name in counts then counts[name] else 0]);
    }
  }

  // The counts the trailer lists, without the zeros; a model listed twice keeps its last count.
  function Recorded(models: seq<Value>): map<string, nat>
    requires forall i :: 0 <= i < |models| ==> ModelCountOk(models[i])
  {
    if |models| == 0 then map[]
    else
      var before, last := Recorded(models[..|models| - 1]), models[|models| - 1];
      assert ModelCountOk(last);
      if Get(last, "count").n == 0 then before else before[Get(last, "model").s := Get(last, "count").n]
  }

  function FilesRead(files: seq<Content>): nat {
    if |files| == 0 then 0 else FilesRead(files[..|files| - 1]) + (if files[|files| - 1].skipped.Some? then 0 else 1)
  }

  predicate RecordsHaveModels(batches: seq<seq<Value>>) {
    forall b :: 0 <= b < |batches| ==> forall i :: 0 <= i < |batches[b]| ==> Get(batches[b][i], "model").Text?
  }

  // The trailer's statistics agree with what was read.
  predicate CountsAgree(payload: Payload) {
    && TrailerOk(payload.trailer) && RecordsHaveModels(payload.batches)
    && var stats := Get(payload.trailer, "stats");
       && Recorded(Get(stats, "models").items) == TallyBatches(payload.batches, map[])
       && Get(stats, "records").n == |Flatten(payload.batches)|
       && Get(stats, "files").n == FilesRead(payload.files)
  }

  // ----- what the counts mean

  // How many records belong to a model.
  function CountOf(records: seq<Value>, name: string): nat {
    if |records| == 0 then 0
    else CountOf(records[..|records| - 1], name) + if Get(records[|records| - 1], "model") == Text(name) then 1 else 0
  }

  predicate Lists(item: Value, name: string) {
    Get(item, "model") == Text(name) && Get(item, "count") != Number(0)
  }

  // The entry that counts for a model: the last one with a number other than zero.
  predicate LastListed(models: seq<Value>, name: string, i: nat) {
    i < |models| && Lists(models[i], name) && forall j :: i < j < |models| ==> !Lists(models[j], name)
  }

  // The trailer tells the number of records, of every model and of the files that were not skipped.
  ghost predicate TrailerTells(payload: Payload) {
    var (stats, records) := (Get(payload.trailer, "stats"), Flatten(payload.batches));
    && Get(stats, "models").List? && var models := Get(stats, "models").items;
    && Get(stats, "records") == Number(|records|)
    && Get(stats, "files") == Number(|set i | 0 <= i < |payload.files| && payload.files[i].skipped.None?|)
    && (forall name, i: nat :: LastListed(models, name, i) ==> Get(models[i], "count") == Number(CountOf(records, name)))
    && (forall name :: CountOf(records, name) > 0 ==> exists i: nat :: i < |models| && Lists(models[i], name))
  }

  lemma {:induction false} CountOfJoined(left: seq<Value>, right: seq<Value>, name: string)
    ensures CountOf(left + right, name) == CountOf(left, name) + CountOf(right, name)
    decreases |right|
  {
    if |right| == 0 {
      assert left + right == left;
    } else {
      CountOfJoined(left, right[..|right| - 1], name);
      assert (left + right)[..|left + right| - 1] == left + right[..|right| - 1];
    }
  }

  lemma CountOfOne(record: Value, name: string)
    ensures CountOf([record], name) == if Get(record, "model") == Text(name) then 1 else 0
  {
    assert [record][..0] == [];
  }

  // A tally holds for every model what it held and the records of that model.
  lemma {:induction false} TallyCounts(records: seq<Value>, counts: map<string, nat>, name: string)
    requires forall i :: 0 <= i < |records| ==> Get(records[i], "model").Text?
    ensures var tally := Tally(records, counts);
            && (name in tally <==> name in counts || CountOf(records, name) > 0)
            && (name in tally ==> tally[name] == (if name in counts then counts[name] else 0) + CountOf(records, name))
  {
    hide CountOf, Get;
    if |records| == 0 {
      NoneCounted(name);
      assert records == [];
    } else {
      var first := Get(records[0], "model").s;
      TallyCounts(records[1..], counts[first := 1 + if first in counts then counts[first] else 0], name);
      CountOfOne(records[0], name);
      CountOfJoined([records[0]], records[1..], name);
      assert records == [records[0]] + records[1..];
    }
  }

  lemma NoneCounted(name: string)
    ensures CountOf([], name) == 0
  {}

  lemma {:induction false} TallyBatchesCounts(batches: seq<seq<Value>>, counts: map<string, nat>, name: string)
    requires RecordsHaveModels(batches)
    ensures var tally := TallyBatches(batches, counts);
            && (name in tally <==> name in counts || CountOf(Flatten(batches), name) > 0)
            && (name in tally ==> tally[name] == (if name in counts then counts[name] else 0) + CountOf(Flatten(batches), name))
  {
    hide CountOf, Tally, Flatten;
    if |batches| == 0 {
      NothingToCount(name);
      assert batches == [];
    } else {
      TallyCounts(batches[0], counts, name);
      TallyBatchesCounts(batches[1..], Tally(batches[0], counts), name);
      FlattenHead(batches[0], batches[1..]);
      CountOfJoined(batches[0], Flatten(batches[1..]), name);
      assert batches == [batches[0]] + batches[1..];
    }
  }

  lemma NothingToCount(name: string)
    ensures CountOf(Flatten([]), name) == 0
  {}

  // What is recorded for a model is its last entry other than zero.
  lemma {:induction false} RecordedIsLast(models: seq<Value>, name: string)
    requires forall i :: 0 <= i < |models| ==> ModelCountOk(models[i])
    ensures name in Recorded(models) <==> exists i: nat :: i < |models| && Lists(models[i], name)
    ensures name in Recorded(models) ==> exists i: nat :: LastListed(models, name, i) && Get(models[i], "count") == Number(Recorded(models)[name])
  {
    hide Get;
    if |models| > 0 {
      var n := |models| - 1;
      var (front, last) := (models[..n], models[n]);
      assert ModelCountOk(last);
      RecordedIsLast(front, name);
      if Lists(last, name) {
        assert LastListed(models, name, n);
      } else if name in Recorded(front) {
        var i: nat :| LastListed(front, name, i) && Get(front[i], "count") == Number(Recorded(front)[name]);
        assert LastListed(models, name, i);
      }
    }
  }

  lemma OneLast(models: seq<Value>, name: string, i: nat, j: nat)
    requires LastListed(models, name, i) && LastListed(models, name, j)
    ensures i == j
  {}

  function ReadIndices(files: seq<Content>): set<int> {
    set i | 0 <= i < |files| && files[i].skipped.None?
  }

  lemma ReadMore(files: seq<Content>)
    requires |files| > 0
    ensures var n := |files| - 1;
            n !in ReadIndices(files[..n]) && ReadIndices(files) == ReadIndices(files[..n]) + if files[n].skipped.None? then {n} else {}
  {
    var n := |files| - 1;
    forall i ensures i in ReadIndices(files) <==> i in ReadIndices(files[..n]) || (i == n && files[n].skipped.None?) {
      if 0 <= i < n {
        assert files[..n][i] == files[i];
      }
    }
  }

  lemma {:induction false} FilesReadIs(files: seq<Content>)
    ensures FilesRead(files) == |set i | 0 <= i < |files| && files[i].skipped.None?|
  {
    assert ReadIndices(files) == set i | 0 <= i < |files| && files[i].skipped.None?;
    FilesReadAre(files);
  }

  lemma {:induction false} FilesReadAre(files: seq<Content>)
    ensures FilesRead(files) == |ReadIndices(files)|
  {
    hide ReadIndices;
    if |files| == 0 {
      assert ReadIndices(files) == {} by { NoneRead(files); }
    } else {
      FilesReadAre(files[..|files| - 1]);
      ReadMore(files);
    }
  }

  lemma NoneRead(files: seq<Content>)
    requires files == []
    ensures ReadIndices(files) == {}
  {}

  // The counts agree exactly when the trailer tells the truth about what was read.
  lemma CountsAgreeExactly(payload: Payload)
    requires TrailerOk(payload.trailer) && RecordsHaveModels(payload.batches)
    ensures CountsAgree(payload) <==> TrailerTells(payload)
  {
    TrailerHasCounts(payload.trailer);
    FilesReadIs(payload.files);
    var stats := Get(payload.trailer, "stats");
    var models, tally := Get(stats, "models").items, TallyBatches(payload.batches, map[]);
    hide *;
    TellsModels(models, payload.batches);
    AgreeMeans(payload);
    TellsMeans(payload);
  }

  ghost predicate ModelsTold(models: seq<Value>, records: seq<Value>) {
    && (forall name, i: nat :: LastListed(models, name, i) ==> Get(models[i], "count") == Number(CountOf(records, name)))
    && (forall name :: CountOf(records, name) > 0 ==> exists i: nat :: i < |models| && Lists(models[i], name))
  }

  lemma TellsModels(models: seq<Value>, batches: seq<seq<Value>>)
    requires RecordsHaveModels(batches) && forall i :: 0 <= i < |models| ==> ModelCountOk(models[i])
    ensures Recorded(models) == TallyBatches(batches, map[]) <==> ModelsTold(models, Flatten(batches))
  {
    hide *;
    if Recorded(models) == TallyBatches(batches, map[]) {
      EqualTells(models, batches);
    }
    if ModelsTold(models, Flatten(batches)) {
      ToldIsEqual(models, batches);
    }
  }

  lemma EqualTells(models: seq<Value>, batches: seq<seq<Value>>)
    requires RecordsHaveModels(batches) && forall i :: 0 <= i < |models| ==> ModelCountOk(models[i])
    requires Recorded(models) == TallyBatches(batches, map[])
    ensures ModelsTold(models, Flatten(batches))
  {
    hide Recorded, TallyBatches, Flatten, CountOf, RecordsHaveModels, ModelCountOk, Lists, Get;
    var (recorded, records) := (Recorded(models), Flatten(batches));
    forall name, i: nat | LastListed(models, name, i) ensures Get(models[i], "count") == Number(CountOf(records, name)) {
      RecordedIsLast(models, name);
      TallyBatchesCounts(batches, map[], name);
      var j: nat :| LastListed(models, name, j) && Get(models[j], "count") == Number(recorded[name]);
      OneLast(models, name, i, j);
    }
    forall name | CountOf(records, name) > 0 ensures exists i: nat :: i < |models| && Lists(models[i], name) {
      RecordedIsLast(models, name);
      TallyBatchesCounts(batches, map[], name);
    }
  }

  lemma ToldIsEqual(models: seq<Value>, batches: seq<seq<Value>>)
    requires RecordsHaveModels(batches) && forall i :: 0 <= i < |models| ==> ModelCountOk(models[i])
    requires ModelsTold(models, Flatten(batches))
    ensures Recorded(models) == TallyBatches(batches, map[])
  {
    hide Recorded, TallyBatches, Flatten, CountOf, RecordsHaveModels, ModelCountOk, Lists, Get;
    var (recorded, tally) := (Recorded(models), TallyBatches(batches, map[]));
    forall name ensures name in recorded <==> name in tally ensures name in recorded ==> recorded[name] == tally[name] {
      RecordedIsLast(models, name);
      TallyBatchesCounts(batches, map[], name);
      if name in recorded {
        var j: nat :| LastListed(models, name, j) && Get(models[j], "count") == Number(recorded[name]);
        ListedIsNotZero(models[j], name);
      }
    }
  }

  lemma ListedIsNotZero(item: Value, name: string)
    requires Lists(item, name)
    ensures Get(item, "count") != Number(0)
  {}

  lemma AgreeMeans(payload: Payload)
    requires TrailerOk(payload.trailer) && RecordsHaveModels(payload.batches)
    requires var stats := Get(payload.trailer, "stats");
             && Get(stats, "models").List? && (forall i :: 0 <= i < |Get(stats, "models").items| ==> ModelCountOk(Get(stats, "models").items[i]))
             && Get(stats, "records").Number? && Get(stats, "files").Number?
    ensures var stats := Get(payload.trailer, "stats");
            CountsAgree(payload) <==>
              && Recorded(Get(stats, "models").items) == TallyBatches(payload.batches, map[])
              && Get(stats, "records").n == |Flatten(payload.batches)| && Get(stats, "files").n == FilesRead(payload.files)
  {
    hide TrailerOk, RecordsHaveModels, Recorded, TallyBatches, Flatten, FilesRead, ModelCountOk, Get;
  }

  lemma TellsMeans(payload: Payload)
    requires Get(Get(payload.trailer, "stats"), "models").List?
    ensures var stats := Get(payload.trailer, "stats");
            TrailerTells(payload) <==>
              && ModelsTold(Get(stats, "models").items, Flatten(payload.batches))
              && Get(stats, "records") == Number(|Flatten(payload.batches)|)
              && Get(stats, "files") == Number(|set i | 0 <= i < |payload.files| && payload.files[i].skipped.None?|)
  {
    hide Flatten, CountOf, Lists, LastListed, Get;
  }

  function TallyBatches(batches: seq<seq<Value>>, counts: map<string, nat>): map<string, nat>
    requires RecordsHaveModels(batches)
  {
    if |batches| == 0 then counts else TallyBatches(batches[1..], Tally(batches[0], counts))
  }

  lemma {:induction false} BatchesSum(batches: seq<seq<Value>>, counts: map<string, nat>)
    requires RecordsHaveModels(batches)
    ensures var tally := TallyBatches(batches, counts);
            SumOver(tally, tally.Keys) == SumOver(counts, counts.Keys) + |Flatten(batches)|
  {
    if |batches| > 0 {
      TallySum(batches[0], counts);
      BatchesSum(batches[1..], Tally(batches[0], counts));
      FlattenHead(batches[0], batches[1..]);
      assert batches == [batches[0]] + batches[1..];
    }
  }

  // sum(counts.values())
  method SumOfValues(counts: map<string, nat>) returns (sum: nat)
    ensures sum == SumOver(counts, counts.Keys)
  {
    var names := counts.Keys;
    sum := 0;
    while names != {}
      invariant names <= counts.Keys && sum + SumOver(counts, names) == SumOver(counts, counts.Keys)
      decreases |names|
    {
      var name :| name in names;
      SumWithout(counts, names, name);
      sum, names := sum + counts[name], names - {name};
    }
  }

  // Every batch that was read holds records that name their model.
  lemma {:induction false} ReadRecordsHaveModels(tools: Tools, frames: seq<Frame>, rank: map<string, nat>, position: nat)
    ensures match RecordsOf(tools, frames, rank, position) case Err(_) => true case Ok((batches, _)) => RecordsHaveModels(batches)
    decreases |frames|
  {
    if |frames| > 0 && frames[0].kind.Records? {
      var batch := BatchOf(tools, frames[0], rank, position);
      if batch.Ok? {
        CheckedHaveModels(batch.value.0, rank, position);
        ReadRecordsHaveModels(tools, frames[1..], rank, batch.value.1);
      }
    }
  }

  lemma {:induction false} CheckedHaveModels(records: seq<Value>, rank: map<string, nat>, current: nat)
    requires CheckedRecords(records, rank, current).Ok?
    ensures forall i :: 0 <= i < |records| ==> Get(records[i], "model").Text?
  {
    if |records| > 0 {
      CheckedHaveModels(records[1..], rank, rank[Get(records[0], "model").s]);
    }
  }

  lemma PayloadShape(tools: Tools, bytes: seq<Byte>)
    requires PayloadIn(tools, bytes).Ok?
    ensures var payload := PayloadIn(tools, bytes).value; TrailerOk(payload.trailer) && RecordsHaveModels(payload.batches)
  {
    hide PayloadMagic, ManifestOf, FilesOf, RecordsOf, Split, HeaderOk, TrailerOk, RankOf, RecordsHaveModels;
    var stream := Split(bytes[8..]);
    var header := HeaderOf(tools, stream.frames).value;
    var manifest := ManifestOf(tools, stream.frames[1..], []).value;
    var files := FilesOf(tools, manifest.1, 0, |manifest.0|).value;
    HeaderHasOrder(header);
    ReadRecordsHaveModels(tools, files.1, RankOf(Get(header, "order").items), 0);
  }

  // _read_through: the payload is accepted exactly when it parses and its counts agree.
  method ReadThrough(tools: Tools, pieces: seq<seq<Byte>>) returns (result: Result<Payload>)
    ensures var parsed := PayloadIn(tools, Flatten(pieces));
            result == if parsed.Ok? && !CountsAgree(parsed.value) then Err(MalformedPayload) else parsed
  {
    hide PayloadIn, Flatten, Tally, Recorded, FilesRead, SumOver, TrailerOk, Get;
    result := ReadPayload(tools, pieces);
    if result.Err? {
      return;
    }
    var payload := result.value;
    PayloadShape(tools, Flatten(pieces));
    var counts := TallyAll(payload.batches);
    BatchesSum(payload.batches, map[]);
    var sum := SumOfValues(counts);
    var files := CountFiles(payload.files);
    NothingSums();
    TrailerHasCounts(payload.trailer);
    var stats := Get(payload.trailer, "stats");
    if Recorded(Get(stats, "models").items) != counts || Get(stats, "records").n != sum {
      return Err(MalformedPayload);
    }
    if Get(stats, "files").n != files {
      return Err(MalformedPayload);
    }
  }

  lemma NothingSums()
    ensures var none: map<string, nat> := map[]; SumOver(none, none.Keys) == 0
  {}

  lemma TrailerHasCounts(trailer: Value)
    requires TrailerOk(trailer)
    ensures var stats := Get(trailer, "stats");
            && Get(stats, "models").List? && (forall i :: 0 <= i < |Get(stats, "models").items| ==> ModelCountOk(Get(stats, "models").items[i]))
            && Get(stats, "records").Number? && Get(stats, "records").n >= 0 && Get(stats, "files").Number? && Get(stats, "files").n >= 0
  {}

  method TallyAll(batches: seq<seq<Value>>) returns (counts: map<string, nat>)
    requires RecordsHaveModels(batches)
    ensures counts == TallyBatches(batches, map[])
  {
    counts := map[];
    ghost var left := batches;
    for b := 0 to |batches|
      invariant left == batches[b..] && TallyBatches(batches, map[]) == TallyBatches(left, counts)
    {
      counts := TallyBatch(batches[b], counts);
      left := left[1..];
    }
  }

  method TallyBatch(records: seq<Value>, before: map<string, nat>) returns (counts: map<string, nat>)
    requires forall i :: 0 <= i < |records| ==> Get(records[i], "model").Text?
    ensures counts == Tally(records, before)
  {
    counts := before;
    for i := 0 to |records|
      invariant Tally(records, before) == Tally(records[i..], counts)
    {
      var name := Get(records[i], "model").s;
      assert records[i..][1..] == records[i + 1..];
      counts := counts[name := 1 + if name in counts then counts[name] else 0];
    }
  }

  method CountFiles(files: seq<Content>) returns (count: nat)
    ensures count == FilesRead(files)
  {
    count := 0;
    for i := 0 to |files|
      invariant count == FilesRead(files[..i])
    {
      assert files[..i + 1][..i] == files[..i];
      count := count + if files[i].skipped.Some? then 0 else 1;
    }
    assert files[..|files|] == files;
  }
}
