// The payload grammar of dbs/engine/frames.py and its reader: header, manifests, the data and the
// end of every file, records, trailer, and nothing after it.
module Payload {
  import opened Wrappers
  import opened Sequences
  import opened Bytes
  import opened Json
  import opened Frames

  const PAYLOAD_VERSION: nat := 2
  const MAX_FILES: nat := 0xFFFF_FFFF

  // What is raised; UnhashableKey is Python's TypeError for a list or an object used as a key.
  datatype Problem = NotAPayload | MalformedPayload | IntegrityFailure | ReadOutOfOrder | UnhashableKey

  datatype Result<+T> = Ok(value: T) | Err(problem: Problem)

  // ----- the checks on single values

  datatype FileEntry = FileEntry(kind: string, size: nat, model: Value, pk: Value, field: Value, name: string, root: Value)

  predicate HeaderOk(v: Value) {
    && v.Object? && Equals(Get(v, "version"), PAYLOAD_VERSION)
    && Get(v, "order").List? && AllTexts(Get(v, "order").items)
    && (Get(v, "migrations").Null? || (Get(v, "migrations").Object? && MigrationsOk(Get(v, "migrations"))))
    && IsOptionalText(Get(v, "created")) && IsOptionalText(Get(v, "django_version"))
  }

  predicate MigrationsOk(v: Value)
    requires v.Object?
  {
    forall app :: app in v.fields ==> v.fields[app].Text?
  }

  // checked_entry
  function CheckedEntry(v: Value): Option<FileEntry> {
    if !v.Object? || !Get(v, "kind").Text? || !Get(v, "name").Text? || !IsCount(Get(v, "size")) then None
    else if !IsOptionalText(Get(v, "model")) || !IsOptionalText(Get(v, "field")) || !IsOptionalText(Get(v, "root")) then None
    else if !IsScalar(Get(v, "pk")) then None
    else Some(FileEntry(Get(v, "kind").s, Get(v, "size").n, Get(v, "model"), Get(v, "pk"), Get(v, "field"), Get(v, "name").s, Get(v, "root")))
  }

  function CheckedEntries(items: seq<Value>): Option<seq<FileEntry>> {
    if |items| == 0 then Some([])
    else match CheckedEntry(items[0])
      case None => None
      case Some(entry) =>
        match CheckedEntries(items[1..])
        case None => None
        case Some(rest) => Some([entry] + rest)
  }

  // Label to position; a label listed twice keeps its last position.
  function RankOf(order: seq<Value>): map<string, nat>
    requires AllTexts(order)
  {
    if |order| == 0 then map[] else RankOf(order[..|order| - 1])[order[|order| - 1].s := |order| - 1]
  }

  // The position of a record in the model order.
  function CheckedRecord(record: Value, rank: map<string, nat>, current: nat): Result<nat> {
    var model := Get(record, "model");
    if !Get(record, "fields").Object? then Err(MalformedPayload)
    else if !IsScalar(model) then Err(UnhashableKey)
    else if !model.Text? || model.s !in rank || rank[model.s] < current || !IsScalar(Get(record, "pk")) then Err(MalformedPayload)
    else Ok(rank[model.s])
  }

  // checked_records: the position after the records, when all of them are in order.
  function CheckedRecords(records: seq<Value>, rank: map<string, nat>, current: nat): Result<nat> {
    if |records| == 0 then Ok(current)
    else match CheckedRecord(records[0], rank, current)
      case Err(p) => Err(p)
      case Ok(position) => CheckedRecords(records[1..], rank, position)
  }

  predicate ModelCountOk(v: Value) {
    Get(v, "model").Text? && IsCount(Get(v, "count"))
  }

  predicate TrailerOk(v: Value) {
    var stats := Get(v, "stats");
    && stats.Object?
    && Get(stats, "models").List? && (forall i :: 0 <= i < |Get(stats, "models").items| ==> ModelCountOk(Get(stats, "models").items[i]))
    && IsCount(Get(stats, "records")) && IsCount(Get(stats, "files"))
    && Get(stats, "skipped_files").List? && AllTexts(Get(stats, "skipped_files").items)
  }

  // ----- the grammar, frame by frame

  datatype Tools = Tools(codec: Codec, sha256: seq<Byte> -> string)

  // What was read of one file: its chunks, and why its source was skipped when it was.
  datatype Content = Content(chunks: seq<seq<Byte>>, skipped: Option<string>)

  datatype Payload = Payload(header: Value, entries: seq<FileEntry>, files: seq<Content>, batches: seq<seq<Value>>, trailer: Value)

  // A frame of a kind whose body parses.
  function Parsed(tools: Tools, frames: seq<Frame>, kind: Kind): Result<Value> {
    if |frames| == 0 || frames[0].kind != kind then Err(MalformedPayload)
    else match tools.codec.parse(frames[0].body)
      case None => Err(MalformedPayload)
      case Some(v) => Ok(v)
  }

  function HeaderOf(tools: Tools, frames: seq<Frame>): Result<Value> {
    match Parsed(tools, frames, Header)
    case Err(p) => Err(p)
    case Ok(v) => if HeaderOk(v) then Ok(v) else Err(MalformedPayload)
  }

  // The entries of the manifest frames, and the frames behind them.
  function ManifestOf(tools: Tools, frames: seq<Frame>, entries: seq<FileEntry>): Result<(seq<FileEntry>, seq<Frame>)> {
    if |frames| == 0 then Err(MalformedPayload)
    else if !frames[0].kind.Manifest? then Ok((entries, frames))
    else match ManifestItems(tools, frames[0])
      case Err(p) => Err(p)
      case Ok(more) =>
        if |entries + more| > MAX_FILES then Err(MalformedPayload) else ManifestOf(tools, frames[1..], entries + more)
  }

  function ManifestItems(tools: Tools, frame: Frame): Result<seq<FileEntry>> {
    match tools.codec.parse(frame.body)
    case Some(List(items)) =>
      (match CheckedEntries(items)
       case None => Err(MalformedPayload)
       case Some(entries) => Ok(entries))
    case _ => Err(MalformedPayload)
  }

  predicate IsDataOf(frame: Frame, index: nat) {
    frame.kind.FileData? && |frame.body| >= INDEX_SIZE && FromBigEndian(frame.body[..INDEX_SIZE]) == index
  }

  // FileStream.chunks: the data frames of one file up to its end, and the frames behind it.
  function FileOf(tools: Tools, frames: seq<Frame>, index: nat, chunks: seq<seq<Byte>>): Result<(Content, seq<Frame>)> {
    if |frames| == 0 then Err(MalformedPayload)
    else if frames[0].kind.FileData? then
      if !IsDataOf(frames[0], index) then Err(MalformedPayload)
      else FileOf(tools, frames[1..], index, chunks + [frames[0].body[INDEX_SIZE..]])
    else if !frames[0].kind.FileEnd? then Err(MalformedPayload)
    else match tools.codec.parse(frames[0].body)
      case None => Err(MalformedPayload)
      case Some(v) =>
        match FinishedFile(tools, v, index, chunks)
        case Err(p) => Err(p)
        case Ok(content) => Ok((content, frames[1..]))
  }

  // FileStream._finish
  function FinishedFile(tools: Tools, end: Value, index: nat, chunks: seq<seq<Byte>>): Result<Content> {
    if !end.Object? || !Equals(Get(end, "index"), index) then Err(MalformedPayload)
    else if !Get(end, "skipped").Null? then
      if !Get(end, "skipped").Text? || Get(end, "skipped").s == "" then Err(MalformedPayload)
      else Ok(Content(chunks, Some(Get(end, "skipped").s)))
    else if !IsCount(Get(end, "size")) || !Get(end, "sha256").Text? then Err(MalformedPayload)
    else if Get(end, "size").n != |Flatten(chunks)| || Get(end, "sha256").s != tools.sha256(Flatten(chunks)) then Err(IntegrityFailure)
    else Ok(Content(chunks, None))
  }

  // The files from one index on.
  function FilesOf(tools: Tools, frames: seq<Frame>, index: nat, count: nat): Result<(seq<Content>, seq<Frame>)>
    requires index <= count
    decreases count - index
  {
    if index == count then Ok(([], frames))
    else match FileOf(tools, frames, index, [])
      case Err(p) => Err(p)
      case Ok((content, rest)) =>
        match FilesOf(tools, rest, index + 1, count)
        case Err(p) => Err(p)
        case Ok((more, behind)) => Ok(([content] + more, behind))
  }

  // The record batches from a position in the model order on.
  function RecordsOf(tools: Tools, frames: seq<Frame>, rank: map<string, nat>, position: nat): Result<(seq<seq<Value>>, seq<Frame>)> {
    if |frames| == 0 then Err(MalformedPayload)
    else if !frames[0].kind.Records? then Ok(([], frames))
    else match BatchOf(tools, frames[0], rank, position)
      case Err(p) => Err(p)
      case Ok((records, next)) =>
        match RecordsOf(tools, frames[1..], rank, next)
        case Err(p) => Err(p)
        case Ok((more, behind)) => Ok(([records] + more, behind))
  }

  function BatchOf(tools: Tools, frame: Frame, rank: map<string, nat>, position: nat): Result<(seq<Value>, nat)> {
    match tools.codec.parse(frame.body)
    case Some(List(records)) =>
      (match CheckedRecords(records, rank, position)
       case Err(p) => Err(p)
       case Ok(next) => Ok((records, next)))
    case _ => Err(MalformedPayload)
  }

  function TrailerOf(tools: Tools, frames: seq<Frame>): Result<Value> {
    match Parsed(tools, frames, Trailer)
    case Err(p) => Err(p)
    case Ok(v) => if TrailerOk(v) then Ok(v) else Err(MalformedPayload)
  }

  // The phases behind a header that was accepted.
  function AfterHeader(tools: Tools, stream: Stream, header: Value): Result<Payload>
    requires |stream.frames| > 0 && HeaderOk(header)
  {
    match ManifestOf(tools, stream.frames[1..], [])
    case Err(p) => Err(p)
    case Ok((entries, behindManifest)) =>
      match FilesOf(tools, behindManifest, 0, |entries|)
      case Err(p) => Err(p)
      case Ok((files, behindFiles)) =>
        match RecordsOf(tools, behindFiles, RankOf(Get(header, "order").items), 0)
        case Err(p) => Err(p)
        case Ok((batches, behindRecords)) => AfterRecords(tools, stream, header, entries, files, batches, behindRecords)
  }

  function AfterRecords(tools: Tools, stream: Stream, header: Value, entries: seq<FileEntry>, files: seq<Content>, batches: seq<seq<Value>>,
                        behind: seq<Frame>): Result<Payload> {
    match TrailerOf(tools, behind)
    case Err(p) => Err(p)
    case Ok(trailer) =>
      if |behind| > 1 || stream.torn then Err(MalformedPayload) else Ok(Payload(header, entries, files, batches, trailer))
  }

  // A whole payload, read phase by phase to its finish.
  function PayloadOf(tools: Tools, stream: Stream): Result<Payload> {
    match HeaderOf(tools, stream.frames)
    case Err(p) => Err(p)
    case Ok(header) => AfterHeader(tools, stream, header)
  }

  // The same for a byte stream.
  function PayloadMagic(): (magic: seq<Byte>)
    ensures |magic| == 8
  {
    Ascii("DBSPAY02")
  }

  function PayloadIn(tools: Tools, bytes: seq<Byte>): Result<Payload> {
    if |bytes| < 8 then Err(MalformedPayload)
    else if bytes[..8] != PayloadMagic() then Err(NotAPayload)
    else PayloadOf(tools, Split(bytes[8..]))
  }
}
