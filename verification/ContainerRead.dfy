// Opening and reading a whole container (dbs/container/stream.py): the header copies, the end, one
// pass, and what that yields when any bytes of the container were altered.
module ContainerRead {
  import opened Wrappers
  import opened Sequences
  import opened Bytes
  import opened GaloisField
  import opened Encoder
  import opened CopyRepair
  import opened Layout
  import opened Records
  import opened Container
  import opened EndOfStream
  import opened BlockRepair
  import opened ChunkCipher
  import opened Reader

  // What a header says: the layout, and the hashes and the cipher keyed by it.
  datatype Keyed = Keyed(layout: StreamLayout, codec: Codec)

  // The check of a sealed header of this version, and its parsing and unlocking; None where the
  // source raises.
  datatype HeaderFormat = HeaderFormat(verified: seq<Byte> -> bool, parse: seq<Byte> -> Option<Keyed>) {
    ghost predicate Sound() {
      forall raw :: parse(raw).Some? ==>
        var keyed := parse(raw).value;
        keyed.layout.Valid() && keyed.codec.Sound() && DecoderContract(keyed.codec.decoder, keyed.layout.nsym)
    }

    // Whatever header is found, its cipher opens nothing but what the run sealed.
    ghost predicate Authentic(chunks: seq<seq<Byte>>) {
      forall raw :: parse(raw).Some? ==> parse(raw).value.codec.Authentic(chunks)
    }
  }

  function FrontHeader(source: seq<Byte>): seq<Byte> {
    ReadAt(source, 0, HEADER_SIZE)
  }

  function BackHeader(source: seq<Byte>): Option<seq<Byte>> {
    if |source| >= 2 * HEADER_SIZE then Some(ReadAt(source, |source| - HEADER_SIZE, HEADER_SIZE)) else None
  }

  // The first header copy that verifies.
  function ChosenHeader(source: seq<Byte>, format: HeaderFormat): Option<seq<Byte>> {
    if format.verified(FrontHeader(source)) then Some(FrontHeader(source))
    else if BackHeader(source).Some? && format.verified(BackHeader(source).value) then BackHeader(source)
    else None
  }

  // The parts of the container that a reader reports as damaged.
  datatype Part = FrontHeaderPart | BackHeaderPart | FirstTrailer | SecondTrailer | BothTrailers

  // _locate_header
  method LocateHeader(source: seq<Byte>, format: HeaderFormat) returns (keyed: Option<Keyed>, damaged: seq<Part>)
    ensures keyed == match ChosenHeader(source, format) case None => None case Some(raw) => format.parse(raw)
    ensures var (front, back) := (FrontHeader(source), BackHeader(source));
            && (format.verified(front) ==> keyed == format.parse(front))
            && (!format.verified(front) && back.Some? && format.verified(back.value) ==> keyed == format.parse(back.value))
            && (!format.verified(front) && (back.None? || !format.verified(back.value)) ==> keyed.None?)
    ensures keyed.Some? ==>
      && (FrontHeaderPart in damaged <==> Some(FrontHeader(source)) != ChosenHeader(source, format))
      && (BackHeaderPart in damaged <==> BackHeader(source) != ChosenHeader(source, format))
      && (forall part :: part in damaged ==> part == FrontHeaderPart || part == BackHeaderPart)
  {
    hide ReadAt;
    damaged := [];
    var offsets := if |source| >= 2 * HEADER_SIZE then [0, |source| - HEADER_SIZE] else [0];
    var chosen: Option<seq<Byte>> := None;
    for i := 0 to |offsets|
      invariant chosen == if i == 0 then None
                          else if format.verified(FrontHeader(source)) then Some(FrontHeader(source))
                          else if i == 1 then None else ChosenHeader(source, format)
    {
      var raw := ReadAt(source, offsets[i], HEADER_SIZE);
      if chosen.None? && format.verified(raw) {
        chosen := Some(raw);
      }
    }
    if chosen.None? {
      return None, damaged;
    }
    keyed := format.parse(chosen.value);
    if Some(FrontHeader(source)) != chosen {
      damaged := damaged + [FrontHeaderPart];
    }
    if BackHeader(source) != chosen {
      damaged := damaged + [BackHeaderPart];
    }
  }

  // What a reader knows of a source once it is open; None where the source raises.
  ghost function ViewOf(source: seq<Byte>, format: HeaderFormat): (view: Option<View>)
    requires format.Sound()
  {
    match ChosenHeader(source, format)
    case None => None
    case Some(raw) =>
      match format.parse(raw)
      case None => None
      case Some(keyed) => ViewWith(source, keyed)
  }

  ghost function ViewWith(source: seq<Byte>, keyed: Keyed): Option<View>
    requires keyed.layout.Valid()
  {
    match EndOf(source, keyed.layout, keyed.codec.checksum, keyed.codec.containerId, keyed.codec.decoder)
    case None => None
    case Some(end) => Some(View(source, keyed.codec, keyed.layout, end.blocks, end.trailer))
  }

  lemma ViewIsValid(source: seq<Byte>, keyed: Keyed)
    requires keyed.layout.Valid() && keyed.codec.Sound() && DecoderContract(keyed.codec.decoder, keyed.layout.nsym)
    ensures ViewWith(source, keyed).Some? ==> ViewWith(source, keyed).value.Valid()
  {
    hide EndOf, StreamLayout.Valid, Codec.Sound, DecoderContract, Trailer.Plausible;
    TrailersArePlausible(source, keyed.layout, keyed.codec.checksum, keyed.codec.containerId, keyed.codec.decoder);
  }

  method TableFor(nsym: nat) returns (table: seq<seq<seq<Byte>>>)
    requires ValidNsym(nsym)
    ensures IsParityTable(table, nsym)
  {
    hide *;
    var exp, log := FieldTables();
    table := ParityTable(exp[..], log[..], nsym);
  }

  // A trailer copy is reported exactly if a trailer is in use and its bytes are not that trailer's.
  ghost predicate TrailersReported(source: seq<Byte>, view: View, damaged: seq<Part>)
    requires view.layout.Valid()
  {
    var at := view.layout.SlotOffset(2 * view.blocks);
    && (FirstTrailer in damaged <==>
          view.trailer.Some? && ReadAt(source, at, TRAILER_SIZE) != view.trailer.value.Seal(view.codec.checksum))
    && (SecondTrailer in damaged <==>
          view.trailer.Some? && ReadAt(source, at + TRAILER_SIZE, TRAILER_SIZE) != view.trailer.value.Seal(view.codec.checksum))
  }

  lemma FlagsReported(source: seq<Byte>, view: View, end: End, damaged: seq<Part>)
    requires view.layout.Valid() && FlagsTell(source, view.layout, view.codec.checksum, end) && view.blocks == end.blocks && view.trailer == end.trailer
    requires forall part :: part in damaged ==> part == FrontHeaderPart || part == BackHeaderPart
    ensures TrailersReported(source, view, damaged + TrailerDamage(end))
    ensures BothTrailers in damaged + TrailerDamage(end) <==> end.trailer.None?
    ensures FrontHeaderPart in damaged + TrailerDamage(end) <==> FrontHeaderPart in damaged
    ensures BackHeaderPart in damaged + TrailerDamage(end) <==> BackHeaderPart in damaged
  {
    hide ReadAt, StreamLayout.SlotOffset, StreamLayout.Valid, Trailer.Seal;
  }

  // StreamReader.__init__
  method OpenReader(source: seq<Byte>, format: HeaderFormat) returns (reader: StreamReader?, damaged: seq<Part>)
    requires format.Sound()
    ensures reader == null <==> ViewOf(source, format).None?
    ensures reader != null ==> fresh(reader) && reader.Configured() && reader.view.Valid() && ViewOf(source, format) == Some(reader.view)
    ensures reader != null ==>
      && (FrontHeaderPart in damaged <==> Some(FrontHeader(source)) != ChosenHeader(source, format))
      && (BackHeaderPart in damaged <==> BackHeader(source) != ChosenHeader(source, format))
      && (BothTrailers in damaged <==> reader.view.trailer.None?)
    ensures reader != null ==> TrailersReported(source, reader.view, damaged)
  {
    hide ChosenHeader, EndOf, IsParityTable, StreamLayout.Valid, Codec.Sound, DecoderContract, Trailer.Plausible;
    hide TrailersReported, FlagsTell, TrailerDamage, FrontHeader, BackHeader;
    var keyed;
    keyed, damaged := LocateHeader(source, format);
    if keyed.None? {
      return null, damaged;
    }
    var layout, codec := keyed.value.layout, keyed.value.codec;
    LayoutNsym(layout);
    var table := TableFor(layout.nsym);
    var end := LocateEnd(source, layout, codec.checksum, codec.containerId, table, codec.decoder);
    if end.None? {
      return null, damaged;
    }
    ViewIsValid(source, keyed.value);
    TrailerFlags(source, layout, codec.checksum, codec.containerId, codec.decoder);
    FlagsReported(source, View(source, codec, layout, end.value.blocks, end.value.trailer), end.value, damaged);
    damaged := damaged + TrailerDamage(end.value);
    reader := new StreamReader(View(source, codec, layout, end.value.blocks, end.value.trailer), table);
  }

  function TrailerDamage(end: End): seq<Part> {
    if end.trailer.None? then [BothTrailers]
    else (if end.firstDamaged then [FirstTrailer] else []) + (if end.secondDamaged then [SecondTrailer] else [])
  }

  lemma LayoutNsym(layout: StreamLayout)
    requires layout.Valid()
    ensures ValidNsym(layout.nsym)
  {}

  // ----- any alteration: the plaintext is a prefix of what was written

  lemma {:induction false} OpenedIsPrefix(view: View, chunks: seq<seq<Byte>>, count: nat)
    requires view.Valid() && view.codec.Authentic(chunks) && AllPlain(view, count)
    ensures count <= |chunks| && PlainUpTo(view, count) == Flatten(chunks[..count])
  {
    hide View.Valid, BlockAt, Ciphertext;
    if count > 0 {
      OpenedIsPrefix(view, chunks, count - 1);
      assert PlainAt(view, count - 1).Some?;
      assert chunks[..count][..count - 1] == chunks[..count - 1];
    } else {
      assert chunks[..0] == [];
    }
  }

  lemma WholeRunOnly(view: View, chunks: seq<seq<Byte>>)
    requires view.Valid() && view.codec.Authentic(chunks) && AllPlain(view, view.blocks)
    ensures view.blocks == |chunks|
  {
    hide BlockAt, Ciphertext, DecoderContract, StreamLayout.Valid;
    assert PlainAt(view, view.blocks - 1).Some?;
  }

  lemma PrefixOfRun(chunks: seq<seq<Byte>>, count: nat)
    requires count <= |chunks|
    ensures Flatten(chunks[..count]) <= Flatten(chunks)
    ensures count == |chunks| ==> Flatten(chunks[..count]) == Flatten(chunks)
  {
    assert chunks == chunks[..count] + chunks[count..];
    FlattenConcat(chunks[..count], chunks[count..]);
  }

  // For every source whatever: a wrong block count, swapped, missing or rewritten slots included.
  lemma AnyAlterationIsSafe(view: View, chunks: seq<seq<Byte>>, count: nat)
    requires view.Valid() && view.codec.Authentic(chunks) && AllPlain(view, count)
    ensures PlainUpTo(view, count) <= Flatten(chunks)
    ensures count == view.blocks ==> view.blocks == |chunks| && PlainUpTo(view, count) == Flatten(chunks)
  {
    hide View.Valid, Codec.Authentic, AllPlain, PlainUpTo, Flatten;
    OpenedIsPrefix(view, chunks, count);
    PrefixOfRun(chunks, count);
    if count == view.blocks {
      WholeRunOnly(view, chunks);
    }
  }

  // A header unlocks a cipher: under the run's key an ideal one for the run, under any other key
  // one that never sealed anything.  Nonce prefix and associated data come from the header found.
  ghost predicate Unlocks(format: HeaderFormat, cipher: seq<Byte> -> Aead, prefixIn: seq<Byte> -> seq<Byte>, written: seq<Byte>, chunks: seq<seq<Byte>>) {
    forall raw :: format.parse(raw).Some? ==>
      && (cipher(raw).OpensNothing() || cipher(raw).IdealFor(prefixIn(written), written, chunks))
      && forall index: nat, sealed, final ::
           format.parse(raw).value.codec.open(index, sealed, final) == OpenChunk(cipher(raw), prefixIn(raw), raw, index, sealed, final)
  }

  // From the ideal cipher to what a reader needs: whatever header is found, it opens nothing but
  // the run's own chunks in their places.
  lemma FormatIsAuthentic(format: HeaderFormat, cipher: seq<Byte> -> Aead, prefixIn: seq<Byte> -> seq<Byte>, written: seq<Byte>, chunks: seq<seq<Byte>>)
    requires Unlocks(format, cipher, prefixIn, written, chunks)
    ensures format.Authentic(chunks)
  {
    hide OpenChunk, Aead.IdealFor, Aead.OpensNothing, Codec.Authentic;
    forall raw | format.parse(raw).Some? ensures format.parse(raw).value.codec.Authentic(chunks) {
      FoundIsAuthentic(format.parse(raw).value.codec, cipher(raw), prefixIn(raw), raw, prefixIn(written), written, chunks);
    }
  }

  // The safety of reading from the ideal cipher on: for every source, what opens is a prefix of
  // what was written, and a whole reading is all of it.
  lemma ReadingIsSafe(source: seq<Byte>, format: HeaderFormat, cipher: seq<Byte> -> Aead, prefixIn: seq<Byte> -> seq<Byte>,
                      written: seq<Byte>, chunks: seq<seq<Byte>>, count: nat)
    requires format.Sound() && Unlocks(format, cipher, prefixIn, written, chunks)
    requires ViewOf(source, format).Some? && ViewOf(source, format).value.Valid() && AllPlain(ViewOf(source, format).value, count)
    ensures PlainUpTo(ViewOf(source, format).value, count) <= Flatten(chunks)
    ensures Readable(source, format) ==> ReadPlaintext(source, format) == Flatten(chunks)
  {
    hide *;
    FormatIsAuthentic(format, cipher, prefixIn, written, chunks);
    AuthenticView(source, format, chunks);
    ReadableMeans(source, format);
    var view := ViewOf(source, format).value;
    AnyAlterationIsSafe(view, chunks, count);
    if Readable(source, format) {
      AnyAlterationIsSafe(view, chunks, view.blocks);
    }
  }

  datatype ReadOutcome = NotOpened | Finished | Raised(failure: Failure)

  // Opening a source and reading it to the end or to the first failure.
  method ReadContainer(source: seq<Byte>, format: HeaderFormat, checkSpares: bool, ghost chunks: seq<seq<Byte>>)
    returns (plaintext: seq<seq<Byte>>, outcome: ReadOutcome)
    requires format.Sound()
    ensures outcome == NotOpened <==> ViewOf(source, format).None?
    ensures outcome == NotOpened ==> plaintext == []
    ensures outcome == Finished <==> Readable(source, format)
    ensures Readable(source, format) ==> Flatten(plaintext) == ReadPlaintext(source, format)
    ensures format.Authentic(chunks) ==> Flatten(plaintext) <= Flatten(chunks)
    ensures format.Authentic(chunks) && outcome == Finished ==> Flatten(plaintext) == Flatten(chunks)
  {
    hide *;
    var reader, damaged := OpenReader(source, format);
    if reader == null {
      ReadableMeans(source, format);
      plaintext, outcome := [], NotOpened;
      FlattenNothing();
      return;
    }
    var failure: Option<Failure>;
    ghost var count;
    plaintext, failure, count := reader.Chunks(checkSpares);
    ReadableMeans(source, format);
    if format.Authentic(chunks) {
      AuthenticView(source, format, chunks);
      AnyAlterationIsSafe(reader.view, chunks, count);
    }
    outcome := match failure case None => Finished case Some(f) => Raised(f);
  }

  lemma FlattenNothing()
    ensures Flatten<Byte>([]) == []
  {}

  lemma AuthenticView(source: seq<Byte>, format: HeaderFormat, chunks: seq<seq<Byte>>)
    requires format.Sound() && format.Authentic(chunks) && ViewOf(source, format).Some?
    ensures ViewOf(source, format).value.codec.Authentic(chunks)
  {
    hide EndOf, Codec.Authentic, ChosenHeader;
  }

  // Reading the source succeeds.
  ghost predicate Readable(source: seq<Byte>, format: HeaderFormat)
    requires format.Sound()
  {
    && ViewOf(source, format).Some?
    && var view := ViewOf(source, format).value;
       view.Valid() && AllPlain(view, view.blocks) && DigestAgrees(view)
  }

  ghost function ReadPlaintext(source: seq<Byte>, format: HeaderFormat): seq<Byte>
    requires format.Sound() && Readable(source, format)
  {
    var view := ViewOf(source, format).value;
    PlainUpTo(view, view.blocks)
  }

  lemma ReadableMeans(source: seq<Byte>, format: HeaderFormat)
    requires format.Sound()
    ensures ViewOf(source, format).None? ==> !Readable(source, format)
    ensures ViewOf(source, format).Some? && ViewOf(source, format).value.Valid() ==>
      (var view := ViewOf(source, format).value;
       && (Readable(source, format) <==> AllPlain(view, view.blocks) && DigestAgrees(view))
       && (Readable(source, format) ==> ReadPlaintext(source, format) == PlainUpTo(view, view.blocks)))
  {
    hide ViewOf, AllPlain, DigestAgrees, PlainUpTo, View.Valid;
  }
}
