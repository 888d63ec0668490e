// The fixed records of a format 2 container: the block descriptor and the sealed trailer
// (dbs/container/stream.py).  Checksums are function arguments of this model.
module Records {
  import opened Wrappers
  import opened Sequences
  import opened Bytes
  import opened Layout

  // ----- the descriptor at the front of every block: index, chunk length, flags, three zero bytes

  const FINAL_FLAG: nat := 1

  datatype Descriptor = Descriptor(index: nat, chunkLen: nat, flags: nat)

  function PackDescriptor(d: Descriptor): (bytes: seq<Byte>)
    requires d.flags < 256
    ensures |bytes| == DESCRIPTOR_SIZE
  {
    BigEndian(d.index, 8) + BigEndian(d.chunkLen, 4) + [ByteOf(d.flags)] + Zeros(3)
  }

  function UnpackDescriptor(bytes: seq<Byte>): Descriptor
    requires |bytes| >= DESCRIPTOR_SIZE
  {
    Descriptor(FromBigEndian(bytes[..8]), FromBigEndian(bytes[8..12]), Value(bytes[12]))
  }

  predicate ReservedIsZero(bytes: seq<Byte>)
    requires |bytes| >= DESCRIPTOR_SIZE
  {
    bytes[13..16] == Zeros(3)
  }

  lemma DescriptorRoundTrip(d: Descriptor, rest: seq<Byte>)
    requires d.flags < 256 && d.index < Power256(8) && d.chunkLen < Power256(4)
    ensures UnpackDescriptor(PackDescriptor(d) + rest) == d
    ensures ReservedIsZero(PackDescriptor(d) + rest)
  {
    hide BigEndian, FromBigEndian, ByteOf, Value, Zeros, Power256;
    var bytes := PackDescriptor(d) + rest;
    assert bytes[..8] == BigEndian(d.index, 8);
    assert bytes[8..12] == BigEndian(d.chunkLen, 4);
    assert bytes[13..16] == Zeros(3);
    FieldRoundTrip(d.index, 8);
    FieldRoundTrip(d.chunkLen, 4);
  }

  // Only a packed descriptor, with its reserved bytes zero, unpacks to itself.
  lemma DescriptorWasPacked(bytes: seq<Byte>)
    requires |bytes| >= DESCRIPTOR_SIZE && ReservedIsZero(bytes)
    ensures bytes[..DESCRIPTOR_SIZE] == PackDescriptor(UnpackDescriptor(bytes))
    ensures UnpackDescriptor(bytes).index < Power256(8) && UnpackDescriptor(bytes).chunkLen < Power256(4)
  {
    hide BigEndian, FromBigEndian, ByteOf, Value, Zeros, Power256;
    var index, length := bytes[..8], bytes[8..12];
    FieldRoundTripBack(index);
    FieldRoundTripBack(length);
    ByteOfValue(bytes[12]);
    InFields(bytes);
  }

  lemma InFields<T>(s: seq<T>)
    requires |s| >= 16
    ensures s[..16] == s[..8] + s[8..12] + [s[12]] + s[13..16]
  {}

  // ----- the trailer

  const FORMAT_VERSION: nat := 2
  const CONTAINER_ID_LENGTH: nat := 16
  const DIGEST_LENGTH: nat := 32
  const CHECKSUM_LENGTH: nat := 16
  const TRAILER_BODY_SIZE: nat := 84

  function TrailerMarker(): (marker: seq<Byte>)
    ensures |marker| == 8
  {
    Ascii("DBSEND02")
  }

  type Checksum = f: seq<Byte> -> seq<Byte> | forall b :: |f(b)| == CHECKSUM_LENGTH
    witness (b: seq<Byte>) => Zeros(CHECKSUM_LENGTH)

  datatype Trailer = Trailer(containerId: seq<Byte>, blocks: nat, plaintextBytes: nat, finalChunkLen: nat, blocksDigest: seq<Byte>) {
    // The values the fixed-width fields can hold.
    ghost predicate Packable() {
      && |containerId| == CONTAINER_ID_LENGTH && |blocksDigest| == DIGEST_LENGTH
      && blocks < Power256(8) && plaintextBytes < Power256(8) && finalChunkLen < Power256(4)
    }

    function Body(): seq<Byte> {
      Flatten([TrailerMarker(), BigEndian(FORMAT_VERSION, 2), BigEndian(TRAILER_SIZE, 2), containerId,
               BigEndian(blocks, 8), BigEndian(plaintextBytes, 8), BigEndian(finalChunkLen, 4), Zeros(4), blocksDigest])
    }

    function Seal(checksum: Checksum): seq<Byte> {
      Body() + checksum(Body())
    }

    // The ranges and the length equation that StreamTrailer.open checks.
    predicate Plausible(layout: StreamLayout)
      requires layout.Valid()
    {
      && 1 <= blocks <= MAX_BLOCKS
      && TAG_LENGTH <= finalChunkLen <= layout.MaxChunkLen()
      && plaintextBytes == (blocks - 1) * layout.ChunkCapacity() + finalChunkLen - TAG_LENGTH
    }
  }

  function UnpackTrailer(body: seq<Byte>): Trailer
    requires |body| == TRAILER_BODY_SIZE
  {
    Trailer(body[12..28], FromBigEndian(body[28..36]), FromBigEndian(body[36..44]), FromBigEndian(body[44..48]), body[52..84])
  }

  // StreamTrailer.open
  function OpenTrailer(raw: seq<Byte>, checksum: Checksum, containerId: seq<Byte>, layout: StreamLayout): Option<Trailer>
    requires layout.Valid()
  {
    if |raw| != TRAILER_SIZE then None
    else
      var body := raw[..TRAILER_BODY_SIZE];
      if checksum(body) != raw[TRAILER_BODY_SIZE..] then None
      else
        var trailer := UnpackTrailer(body);
        if body[..8] != TrailerMarker() || FromBigEndian(body[8..10]) != FORMAT_VERSION
           || FromBigEndian(body[10..12]) != TRAILER_SIZE then None
        else if trailer.containerId != containerId || body[48..52] != Zeros(4) then None
        else if !trailer.Plausible(layout) then None
        else Some(trailer)
  }

  // ----- cutting the trailer into its fields

  lemma FlattenThree(front: seq<seq<Byte>>, a: seq<Byte>, b: seq<Byte>, c: seq<Byte>)
    ensures Flatten(front + [a, b, c]) == Flatten(front) + a + b + c
  {
    hide Flatten;
    assert front + [a, b, c] == ((front + [a]) + [b]) + [c];
    FlattenAppend(front, a);
    FlattenAppend(front + [a], b);
    FlattenAppend((front + [a]) + [b], c);
  }

  lemma FlattenNine(a: seq<Byte>, b: seq<Byte>, c: seq<Byte>, d: seq<Byte>, e: seq<Byte>, f: seq<Byte>,
                    g: seq<Byte>, h: seq<Byte>, i: seq<Byte>)
    ensures Flatten([a, b, c, d, e, f, g, h, i]) == a + b + c + d + e + f + g + h + i
  {
    FlattenThree([], a, b, c);
    assert Flatten<Byte>([]) == [];
    hide Flatten;
    assert [] + [a, b, c] == [a, b, c];
    FlattenThree([a, b, c], d, e, f);
    assert [a, b, c] + [d, e, f] == [a, b, c, d, e, f];
    FlattenThree([a, b, c, d, e, f], g, h, i);
    assert [a, b, c, d, e, f] + [g, h, i] == [a, b, c, d, e, f, g, h, i];
    assert [] + a == a;
  }

  lemma CutFields(bytes: seq<Byte>, marker: seq<Byte>, version: seq<Byte>, size: seq<Byte>, id: seq<Byte>,
                  blocks: seq<Byte>, plain: seq<Byte>, chunk: seq<Byte>, zeros: seq<Byte>, digest: seq<Byte>)
    requires |marker| == 8 && |version| == 2 && |size| == 2 && |id| == 16 && |blocks| == 8
    requires |plain| == 8 && |chunk| == 4 && |zeros| == 4 && |digest| == 32
    requires bytes == Flatten([marker, version, size, id, blocks, plain, chunk, zeros, digest])
    ensures |bytes| == TRAILER_BODY_SIZE
    ensures bytes[..8] == marker && bytes[8..10] == version && bytes[10..12] == size && bytes[12..28] == id
    ensures bytes[28..36] == blocks && bytes[36..44] == plain && bytes[44..48] == chunk
    ensures bytes[48..52] == zeros && bytes[52..84] == digest
  {
    FlattenNine(marker, version, size, id, blocks, plain, chunk, zeros, digest);
    hide Flatten;
  }

  lemma JoinFields(bytes: seq<Byte>)
    requires |bytes| == TRAILER_BODY_SIZE
    ensures bytes == Flatten([bytes[..8], bytes[8..10], bytes[10..12], bytes[12..28], bytes[28..36],
                              bytes[36..44], bytes[44..48], bytes[48..52], bytes[52..84]])
  {
    FlattenNine(bytes[..8], bytes[8..10], bytes[10..12], bytes[12..28], bytes[28..36],
                bytes[36..44], bytes[44..48], bytes[48..52], bytes[52..84]);
    hide Flatten;
  }

  lemma TrailerFields(t: Trailer)
    requires t.Packable()
    ensures var body := t.Body();
            && |body| == TRAILER_BODY_SIZE
            && body[..8] == TrailerMarker() && FromBigEndian(body[8..10]) == FORMAT_VERSION
            && FromBigEndian(body[10..12]) == TRAILER_SIZE && body[48..52] == Zeros(4)
            && UnpackTrailer(body) == t
  {
    assert Power256(2) == 65536;
    hide BigEndian, FromBigEndian, ByteOf, Value, Zeros, TrailerMarker, Power256;
    var body := t.Body();
    CutFields(body, TrailerMarker(), BigEndian(FORMAT_VERSION, 2), BigEndian(TRAILER_SIZE, 2), t.containerId,
              BigEndian(t.blocks, 8), BigEndian(t.plaintextBytes, 8), BigEndian(t.finalChunkLen, 4), Zeros(4), t.blocksDigest);
    FieldRoundTrip(FORMAT_VERSION, 2);
    FieldRoundTrip(TRAILER_SIZE, 2);
    FieldRoundTrip(t.blocks, 8);
    FieldRoundTrip(t.plaintextBytes, 8);
    FieldRoundTrip(t.finalChunkLen, 4);
  }

  // A sealed trailer opens to itself exactly when its ranges and its length equation hold.
  lemma SealedTrailerOpens(t: Trailer, checksum: Checksum, layout: StreamLayout)
    requires t.Packable() && layout.Valid()
    ensures OpenTrailer(t.Seal(checksum), checksum, t.containerId, layout)
         == if t.Plausible(layout) then Some(t) else None
    ensures |t.Seal(checksum)| == TRAILER_SIZE
  {
    TrailerFields(t);
    var raw := t.Seal(checksum);
    hide BigEndian, FromBigEndian, Zeros, TrailerMarker, Power256;
    assert raw[..TRAILER_BODY_SIZE] == t.Body();
    assert raw[TRAILER_BODY_SIZE..] == checksum(t.Body());
  }

  // Only the sealed form of a trailer opens to that trailer, only for its own container, and only with
  // numbers that fit together.
  lemma OpenedTrailerWasSealed(raw: seq<Byte>, checksum: Checksum, containerId: seq<Byte>, layout: StreamLayout)
    requires layout.Valid() && OpenTrailer(raw, checksum, containerId, layout).Some?
    ensures var t := OpenTrailer(raw, checksum, containerId, layout).value;
            && raw == t.Seal(checksum) && t.containerId == containerId && t.Packable()
            && 1 <= t.blocks <= MAX_BLOCKS && TAG_LENGTH <= t.finalChunkLen <= layout.MaxChunkLen()
            && t.plaintextBytes == (t.blocks - 1) * layout.ChunkCapacity() + t.finalChunkLen - TAG_LENGTH
  {
    hide Zeros, TrailerMarker, BigEndian, FromBigEndian, Power256, StreamLayout.Valid, StreamLayout.ChunkCapacity, StreamLayout.MaxChunkLen;
    var body := raw[..TRAILER_BODY_SIZE];
    var t := UnpackTrailer(body);
    FieldRoundTripBack(body[8..10]);
    FieldRoundTripBack(body[10..12]);
    FieldRoundTripBack(body[28..36]);
    FieldRoundTripBack(body[36..44]);
    FieldRoundTripBack(body[44..48]);
    JoinFields(body);
    assert body == t.Body();
    assert raw == body + raw[TRAILER_BODY_SIZE..];
  }
}
