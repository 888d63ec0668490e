// Writer and reader together (dbs/container/stream.py): what any sequence of writes puts into a
// container is what reading it yields.
module RoundTrip {
  import opened Wrappers
  import opened Sequences
  import opened Bytes
  import opened Encoder
  import opened Layout
  import opened Container
  import opened Writer
  import opened WrittenContainer
  import opened ContainerRead
  import opened BurstSafety

  lemma MoreWritten(pieces: seq<seq<Byte>>, i: nat)
    requires i < |pieces|
    ensures Flatten(pieces[..i + 1]) == Flatten(pieces[..i]) + pieces[i]
    ensures |Flatten(pieces[..i + 1])| <= |Flatten(pieces)|
  {
    assert pieces[..i + 1][..i] == pieces[..i];
    assert pieces == pieces[..i + 1] + pieces[i + 1..];
    FlattenConcat(pieces[..i + 1], pieces[i + 1..]);
  }

  lemma OverflowIsTooMany(data: seq<Byte>, bytes: nat, capacity: nat)
    requires capacity > 0 && Overflows(bytes, capacity) && bytes <= |data|
    ensures |Cut(data, capacity)| > MAX_BLOCKS
  {
    CutIsFaithful(data, capacity);
    var n := |Cut(data, capacity)|;
    hide Cut;
    assert n * capacity == (n - 1) * capacity + capacity;
    if n <= MAX_BLOCKS {
      ProductMonotone(capacity, n, MAX_BLOCKS);
    }
  }

  lemma CapacityIsPositive(layout: StreamLayout)
    requires layout.Valid()
    ensures layout.ChunkCapacity() > 0
  {}

  lemma ReadyToWrite(writer: StreamWriter)
    requires writer.Valid()
    ensures !writer.closed && writer.layout.Valid() && writer.layout.ChunkCapacity() > 0
  {
    CapacityIsPositive(writer.layout);
    hide StreamWriter.Ready, StreamWriter.CutState, StreamLayout.Valid, StreamLayout.ChunkCapacity;
  }

  lemma NothingWritten(pieces: seq<seq<Byte>>)
    ensures Flatten(pieces[..0]) == []
  {}

  // Every write of a run; false when one raises for too many blocks.
  method Feed(writer: StreamWriter, pieces: seq<seq<Byte>>) returns (fed: bool)
    requires writer.Valid() && writer.written == [] && writer.layout.Valid() && writer.layout.ChunkCapacity() > 0
    modifies writer
    ensures fed ==> writer.Valid() && !writer.closed && writer.written == Flatten(pieces)
    ensures !fed ==> |Cut(Flatten(pieces), writer.layout.ChunkCapacity())| > MAX_BLOCKS
  {
    hide *;
    NothingWritten(pieces);
    ReadyToWrite(writer);
    for i := 0 to |pieces|
      invariant !writer.closed && writer.Valid() && writer.written == Flatten(pieces[..i])
    {
      MoreWritten(pieces, i);
      var outcome := writer.Write(pieces[i]);
      if outcome == TooManyBlocks {
        OverflowIsTooMany(Flatten(pieces), |Flatten(pieces[..i + 1])|, writer.layout.ChunkCapacity());
        return false;
      }
      ReadyToWrite(writer);
    }
    assert pieces[..|pieces|] == pieces;
    fed := true;
  }

  // A writer fed piece by piece and closed; None where the source raises for too many blocks.
  method WriteContainer(codec: Codec, layout: StreamLayout, header: seq<Byte>, table: seq<seq<seq<Byte>>>, workers: nat, pieces: seq<seq<Byte>>)
    returns (container: Option<seq<Byte>>)
    requires layout.Valid() && codec.Sound() && IsParityTable(table, layout.nsym) && workers >= 1 && |header| == HEADER_SIZE
    ensures container.Some? <==> |Cut(Flatten(pieces), layout.ChunkCapacity())| <= MAX_BLOCKS
    ensures container.Some? ==>
      var w := Written(header, codec, layout, Flatten(pieces));
      w.Valid() && container.value == w.Bytes()
  {
    hide *;
    CapacityIsPositive(layout);
    var writer := new StreamWriter(codec, layout, header, table, workers);
    var fed := Feed(writer, pieces);
    if !fed {
      return None;
    }
    var outcome := writer.Close();
    if outcome == TooManyBlocks {
      return None;
    }
    container := Some(writer.sink);
    CompleteIsWritten(writer, Written(header, codec, layout, Flatten(pieces)));
  }

  lemma CompleteIsWritten(writer: StreamWriter, w: Written)
    requires w.layout.Valid() && w.codec.Sound() && |w.header| == HEADER_SIZE
    requires writer.codec == w.codec && writer.layout == w.layout && writer.header == w.header && writer.written == w.data
    requires writer.Complete()
    ensures w.Valid() && writer.sink == w.Bytes()
  {
    hide Cut, ContainerOf, FitsLayout, StreamLayout.Valid, Codec.Sound;
  }

  // However the writes cut the data and whatever the batch size, an unharmed container reads back
  // as exactly the bytes written.
  method WriteThenRead(format: HeaderFormat, codec: Codec, layout: StreamLayout, header: seq<Byte>, table: seq<seq<seq<Byte>>>, workers: nat,
                       pieces: seq<seq<Byte>>, checkSpares: bool)
    returns (container: Option<seq<Byte>>, plaintext: seq<seq<Byte>>)
    requires layout.Valid() && codec.Sound() && IsParityTable(table, layout.nsym) && workers >= 1 && |header| == HEADER_SIZE
    requires format.Sound() && format.verified(header) && format.parse(header) == Some(Keyed(layout, codec))
    requires codec.Opens(Cut(Flatten(pieces), layout.ChunkCapacity()))
    ensures container.Some? <==> |Cut(Flatten(pieces), layout.ChunkCapacity())| <= MAX_BLOCKS
    ensures container.Some? ==> Flatten(plaintext) == Flatten(pieces)
  {
    hide *;
    CapacityIsPositive(layout);
    container := WriteContainer(codec, layout, header, table, workers, pieces);
    plaintext := [];
    if container.Some? {
      ghost var w := Written(header, codec, layout, Flatten(pieces));
      OpensIntro(w, format);
      UndamagedIsReadable(w, format);
      var outcome;
      plaintext, outcome := ReadContainer(container.value, format, checkSpares, []);
    }
  }

  lemma OpensIntro(w: Written, format: HeaderFormat)
    requires w.Valid() && w.layout.Valid() && w.codec.Opens(Cut(w.data, w.layout.ChunkCapacity()))
    requires format.verified(w.header) && format.parse(w.header) == Some(Keyed(w.layout, w.codec))
    ensures OpensWith(w, format)
  {
    hide Cut, StreamLayout.Valid, Codec.Sound, FitsLayout, Codec.Opens;
  }
}
