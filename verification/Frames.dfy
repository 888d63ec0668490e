// The frames of dbs/engine/frames.py: a kind byte, a four byte length and a body, and the reader
// that finds them again however the byte stream is cut into pieces.
module Frames {
  import opened Wrappers
  import opened Sequences
  import opened Bytes

  const PREFIX_SIZE: nat := 5
  const INDEX_SIZE: nat := 4
  const MAX_FRAME_BYTES: nat := 256 * 1024 * 1024
  const COMPACT_BYTES: nat := 4 * 1024 * 1024
  const SMALL_PIECE_BYTES: nat := 1024 * 1024

  datatype Kind = Header | Manifest | FileData | FileEnd | Records | Trailer

  function CodeOf(kind: Kind): (code: nat)
    ensures code < 256
  {
    match kind
    case Header => 0x48
    case Manifest => 0x4D
    case FileData => 0x44
    case FileEnd => 0x45
    case Records => 0x52
    case Trailer => 0x54
  }

  function KindOf(code: nat): Option<Kind> {
    if code == 0x48 then Some(Header) else if code == 0x4D then Some(Manifest) else if code == 0x44 then Some(FileData)
    else if code == 0x45 then Some(FileEnd) else if code == 0x52 then Some(Records) else if code == 0x54 then Some(Trailer)
    else None
  }

  datatype Frame = Frame(kind: Kind, body: seq<Byte>)

  predicate Fits(frame: Frame) {
    |frame.body| <= MAX_FRAME_BYTES
  }

  function Prefix(kind: Kind, length: nat): (prefix: seq<Byte>)
    ensures |prefix| == PREFIX_SIZE
  {
    [ByteOf(CodeOf(kind))] + BigEndian(length, 4)
  }

  function FrameBytes(frame: Frame): seq<Byte> {
    Prefix(frame.kind, |frame.body|) + frame.body
  }

  // frame_parts; None where the source raises.  However it splits the frame, the parts join to it.
  function FrameParts(kind: Kind, pieces: seq<seq<Byte>>): (parts: Option<seq<seq<Byte>>>)
    ensures parts.Some? <==> Fits(Frame(kind, Flatten(pieces)))
    ensures parts.Some? ==> Flatten(parts.value) == FrameBytes(Frame(kind, Flatten(pieces)))
  {
    hide BigEndian, ByteOf, Flatten;
    var prefix := Prefix(kind, |Flatten(pieces)|);
    if |Flatten(pieces)| > MAX_FRAME_BYTES then None
    else if |pieces| > 0 && |pieces[0]| <= SMALL_PIECE_BYTES then
      JoinFirst(prefix, pieces[0], pieces[1..]);
      assert [pieces[0]] + pieces[1..] == pieces;
      Some([prefix + pieces[0]] + pieces[1..])
    else
      FlattenHead(prefix, pieces);
      Some([prefix] + pieces)
  }

  lemma JoinFirst(prefix: seq<Byte>, first: seq<Byte>, pieces: seq<seq<Byte>>)
    ensures Flatten([prefix + first] + pieces) == prefix + Flatten([first] + pieces)
  {
    hide Flatten;
    FlattenHead(prefix + first, pieces);
    FlattenHead(first, pieces);
    assert (prefix + first) + Flatten(pieces) == prefix + (first + Flatten(pieces));
  }

  // ----- one frame off the front

  datatype Next = NoFrame | Malformed | Got(frame: Frame)

  // What next_frame finds in the bytes that are left.
  function NextOf(bytes: seq<Byte>): (next: Next)
    ensures next.Got? ==> PREFIX_SIZE + |next.frame.body| <= |bytes|
  {
    if |bytes| < PREFIX_SIZE then (if bytes == [] then NoFrame else Malformed)
    else
      var length := FromBigEndian(bytes[1..5]);
      match KindOf(Value(bytes[0]))
      case None => Malformed
      case Some(kind) =>
        if length > MAX_FRAME_BYTES || |bytes| - PREFIX_SIZE < length then Malformed
        else Got(Frame(kind, bytes[PREFIX_SIZE..PREFIX_SIZE + length]))
  }

  lemma KindRoundTrip(kind: Kind)
    ensures KindOf(CodeOf(kind)) == Some(kind)
  {}

  lemma CodeRoundTrip(code: nat)
    ensures KindOf(code).Some? ==> CodeOf(KindOf(code).value) == code
  {}

  lemma CutFrame(code: Byte, length: seq<Byte>, body: seq<Byte>, rest: seq<Byte>)
    requires |length| == 4
    ensures var bytes := [code] + length + body + rest;
            && |bytes| == 5 + |body| + |rest| && bytes[0] == code && bytes[1..5] == length
            && bytes[5..5 + |body|] == body && bytes[5 + |body|..] == rest
  {}

  lemma JoinFrame(bytes: seq<Byte>, n: nat)
    requires 5 + n <= |bytes|
    ensures bytes == [bytes[0]] + bytes[1..5] + bytes[5..5 + n] + bytes[5 + n..]
  {}

  // A written frame is read back, whatever follows.
  lemma FrameRoundTrip(frame: Frame, rest: seq<Byte>)
    requires Fits(frame)
    ensures NextOf(FrameBytes(frame) + rest) == Got(frame)
    ensures (FrameBytes(frame) + rest)[PREFIX_SIZE + |frame.body|..] == rest
  {
    assert Power256(4) == 0x1_0000_0000;
    KindRoundTrip(frame.kind);
    FieldRoundTrip(|frame.body|, 4);
    hide BigEndian, FromBigEndian, ByteOf, Value, CodeOf, KindOf;
    CutFrame(ByteOf(CodeOf(frame.kind)), BigEndian(|frame.body|, 4), frame.body, rest);
  }

  // Only the bytes of a frame are read as that frame.
  lemma FrameWasWritten(bytes: seq<Byte>)
    requires NextOf(bytes).Got?
    ensures var frame := NextOf(bytes).frame;
            Fits(frame) && bytes == FrameBytes(frame) + bytes[PREFIX_SIZE + |frame.body|..]
  {
    var frame := NextOf(bytes).frame;
    CodeRoundTrip(Value(bytes[0]));
    FieldRoundTripBack(bytes[1..5]);
    ByteOfValue(bytes[0]);
    hide BigEndian, FromBigEndian, ByteOf, Value, CodeOf;
    JoinFrame(bytes, |frame.body|);
  }

  // ----- all frames

  function Joined(frames: seq<Frame>): seq<Byte> {
    if |frames| == 0 then [] else FrameBytes(frames[0]) + Joined(frames[1..])
  }

  // The frames of a byte stream and whether it ends, or goes wrong, in the middle of one.
  datatype Stream = Stream(frames: seq<Frame>, torn: bool)

  function Split(bytes: seq<Byte>): Stream
    decreases |bytes|
  {
    match NextOf(bytes)
    case NoFrame => Stream([], false)
    case Malformed => Stream([], true)
    case Got(frame) =>
      var rest := Split(bytes[PREFIX_SIZE + |frame.body|..]);
      Stream([frame] + rest.frames, rest.torn)
  }

  ghost predicate AllFit(frames: seq<Frame>) {
    forall i :: 0 <= i < |frames| ==> Fits(frames[i])
  }

  // Splitting undoes joining, and nothing else splits cleanly.
  lemma {:induction false} SplitOfJoined(frames: seq<Frame>)
    requires AllFit(frames)
    ensures Split(Joined(frames)) == Stream(frames, false)
  {
    hide FrameBytes, NextOf, Fits;
    if |frames| == 0 {
      SplitNothing();
    } else {
      SplitOfJoined(frames[1..]);
      SplitFirst(frames[0], Joined(frames[1..]));
      assert frames == [frames[0]] + frames[1..];
    }
  }

  lemma SplitNothing()
    ensures Split([]) == Stream([], false)
  {}

  lemma SplitFirst(frame: Frame, rest: seq<Byte>)
    requires Fits(frame)
    ensures Split(FrameBytes(frame) + rest) == Stream([frame] + Split(rest).frames, Split(rest).torn)
  {
    FrameRoundTrip(frame, rest);
    hide FrameBytes, NextOf;
  }

  lemma {:induction false} CleanSplitWasJoined(bytes: seq<Byte>)
    requires !Split(bytes).torn
    ensures bytes == Joined(Split(bytes).frames) && AllFit(Split(bytes).frames)
    decreases |bytes|
  {
    if NextOf(bytes).Got? {
      var frame := NextOf(bytes).frame;
      FrameWasWritten(bytes);
      CleanSplitWasJoined(bytes[PREFIX_SIZE + |frame.body|..]);
    }
    hide FrameBytes, NextOf;
  }

  // ----- FrameReader

  class FrameReader {
    var pieces: seq<seq<Byte>>
    var buffer: seq<Byte>
    var start: nat

    ghost predicate Valid()
      reads this
    {
      start <= |buffer|
    }

    // Everything not read yet.
    ghost function Rest(): seq<Byte>
      reads this
      requires Valid()
    {
      buffer[start..] + Flatten(pieces)
    }

    constructor (pieces: seq<seq<Byte>>)
      ensures Valid() && Rest() == Flatten(pieces)
    {
      this.pieces, buffer, start := pieces, [], 0;
      new;
      assert [] + Flatten(pieces) == Flatten(pieces);
    }

    // _fill
    method Fill(size: nat) returns (filled: bool)
      requires Valid()
      modifies this
      ensures Valid() && Rest() == old(Rest())
      ensures filled <==> |Rest()| >= size
      ensures filled ==> size <= |buffer| - start
      ensures !filled ==> pieces == []
    {
      while |buffer| - start < size
        invariant Valid() && Rest() == old(Rest())
        decreases |pieces|
      {
        if pieces == [] {
          return false;
        }
        NextPiece();
      }
      filled := true;
    }

    method NextPiece()
      requires Valid() && pieces != []
      modifies this
      ensures Valid() && Rest() == old(Rest()) && |pieces| < |old(pieces)|
    {
      FlattenOne(pieces[0]);
      FlattenConcat([pieces[0]], pieces[1..]);
      hide Flatten;
      assert pieces == [pieces[0]] + pieces[1..];
      ghost var tail := Flatten(pieces[1..]);
      assert buffer[start..] + (pieces[0] + tail) == (buffer[start..] + pieces[0]) + tail;
      if start > 0 {
        buffer, start := buffer[start..], 0;
      }
      buffer := buffer + pieces[0];
      pieces := pieces[1..];
      assert buffer[start..] == buffer;
    }

    // _take
    method Take(size: nat) returns (taken: Option<seq<Byte>>)
      requires Valid()
      modifies this
      ensures Valid() && (taken.Some? <==> |old(Rest())| >= size)
      ensures taken.Some? ==> taken.value == old(Rest())[..size] && Rest() == old(Rest())[size..]
      ensures taken.None? ==> Rest() == old(Rest())
    {
      var filled := Fill(size);
      if !filled {
        return None;
      }
      assert buffer[start..][size..] == buffer[start + size..];
      taken := Some(buffer[start..start + size]);
      assert (buffer[start..] + Flatten(pieces))[size..] == buffer[start + size..] + Flatten(pieces);
      start := start + size;
      if start >= COMPACT_BYTES {
        buffer, start := buffer[start..], 0;
      }
    }

    // next_frame: what it finds depends on the bytes alone, not on how they are cut.
    method NextFrame() returns (next: Next)
      requires Valid()
      modifies this
      ensures Valid() && next == NextOf(old(Rest()))
      ensures next.Got? ==> Rest() == old(Rest())[PREFIX_SIZE + |next.frame.body|..]
      ensures next.NoFrame? ==> Rest() == old(Rest())
    {
      assert Flatten<Byte>([]) == [];
      hide FromBigEndian, Value, KindOf, Flatten;
      var filled := Fill(PREFIX_SIZE);
      if !filled {
        var available := |buffer| - start;
        assert Rest() == buffer[start..];
        return if available > 0 then Malformed else NoFrame;
      }
      ghost var rest := Rest();
      var prefix := buffer[start..start + PREFIX_SIZE];
      assert prefix == rest[..PREFIX_SIZE] && prefix[1..5] == rest[1..5];
      var kind := KindOf(Value(prefix[0]));
      if kind.None? {
        return Malformed;
      }
      var length := FromBigEndian(prefix[1..5]);
      if length > MAX_FRAME_BYTES {
        return Malformed;
      }
      start := start + PREFIX_SIZE;
      assert Rest() == rest[PREFIX_SIZE..];
      var body := Take(length);
      if body.None? {
        return Malformed;
      }
      assert rest[PREFIX_SIZE..][length..] == rest[PREFIX_SIZE + length..];
      next := Got(Frame(kind.value, body.value));
    }
  }
}
