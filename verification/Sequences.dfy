// Joining pieces and cutting into pieces of a fixed size.
module Sequences {
  function Flatten<T>(pieces: seq<seq<T>>): seq<T> {
    if |pieces| == 0 then [] else Flatten(pieces[..|pieces| - 1]) + pieces[|pieces| - 1]
  }

  lemma FlattenAppend<T>(pieces: seq<seq<T>>, last: seq<T>)
    ensures Flatten(pieces + [last]) == Flatten(pieces) + last
  {
    assert (pieces + [last])[..|pieces|] == pieces;
  }

  lemma {:induction false} FlattenConcat<T>(left: seq<seq<T>>, right: seq<seq<T>>)
    ensures Flatten(left + right) == Flatten(left) + Flatten(right)
  {
    if right == [] {
      assert left + right == left;
    } else {
      var last := right[|right| - 1];
      var front := right[..|right| - 1];
      FlattenConcat(left, front);
      assert left + right == (left + front) + [last];
      FlattenAppend(left + front, last);
      assert Flatten(left) + (Flatten(front) + last) == (Flatten(left) + Flatten(front)) + last;
    }
  }

  lemma FlattenOne<T>(piece: seq<T>)
    ensures Flatten([piece]) == piece
  {
    assert [piece] == [] + [piece];
    FlattenAppend([], piece);
    assert Flatten<T>([]) == [];
    assert [] + piece == piece;
  }

  lemma FlattenHead<T>(head: seq<T>, pieces: seq<seq<T>>)
    ensures Flatten([head] + pieces) == head + Flatten(pieces)
  {
    hide Flatten;
    FlattenOne(head);
    FlattenConcat([head], pieces);
  }

  lemma FlattenFront<T>(pieces: seq<seq<T>>, k: nat)
    requires k < |pieces|
    ensures Flatten(pieces[..k + 1]) == Flatten(pieces[..k]) + pieces[k]
  {
    assert pieces[..k + 1] == pieces[..k] + [pieces[k]];
    FlattenAppend(pieces[..k], pieces[k]);
  }

  lemma FlattenBack<T>(pieces: seq<seq<T>>, k: nat)
    requires k <= |pieces|
    ensures Flatten(pieces) == Flatten(pieces[..k]) + Flatten(pieces[k..])
  {
    assert pieces == pieces[..k] + pieces[k..];
    FlattenConcat(pieces[..k], pieces[k..]);
  }

  lemma FlattenAt<T>(pieces: seq<seq<T>>, k: nat)
    requires k < |pieces|
    ensures Flatten(pieces) == Flatten(pieces[..k]) + pieces[k] + Flatten(pieces[k + 1..])
    ensures Flatten(pieces[..k + 1]) == Flatten(pieces[..k]) + pieces[k]
  {
    hide Flatten;
    FlattenFront(pieces, k);
    FlattenBack(pieces, k + 1);
  }

  lemma WholePrefix<T>(pieces: seq<seq<T>>)
    ensures Flatten(pieces[..|pieces|]) == Flatten(pieces)
  {
    assert pieces[..|pieces|] == pieces;
  }

  // ----- cutting

  // Pieces of exactly `capacity` bytes; only the last may be shorter, and it is empty only when
  // there is nothing to cut.
  function Cut<T>(data: seq<T>, capacity: nat): (chunks: seq<seq<T>>)
    requires capacity > 0
    ensures |chunks| > 0
    decreases |data|
  {
    if |data| <= capacity then [data] else [data[..capacity]] + Cut(data[capacity..], capacity)
  }

  lemma {:induction false} CutIsFaithful<T>(data: seq<T>, capacity: nat)
    requires capacity > 0
    ensures var chunks := Cut(data, capacity);
            && Flatten(chunks) == data
            && (forall i :: 0 <= i < |chunks| - 1 ==> |chunks[i]| == capacity)
            && |chunks[|chunks| - 1]| <= capacity
            && (data != [] ==> chunks[|chunks| - 1] != [])
            && |data| == (|chunks| - 1) * capacity + |chunks[|chunks| - 1]|
    decreases |data|
  {
    var chunks := Cut(data, capacity);
    if |data| <= capacity {
      FlattenAppend([], data);
      assert [] + [data] == [data];
      assert Flatten([]) + data == data;
      assert (|chunks| - 1) * capacity == 0;
    } else {
      var rest := Cut(data[capacity..], capacity);
      CutIsFaithful(data[capacity..], capacity);
      FlattenConcat([data[..capacity]], rest);
      FlattenAppend([], data[..capacity]);
      assert [] + [data[..capacity]] == [data[..capacity]];
      assert Flatten([]) + data[..capacity] == data[..capacity];
      assert data == data[..capacity] + data[capacity..];
      assert (|chunks| - 1) * capacity == (|rest| - 1) * capacity + capacity;
    }
  }

  // Full chunks followed by a short last one are the cut of their concatenation.
  lemma {:induction false} CutOfFullChunks<T>(full: seq<seq<T>>, last: seq<T>, capacity: nat)
    requires capacity > 0 && |last| <= capacity
    requires forall i :: 0 <= i < |full| ==> |full[i]| == capacity
    requires full != [] ==> last != []
    ensures Cut(Flatten(full) + last, capacity) == full + [last]
  {
    var data := Flatten(full) + last;
    if full == [] {
      assert data == last;
    } else {
      FlattenConcat([full[0]], full[1..]);
      FlattenAppend([], full[0]);
      assert [] + [full[0]] == [full[0]];
      assert Flatten([]) + full[0] == full[0];
      assert full == [full[0]] + full[1..];
      CutOfFullChunks(full[1..], last, capacity);
      var rest := Flatten(full[1..]) + last;
      assert data == full[0] + rest;
      assert |rest| > 0 by {
        assert rest[|Flatten(full[1..])|..] == last;
      }
      assert data[..capacity] == full[0] && data[capacity..] == rest;
    }
  }

  // ByteSource.read_at: a slice that stops at the end, and nothing outside.
  function ReadAt<T>(source: seq<T>, offset: int, length: nat): seq<T> {
    if offset < 0 || offset >= |source| then []
    else source[offset..if offset + length < |source| then offset + length else |source|]
  }
}
