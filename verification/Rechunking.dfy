// The re-chunking stages of dbs/engine/pipeline.py: segments, compressed members, the inflater and
// the prefetch cache.  zlib is a function argument that meets Contract.
module Rechunking {
  import opened Wrappers
  import opened Sequences

  const SEGMENT_BYTES: nat := 1024 * 1024
  const PIECE_BYTES: nat := 1024 * 1024

  // ----- _compress: items into segments

  // Segments of exactly SEGMENT_BYTES, the last one maybe shorter but never empty.
  function Segments<T>(data: seq<T>): seq<seq<T>> {
    if |data| == 0 then [] else Cut(data, SEGMENT_BYTES)
  }

  lemma SegmentsAddUp<T>(data: seq<T>)
    ensures Flatten(Segments(data)) == data
    ensures forall i :: 0 <= i < |Segments(data)| ==> 0 < |Segments(data)[i]| <= SEGMENT_BYTES
  {
    if |data| > 0 {
      CutIsFaithful(data, SEGMENT_BYTES);
    }
  }

  ghost predicate AllFull<T>(pieces: seq<seq<T>>) {
    forall i :: 0 <= i < |pieces| ==> |pieces[i]| == SEGMENT_BYTES
  }

  lemma FullSegments<T>(full: seq<seq<T>>, pending: seq<T>)
    requires AllFull(full) && |pending| < SEGMENT_BYTES
    ensures Segments(Flatten(full) + pending) == if |pending| == 0 then full else full + [pending]
  {
    hide Cut;
    if |pending| > 0 {
      CutOfFullChunks(full, pending, SEGMENT_BYTES);
      assert |Flatten(full) + pending| > 0;
    } else {
      assert Flatten(full) + pending == Flatten(full);
      if |full| > 0 {
        var n := |full| - 1;
        CutOfFullChunks(full[..n], full[n], SEGMENT_BYTES);
        assert full[..n] + [full[n]] == full;
        assert |Flatten(full)| > 0;
      }
    }
  }

  // _compress: whatever the items, the segments depend only on their concatenation.  The digest and
  // the byte count see every item.
  method Compress<T>(items: seq<seq<T>>) returns (segments: seq<seq<T>>, digested: seq<T>, payloadBytes: nat)
    ensures segments == Segments(Flatten(items))
    ensures digested == Flatten(items) && payloadBytes == |Flatten(items)|
  {
    hide Segments;
    segments, digested, payloadBytes := [], [], 0;
    var pending: seq<T> := [];
    for i := 0 to |items|
      invariant digested == Flatten(items[..i]) && payloadBytes == |digested|
      invariant AllFull(segments) && |pending| < SEGMENT_BYTES && Flatten(segments) + pending == Flatten(items[..i])
    {
      var item := items[i];
      assert items[..i + 1][..i] == items[..i];
      digested, payloadBytes := digested + item, payloadBytes + |item|;
      segments, pending := AddItem(segments, pending, item);
    }
    assert items[..|items|] == items;
    FullSegments(segments, pending);
    if |pending| > 0 {
      segments := segments + [pending];
    }
  }

  // The inner loop of _compress: one item fills up segments.
  method AddItem<T>(segments: seq<seq<T>>, pending: seq<T>, item: seq<T>) returns (grown: seq<seq<T>>, rest: seq<T>)
    requires AllFull(segments) && |pending| < SEGMENT_BYTES
    ensures AllFull(grown) && |rest| < SEGMENT_BYTES && Flatten(grown) + rest == Flatten(segments) + pending + item
  {
    grown, rest := segments, pending;
    var offset := 0;
    assert pending + item[..0] == pending;
    while offset < |item|
      invariant offset <= |item| && AllFull(grown) && |rest| < SEGMENT_BYTES
      invariant Flatten(grown) + rest == Flatten(segments) + pending + item[..offset]
    {
      var room := SEGMENT_BYTES - |rest|;
      var taken := if room < |item| - offset then item[offset..offset + room] else item[offset..];
      assert item[..offset + |taken|] == item[..offset] + taken;
      assert Flatten(grown) + (rest + taken) == (Flatten(grown) + rest) + taken;
      rest, offset := rest + taken, offset + |taken|;
      if |rest| >= SEGMENT_BYTES {
        FlattenAppend(grown, rest);
        grown, rest := grown + [rest], [];
        assert Flatten(grown) + [] == Flatten(grown);
      }
    }
    assert item[..|item|] == item;
  }

  // ----- zlib

  // What a decompressobj has been through: the input it took, how much it gave out, and its eof.
  datatype Progress<T> = Progress(consumed: seq<T>, emitted: nat, eof: bool)

  // The output of one call, the input it did not take (unused_data at the end of the stream, else
  // unconsumed_tail) and the object afterwards.
  datatype Reply<T, Z> = Reply(out: seq<T>, rest: seq<T>, member: Z)

  datatype Zlib<!T(!new), !Z(!new)> = Zlib(deflate: seq<T> -> seq<T>, initial: Z, progress: Z -> Progress<T>, decompress: (Z, seq<T>, nat) -> Reply<T, Z>) {

    // Somewhere inside the compressed form of a segment.
    ghost predicate Inside(z: Z, segment: seq<T>) {
      var p := progress(z);
      !p.eof && p.consumed <= deflate(segment) && p.emitted <= |segment|
    }

    // The data goes on where the object stands in that stream, perhaps past its end.
    ghost predicate Follows(z: Z, segment: seq<T>, data: seq<T>) {
      progress(z).consumed + data <= deflate(segment) || deflate(segment) <= progress(z).consumed + data
    }

    // A call takes input of this stream only and gives out the next bytes of the segment.  It stops
    // early only for want of room, and once it has all input it gives output or reaches the end.
    ghost predicate Advances(z: Z, segment: seq<T>, data: seq<T>, max: nat) {
      var r := decompress(z, data, max);
      var (p, q) := (progress(z), progress(r.member));
      && |r.rest| <= |data| && r.rest == data[|data| - |r.rest|..]
      && q.consumed == p.consumed + data[..|data| - |r.rest|] && q.consumed <= deflate(segment)
      && |r.out| <= max && p.emitted <= q.emitted == p.emitted + |r.out| <= |segment|
      && r.out == segment[p.emitted..q.emitted]
      && (q.eof ==> q.consumed == deflate(segment) && q.emitted == |segment|)
      && (!q.eof && r.rest != [] ==> r.out != [])
      && (!q.eof && q.consumed == deflate(segment) ==> r.out != [])
    }

    ghost predicate Contract() {
      && progress(initial) == Progress([], 0, false)
      && (forall segment :: deflate(segment) != [])
      && (forall z, segment, data, max: nat :: Inside(z, segment) && max > 0 && Follows(z, segment, data) ==> Advances(z, segment, data, max))
      && (forall z, data, max :: progress(z).eof ==>
            decompress(z, data, max).out == [] && decompress(z, data, max).rest == data && progress(decompress(z, data, max).member) == progress(z))
    }

    function Members(segments: seq<seq<T>>): (members: seq<seq<T>>)
      ensures |members| == |segments|
      ensures forall i :: 0 <= i < |segments| ==> members[i] == deflate(segments[i])
    {
      seq(|segments|, i requires 0 <= i < |segments| => deflate(segments[i]))
    }

    // The compressed bytes of the first segments.
    function Joined(segments: seq<seq<T>>, k: nat): seq<T>
      requires k <= |segments|
    {
      Flatten(Members(segments)[..k])
    }
  }

  // ----- the contract can be met: one length, then the segment as it is

  function Stored(segment: seq<int>): (stream: seq<int>)
    ensures |stream| == |segment| + 1
  {
    [|segment|] + segment
  }

  // How much of some input belongs to the stream that it starts.
  function StreamLength(all: seq<int>): (n: nat)
    ensures n <= |all|
  {
    if all == [] || all[0] < 0 || all[0] + 1 >= |all| then |all| else all[0] + 1
  }

  function Unstore(z: Progress<int>, data: seq<int>, max: nat): Reply<int, Progress<int>> {
    var all := z.consumed + data;
    var taken := StreamLength(all);
    if z.eof then Reply([], data, z)
    else if taken < |z.consumed| || 1 + z.emitted > taken then Reply([], [], Progress(all, z.emitted, false))
    else
      var last := if 1 + z.emitted + max < taken then 1 + z.emitted + max else taken;
      Reply(all[1 + z.emitted..last], all[taken..], Progress(all[..taken], last - 1, last == all[0] + 1))
  }

  lemma UnstoreAdvances(zlib: Zlib<int, Progress<int>>, z: Progress<int>, segment: seq<int>, data: seq<int>, max: nat)
    requires zlib == Zlib(Stored, Progress([], 0, false), (p: Progress<int>) => p, Unstore)
    requires zlib.Inside(z, segment) && max > 0 && zlib.Follows(z, segment, data)
    ensures zlib.Advances(z, segment, data, max)
  {
    TakesStream(z.consumed, data, segment);
    var all := z.consumed + data;
    var taken := StreamLength(all);
    hide StreamLength, Stored;
    if 1 + z.emitted <= taken {
      var last := if 1 + z.emitted + max < taken then 1 + z.emitted + max else taken;
      StoredSlice(segment, all, taken, 1 + z.emitted, last);
    }
  }

  // The input taken is that of the stream, and what is left is the rest of the data.
  lemma TakesStream(consumed: seq<int>, data: seq<int>, segment: seq<int>)
    requires consumed <= Stored(segment) && (consumed + data <= Stored(segment) || Stored(segment) <= consumed + data)
    ensures var (all, taken) := (consumed + data, StreamLength(consumed + data));
            && |consumed| <= taken <= |Stored(segment)| && all[..taken] == Stored(segment)[..taken]
            && (taken < |all| ==> taken == |Stored(segment)|) && (all != [] ==> all[0] == |segment|)
            && all[taken..] == data[taken - |consumed|..] && all[..taken] == consumed + data[..taken - |consumed|]
  {
    if consumed + data != [] {
      assert (consumed + data)[0] == Stored(segment)[0];
    }
  }

  lemma StoredSlice(segment: seq<int>, all: seq<int>, taken: nat, first: nat, last: nat)
    requires taken <= |all| && taken <= |Stored(segment)| && all[..taken] == Stored(segment)[..taken]
    requires 1 <= first <= last <= taken
    ensures all[first..last] == segment[first - 1..last - 1]
  {
    assert all[first..last] == all[..taken][first..last];
    assert Stored(segment)[..taken][first..last] == Stored(segment)[first..last];
    StoredMiddle(segment, first, last);
  }

  lemma StoredMiddle(segment: seq<int>, first: nat, last: nat)
    requires 1 <= first <= last <= |Stored(segment)|
    ensures Stored(segment)[first..last] == segment[first - 1..last - 1]
  {
    assert Stored(segment)[1..] == segment;
    assert Stored(segment)[first..last] == Stored(segment)[1..][first - 1..last - 1];
  }

  lemma StoredMeetsContract()
    ensures Zlib(Stored, Progress([], 0, false), (p: Progress<int>) => p, Unstore).Contract()
  {
    var zlib := Zlib(Stored, Progress([], 0, false), (p: Progress<int>) => p, Unstore);
    forall z, segment, data, max: nat | zlib.Inside(z, segment) && max > 0 && zlib.Follows(z, segment, data)
      ensures zlib.Advances(z, segment, data, max)
    {
      UnstoreAdvances(zlib, z, segment, data, max);
    }
    hide Zlib.Advances, Zlib.Inside, Zlib.Follows;
  }

  // ----- Inflater

  // Where an inflater stands once some of the members' bytes were fed to it: in, at the end of or
  // before segment k, with everything up to there given out.
  ghost predicate StandsAt<T(!new), Z(!new)>(zlib: Zlib<T, Z>, segments: seq<seq<T>>, k: nat, member: Z, started: bool, fed: seq<T>, out: seq<T>) {
    var p := zlib.progress(member);
    && k <= |segments| && fed == zlib.Joined(segments, k) + p.consumed
    && (!started ==> p == Progress([], 0, false))
    && if k == |segments| then !started && out == Flatten(segments)
       else
         && p.consumed <= zlib.deflate(segments[k]) && p.emitted <= |segments[k]|
         && out == Flatten(segments[..k]) + segments[k][..p.emitted]
         && (p.eof ==> p.consumed == zlib.deflate(segments[k]) && p.emitted == |segments[k]|)
  }

  // Between two calls of feed nothing is left to drain.
  ghost predicate Settled<T(!new), Z(!new)>(zlib: Zlib<T, Z>, segments: seq<seq<T>>, k: nat, member: Z, started: bool) {
    var p := zlib.progress(member);
    started && !p.eof && k < |segments| ==> 0 < |p.consumed| < |zlib.deflate(segments[k])|
  }

  lemma StartsThere<T(!new), Z(!new)>(zlib: Zlib<T, Z>, segments: seq<seq<T>>)
    requires zlib.Contract()
    ensures StandsAt(zlib, segments, 0, zlib.initial, false, [], []) && Settled(zlib, segments, 0, zlib.initial, false)
  {}

  // Bytes that go on with the members go on with the current one.
  lemma GoesOn<T(!new), Z(!new)>(zlib: Zlib<T, Z>, segments: seq<seq<T>>, k: nat, member: Z, started: bool, fed: seq<T>, out: seq<T>, data: seq<T>)
    requires zlib.Contract() && StandsAt(zlib, segments, k, member, started, fed, out)
    requires data != [] && fed + data <= Flatten(zlib.Members(segments))
    ensures k < |segments| && zlib.Follows(member, segments[k], data)
  {
    var members := zlib.Members(segments);
    if k == |segments| {
      WholePrefix(members);
    } else {
      FlattenAt(members, k);
      var p := zlib.progress(member);
      hide Flatten, Zlib.Members, Zlib.Contract;
      PrefixEither(Flatten(members[..k]), p.consumed + data, members[k], Flatten(members[k + 1..]));
      assert Flatten(members[..k]) + (p.consumed + data) == fed + data;
    }
  }

  lemma PrefixEither<T>(before: seq<T>, more: seq<T>, middle: seq<T>, after: seq<T>)
    requires before + more <= before + middle + after
    ensures more <= middle || middle <= more
  {
    var whole := before + middle + after;
    assert more == (before + more)[|before|..] == whole[|before|..|before| + |more|];
    assert middle == whole[|before|..|before| + |middle|];
    if |more| <= |middle| {
      assert more == middle[..|more|];
    } else {
      assert middle == more[..|middle|];
    }
  }

  // One call of decompress on the next bytes.
  lemma FeedOnce<T(!new), Z(!new)>(zlib: Zlib<T, Z>, segments: seq<seq<T>>, k: nat, member: Z, started: bool, fed: seq<T>, out: seq<T>, data: seq<T>)
    requires zlib.Contract() && StandsAt(zlib, segments, k, member, started, fed, out)
    requires data != [] && fed + data <= Flatten(zlib.Members(segments))
    ensures k < |segments|
    ensures var r := zlib.decompress(member, data, PIECE_BYTES);
            && |r.rest| <= |data| && r.rest == data[|data| - |r.rest|..]
            && if zlib.progress(r.member).eof then
                 StandsAt(zlib, segments, k + 1, zlib.initial, false, fed + data[..|data| - |r.rest|], out + r.out)
               else
                 && StandsAt(zlib, segments, k, r.member, true, fed + data[..|data| - |r.rest|], out + r.out)
                 && (r.rest != [] ==> r.out != []) && (r.rest == [] ==> |zlib.progress(r.member).consumed| > 0)
  {
    GoesOn(zlib, segments, k, member, started, fed, out, data);
    if zlib.progress(member).eof {
      PassesOn(zlib, segments, k, member, started, fed, out, data);
    } else {
      FeedInside(zlib, segments, k, member, started, fed, out, data);
    }
    hide StandsAt, Zlib.Contract, Flatten, Zlib.Members;
  }

  // An object that reached its end in an earlier call hands the data on.
  lemma PassesOn<T(!new), Z(!new)>(zlib: Zlib<T, Z>, segments: seq<seq<T>>, k: nat, member: Z, started: bool, fed: seq<T>, out: seq<T>, data: seq<T>)
    requires zlib.Contract() && StandsAt(zlib, segments, k, member, started, fed, out) && k < |segments| && zlib.progress(member).eof
    ensures var r := zlib.decompress(member, data, PIECE_BYTES);
            && r.rest == data && zlib.progress(r.member).eof && data[|data| - |r.rest|..] == data
            && StandsAt(zlib, segments, k + 1, zlib.initial, false, fed + data[..|data| - |r.rest|], out + r.out)
  {
    assert data[..0] == [];
    assert out + [] == out && fed + [] == fed;
    hide Flatten, Zlib.Members;
    EndReached(zlib, segments, k, fed, out);
  }

  lemma FeedInside<T(!new), Z(!new)>(zlib: Zlib<T, Z>, segments: seq<seq<T>>, k: nat, member: Z, started: bool, fed: seq<T>, out: seq<T>, data: seq<T>)
    requires zlib.Contract() && StandsAt(zlib, segments, k, member, started, fed, out) && k < |segments| && !zlib.progress(member).eof
    requires data != [] && zlib.Follows(member, segments[k], data)
    ensures var r := zlib.decompress(member, data, PIECE_BYTES);
            && |r.rest| <= |data| && r.rest == data[|data| - |r.rest|..]
            && if zlib.progress(r.member).eof then
                 StandsAt(zlib, segments, k + 1, zlib.initial, false, fed + data[..|data| - |r.rest|], out + r.out)
               else
                 && StandsAt(zlib, segments, k, r.member, true, fed + data[..|data| - |r.rest|], out + r.out)
                 && (r.rest != [] ==> r.out != []) && (r.rest == [] ==> |zlib.progress(r.member).consumed| > 0)
  {
    FeedFacts(zlib, segments, k, member, started, fed, out, data);
    var r := zlib.decompress(member, data, PIECE_BYTES);
    hide Zlib.Contract, Zlib.Follows, Flatten, Zlib.Members;
    if zlib.progress(r.member).eof {
      EndReached(zlib, segments, k, fed + data[..|data| - |r.rest|], out + r.out);
    }
  }

  // What the contract says about a call in the middle of a member.
  lemma FeedFacts<T(!new), Z(!new)>(zlib: Zlib<T, Z>, segments: seq<seq<T>>, k: nat, member: Z, started: bool, fed: seq<T>, out: seq<T>, data: seq<T>)
    requires zlib.Contract() && StandsAt(zlib, segments, k, member, started, fed, out) && k < |segments| && !zlib.progress(member).eof
    requires data != [] && zlib.Follows(member, segments[k], data)
    ensures var r := zlib.decompress(member, data, PIECE_BYTES);
            var (segment, q, before) := (segments[k], zlib.progress(r.member), |data| - |r.rest|);
            && |r.rest| <= |data| && r.rest == data[before..] && q.consumed <= zlib.deflate(segment) && q.emitted <= |segment|
            && fed + data[..before] == zlib.Joined(segments, k) + q.consumed
            && out + r.out == Flatten(segments[..k]) + segment[..q.emitted]
            && (q.eof ==> q.consumed == zlib.deflate(segment) && q.emitted == |segment|)
            && (!q.eof && r.rest != [] ==> r.out != []) && (!q.eof && r.rest == [] ==> |q.consumed| > 0)
  {
    hide Flatten, Zlib.Joined;
    var segment := segments[k];
    var r := zlib.decompress(member, data, PIECE_BYTES);
    var (p, q) := (zlib.progress(member), zlib.progress(r.member));
    assert zlib.Inside(member, segment) && zlib.Advances(member, segment, data, PIECE_BYTES);
    hide Zlib.Contract, Zlib.Inside, Zlib.Follows;
    assert segment[..q.emitted] == segment[..p.emitted] + r.out;
    assert fed + data[..|data| - |r.rest|] == zlib.Joined(segments, k) + q.consumed;
  }

  lemma EndReached<T(!new), Z(!new)>(zlib: Zlib<T, Z>, segments: seq<seq<T>>, k: nat, fed: seq<T>, out: seq<T>)
    requires zlib.Contract() && k < |segments|
    requires fed == zlib.Joined(segments, k) + zlib.deflate(segments[k])
    requires out == Flatten(segments[..k]) + segments[k][..|segments[k]|]
    ensures StandsAt(zlib, segments, k + 1, zlib.initial, false, fed, out)
  {
    FlattenFront(zlib.Members(segments), k);
    FlattenFront(segments, k);
    WholePrefix(segments);
    hide Flatten;
    assert segments[k][..|segments[k]|] == segments[k];
    assert zlib.Joined(segments, k + 1) + [] == zlib.Joined(segments, k + 1);
    assert out + [] == out;
    assert k + 1 < |segments| ==> segments[k + 1][..0] == [];
  }

  // One call of decompress without input: more output, or nothing is left to drain.
  lemma DrainOnce<T(!new), Z(!new)>(zlib: Zlib<T, Z>, segments: seq<seq<T>>, k: nat, member: Z, fed: seq<T>, out: seq<T>)
    requires zlib.Contract() && StandsAt(zlib, segments, k, member, true, fed, out) && |zlib.progress(member).consumed| > 0
    ensures var r := zlib.decompress(member, [], PIECE_BYTES);
            && StandsAt(zlib, segments, k, r.member, true, fed, out + r.out) && |zlib.progress(r.member).consumed| > 0
            && (r.out == [] ==> Settled(zlib, segments, k, r.member, true))
  {
    if zlib.progress(member).eof {
      DrainAtEnd(zlib, member);
      assert out + [] == out;
      hide Flatten, Zlib.Joined, Zlib.Contract;
    } else {
      DrainFacts(zlib, segments, k, member, fed, out);
      hide Flatten, Zlib.Joined, Zlib.Contract;
    }
  }

  lemma DrainAtEnd<T(!new), Z(!new)>(zlib: Zlib<T, Z>, member: Z)
    requires zlib.Contract() && zlib.progress(member).eof
    ensures var r := zlib.decompress(member, [], PIECE_BYTES);
            r.out == [] && zlib.progress(r.member) == zlib.progress(member)
  {}

  // A call without input in the middle of a member.
  lemma DrainAdvances<T(!new), Z(!new)>(zlib: Zlib<T, Z>, member: Z, segment: seq<T>)
    requires zlib.Contract() && zlib.Inside(member, segment)
    ensures var r := zlib.decompress(member, [], PIECE_BYTES);
            var (p, q) := (zlib.progress(member), zlib.progress(r.member));
            && q.consumed == p.consumed && p.emitted <= q.emitted <= |segment| && r.out == segment[p.emitted..q.emitted]
            && (q.eof ==> q.consumed == zlib.deflate(segment) && q.emitted == |segment|)
            && (!q.eof && q.consumed == zlib.deflate(segment) ==> r.out != [])
  {
    var p := zlib.progress(member);
    assert p.consumed + [] == p.consumed;
    assert zlib.Follows(member, segment, []);
    assert zlib.Advances(member, segment, [], PIECE_BYTES);
    hide Zlib.Contract, Zlib.Inside, Zlib.Follows;
    NothingTaken(p.consumed, zlib.decompress(member, [], PIECE_BYTES).rest);
  }

  lemma NothingTaken<T>(consumed: seq<T>, rest: seq<T>)
    ensures |rest| == 0 ==> consumed + [][..0 - |rest|] == consumed
  {}

  lemma OutputGrows<T>(before: seq<T>, segment: seq<T>, emitted: nat, more: nat)
    requires emitted <= more <= |segment|
    ensures (before + segment[..emitted]) + segment[emitted..more] == before + segment[..more]
  {
    assert segment[..more] == segment[..emitted] + segment[emitted..more];
  }

  // What the contract says about a call without input in the middle of a member.
  lemma DrainFacts<T(!new), Z(!new)>(zlib: Zlib<T, Z>, segments: seq<seq<T>>, k: nat, member: Z, fed: seq<T>, out: seq<T>)
    requires zlib.Contract() && StandsAt(zlib, segments, k, member, true, fed, out) && !zlib.progress(member).eof
    ensures k < |segments|
    ensures var r := zlib.decompress(member, [], PIECE_BYTES);
            var (segment, p, q) := (segments[k], zlib.progress(member), zlib.progress(r.member));
            && q.consumed == p.consumed && q.emitted <= |segment|
            && out + r.out == Flatten(segments[..k]) + segment[..q.emitted]
            && (q.eof ==> q.consumed == zlib.deflate(segment) && q.emitted == |segment|)
            && (!q.eof && q.consumed == zlib.deflate(segment) ==> r.out != [])
  {
    hide Flatten, Zlib.Joined, Zlib.Contract;
    DrainAdvances(zlib, member, segments[k]);
    var (p, q) := (zlib.progress(member), zlib.progress(zlib.decompress(member, [], PIECE_BYTES).member));
    OutputGrows(Flatten(segments[..k]), segments[k], p.emitted, q.emitted);
  }

  lemma OutputIsBounded<T(!new), Z(!new)>(zlib: Zlib<T, Z>, segments: seq<seq<T>>, k: nat, member: Z, started: bool, fed: seq<T>, out: seq<T>)
    requires StandsAt(zlib, segments, k, member, started, fed, out)
    ensures |out| <= |Flatten(segments)| && k <= |segments|
  {
    if k < |segments| {
      FlattenAt(segments, k);
    }
  }

  class Inflater<T(!new), Z(!new)> {
    const zlib: Zlib<T, Z>
    ghost const segments: seq<seq<T>>

    var pieces: seq<seq<T>>
    var member: Z
    var started: bool
    ghost var fed: seq<T>
    ghost var current: nat

    ghost predicate Standing()
      reads this
    {
      zlib.Contract() && StandsAt(zlib, segments, current, member, started, fed, Flatten(pieces))
    }

    ghost predicate Valid()
      reads this
    {
      Standing() && Settled(zlib, segments, current, member, started)
    }

    constructor (zlib: Zlib<T, Z>, ghost segments: seq<seq<T>>)
      requires zlib.Contract()
      ensures Valid() && fed == [] && pieces == [] && this.zlib == zlib && this.segments == segments
    {
      this.zlib, this.segments := zlib, segments;
      pieces, member, started := [], zlib.initial, false;
      fed, current := [], 0;
      new;
      StartsThere(zlib, segments);
    }

    method Emit(out: seq<T>)
      modifies `pieces
      ensures Flatten(pieces) == Flatten(old(pieces)) + out
    {
      if out != [] {
        FlattenAppend(pieces, out);
        pieces := pieces + [out];
      }
    }

    // feed: any next bytes of the members.
    method Feed(data: seq<T>)
      requires Valid() && fed + data <= Flatten(zlib.Members(segments))
      modifies this
      ensures Valid() && fed == old(fed) + data
    {
      var rest := data;
      assert old(fed) + data[..0] == old(fed);
      hide StandsAt, Settled, Zlib.Contract, Zlib.Members, Flatten;
      OutputIsBounded(zlib, segments, current, member, started, fed, Flatten(pieces));
      while rest != []
        invariant Standing() && fed + rest == old(fed) + data && (rest == [] ==> Valid())
        invariant current <= |segments| && |Flatten(pieces)| <= |Flatten(segments)|
        decreases |segments| - current, |Flatten(segments)| - |Flatten(pieces)|, |rest|
      {
        rest := FeedPart(rest);
        OutputIsBounded(zlib, segments, current, member, started, fed, Flatten(pieces));
      }
    }

    // One turn of feed's loop.
    method FeedPart(data: seq<T>) returns (rest: seq<T>)
      requires Standing() && data != [] && fed + data <= Flatten(zlib.Members(segments))
      modifies this
      ensures Standing() && fed + rest == old(fed) + data && (rest == [] ==> Valid())
      ensures old(current) < current
           || (current == old(current) && |Flatten(pieces)| > |Flatten(old(pieces))|)
           || (current == old(current) && |Flatten(pieces)| == |Flatten(old(pieces))| && |rest| < |data|)
    {
      hide *;
      StandingMeans();
      FeedOnce(zlib, segments, current, member, started, fed, Flatten(pieces), data);
      started := true;
      var reply := zlib.decompress(member, data, PIECE_BYTES);
      rest := reply.rest;
      assert data == data[..|data| - |rest|] + rest;
      member := reply.member;
      Emit(reply.out);
      assert fed + (data[..|data| - |rest|] + rest) == (fed + data[..|data| - |rest|]) + rest;
      fed := fed + data[..|data| - |rest|];
      if zlib.progress(member).eof {
        member, started := zlib.initial, false;
        current := current + 1;
        StandingIntro();
      } else {
        StandingIntro();
        if rest == [] {
          Drain();
        }
      }
    }

    lemma StandingMeans()
      requires Standing()
      ensures zlib.Contract() && StandsAt(zlib, segments, current, member, started, fed, Flatten(pieces))
    {}

    lemma StandingIntro()
      requires zlib.Contract() && StandsAt(zlib, segments, current, member, started, fed, Flatten(pieces))
      ensures Standing() && (!started ==> Valid())
    {
      hide StandsAt, Zlib.Contract, Flatten;
    }

    // _drain
    method Drain()
      requires Standing() && started && |zlib.progress(member).consumed| > 0
      modifies `member, `pieces
      ensures Standing() && Valid() && |Flatten(pieces)| >= |Flatten(old(pieces))|
    {
      hide StandsAt, Settled, Zlib.Contract, Flatten;
      OutputIsBounded(zlib, segments, current, member, started, fed, Flatten(pieces));
      while true
        invariant Standing() && started && |zlib.progress(member).consumed| > 0
        invariant |Flatten(old(pieces))| <= |Flatten(pieces)| <= |Flatten(segments)|
        decreases |Flatten(segments)| - |Flatten(pieces)|
      {
        DrainOnce(zlib, segments, current, member, fed, Flatten(pieces));
        var reply := zlib.decompress(member, [], PIECE_BYTES);
        member := reply.member;
        if reply.out == [] {
          assert Flatten(pieces) + [] == Flatten(pieces);
          return;
        }
        Emit(reply.out);
        OutputIsBounded(zlib, segments, current, member, started, fed, Flatten(pieces));
      }
    }

    // finish raises exactly when what was fed does not end with a whole member.
    method Finish() returns (whole: bool)
      requires Valid()
      ensures whole <==> exists k: nat :: k <= |segments| && fed == zlib.Joined(segments, k)
      ensures fed == Flatten(zlib.Members(segments)) ==> whole && Flatten(pieces) == Flatten(segments)
    {
      whole := !started || zlib.progress(member).eof;
      AtBoundary(zlib, segments, current, member, started, fed, Flatten(pieces));
    }
  }

  lemma {:induction false} JoinedGrows<T(!new), Z(!new)>(zlib: Zlib<T, Z>, segments: seq<seq<T>>, j: nat, k: nat)
    requires j <= k <= |segments|
    ensures |zlib.Joined(segments, j)| <= |zlib.Joined(segments, k)|
    decreases k - j
  {
    if j < k {
      FlattenAt(zlib.Members(segments), j);
      JoinedGrows(zlib, segments, j + 1, k);
    }
  }

  lemma AtBoundary<T(!new), Z(!new)>(zlib: Zlib<T, Z>, segments: seq<seq<T>>, k: nat, member: Z, started: bool, fed: seq<T>, out: seq<T>)
    requires zlib.Contract() && StandsAt(zlib, segments, k, member, started, fed, out) && Settled(zlib, segments, k, member, started)
    ensures !started || zlib.progress(member).eof <==> exists j: nat :: j <= |segments| && fed == zlib.Joined(segments, j)
    ensures fed == Flatten(zlib.Members(segments)) ==> (!started || zlib.progress(member).eof) && out == Flatten(segments)
  {
    if !started || zlib.progress(member).eof {
      var j := BoundaryOf(zlib, segments, k, member, started, fed, out);
      OnlyAtTheEnd(zlib, segments, j, out, fed);
    } else {
      InsideAMember(zlib, segments, k, member, fed, out);
      AllIsABoundary(zlib, segments);
    }
    hide StandsAt, Settled, Zlib.Contract, Zlib.Joined, Zlib.Members, Flatten;
  }

  lemma AllIsABoundary<T(!new), Z(!new)>(zlib: Zlib<T, Z>, segments: seq<seq<T>>)
    ensures zlib.Joined(segments, |segments|) == Flatten(zlib.Members(segments))
  {
    WholePrefix(zlib.Members(segments));
  }

  lemma BoundaryOf<T(!new), Z(!new)>(zlib: Zlib<T, Z>, segments: seq<seq<T>>, k: nat, member: Z, started: bool, fed: seq<T>, out: seq<T>) returns (j: nat)
    requires zlib.Contract() && StandsAt(zlib, segments, k, member, started, fed, out) && (!started || zlib.progress(member).eof)
    ensures j <= |segments| && fed == zlib.Joined(segments, j) && out == Flatten(segments[..j])
  {
    WholePrefix(segments);
    if !started {
      assert fed == zlib.Joined(segments, k);
      j := k;
    } else {
      FlattenAt(zlib.Members(segments), k);
      FlattenAt(segments, k);
      assert segments[k][..|segments[k]|] == segments[k];
      j := k + 1;
    }
    hide Flatten, Zlib.Contract;
  }

  // Strictly inside a member no boundary has been reached.
  lemma InsideAMember<T(!new), Z(!new)>(zlib: Zlib<T, Z>, segments: seq<seq<T>>, k: nat, member: Z, fed: seq<T>, out: seq<T>)
    requires StandsAt(zlib, segments, k, member, true, fed, out) && Settled(zlib, segments, k, member, true) && !zlib.progress(member).eof
    ensures forall j: nat :: j <= |segments| ==> fed != zlib.Joined(segments, j)
  {
    FlattenAt(zlib.Members(segments), k);
    var p := zlib.progress(member);
    var next := zlib.Joined(segments, k + 1);
    assert |zlib.Joined(segments, k)| < |fed| < |next|;
    hide Flatten, StandsAt, Zlib.Joined, Zlib.Members;
    forall j: nat | j <= |segments| ensures |fed| != |zlib.Joined(segments, j)| {
      if j <= k {
        JoinedGrows(zlib, segments, j, k);
      } else {
        JoinedGrows(zlib, segments, k + 1, j);
      }
    }
  }

  // No member is empty, so all bytes have been fed only after the last one.
  lemma OnlyAtTheEnd<T(!new), Z(!new)>(zlib: Zlib<T, Z>, segments: seq<seq<T>>, k: nat, out: seq<T>, fed: seq<T>)
    requires zlib.Contract() && k <= |segments| && out == Flatten(segments[..k]) && fed == zlib.Joined(segments, k)
    ensures fed == Flatten(zlib.Members(segments)) ==> out == Flatten(segments)
  {
    if k < |segments| {
      FlattenAt(zlib.Members(segments), k);
      assert zlib.deflate(segments[k]) != [];
    } else {
      WholePrefix(segments);
    }
  }

  // ----- encoding and decoding

  // What the encode stage writes into the container: the payload itself, or one member for each
  // segment, in order.
  function EncodedPieces<T(!new), Z(!new)>(zlib: Zlib<T, Z>, compress: bool, items: seq<seq<T>>): seq<seq<T>> {
    if compress then zlib.Members(Segments(Flatten(items))) else items
  }

  method Encode<T(!new), Z(!new)>(zlib: Zlib<T, Z>, compress: bool, items: seq<seq<T>>)
    returns (written: seq<seq<T>>, digested: seq<T>, payloadBytes: nat)
    ensures written == EncodedPieces(zlib, compress, items)
    ensures digested == Flatten(items) && payloadBytes == |Flatten(items)|
  {
    if compress {
      var segments;
      segments, digested, payloadBytes := Compress(items);
      written := zlib.Members(segments);
    } else {
      digested, payloadBytes, written := [], 0, [];
      for i := 0 to |items|
        invariant written == items[..i] && digested == Flatten(items[..i]) && payloadBytes == |digested|
      {
        FlattenFront(items, i);
        digested, payloadBytes, written := digested + items[i], payloadBytes + |items[i]|, written + [items[i]];
      }
      WholePrefix(items);
      assert items[..|items|] == items;
    }
  }

  // _decode: for every cutting of what was encoded into chunks, the pieces are the payload again.
  method Decode<T(!new), Z(!new)>(zlib: Zlib<T, Z>, compressed: bool, chunks: seq<seq<T>>, ghost items: seq<seq<T>>)
    returns (pieces: Option<seq<seq<T>>>)
    requires zlib.Contract() && Flatten(chunks) == Flatten(EncodedPieces(zlib, compressed, items))
    ensures pieces.Some? && Flatten(pieces.value) == Flatten(items)
  {
    if !compressed {
      return Some(chunks);
    }
    ghost var segments := Segments(Flatten(items));
    SegmentsAddUp(Flatten(items));
    hide Zlib.Contract, Segments, Zlib.Members;
    var inflater := new Inflater(zlib, segments);
    hide Inflater.Valid;
    for i := 0 to |chunks|
      invariant fresh(inflater) && inflater.Valid() && inflater.fed == Flatten(chunks[..i])
    {
      FlattenFront(chunks, i);
      FlattenBack(chunks, i + 1);
      inflater.Feed(chunks[i]);
    }
    WholePrefix(chunks);
    var whole := inflater.Finish();
    pieces := if whole then Some(inflater.pieces) else None;
  }

  // ----- PrefetchingSource

  lemma NothingRead<T>(file: seq<T>, start: nat)
    ensures Flatten<T>([]) == [] && (start <= |file| ==> file[start..start] == [])
  {}

  lemma RangeGrows<T>(file: seq<T>, start: nat, offset: nat, count: nat)
    requires start <= offset && offset + count <= |file|
    ensures file[start..offset + count] == file[start..offset] + file[offset..offset + count]
  {}

  class PrefetchingSource<T> {
    const file: seq<T>
    const start: nat
    const limit: nat

    var pieces: Option<seq<seq<T>>>
    var position: nat
    var pending: seq<T>

    // What is left in the channel is the file from the position on.
    ghost predicate Valid()
      reads this
    {
      && limit <= |file|
      && (pieces.Some? ==>
            && pending + Flatten(pieces.value) == (if position <= limit then file[position..limit] else [])
            && forall i :: 0 <= i < |pieces.value| ==> pieces.value[i] != [])
    }

    // prefetch, with everything the read-ahead thread will put into the channel.
    constructor (file: seq<T>, start: nat, end: nat)
      ensures Valid() && pieces.Some? && position == start
      ensures this.file == file && this.start == start && limit == if end < |file| then end else |file|
    {
      var limit := if end < |file| then end else |file|;
      var ahead := ReadAhead(file, start, limit);
      this.file, this.start, this.limit := file, start, limit;
      pieces, position, pending := Some(ahead), start, [];
      new;
      assert [] + Flatten(ahead) == Flatten(ahead);
    }

    static method ReadAhead(file: seq<T>, start: nat, end: nat) returns (pieces: seq<seq<T>>)
      requires end <= |file|
      ensures Flatten(pieces) == if start <= end then file[start..end] else []
      ensures forall i :: 0 <= i < |pieces| ==> pieces[i] != []
    {
      hide Flatten;
      pieces := [];
      var offset := start;
      NothingRead(file, start);
      while offset < end
        invariant start <= end ==> start <= offset <= end && Flatten(pieces) == file[start..offset]
        invariant start > end ==> Flatten(pieces) == []
        invariant forall i :: 0 <= i < |pieces| ==> pieces[i] != []
      {
        var piece := ReadAt(file, offset, if PIECE_BYTES < end - offset then PIECE_BYTES else end - offset);
        if piece == [] {
          break;
        }
        FlattenAppend(pieces, piece);
        RangeGrows(file, start, offset, |piece|);
        pieces, offset := pieces + [piece], offset + |piece|;
      }
    }

    // read_at, exactly: a read at the position never goes past the prefetched range.
    method Read(offset: nat, length: nat) returns (data: seq<T>)
      requires Valid()
      modifies this
      ensures Valid()
      ensures data == if old(pieces).Some? && offset == old(position) && length > 0 then Served(file, limit, offset, length)
                      else ReadAt(file, offset, length)
      ensures offset + length <= limit ==> data == ReadAt(file, offset, length)
    {
      if pieces.Some? && offset == position && length > 0 {
        data := Take(length);
      } else {
        data := ReadAt(file, offset, length);
      }
    }

    method Take(length: nat) returns (taken: seq<T>)
      requires Valid() && pieces.Some?
      modifies this
      ensures Valid() && taken == Served(file, limit, old(position), length)
    {
      ghost var whole := pending + Flatten(pieces.value);
      taken := [];
      var needed := length;
      hide Flatten;
      while needed > 0
        invariant pieces.Some? && Holds(whole, taken) && |taken| + needed == length
        invariant position == old(position)
        decreases needed, |pieces.value|
      {
        if pending == [] {
          if pieces.value == [] {
            AllTaken(whole, taken);
            pieces := None;
            break;
          }
          NextPiece(whole, taken);
        }
        taken, needed := Split(taken, needed, whole);
      }
      TakenIsFront(whole, taken);
      hide Holds;
      position := position + |taken|;
    }

    // What was taken and what is left are the whole.
    ghost predicate Holds(whole: seq<T>, taken: seq<T>)
      reads this
    {
      && pieces.Some? && taken + (pending + Flatten(pieces.value)) == whole
      && forall i :: 0 <= i < |pieces.value| ==> pieces.value[i] != []
    }

    lemma AllTaken(whole: seq<T>, taken: seq<T>)
      requires Holds(whole, taken) && pending == [] && pieces == Some([])
      ensures taken == whole
    {
      assert taken + (pending + Flatten(pieces.value)) == taken;
    }

    lemma TakenIsFront(whole: seq<T>, taken: seq<T>)
      ensures Holds(whole, taken) ==> |taken| <= |whole| && taken == whole[..|taken|] && pending + Flatten(pieces.value) == whole[|taken|..]
    {}

    method NextPiece(ghost whole: seq<T>, ghost taken: seq<T>)
      requires Holds(whole, taken) && pending == [] && pieces.value != []
      modifies `pieces, `pending
      ensures Holds(whole, taken) && pending != [] && |pieces.value| < |old(pieces).value|
    {
      FlattenBack(pieces.value, 1);
      FlattenFront(pieces.value, 0);
      assert Flatten(pieces.value[..0]) == [];
      hide Flatten;
      assert [] + Flatten(pieces.value) == pieces.value[0] + Flatten(pieces.value[1..]);
      pending, pieces := pieces.value[0], Some(pieces.value[1..]);
    }

    // The front of the pending piece.
    method Split(before: seq<T>, needed: nat, ghost whole: seq<T>) returns (taken: seq<T>, left: nat)
      requires Holds(whole, before) && pending != [] && needed > 0
      modifies `pending
      ensures Holds(whole, taken) && |taken| + left == |before| + needed && left < needed
    {
      var part := if needed < |pending| then pending[..needed] else pending;
      ghost var rest := Flatten(pieces.value);
      assert before + (pending + rest) == (before + part) + (pending[|part|..] + rest);
      pending := pending[|part|..];
      taken, left := before + part, needed - |part|;
    }
  }

  // What the cache gives for a read at its position.
  function Served<T>(file: seq<T>, limit: nat, offset: nat, length: nat): seq<T> {
    ReadAt(file, offset, if offset >= limit then 0 else if length < limit - offset then length else limit - offset)
  }

  // It is what a plain source gives exactly when the read does not reach past the prefetched range
  // into more of the file.
  lemma ServedAgrees<T>(file: seq<T>, limit: nat, offset: nat, length: nat)
    requires limit <= |file| && length > 0
    ensures Served(file, limit, offset, length) == ReadAt(file, offset, length)
       <==> offset + length <= limit || limit == |file| || offset >= |file|
  {
    var plain := ReadAt(file, offset, length);
    if !(offset + length <= limit || limit == |file| || offset >= |file|) {
      assert |Served(file, limit, offset, length)| < |plain|;
    }
  }
}
